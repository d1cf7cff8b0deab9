/** The mailing-item picker: loading the items of the mapped site, the
    per-item checkbox, the search filter and the select-all toggle. The
    selection lives with the caller; each handler returns the new selection.
 */
module MailingItemDropdown {
  import opened Base
  import opened Seqs
  import opened Text
  import opened Types

  /** The picker's own list together with the caller's selection. */
  datatype ItemPicker = ItemPicker(items: seq<MailingItem>, selected: seq<MailingItem>)

  /** A change of mapping: without a mapping the list and the selection are
      cleared; with one the list is whatever the loader gives for its site
      (empty when it throws) and the selection is left to the caller. */
  function OnMappingChange(picker: ItemPicker, mapping: Option<Mapping>,
                           loadItems: string -> Attempt<seq<MailingItem>>): (r: ItemPicker)
    ensures mapping.None? ==> r.items == [] && r.selected == []
    ensures mapping.Some? ==> r.selected == picker.selected
    ensures mapping.Some? && loadItems(mapping.value.mailingSite).Returned? ==>
              r.items == loadItems(mapping.value.mailingSite).value
    ensures mapping.Some? && loadItems(mapping.value.mailingSite).Threw? ==> r.items == []
  {
    if mapping.None? then ItemPicker([], [])
    else
      match loadItems(mapping.value.mailingSite)
      case Returned(items) => picker.(items := items)
      case Threw => picker.(items := [])
  }

  function IdIsNot(id: string): MailingItem -> bool
  {
    (m: MailingItem) => m.id != id
  }

  /** Checking appends the item as it is; unchecking drops every selected
      item with the same id. */
  function HandleItemToggle(selected: seq<MailingItem>, item: MailingItem, checked: bool): (r: seq<MailingItem>)
    ensures checked ==> |r| == |selected| + 1 && r[..|selected|] == selected && r[|selected|] == item
    ensures !checked ==> forall k :: 0 <= k < |r| ==> r[k].id != item.id && r[k] in selected
    ensures !checked ==> forall k :: 0 <= k < |selected| && selected[k].id != item.id ==> selected[k] in r
  {
    if checked then selected + [item] else Filter(selected, IdIsNot(item.id))
  }

  /** Unchecking keeps the other selected items in their order and with
      their repeats: it works element by element and distributes over any
      split of the selection. */
  lemma UncheckKeepsOrder(front: seq<MailingItem>, back: seq<MailingItem>, x: MailingItem,
                          item: MailingItem)
    ensures HandleItemToggle(front + back, item, false)
            == HandleItemToggle(front, item, false) + HandleItemToggle(back, item, false)
    ensures HandleItemToggle([x], item, false) == if x.id != item.id then [x] else []
  {
    FilterAppend(front, back, IdIsNot(item.id));
    FilterSingleton(x, IdIsNot(item.id));
  }

  /** A row's checkbox shows checked when some selected item has its id. */
  predicate IsSelected(selected: seq<MailingItem>, item: MailingItem)
  {
    exists k :: 0 <= k < |selected| && selected[k].id == item.id
  }

  /** Clicking a row toggles it against what its checkbox shows. */
  function ClickItem(selected: seq<MailingItem>, item: MailingItem): (r: seq<MailingItem>)
    ensures IsSelected(r, item) <==> !IsSelected(selected, item)
  {
    var r := HandleItemToggle(selected, item, !IsSelected(selected, item));
    assert !IsSelected(selected, item) ==> r[|selected|] == item;
    r
  }

  /** Clicking an unselected item twice restores the selection exactly. */
  lemma ClickTwiceRestores(selected: seq<MailingItem>, item: MailingItem)
    requires !IsSelected(selected, item)
    ensures ClickItem(ClickItem(selected, item), item) == selected
  {
    var once := ClickItem(selected, item);
    assert once == selected + [item];
    assert IsSelected(once, item) by { assert once[|selected|] == item; }
    FilterAppend(selected, [item], IdIsNot(item.id));
    FilterSingleton(item, IdIsNot(item.id));
    FilterKeepsAll(selected, IdIsNot(item.id));
  }

  /** The search term matches when the lower-cased name, id or template id
      contains the lower-cased term; an item without a template id is judged
      on its name and id alone. */
  predicate MatchesSearch(item: MailingItem, term: string)
  {
    var t := ToLower(term);
    Contains(ToLower(item.name), t) || Contains(ToLower(item.id), t)
    || (item.templateId.Some? && Contains(ToLower(item.templateId.value), t))
  }

  function MatchesSearchFor(term: string): MailingItem -> bool
  {
    (item: MailingItem) => MatchesSearch(item, term)
  }

  /** The items shown: those matching the search term, in list order. */
  function FilteredItems(items: seq<MailingItem>, term: string): (r: seq<MailingItem>)
    ensures forall k :: 0 <= k < |r| ==> r[k] in items && MatchesSearch(r[k], term)
    ensures forall k :: 0 <= k < |items| && MatchesSearch(items[k], term) ==> items[k] in r
  {
    Filter(items, MatchesSearchFor(term))
  }

  /** An empty search shows every item. */
  lemma EmptySearchShowsAll(items: seq<MailingItem>)
    ensures FilteredItems(items, "") == items
  {
    forall k | 0 <= k < |items|
      ensures MatchesSearch(items[k], "")
    {
      ContainsEmpty(ToLower(items[k].name));
    }
    FilterKeepsAll(items, MatchesSearchFor(""));
  }

  /** The shown list keeps the list's order and repeats: the filter works
      item by item and distributes over any split of the list. */
  lemma FilteredItemsKeepOrder(front: seq<MailingItem>, back: seq<MailingItem>, x: MailingItem,
                               term: string)
    ensures FilteredItems(front + back, term) == FilteredItems(front, term) + FilteredItems(back, term)
    ensures FilteredItems([x], term) == if MatchesSearch(x, term) then [x] else []
  {
    FilterAppend(front, back, MatchesSearchFor(term));
    FilterSingleton(x, MatchesSearchFor(term));
  }

  /** The search ignores ASCII case in the term. */
  lemma SearchIgnoresTermCase(item: MailingItem, term: string)
    ensures MatchesSearch(item, term) <==> MatchesSearch(item, ToLower(term))
  {
    ToLowerIdempotent(term);
  }

  /** Select-all compares lengths only: when as many items are selected as
      are shown it clears the selection, otherwise it selects exactly the
      shown items. */
  function HandleSelectAll(selected: seq<MailingItem>, filtered: seq<MailingItem>): (r: seq<MailingItem>)
    ensures |selected| == |filtered| ==> r == []
    ensures |selected| != |filtered| ==> r == filtered
  {
    if |selected| == |filtered| then [] else filtered
  }

  /** The select-all box shows checked when something is shown and the
      selection has as many items as are shown. */
  predicate AllSelected(selected: seq<MailingItem>, filtered: seq<MailingItem>)
  {
    |filtered| > 0 && |selected| == |filtered|
  }

  /** After select-all the box is checked exactly when it was not checked
      before and something is shown. */
  lemma SelectAllFlips(selected: seq<MailingItem>, filtered: seq<MailingItem>)
    ensures AllSelected(HandleSelectAll(selected, filtered), filtered)
            <==> |filtered| > 0 && !AllSelected(selected, filtered)
  {
  }

  /** Because only lengths are compared, a selection of the right size made
      of other items counts as "all selected" and select-all clears it. */
  lemma SelectAllJudgesByLength()
    ensures var a := MailingItem("a", "A", "s", None, "", "", true, None, None);
            var b := MailingItem("b", "B", "s", None, "", "", true, None, None);
            AllSelected([a], [b]) && HandleSelectAll([a], [b]) == []
  {
  }
}
