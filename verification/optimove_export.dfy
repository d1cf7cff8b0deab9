/** The export hook's state manager: one `OptimoveState` record and its
    transitions, each a pure function from the state before to the state
    after. Awaited service calls are parameters: `getMapping` and
    `languagesOf` give the outcome of the lookup for the arguments they are
    called with, `clock` gives the `Date.now()` reading taken while the
    pending item at a given position is added, and `succeeds` gives the
    outcome of the k-th export call of a bulk export.
 */
module OptimoveExport {
  import opened Base
  import opened Seqs
  import opened Text
  import opened Types

  const InitialState := OptimoveState(None, None, [], None, [], false, None)

  const MappingLoadError := "Failed to load mapping configuration"
  const AddItemsError := "Failed to add items to combinations"
  const ExportFailedError := "Failed to export to Optimove"

  // Selection funnel

  /** Choosing a brand clears everything chosen after it. */
  function SelectBrand(s: OptimoveState, brand: Option<Brand>): (r: OptimoveState)
    ensures r.selectedBrand == brand
    ensures r.selectedProduct.None? && r.mapping.None? && r.selectedMailingItems == [] && r.error.None?
    ensures r.combinations == s.combinations && r.isLoading == s.isLoading
  {
    s.(selectedBrand := brand, selectedProduct := None, selectedMailingItems := [], mapping := None,
       error := None)
  }

  /** Only the last brand choice matters. */
  lemma SelectBrandLastWins(s: OptimoveState, a: Option<Brand>, b: Option<Brand>)
    ensures SelectBrand(SelectBrand(s, a), b) == SelectBrand(s, b)
  {
  }

  /** Choosing a product looks up the mapping for (brand code, product code).
      Without a brand or product it only clears product and mapping; a failed
      lookup keeps the previous product and mapping and records the error. */
  function SelectProduct(s: OptimoveState, product: Option<Product>,
                         getMapping: (string, string) -> Attempt<Option<Mapping>>): (r: OptimoveState)
    ensures s.selectedBrand.None? || product.None? ==>
              r == s.(selectedProduct := None, mapping := None)
    ensures s.selectedBrand.Some? && product.Some? ==>
              !r.isLoading && r.selectedBrand == s.selectedBrand && r.combinations == s.combinations
    ensures s.selectedBrand.Some? && product.Some? ==>
              match getMapping(s.selectedBrand.value.code, product.value.code)
              case Returned(m) =>
                r.selectedProduct == product && r.mapping == m
                && r.selectedMailingItems == [] && r.error.None?
              case Threw =>
                r.selectedProduct == s.selectedProduct && r.mapping == s.mapping
                && r.selectedMailingItems == s.selectedMailingItems && r.error == Some(MappingLoadError)
  {
    if s.selectedBrand.None? || product.None? then
      s.(selectedProduct := None, mapping := None)
    else
      match getMapping(s.selectedBrand.value.code, product.value.code)
      case Returned(m) =>
        s.(selectedProduct := product, mapping := m, selectedMailingItems := [], error := None,
           isLoading := false)
      case Threw =>
        s.(error := Some(MappingLoadError), isLoading := false)
  }

  /** After the brand is cleared, no product choice can take effect. */
  lemma NoProductWithoutBrand(s: OptimoveState, product: Option<Product>,
                              getMapping: (string, string) -> Attempt<Option<Mapping>>)
    ensures SelectProduct(SelectBrand(s, None), product, getMapping).selectedProduct.None?
    ensures SelectProduct(SelectBrand(s, None), product, getMapping).mapping.None?
  {
  }

  /** Replaces the pending selection; nothing else changes. */
  function SelectMailingItems(s: OptimoveState, items: seq<MailingItem>): (r: OptimoveState)
    ensures r.selectedMailingItems == items
    ensures r.(selectedMailingItems := s.selectedMailingItems) == s
  {
    s.(selectedMailingItems := items)
  }

  // Adding pending items to the grid

  /** Row id: "combo_" + item id + "_" + the clock reading in decimal. */
  function ComboId(itemId: string, stamp: nat): string
  {
    "combo_" + itemId + "_" + NatToString(stamp)
  }

  function ItemIdOf(item: MailingItem): string
  {
    item.id
  }

  /** Some row of `combos` holds the item with this id. */
  predicate HasItem(combos: seq<CombinationRow>, itemId: string)
  {
    exists i :: 0 <= i < |combos| && combos[i].mailingItem.id == itemId
  }

  /** The pending items that do not yet have a row. */
  function AbsentFrom(combos: seq<CombinationRow>): MailingItem -> bool
  {
    (item: MailingItem) => !HasItem(combos, item.id)
  }

  function ItemsOf(rows: seq<CombinationRow>): (items: seq<MailingItem>)
    ensures |items| == |rows|
    ensures forall k :: 0 <= k < |rows| ==> items[k] == rows[k].mailingItem
  {
    seq(|rows|, k requires 0 <= k < |rows| => rows[k].mailingItem)
  }

  /** The languages a new row starts with: the default-flagged ones. */
  function DefaultLanguages(langs: seq<Language>): seq<Language>
  {
    Filter(langs, IsDefault)
  }

  /** A row as the add operation creates it: collapsed, preselected with the
      default languages of its item, and with an id built from the item id and
      a clock reading. */
  ghost predicate IsNewRow(row: CombinationRow, languagesOf: string -> Attempt<seq<Language>>)
  {
    && !row.isExpanded
    && languagesOf(row.mailingItem.id).Returned?
    && row.selectedLanguages == DefaultLanguages(languagesOf(row.mailingItem.id).value)
    && exists stamp: nat :: row.id == ComboId(row.mailingItem.id, stamp)
  }

  /** Some pending item without a row has a language lookup that throws. */
  predicate FetchFails(pending: seq<MailingItem>, existing: seq<CombinationRow>,
                       languagesOf: string -> Attempt<seq<Language>>)
  {
    exists k :: 0 <= k < |pending| && !HasItem(existing, pending[k].id) && languagesOf(pending[k].id).Threw?
  }

  /** A lookup fails for the pending list exactly when it fails for its head
      or for its tail. */
  lemma FetchFailsUnfold(pending: seq<MailingItem>, existing: seq<CombinationRow>,
                         languagesOf: string -> Attempt<seq<Language>>)
    requires |pending| > 0
    ensures FetchFails(pending, existing, languagesOf) <==>
            (!HasItem(existing, pending[0].id) && languagesOf(pending[0].id).Threw?)
            || FetchFails(pending[1..], existing, languagesOf)
  {
    if FetchFails(pending[1..], existing, languagesOf) {
      var k :| 0 <= k < |pending[1..]| && !HasItem(existing, pending[1..][k].id)
               && languagesOf(pending[1..][k].id).Threw?;
      assert pending[k + 1] == pending[1..][k];
    }
    if FetchFails(pending, existing, languagesOf) {
      var k :| 0 <= k < |pending| && !HasItem(existing, pending[k].id) && languagesOf(pending[k].id).Threw?;
      if k > 0 {
        assert pending[1..][k - 1] == pending[k];
      }
    }
  }

  /** The row created for `item` with clock reading `stamp`. */
  function NewRow(item: MailingItem, langs: seq<Language>, stamp: nat): (row: CombinationRow)
    ensures !row.isExpanded && row.mailingItem == item && row.selectedLanguages == DefaultLanguages(langs)
    ensures row.id == ComboId(item.id, stamp)
  {
    CombinationRow(ComboId(item.id, stamp), item, DefaultLanguages(langs), false)
  }

  /** The rows created for `pending` (the item at position `offset + k` reads
      `clock(offset + k)`), or `Threw` when a language lookup throws. */
  function BuildRows(pending: seq<MailingItem>, existing: seq<CombinationRow>,
                     languagesOf: string -> Attempt<seq<Language>>, clock: nat -> nat,
                     offset: nat): (r: Attempt<seq<CombinationRow>>)
    ensures r.Threw? <==> FetchFails(pending, existing, languagesOf)
    ensures r.Returned? ==> ItemsOf(r.value) == Filter(pending, AbsentFrom(existing))
    ensures r.Returned? ==> forall k :: 0 <= k < |r.value| ==> IsNewRow(r.value[k], languagesOf)
    decreases |pending|
  {
    if |pending| == 0 then Returned([])
    else
      var item := pending[0];
      var rest := BuildRows(pending[1..], existing, languagesOf, clock, offset + 1);
      FetchFailsUnfold(pending, existing, languagesOf);
      if HasItem(existing, item.id) then rest
      else match languagesOf(item.id)
        case Threw => Threw
        case Returned(langs) =>
          var row := NewRow(item, langs, clock(offset));
          match rest
          case Threw => Threw
          case Returned(rows) =>
            PrependNewRow(row, rows, languagesOf, clock(offset));
            Returned([row] + rows)
  }

  /** Putting a freshly made row in front of made rows keeps them all new and
      puts its item in front of theirs. */
  lemma PrependNewRow(row: CombinationRow, rows: seq<CombinationRow>,
                      languagesOf: string -> Attempt<seq<Language>>, stamp: nat)
    requires languagesOf(row.mailingItem.id).Returned?
    requires row == NewRow(row.mailingItem, languagesOf(row.mailingItem.id).value, stamp)
    requires forall k :: 0 <= k < |rows| ==> IsNewRow(rows[k], languagesOf)
    ensures forall k :: 0 <= k < |[row] + rows| ==> IsNewRow(([row] + rows)[k], languagesOf)
    ensures ItemsOf([row] + rows) == [row.mailingItem] + ItemsOf(rows)
  {
    assert IsNewRow(row, languagesOf);
  }

  /** Adds one row per pending item whose id has no row yet, after the
      existing rows and in pending order, then empties the pending list.
      Nothing happens with an empty pending list; a throwing language lookup
      leaves rows and pending items as they were and records the error. */
  function AddToCombinations(s: OptimoveState, languagesOf: string -> Attempt<seq<Language>>,
                             clock: nat -> nat): (r: OptimoveState)
    ensures s.selectedMailingItems == [] ==> r == s
    ensures s.selectedMailingItems != [] && FetchFails(s.selectedMailingItems, s.combinations, languagesOf) ==>
              r == s.(isLoading := false, error := Some(AddItemsError))
    ensures s.selectedMailingItems != [] && !FetchFails(s.selectedMailingItems, s.combinations, languagesOf) ==>
              && |s.combinations| <= |r.combinations|
              && r.combinations[..|s.combinations|] == s.combinations
              && ItemsOf(r.combinations[|s.combinations|..])
                 == Filter(s.selectedMailingItems, AbsentFrom(s.combinations))
              && (forall k :: |s.combinations| <= k < |r.combinations| ==> IsNewRow(r.combinations[k], languagesOf))
              && r == s.(combinations := r.combinations, selectedMailingItems := [], isLoading := false)
  {
    if s.selectedMailingItems == [] then s
    else match BuildRows(s.selectedMailingItems, s.combinations, languagesOf, clock, 0)
      case Threw => s.(isLoading := false, error := Some(AddItemsError))
      case Returned(rows) =>
        var combos := s.combinations + rows;
        assert combos[..|s.combinations|] == s.combinations;
        assert combos[|s.combinations|..] == rows;
        s.(combinations := combos, selectedMailingItems := [], isLoading := false)
  }

  /** After a successful add, every item of the pending list has a row. */
  lemma AddCoversPending(s: OptimoveState, languagesOf: string -> Attempt<seq<Language>>, clock: nat -> nat)
    requires s.selectedMailingItems != []
    requires !FetchFails(s.selectedMailingItems, s.combinations, languagesOf)
    ensures forall k :: 0 <= k < |s.selectedMailingItems| ==>
              HasItem(AddToCombinations(s, languagesOf, clock).combinations, s.selectedMailingItems[k].id)
  {
    var r := AddToCombinations(s, languagesOf, clock);
    var pending := s.selectedMailingItems;
    var n := |s.combinations|;
    var added := ItemsOf(r.combinations[n..]);
    forall k | 0 <= k < |pending|
      ensures HasItem(r.combinations, pending[k].id)
    {
      var id := pending[k].id;
      if HasItem(s.combinations, id) {
        var i :| 0 <= i < n && s.combinations[i].mailingItem.id == id;
        assert r.combinations[..n][i] == r.combinations[i];
      } else {
        assert AbsentFrom(s.combinations)(pending[k]);
        assert pending[k] in added;
        var j :| 0 <= j < |added| && added[j] == pending[k];
        assert r.combinations[n..][j] == r.combinations[n + j];
      }
    }
  }

  /** Re-selecting the same items and adding again creates no new rows. */
  lemma {:induction false} AddTwiceAddsNothing(s: OptimoveState, languagesOf: string -> Attempt<seq<Language>>,
                                              clock: nat -> nat, clock2: nat -> nat)
    requires s.selectedMailingItems != []
    requires !FetchFails(s.selectedMailingItems, s.combinations, languagesOf)
    ensures var r1 := AddToCombinations(s, languagesOf, clock);
            var r2 := AddToCombinations(SelectMailingItems(r1, s.selectedMailingItems), languagesOf, clock2);
            r2.combinations == r1.combinations && r2.selectedMailingItems == []
  {
    var r1 := AddToCombinations(s, languagesOf, clock);
    var again := SelectMailingItems(r1, s.selectedMailingItems);
    AddCoversPending(s, languagesOf, clock);
    assert !FetchFails(s.selectedMailingItems, r1.combinations, languagesOf);
    FilterNoneKept(s.selectedMailingItems, AbsentFrom(r1.combinations));
    var r2 := AddToCombinations(again, languagesOf, clock2);
    assert |ItemsOf(r2.combinations[|r1.combinations|..])| == 0;
    assert r2.combinations == r2.combinations[..|r1.combinations|];
  }

  /** No two rows hold items with the same id. */
  ghost predicate UniqueItemIds(combos: seq<CombinationRow>)
  {
    forall i, j :: 0 <= i < j < |combos| ==> combos[i].mailingItem.id != combos[j].mailingItem.id
  }

  /** Appending rows with distinct item ids, none of which already has a row,
      keeps item ids unique. */
  lemma AppendKeepsItemIdsUnique(rows: seq<CombinationRow>, added: seq<CombinationRow>)
    requires UniqueItemIds(rows)
    requires DistinctBy(ItemsOf(added), ItemIdOf)
    requires forall k :: 0 <= k < |added| ==> !HasItem(rows, added[k].mailingItem.id)
    ensures UniqueItemIds(rows + added)
  {
    var all := rows + added;
    var n := |rows|;
    forall i, j | 0 <= i < j < |all|
      ensures all[i].mailingItem.id != all[j].mailingItem.id
    {
      if j < n {
        assert all[i] == rows[i] && all[j] == rows[j];
      } else if i < n {
        assert all[i] == rows[i] && all[j] == added[j - n];
        assert !HasItem(rows, added[j - n].mailingItem.id);
      } else {
        assert all[i] == added[i - n] && all[j] == added[j - n];
        assert ItemIdOf(ItemsOf(added)[i - n]) != ItemIdOf(ItemsOf(added)[j - n]);
      }
    }
  }

  /** Adding keeps item ids unique, provided the pending list itself has no
      two items with the same id (it is not de-duplicated). */
  lemma AddKeepsItemIdsUnique(s: OptimoveState, languagesOf: string -> Attempt<seq<Language>>, clock: nat -> nat)
    requires UniqueItemIds(s.combinations)
    requires DistinctBy(s.selectedMailingItems, ItemIdOf)
    ensures UniqueItemIds(AddToCombinations(s, languagesOf, clock).combinations)
  {
    var r := AddToCombinations(s, languagesOf, clock);
    if s.selectedMailingItems != [] && !FetchFails(s.selectedMailingItems, s.combinations, languagesOf) {
      var n := |s.combinations|;
      var added := r.combinations[n..];
      var kept := Filter(s.selectedMailingItems, AbsentFrom(s.combinations));
      assert ItemsOf(added) == kept;
      FilterDistinctBy(s.selectedMailingItems, AbsentFrom(s.combinations), ItemIdOf);
      forall k | 0 <= k < |added|
        ensures !HasItem(s.combinations, added[k].mailingItem.id)
      {
        assert kept[k] == added[k].mailingItem;
        assert AbsentFrom(s.combinations)(kept[k]);
      }
      AppendKeepsItemIdsUnique(s.combinations, added);
      assert r.combinations == s.combinations + added;
    }
  }

  /** Duplicates inside the pending list are not filtered: the same item
      pending twice yields two rows for it. */
  lemma PendingDuplicatesBothAdded(s: OptimoveState, item: MailingItem,
                                   languagesOf: string -> Attempt<seq<Language>>, clock: nat -> nat)
    requires s.combinations == [] && s.selectedMailingItems == [item, item]
    requires languagesOf(item.id).Returned?
    ensures var r := AddToCombinations(s, languagesOf, clock);
            |r.combinations| == 2 && r.combinations[0].mailingItem == r.combinations[1].mailingItem
  {
    var p := s.selectedMailingItems;
    FilterKeepsAll(p, AbsentFrom([]));
    assert !FetchFails(p, [], languagesOf);
  }

  // Editing rows

  /** Rewrites exactly the rows whose id is `combinationId`. */
  function MapMatching(rows: seq<CombinationRow>, combinationId: string,
                       f: CombinationRow -> CombinationRow): (r: seq<CombinationRow>)
    ensures |r| == |rows|
    ensures forall i :: 0 <= i < |rows| ==> r[i] == if rows[i].id == combinationId then f(rows[i]) else rows[i]
  {
    seq(|rows|, i requires 0 <= i < |rows| => if rows[i].id == combinationId then f(rows[i]) else rows[i])
  }

  /** Replaces the language list of the rows with that id, keeping every
      other row, the row order and every other field. */
  function UpdateCombinationLanguages(s: OptimoveState, combinationId: string,
                                      languages: seq<Language>): (r: OptimoveState)
    ensures |r.combinations| == |s.combinations|
    ensures forall i :: 0 <= i < |s.combinations| && s.combinations[i].id == combinationId ==>
              r.combinations[i] == s.combinations[i].(selectedLanguages := languages)
    ensures forall i :: 0 <= i < |s.combinations| && s.combinations[i].id != combinationId ==>
              r.combinations[i] == s.combinations[i]
    ensures r == s.(combinations := r.combinations)
  {
    s.(combinations := MapMatching(s.combinations, combinationId,
                                   (row: CombinationRow) => row.(selectedLanguages := languages)))
  }

  /** Flips the expanded flag of the rows with that id, nothing else. */
  function ToggleCombinationExpanded(s: OptimoveState, combinationId: string): (r: OptimoveState)
    ensures |r.combinations| == |s.combinations|
    ensures forall i :: 0 <= i < |s.combinations| && s.combinations[i].id == combinationId ==>
              r.combinations[i] == s.combinations[i].(isExpanded := !s.combinations[i].isExpanded)
    ensures forall i :: 0 <= i < |s.combinations| && s.combinations[i].id != combinationId ==>
              r.combinations[i] == s.combinations[i]
    ensures r == s.(combinations := r.combinations)
  {
    s.(combinations := MapMatching(s.combinations, combinationId,
                                   (row: CombinationRow) => row.(isExpanded := !row.isExpanded)))
  }

  /** Toggling twice restores the state. */
  lemma ToggleTwiceIsIdentity(s: OptimoveState, combinationId: string)
    ensures ToggleCombinationExpanded(ToggleCombinationExpanded(s, combinationId), combinationId) == s
  {
    var r := ToggleCombinationExpanded(ToggleCombinationExpanded(s, combinationId), combinationId);
    assert r.combinations == s.combinations;
  }

  function RowIdIsNot(combinationId: string): CombinationRow -> bool
  {
    (row: CombinationRow) => row.id != combinationId
  }

  /** Drops exactly the rows with that id, keeping the others in order. */
  function RemoveCombination(s: OptimoveState, combinationId: string): (r: OptimoveState)
    ensures forall i :: 0 <= i < |r.combinations| ==>
              r.combinations[i].id != combinationId && r.combinations[i] in s.combinations
    ensures forall i :: 0 <= i < |s.combinations| && s.combinations[i].id != combinationId ==>
              s.combinations[i] in r.combinations
    ensures r == s.(combinations := r.combinations)
  {
    s.(combinations := Filter(s.combinations, RowIdIsNot(combinationId)))
  }

  /** Removing distributes over any split of the rows, so the survivors keep
      their relative order. */
  lemma RemoveKeepsOrder(s: OptimoveState, combinationId: string, front: seq<CombinationRow>,
                         back: seq<CombinationRow>)
    requires s.combinations == front + back
    ensures RemoveCombination(s, combinationId).combinations
            == Filter(front, RowIdIsNot(combinationId)) + Filter(back, RowIdIsNot(combinationId))
  {
    FilterAppend(front, back, RowIdIsNot(combinationId));
  }

  /** Removing an id no row has changes nothing. */
  lemma RemoveUnknownIdIsNoOp(s: OptimoveState, combinationId: string)
    requires forall i :: 0 <= i < |s.combinations| ==> s.combinations[i].id != combinationId
    ensures RemoveCombination(s, combinationId) == s
  {
    FilterKeepsAll(s.combinations, RowIdIsNot(combinationId));
  }

  /** Empties the grid; every other field is kept. */
  function ClearGrid(s: OptimoveState): (r: OptimoveState)
    ensures r.combinations == []
    ensures r.(combinations := s.combinations) == s
  {
    s.(combinations := [])
  }

  /** After the grid is cleared, adding gives exactly one row per pending
      item, in pending order, duplicates included; a throwing lookup leaves
      the grid empty. */
  lemma AddAfterClearGivesOneRowPerItem(s: OptimoveState, languagesOf: string -> Attempt<seq<Language>>,
                                        clock: nat -> nat)
    requires s.selectedMailingItems != []
    ensures var r := AddToCombinations(ClearGrid(s), languagesOf, clock);
            && (!FetchFails(s.selectedMailingItems, [], languagesOf) ==> ItemsOf(r.combinations) == s.selectedMailingItems)
            && (FetchFails(s.selectedMailingItems, [], languagesOf) ==> r.combinations == [])
  {
    var c := ClearGrid(s);
    var r := AddToCombinations(c, languagesOf, clock);
    if !FetchFails(s.selectedMailingItems, [], languagesOf) {
      FilterKeepsAll(s.selectedMailingItems, AbsentFrom([]));
      assert r.combinations[|c.combinations|..] == r.combinations;
    }
  }

  /** Back to the empty initial state, whatever came before. */
  function Reset(s: OptimoveState): (r: OptimoveState)
    ensures r.selectedBrand.None? && r.selectedProduct.None? && r.mapping.None?
    ensures r.selectedMailingItems == [] && r.combinations == []
    ensures !r.isLoading && r.error.None?
  {
    InitialState
  }

  /** Reset forgets everything: any two states reset to the same state, the
      initial one. */
  lemma ResetForgetsHistory(s: OptimoveState, t: OptimoveState)
    ensures Reset(s) == Reset(t) == InitialState
  {
  }

  // Exports

  datatype ExportResult = ExportResult(state: OptimoveState, outcome: Attempt<ExportResponse>)

  /** One export call. A thrown call records the error and is re-thrown;
      loading is off afterwards in both cases. */
  function ExportSingle(s: OptimoveState, itemId: string, languageCode: string,
                        exporter: (string, string) -> Attempt<ExportResponse>): (r: ExportResult)
    ensures r.outcome == exporter(itemId, languageCode)
    ensures r.outcome.Returned? ==> r.state == s.(isLoading := false)
    ensures r.outcome.Threw? ==> r.state == s.(isLoading := false, error := Some(ExportFailedError))
  {
    match exporter(itemId, languageCode)
    case Returned(resp) => ExportResult(s.(isLoading := false), Returned(resp))
    case Threw => ExportResult(s.(isLoading := false, error := Some(ExportFailedError)), Threw)
  }

  /** One export call of a bulk export: the item and the language code. */
  datatype ExportAttempt = ExportAttempt(itemId: string, languageCode: string)

  /** The calls a row contributes: one per selected language, in order. */
  function RowExports(row: CombinationRow): (r: seq<ExportAttempt>)
    ensures |r| == |row.selectedLanguages|
    ensures forall k :: 0 <= k < |r| ==>
              r[k] == ExportAttempt(row.mailingItem.id, row.selectedLanguages[k].code)
  {
    seq(|row.selectedLanguages|, k requires 0 <= k < |row.selectedLanguages|
        => ExportAttempt(row.mailingItem.id, row.selectedLanguages[k].code))
  }

  /** Every (row, selected language) pair, rows first, in list order. */
  function PlannedExports(rows: seq<CombinationRow>): seq<ExportAttempt>
    decreases |rows|
  {
    if |rows| == 0 then []
    else PlannedExports(rows[..|rows| - 1]) + RowExports(rows[|rows| - 1])
  }

  /** The number shown on the export-all badge: the selected languages summed
      over the rows. */
  function SelectedLanguageCount(rows: seq<CombinationRow>): nat
    decreases |rows|
  {
    if |rows| == 0 then 0
    else SelectedLanguageCount(rows[..|rows| - 1]) + |rows[|rows| - 1].selectedLanguages|
  }

  /** A bulk export makes as many calls as the badge shows. */
  lemma {:induction false} PlannedExportsCount(rows: seq<CombinationRow>)
    ensures |PlannedExports(rows)| == SelectedLanguageCount(rows)
    decreases |rows|
  {
    if |rows| > 0 {
      PlannedExportsCount(rows[..|rows| - 1]);
    }
  }

  /** How many of the first `n` export calls succeed. The body is the
      definition: a reference count that `ExportAll`'s counters are proved
      equal to, so its contract only bounds it. */
  function CountSucceeded(succeeds: nat -> bool, n: nat): (c: nat)
    ensures c <= n
  {
    if n == 0 then 0 else CountSucceeded(succeeds, n - 1) + (if succeeds(n - 1) then 1 else 0)
  }

  /** Exports every selected language of every row, one call at a time; a
      failed call is counted and the loop goes on. With no rows nothing is
      attempted and the state is unchanged. */
  method ExportAll(s: OptimoveState, succeeds: nat -> bool)
    returns (r: OptimoveState, attempts: seq<ExportAttempt>, successCount: nat, errorCount: nat)
    ensures s.combinations == [] ==> r == s && attempts == []
    ensures s.combinations != [] ==> r == s.(isLoading := false)
    ensures attempts == PlannedExports(s.combinations)
    ensures successCount == CountSucceeded(succeeds, |attempts|)
    ensures successCount + errorCount == |attempts|
    ensures |attempts| == SelectedLanguageCount(s.combinations)
  {
    r, attempts, successCount, errorCount := s, [], 0, 0;
    if s.combinations != [] {
      var i := 0;
      while i < |s.combinations|
        invariant 0 <= i <= |s.combinations|
        invariant attempts == PlannedExports(s.combinations[..i])
        invariant successCount == CountSucceeded(succeeds, |attempts|)
        invariant successCount + errorCount == |attempts|
      {
        var row := s.combinations[i];
        var j := 0;
        while j < |row.selectedLanguages|
          invariant 0 <= j <= |row.selectedLanguages|
          invariant attempts == PlannedExports(s.combinations[..i]) + RowExports(row)[..j]
          invariant successCount == CountSucceeded(succeeds, |attempts|)
          invariant successCount + errorCount == |attempts|
        {
          var ok := succeeds(|attempts|);
          attempts := attempts + [ExportAttempt(row.mailingItem.id, row.selectedLanguages[j].code)];
          if ok {
            successCount := successCount + 1;
          } else {
            errorCount := errorCount + 1;
          }
          assert RowExports(row)[..j + 1] == RowExports(row)[..j] + [RowExports(row)[j]];
          j := j + 1;
        }
        assert RowExports(row)[..j] == RowExports(row);
        assert s.combinations[..i + 1][..i] == s.combinations[..i];
        i := i + 1;
      }
      assert s.combinations[..i] == s.combinations;
      r := s.(isLoading := false);
    }
    PlannedExportsCount(s.combinations);
  }
}
