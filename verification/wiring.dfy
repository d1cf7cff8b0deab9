/** How the export hook's state drives the pickers and the grid: each
    component receives the hook's fields and reports back through the hook's
    operations. The statements here cross component boundaries.
 */
module Wiring {
  import opened Base
  import opened Seqs
  import opened Types
  import opened OptimoveExport
  import CombinationGrid
  import ProductDropdown
  import MailingItemDropdown
  import OptimoveApi

  /** A new brand empties the item picker and clears the product picker's
      selection; the product list is reloaded for the new brand, and is
      empty when no brand is chosen. */
  lemma NewBrandResetsPickers(s: OptimoveState, brand: Option<Brand>, products: seq<Product>,
                              items: seq<MailingItem>, loadProducts: string -> Attempt<seq<Product>>,
                              loadItems: string -> Attempt<seq<MailingItem>>)
    ensures var s1 := SelectBrand(s, brand);
            var pp := ProductDropdown.OnBrandChange(ProductDropdown.ProductPicker(products, s1.selectedProduct),
                                                    s1.selectedBrand, loadProducts);
            var ip := MailingItemDropdown.OnMappingChange(MailingItemDropdown.ItemPicker(items, s1.selectedMailingItems),
                                                          s1.mapping, loadItems);
            && pp.selected.None? && ip.items == [] && ip.selected == []
            && (brand.None? ==> pp.products == [])
            && (brand.Some? && loadProducts(brand.value.code).Returned? ==>
                  pp.products == loadProducts(brand.value.code).value)
  {
  }

  /** Updating the languages of the row at `i`, the only row with its id,
      changes that row alone and keeps ids unique to it. */
  lemma UpdateOneRow(s: OptimoveState, i: nat, languages: seq<Language>)
    requires i < |s.combinations|
    requires forall j :: 0 <= j < |s.combinations| && s.combinations[j].id == s.combinations[i].id ==> j == i
    ensures var r := UpdateCombinationLanguages(s, s.combinations[i].id, languages);
            && |r.combinations| == |s.combinations|
            && r.combinations[i] == s.combinations[i].(selectedLanguages := languages)
            && (forall j :: 0 <= j < |s.combinations| && j != i ==> r.combinations[j] == s.combinations[j])
            && (forall j :: 0 <= j < |r.combinations| && r.combinations[j].id == s.combinations[i].id ==> j == i)
            && r == s.(combinations := r.combinations)
  {
  }

  /** Checking a language the row does not have and then unchecking it,
      each time applying the checkbox's update to the hook, restores the
      state exactly. */
  lemma {:induction false} CheckThenUncheckRestores(s: OptimoveState, i: nat, lang: Language)
    requires i < |s.combinations|
    requires forall j :: 0 <= j < |s.combinations| && s.combinations[j].id == s.combinations[i].id ==> j == i
    requires forall k :: 0 <= k < |s.combinations[i].selectedLanguages| ==>
               s.combinations[i].selectedLanguages[k].code != lang.code
    ensures var cid := s.combinations[i].id;
            var u1 := CombinationGrid.HandleLanguageToggle(s.combinations, cid, lang, true);
            && u1.Some?
            && var s1 := UpdateCombinationLanguages(s, cid, u1.value.languages);
               var u2 := CombinationGrid.HandleLanguageToggle(s1.combinations, cid, lang, false);
               && u2.Some?
               && UpdateCombinationLanguages(s1, cid, u2.value.languages) == s
  {
    var cid := s.combinations[i].id;
    var langs := s.combinations[i].selectedLanguages;
    var u1 := CombinationGrid.HandleLanguageToggle(s.combinations, cid, lang, true);
    assert u1.value.languages == langs + [lang];
    UpdateOneRow(s, i, langs + [lang]);
    var s1 := UpdateCombinationLanguages(s, cid, langs + [lang]);
    var u2 := CombinationGrid.HandleLanguageToggle(s1.combinations, cid, lang, false);
    FilterAppend(langs, [lang], CombinationGrid.CodeIsNot(lang.code));
    FilterKeepsAll(langs, CombinationGrid.CodeIsNot(lang.code));
    FilterSingleton(lang, CombinationGrid.CodeIsNot(lang.code));
    assert u2.value.languages == langs;
    UpdateOneRow(s1, i, langs);
    var s2 := UpdateCombinationLanguages(s1, cid, langs);
    assert s2.combinations == s.combinations;
  }

  /** The service's export as the hook awaits it (it never throws). */
  function ExportService(itemId: string, languageCode: string): Attempt<ExportResponse>
  {
    Returned(OptimoveApi.ExportToOptimove(itemId, languageCode))
  }

  /** Against the backend, a single export resolves with a successful
      response without `isUpdate`, and records no error. */
  lemma ExportSingleWithBackend(s: OptimoveState, itemId: string, languageCode: string)
    ensures var r := ExportSingle(s, itemId, languageCode, ExportService);
            && r.state == s.(isLoading := false)
            && r.outcome.Returned? && r.outcome.value.success && r.outcome.value.isUpdate.None?
  {
  }
}
