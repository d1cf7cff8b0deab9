/** The main flow against the in-memory backend, stated as lemmas: choose
    BMW, choose BMW Sales, pick the X5 campaign and add it to the grid.
 */
module Scenario {
  import opened Base
  import opened Seqs
  import opened Types
  import opened OptimoveExport
  import MockApi
  import OptimoveApi

  /** The service's mapping lookup as the export hook awaits it (it never throws). */
  function MappingService(brandCode: string, productCode: string): Attempt<Option<Mapping>>
  {
    Returned(OptimoveApi.GetMapping(brandCode, productCode))
  }

  /** The service's language lookup as the export hook awaits it. */
  function LanguageService(itemId: string): Attempt<seq<Language>>
  {
    Returned(OptimoveApi.GetLanguages(itemId))
  }

  /** Choosing BMW and then BMW Sales leaves the BMW Sales mapping loaded and
      nothing pending. */
  lemma ChooseBmwSales()
    ensures var s := SelectProduct(SelectBrand(InitialState, Some(MockApi.MockBrands[0])),
                                   Some(MockApi.MockProducts["BMW"][0]), MappingService);
            s.mapping == Some(MockApi.BmwSalesMapping) && s.combinations == [] && s.error.None?
  {
    MockApi.BmwSalesFixture();
  }

  /** The X5 campaign starts with en-US only. */
  lemma X5Defaults()
    ensures DefaultLanguages(LanguageService("mailing_001").value) == [MockApi.EnUs]
  {
    MockApi.BmwSalesFixture();
    MockApi.OnlyHeadDefaultOfThree(MockApi.EnUs, MockApi.DeDe, MockApi.FrFr);
  }

  /** Adding one pending item to an empty grid gives exactly its row. */
  lemma AddOneToEmptyGrid(s: OptimoveState, item: MailingItem,
                          languagesOf: string -> Attempt<seq<Language>>, clock: nat -> nat)
    requires s.combinations == [] && s.selectedMailingItems == [item]
    requires languagesOf(item.id).Returned?
    ensures var r := AddToCombinations(s, languagesOf, clock);
            && r.selectedMailingItems == [] && r.error == s.error
            && |r.combinations| == 1 && r.combinations[0].mailingItem == item
            && r.combinations[0].selectedLanguages == DefaultLanguages(languagesOf(item.id).value)
            && !r.combinations[0].isExpanded
  {
    assert !FetchFails(s.selectedMailingItems, s.combinations, languagesOf);
    FilterSingleton(item, AbsentFrom([]));
    var r := AddToCombinations(s, languagesOf, clock);
    assert ItemsOf(r.combinations[0..]) == [item];
    assert r.combinations[0..] == r.combinations;
    assert IsNewRow(r.combinations[0], languagesOf);
  }

  /** The whole walk: the BMW Sales mapping is loaded, and adding the X5
      campaign gives one collapsed row preselected with en-US and empties the
      pending list. */
  lemma BmwSalesWalkthrough(clock: nat -> nat)
    ensures var s2 := SelectProduct(SelectBrand(InitialState, Some(MockApi.MockBrands[0])),
                                    Some(MockApi.MockProducts["BMW"][0]), MappingService);
            var s4 := AddToCombinations(SelectMailingItems(s2, [MockApi.MockMailingItems["bmw-sales-site"][0]]),
                                        LanguageService, clock);
            && s2.mapping == Some(MockApi.BmwSalesMapping)
            && s4.selectedMailingItems == [] && s4.error.None?
            && |s4.combinations| == 1
            && s4.combinations[0].mailingItem.id == "mailing_001"
            && s4.combinations[0].selectedLanguages == [MockApi.EnUs]
            && !s4.combinations[0].isExpanded
  {
    ChooseBmwSales();
    X5Defaults();
    var s2 := SelectProduct(SelectBrand(InitialState, Some(MockApi.MockBrands[0])),
                            Some(MockApi.MockProducts["BMW"][0]), MappingService);
    var item := MockApi.MockMailingItems["bmw-sales-site"][0];
    AddOneToEmptyGrid(SelectMailingItems(s2, [item]), item, LanguageService, clock);
  }
}
