/** The in-memory backend the service layer delegates to: fixture tables of
    brands, products, mappings, mailing items, languages and existing
    templates, the keyed lookups over them, and the simulated export.
    The artificial delays are not modelled: every lookup is a function.
 */
module MockApi {
  import opened Base
  import opened Seqs
  import opened Text
  import opened Types

  // Fixture tables

  const MockBrands: seq<Brand> := [
    Brand("BMW", "BMW", Some("Luxury automotive brand")),
    Brand("MINI", "MINI", Some("Premium compact car brand")),
    Brand("RR", "Rolls-Royce", Some("Ultra-luxury automotive brand")),
    Brand("BMW_MC", "BMW Motorrad", Some("BMW motorcycle division"))
  ]

  function P(code: string, name: string): Product
  {
    Product(code, name, None, None)
  }

  const MockProducts: map<string, seq<Product>> := map[
    "BMW" := [P("BMW_SALES", "BMW Sales"), P("BMW_SERVICE", "BMW Service"), P("BMW_PARTS", "BMW Parts")],
    "MINI" := [P("MINI_SALES", "MINI Sales"), P("MINI_SERVICE", "MINI Service")],
    "RR" := [P("RR_SALES", "Rolls-Royce Sales"), P("RR_SERVICE", "Rolls-Royce Service")],
    "BMW_MC" := [P("MC_SALES", "Motorrad Sales"), P("MC_SERVICE", "Motorrad Service")]
  ]

  const BmwSalesMapping := Mapping("BMW", "BMW_SALES", "bmw-sales-site", "noreply@bmw-sales.com",
                                   "BMW Sales <sales@bmw.com>", "bmw_brand_001", "folder_bmw_sales",
                                   ["email_001", "email_002", "email_003"])
  const BmwServiceMapping := Mapping("BMW", "BMW_SERVICE", "bmw-service-site", "noreply@bmw-service.com",
                                     "BMW Service <service@bmw.com>", "bmw_brand_001", "folder_bmw_service",
                                     ["email_004", "email_005"])
  const MiniSalesMapping := Mapping("MINI", "MINI_SALES", "mini-sales-site", "noreply@mini-sales.com",
                                    "MINI Sales <sales@mini.com>", "mini_brand_001", "folder_mini_sales",
                                    ["email_006", "email_007"])

  /** Keyed by `brandCode + "_" + productCode`. */
  const MockMappings: map<string, Mapping> := map[
    "BMW_BMW_SALES" := BmwSalesMapping,
    "BMW_BMW_SERVICE" := BmwServiceMapping,
    "MINI_MINI_SALES" := MiniSalesMapping
  ]

  /** A fixture item; the fixtures carry no sender addresses. */
  function Item(id: string, name: string, site: string, templateId: Option<string>,
                path: string, lastModified: string): MailingItem
  {
    MailingItem(id, name, site, templateId, path, lastModified, true, None, None)
  }

  const MockMailingItems: map<string, seq<MailingItem>> := map[
    "bmw-sales-site" := [
      Item("mailing_001", "BMW X5 Launch Campaign", "bmw-sales-site", Some("template_001"),
           "/sitecore/content/BMW/Campaigns/X5Launch", "2024-01-15T10:30:00Z"),
      Item("mailing_002", "BMW 3 Series Newsletter", "bmw-sales-site", None,
           "/sitecore/content/BMW/Newsletters/3Series", "2024-01-10T14:20:00Z"),
      Item("mailing_003", "BMW Test Drive Invitation", "bmw-sales-site", None,
           "/sitecore/content/BMW/Invitations/TestDrive", "2024-01-08T09:15:00Z")
    ],
    "bmw-service-site" := [
      Item("mailing_004", "Service Reminder Campaign", "bmw-service-site", Some("template_002"),
           "/sitecore/content/BMW/Service/Reminders", "2024-01-12T11:45:00Z"),
      Item("mailing_005", "BMW Care+ Program", "bmw-service-site", None,
           "/sitecore/content/BMW/Service/CarePlus", "2024-01-05T16:30:00Z")
    ],
    "mini-sales-site" := [
      Item("mailing_006", "MINI Cooper SE Electric", "mini-sales-site", None,
           "/sitecore/content/MINI/Electric/CooperSE", "2024-01-14T13:20:00Z")
    ]
  ]

  const EnUs := Language("en-US", "English (US)", "English (United States)", true)
  const DeDe := Language("de-DE", "German (DE)", "Deutsch (Deutschland)", false)
  const FrFr := Language("fr-FR", "French (FR)", "Français (France)", false)
  const EsEs := Language("es-ES", "Spanish (ES)", "Español (España)", false)
  const ItIt := Language("it-IT", "Italian (IT)", "Italiano (Italia)", false)
  const EnGb := Language("en-GB", "English (GB)", "English (United Kingdom)", true)

  const MockLanguages: map<string, seq<Language>> := map[
    "mailing_001" := [EnUs, DeDe, FrFr],
    "mailing_002" := [EnUs, DeDe],
    "mailing_003" := [EnUs, EsEs, ItIt],
    "mailing_004" := [EnUs, DeDe],
    "mailing_005" := [EnUs],
    "mailing_006" := [EnGb, DeDe]
  ]

  /** Item id to the language codes that already have a template. */
  const MockExistingTemplateIds: map<string, seq<string>> := map[
    "mailing_001" := ["en-US", "de-DE"],
    "mailing_004" := ["en-US"]
  ]

  // Fixture facts

  /** Exactly one language of the list is flagged as the default. */
  predicate HasOneDefault(langs: seq<Language>)
  {
    |Filter(langs, IsDefault)| == 1
  }

  /** In a list whose head is the only default-flagged entry, the head is
      what the default filter keeps. */
  lemma OnlyHeadDefaultOfThree(a: Language, b: Language, c: Language)
    requires a.isDefault && !b.isDefault && !c.isDefault
    ensures Filter([a, b, c], IsDefault) == [a]
  {
    FilterAppend([a], [b, c], IsDefault);
    FilterAppend([b], [c], IsDefault);
    FilterSingleton(a, IsDefault);
    FilterSingleton(b, IsDefault);
    FilterSingleton(c, IsDefault);
    assert [a, b, c] == [a] + ([b] + [c]);
  }

  lemma OnlyHeadDefaultOfTwo(a: Language, b: Language)
    requires a.isDefault && !b.isDefault
    ensures Filter([a, b], IsDefault) == [a]
  {
    FilterAppend([a], [b], IsDefault);
    FilterSingleton(a, IsDefault);
    FilterSingleton(b, IsDefault);
    assert [a, b] == [a] + [b];
  }

  /** Every fixture language list has exactly one default entry. */
  lemma FixtureLanguagesHaveOneDefault(itemId: string)
    requires itemId in MockLanguages
    ensures HasOneDefault(MockLanguages[itemId])
  {
    OnlyHeadDefaultOfThree(EnUs, DeDe, FrFr);
    OnlyHeadDefaultOfThree(EnUs, EsEs, ItIt);
    OnlyHeadDefaultOfTwo(EnUs, DeDe);
    OnlyHeadDefaultOfTwo(EnGb, DeDe);
    FilterSingleton(EnUs, IsDefault);
  }

  // Lookups

  function GetMockBrands(): (r: seq<Brand>)
    ensures |r| == 4 && r[0].code == "BMW"
  {
    MockBrands
  }

  function GetMockProducts(brandCode: string): (r: seq<Product>)
    ensures brandCode !in MockProducts ==> r == []
    ensures brandCode in MockProducts ==> r == MockProducts[brandCode] && |r| >= 2
  {
    LookupOr(MockProducts, brandCode, [])
  }

  /** The key a brand/product pair is looked up under. */
  function MappingKey(brandCode: string, productCode: string): string
  {
    brandCode + "_" + productCode
  }

  function GetMockMapping(brandCode: string, productCode: string): (r: Option<Mapping>)
    ensures r.None? <==> MappingKey(brandCode, productCode) !in MockMappings
    ensures r.Some? ==> MappingKey(r.value.brandCode, r.value.productCode)
                        == MappingKey(brandCode, productCode)
    ensures r.Some? ==> r.value.mailingSite in MockMailingItems
  {
    var key := MappingKey(brandCode, productCode);
    if key in MockMappings then MappingsWellKeyed(key); Some(MockMappings[key]) else None
  }

  /** Each mapping fixture is stored under the key its own codes make, and
      points at a site that has mailing items. */
  lemma MappingsWellKeyed(key: string)
    requires key in MockMappings
    ensures MappingKey(MockMappings[key].brandCode, MockMappings[key].productCode) == key
    ensures MockMappings[key].mailingSite in MockMailingItems
  {
    if key == "BMW_BMW_SALES" {
      assert MappingKey("BMW", "BMW_SALES") == key;
    } else if key == "BMW_BMW_SERVICE" {
      assert MappingKey("BMW", "BMW_SERVICE") == key;
    } else {
      assert MappingKey("MINI", "MINI_SALES") == key;
    }
  }

  /** The key joins the two codes with an underscore, which codes may contain
      themselves: a brand "BMW_BMW" with product "SALES" finds the BMW/BMW_SALES
      mapping. */
  lemma MappingKeyIsAmbiguous()
    ensures GetMockMapping("BMW_BMW", "SALES") == Some(BmwSalesMapping)
    ensures BmwSalesMapping.brandCode != "BMW_BMW"
  {
    assert MappingKey("BMW_BMW", "SALES") == "BMW_BMW_SALES";
  }

  function GetMockMailingItems(mailingSite: string): (r: seq<MailingItem>)
    ensures r == [] <==> mailingSite !in MockMailingItems
    ensures forall i :: 0 <= i < |r| ==> r[i].mailingSite == mailingSite
    ensures forall i :: 0 <= i < |r| ==> r[i].id in MockLanguages
  {
    if mailingSite in MockMailingItems then SitesWellFormed(mailingSite); MockMailingItems[mailingSite]
    else []
  }

  /** Every site of the item table lists at least one item, each item is
      filed under its own site, and each has a language list. */
  lemma SitesWellFormed(site: string)
    requires site in MockMailingItems
    ensures MockMailingItems[site] != []
    ensures forall i :: 0 <= i < |MockMailingItems[site]| ==> MockMailingItems[site][i].mailingSite == site
    ensures forall i :: 0 <= i < |MockMailingItems[site]| ==> MockMailingItems[site][i].id in MockLanguages
  {
  }

  function GetMockLanguages(itemId: string): (r: seq<Language>)
    ensures itemId !in MockLanguages ==> r == []
    ensures itemId in MockLanguages ==> r != [] && HasOneDefault(r)
  {
    if itemId in MockLanguages then FixtureLanguagesHaveOneDefault(itemId); MockLanguages[itemId]
    else []
  }

  /** The BMW sales mapping points at the BMW sales site, and the first mailing
      item offers en-US (the default), de-DE and fr-FR. */
  lemma BmwSalesFixture()
    ensures GetMockMapping("BMW", "BMW_SALES") == Some(BmwSalesMapping)
    ensures BmwSalesMapping.mailingSite == "bmw-sales-site"
    ensures GetMockLanguages("mailing_001") == [EnUs, DeDe, FrFr]
    ensures EnUs.code == "en-US" && EnUs.isDefault
    ensures DeDe.code == "de-DE" && !DeDe.isDefault
    ensures FrFr.code == "fr-FR" && !FrFr.isDefault
  {
    assert MappingKey("BMW", "BMW_SALES") == "BMW_BMW_SALES";
  }

  /** Whether a template already exists for the item in that language. */
  predicate MockTemplateIdExists(itemId: string, languageCode: string)
  {
    languageCode in LookupOr(MockExistingTemplateIds, itemId, [])
  }

  /** A template exists only for a listed item and one of its listed languages,
      and only for a language the item offers. */
  lemma TemplateExistsIff(itemId: string, languageCode: string)
    ensures MockTemplateIdExists(itemId, languageCode)
            <==> itemId in MockExistingTemplateIds && languageCode in MockExistingTemplateIds[itemId]
    ensures MockTemplateIdExists(itemId, languageCode) ==>
            exists i :: 0 <= i < |GetMockLanguages(itemId)| && GetMockLanguages(itemId)[i].code == languageCode
  {
    if MockTemplateIdExists(itemId, languageCode) {
      var langs := GetMockLanguages(itemId);
      if itemId == "mailing_001" {
        if languageCode == "en-US" { assert langs[0].code == languageCode; }
        else { assert langs[1].code == languageCode; }
      } else {
        assert langs[0].code == languageCode;
      }
    }
  }

  const UpdatedSuffix := "_updated"
  const NewSuffix := "_new"

  /** The simulated export: always succeeds, reports an updated template when
      one exists for the pair and a new one otherwise, and never sets `isUpdate`. */
  function ExportToOptimove(itemId: string, languageCode: string): (r: ExportResponse)
    ensures r.success && r.isUpdate.None? && r.templateId.Some?
    ensures StartsWith(r.templateId.value, "template_" + itemId + "_" + languageCode)
  {
    var stem := "template_" + itemId + "_" + languageCode;
    if MockTemplateIdExists(itemId, languageCode) then
      ExportResponse(true, Some(stem + UpdatedSuffix),
                     "Template updated successfully for " + itemId + " (" + languageCode + ")", None)
    else
      ExportResponse(true, Some(stem + NewSuffix),
                     "New template created successfully for " + itemId + " (" + languageCode + ")", None)
  }

  /** The templateId records whether the template existed: it ends in "_updated"
      exactly when it did, and in "_new" exactly when it did not. */
  lemma ExportTemplateIdRecordsExistence(itemId: string, languageCode: string)
    ensures EndsWith(ExportToOptimove(itemId, languageCode).templateId.value, UpdatedSuffix)
            <==> MockTemplateIdExists(itemId, languageCode)
    ensures EndsWith(ExportToOptimove(itemId, languageCode).templateId.value, NewSuffix)
            <==> !MockTemplateIdExists(itemId, languageCode)
  {
    var stem := "template_" + itemId + "_" + languageCode;
    var t := ExportToOptimove(itemId, languageCode).templateId.value;
    if MockTemplateIdExists(itemId, languageCode) {
      assert t == stem + UpdatedSuffix;
      assert t[|t| - |UpdatedSuffix|..] == UpdatedSuffix;
      assert t[|t| - |NewSuffix|..][3] == 'd';
    } else {
      assert t == stem + NewSuffix;
      assert t[|t| - |NewSuffix|..] == NewSuffix;
      if |UpdatedSuffix| <= |t| {
        assert t[|t| - 1] == 'w';
        assert t[|t| - |UpdatedSuffix|..][7] == 'w';
      }
    }
  }
}
