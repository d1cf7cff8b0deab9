/** The service layer: methods that forward to the in-memory backend, and the
    string-built preview URL.
 */
module OptimoveApi {
  import opened Base
  import opened Seqs
  import opened Text
  import opened Types
  import MockApi

  // Forwarding methods: each hands its arguments unchanged to the backend
  // and promises its caller what the backend's tables guarantee.

  /** Four brands, BMW first, no two with the same code. */
  function GetBrands(): (r: seq<Brand>)
    ensures |r| == 4 && r[0].code == "BMW"
    ensures forall i, j :: 0 <= i < j < |r| ==> r[i].code != r[j].code
  {
    MockApi.GetMockBrands()
  }

  /** Empty exactly for a brand the backend does not know. */
  function GetProducts(brandCode: string): (r: seq<Product>)
    ensures r == [] <==> brandCode !in MockApi.MockProducts
    ensures forall i, j :: 0 <= i < j < |r| ==> r[i].code != r[j].code
  {
    MockApi.GetMockProducts(brandCode)
  }

  /** Null exactly when no mapping is stored under the pair's key; a found
      mapping points at a site whose item list is not empty. */
  function GetMapping(brandCode: string, productCode: string): (r: Option<Mapping>)
    ensures r.None? <==> MockApi.MappingKey(brandCode, productCode) !in MockApi.MockMappings
    ensures r.Some? ==> GetMailingItems(r.value.mailingSite) != []
  {
    MockApi.GetMockMapping(brandCode, productCode)
  }

  /** Empty exactly for an unknown site; every item belongs to the site and
      has a non-empty language list. */
  function GetMailingItems(mailingSite: string): (r: seq<MailingItem>)
    ensures r == [] <==> mailingSite !in MockApi.MockMailingItems
    ensures forall i :: 0 <= i < |r| ==> r[i].mailingSite == mailingSite
    ensures forall i :: 0 <= i < |r| ==> GetLanguages(r[i].id) != []
  {
    MockApi.GetMockMailingItems(mailingSite)
  }

  /** Empty exactly for an unknown item; otherwise exactly one language is
      the default. */
  function GetLanguages(itemId: string): (r: seq<Language>)
    ensures r == [] <==> itemId !in MockApi.MockLanguages
    ensures r != [] ==> MockApi.HasOneDefault(r)
  {
    MockApi.GetMockLanguages(itemId)
  }

  /** True exactly for a listed (item, language) pair, and only for a
      language the item offers. */
  function TemplateExists(itemId: string, languageCode: string): (r: bool)
    ensures r <==> itemId in MockApi.MockExistingTemplateIds
                   && languageCode in MockApi.MockExistingTemplateIds[itemId]
    ensures r ==> exists i :: 0 <= i < |GetLanguages(itemId)| && GetLanguages(itemId)[i].code == languageCode
  {
    MockApi.TemplateExistsIff(itemId, languageCode);
    assert GetLanguages(itemId) == MockApi.GetMockLanguages(itemId);
    MockApi.MockTemplateIdExists(itemId, languageCode)
  }

  /** Always succeeds without setting `isUpdate`; the template id tells
      whether a template already existed for the pair. */
  function ExportToOptimove(itemId: string, languageCode: string): (r: ExportResponse)
    ensures r.success && r.isUpdate.None? && r.templateId.Some?
    ensures EndsWith(r.templateId.value, MockApi.UpdatedSuffix) <==> TemplateExists(itemId, languageCode)
  {
    MockApi.ExportTemplateIdRecordsExistence(itemId, languageCode);
    MockApi.ExportToOptimove(itemId, languageCode)
  }

  // Preview URL

  const DefaultSitecoreHost := "https://sitecore-host"
  const ItemParam := "/?sc_itemid="
  const LangParam := "&sc_lang="
  const ModeSuffix := "&sc_mode=preview&mailExportMode=true"

  /** The host actually used: an omitted host argument takes the default. */
  function HostOrDefault(sitecoreHost: Option<string>): string
  {
    sitecoreHost.GetOr(DefaultSitecoreHost)
  }

  /** Plain concatenation: neither the item id nor the language is escaped. */
  function ConstructPreviewUrl(itemId: string, languageCode: string,
                               sitecoreHost: Option<string>): (url: string)
    ensures StartsWith(url, HostOrDefault(sitecoreHost))
    ensures EndsWith(url, ModeSuffix)
    ensures Contains(url, itemId) && Contains(url, languageCode)
  {
    var host := HostOrDefault(sitecoreHost);
    var url := host + ItemParam + itemId + LangParam + languageCode + ModeSuffix;
    assert url == (host + ItemParam) + itemId + (LangParam + languageCode + ModeSuffix);
    ContainsPiece(host + ItemParam, itemId, LangParam + languageCode + ModeSuffix);
    assert url == (host + ItemParam + itemId + LangParam) + languageCode + ModeSuffix;
    ContainsPiece(host + ItemParam + itemId + LangParam, languageCode, ModeSuffix);
    assert url[|url| - |ModeSuffix|..] == ModeSuffix;
    url
  }

  predicate IsAmpersand(c: char)
  {
    c == '&'
  }

  /** Reads the item id and language back out of a preview URL for `host`:
      the part between the item parameter and the fixed suffix is split by
      `ParseParams`. */
  function ParsePreviewUrl(host: string, url: string): Option<(string, string)>
  {
    var prefix := host + ItemParam;
    if !(prefix <= url) || |url| < |prefix| + |ModeSuffix| || !EndsWith(url, ModeSuffix) then None
    else ParseParams(url[|prefix|..|url| - |ModeSuffix|])
  }

  /** The item id runs up to the first '&', which must open the language
      parameter; the language is the rest. */
  function ParseParams(params: string): Option<(string, string)>
  {
    match FindIndex(params, IsAmpersand)
    case None => None
    case Some(k) =>
      if LangParam <= params[k..] then Some((params[..k], params[k + |LangParam|..]))
      else None
  }

  /** In an item id without '&' followed by text starting with '&', the first
      '&' is the one just after the item id. */
  lemma FirstAmpersandAfterItemId(itemId: string, rest: string)
    requires forall i :: 0 <= i < |itemId| ==> itemId[i] != '&'
    requires |rest| > 0 && rest[0] == '&'
    ensures FindIndex(itemId + rest, IsAmpersand) == Some(|itemId|)
  {
    var s := itemId + rest;
    assert s[|itemId|] == '&';
    assert forall j :: 0 <= j < |itemId| ==> s[j] == itemId[j];
  }

  /** The parameters as laid out by the constructor split back into the item
      id and the language. */
  lemma ParseLaidOutParams(itemId: string, languageCode: string)
    requires forall i :: 0 <= i < |itemId| ==> itemId[i] != '&'
    ensures ParseParams(itemId + LangParam + languageCode) == Some((itemId, languageCode))
  {
    var rest := LangParam + languageCode;
    var params := itemId + rest;
    assert params == itemId + LangParam + languageCode;
    FirstAmpersandAfterItemId(itemId, rest);
    assert params[|itemId|..] == rest;
    assert params[..|itemId|] == itemId;
    assert params[|itemId| + |LangParam|..] == languageCode;
  }

  /** A string framed by a prefix and a suffix: the frame is recognised and
      the inside is what lies between. */
  lemma Framed(prefix: string, inside: string, suffix: string)
    ensures var s := prefix + inside + suffix;
            prefix <= s && EndsWith(s, suffix) && |s| >= |prefix| + |suffix|
            && s[|prefix|..|s| - |suffix|] == inside
  {
    var s := prefix + inside + suffix;
    assert s[|s| - |suffix|..] == suffix;
  }

  /** Parsing a URL laid out as prefix, item id, language parameter, language
      and suffix recovers the item id and the language. */
  lemma ParseLaidOutUrl(host: string, itemId: string, languageCode: string)
    requires forall i :: 0 <= i < |itemId| ==> itemId[i] != '&'
    ensures ParsePreviewUrl(host, host + ItemParam + itemId + LangParam + languageCode + ModeSuffix)
            == Some((itemId, languageCode))
  {
    var params := itemId + LangParam + languageCode;
    assert host + ItemParam + itemId + LangParam + languageCode + ModeSuffix
        == (host + ItemParam) + params + ModeSuffix;
    Framed(host + ItemParam, params, ModeSuffix);
    ParseLaidOutParams(itemId, languageCode);
  }

  /** For an item id without '&' the URL determines the item id and language:
      parsing the constructed URL gives them back. */
  lemma ParseConstructRoundTrip(host: string, itemId: string, languageCode: string)
    requires forall i :: 0 <= i < |itemId| ==> itemId[i] != '&'
    ensures ParsePreviewUrl(host, ConstructPreviewUrl(itemId, languageCode, Some(host)))
            == Some((itemId, languageCode))
  {
    assert ConstructPreviewUrl(itemId, languageCode, Some(host))
        == host + ItemParam + itemId + LangParam + languageCode + ModeSuffix;
    ParseLaidOutUrl(host, itemId, languageCode);
  }

  /** Because nothing is escaped, two different (item, language) pairs can
      produce the same URL. */
  lemma UnescapedUrlIsAmbiguous()
    ensures ConstructPreviewUrl("a&sc_lang=b", "c", None) == ConstructPreviewUrl("a", "b&sc_lang=c", None)
  {
    var h := DefaultSitecoreHost + ItemParam;
    assert "a&sc_lang=b" == "a" + LangParam + "b";
    assert "b&sc_lang=c" == "b" + LangParam + "c";
    assert h + ("a" + LangParam + "b") + LangParam + "c" + ModeSuffix
        == h + "a" + LangParam + ("b" + LangParam + "c") + ModeSuffix;
  }
}
