/** The combination grid's logic: address resolution, the per-row language
    checkbox, and the Export button's guard and export record. The mailing
    HTML is fetched through `mailingHtml`, a parameter standing for the
    service call the button awaits; it may throw.
 */
module CombinationGrid {
  import opened Base
  import opened Seqs
  import opened Text
  import opened Types

  /** The entry's e-mail equals the target ignoring ASCII case. */
  function EmailMatches(email: string): EmailAddress -> bool
  {
    (e: EmailAddress) => EqualIgnoringCase(e.Email, email)
  }

  /** The Id of the first entry whose Email equals `email` ignoring case, or
      the sentinel 0 when none does (in particular for an empty list). An
      absent address is compared by lower-casing it, which throws as soon as
      there is an entry to compare with. */
  function ResolveEmailId(emailList: seq<EmailAddress>, email: Option<string>): (r: Attempt<int>)
    ensures r.Threw? <==> email.None? && emailList != []
    ensures email.None? && emailList == [] ==> r == Returned(0)
    ensures email.Some? && (forall i :: 0 <= i < |emailList| ==> !EqualIgnoringCase(emailList[i].Email, email.value))
            ==> r == Returned(0)
    ensures email.Some? ==>
              forall i :: 0 <= i < |emailList| && EqualIgnoringCase(emailList[i].Email, email.value)
                          && (forall j :: 0 <= j < i ==> !EqualIgnoringCase(emailList[j].Email, email.value))
                          ==> r == Returned(emailList[i].Id)
  {
    if email.None? then
      if emailList == [] then Returned(0) else Threw
    else
      match Find(emailList, EmailMatches(email.value))
      case Some(e) => Returned(e.Id)
      case None => Returned(0)
  }

  /** Resolution depends on the target only through its lower-cased form. */
  lemma ResolveEmailIdIgnoresCase(emailList: seq<EmailAddress>, a: string, b: string)
    requires ToLower(a) == ToLower(b)
    ensures ResolveEmailId(emailList, Some(a)) == ResolveEmailId(emailList, Some(b))
  {
    var f := FindIndex(emailList, EmailMatches(a));
    if f.Some? {
      var i := f.value;
      assert EqualIgnoringCase(emailList[i].Email, a) && EqualIgnoringCase(emailList[i].Email, b);
      assert forall j :: 0 <= j < i ==> !EqualIgnoringCase(emailList[j].Email, b);
    } else {
      assert forall j :: 0 <= j < |emailList| ==> !EqualIgnoringCase(emailList[j].Email, b);
    }
  }

  /** Upper-case input still finds the entry; an empty list gives 0, also for
      an absent address; an absent address against a non-empty list throws. */
  lemma ResolveEmailIdExamples()
    ensures ResolveEmailId([EmailAddress(1, "a@x.com"), EmailAddress(2, "b@x.com")], Some("A@X.com")) == Returned(1)
    ensures ResolveEmailId([], Some("a@x.com")) == Returned(0)
    ensures ResolveEmailId([], None) == Returned(0)
    ensures ResolveEmailId([EmailAddress(1, "a@x.com")], None) == Threw
  {
    var l := [EmailAddress(1, "a@x.com"), EmailAddress(2, "b@x.com")];
    assert ToLower("A@X.com") == "a@x.com";
    assert ToLower(l[0].Email) == "a@x.com";
  }

  /** An entry whose Id is 0 cannot be told apart from "not found". */
  lemma ZeroIdLooksUnresolved()
    ensures ResolveEmailId([EmailAddress(0, "a@x.com")], Some("a@x.com")) == ResolveEmailId([], Some("a@x.com"))
  {
  }

  // Language checkboxes

  /** The update the checkbox hands to the state manager: row id and new list. */
  datatype LanguageUpdate = LanguageUpdate(combinationId: string, languages: seq<Language>)

  function RowIdIs(combinationId: string): CombinationRow -> bool
  {
    (c: CombinationRow) => c.id == combinationId
  }

  function CodeIsNot(code: string): Language -> bool
  {
    (l: Language) => l.code != code
  }

  /** Checking appends the language to the end of the row's list as it is
      (no duplicate check); unchecking drops every language with that code.
      An unknown row id produces no update. */
  function HandleLanguageToggle(combinations: seq<CombinationRow>, combinationId: string,
                                language: Language, checked: bool): (r: Option<LanguageUpdate>)
    ensures r.None? <==> forall i :: 0 <= i < |combinations| ==> combinations[i].id != combinationId
    ensures r.Some? ==> r.value.combinationId == combinationId
    ensures r.Some? ==>
              exists i :: 0 <= i < |combinations| && combinations[i].id == combinationId
                          && (forall j :: 0 <= j < i ==> combinations[j].id != combinationId)
                          && (checked ==> r.value.languages == combinations[i].selectedLanguages + [language])
                          && (!checked ==>
                                r.value.languages == Filter(combinations[i].selectedLanguages, CodeIsNot(language.code)))
  {
    match Find(combinations, RowIdIs(combinationId))
    case None => None
    case Some(c) =>
      var current := c.selectedLanguages;
      Some(LanguageUpdate(combinationId,
                          if checked then current + [language]
                          else Filter(current, CodeIsNot(language.code))))
  }

  /** Unchecking leaves no language with that code, keeps every other one,
      and keeps their relative order. */
  lemma {:induction false} UncheckRemovesCode(current: seq<Language>, code: string, front: seq<Language>, back: seq<Language>)
    requires current == front + back
    ensures var kept := Filter(current, CodeIsNot(code));
            (forall k :: 0 <= k < |kept| ==> kept[k].code != code && kept[k] in current)
            && (forall k :: 0 <= k < |current| && current[k].code != code ==> current[k] in kept)
            && kept == Filter(front, CodeIsNot(code)) + Filter(back, CodeIsNot(code))
  {
    FilterAppend(front, back, CodeIsNot(code));
  }

  // Export button

  /** The record the Export button submits. */
  datatype ExportRecord = ExportRecord(
    mailingItemId: string,
    templateName: string,
    subject: string,
    html: string,
    plainText: string,
    fromName: string,
    replyToAddressID: int,
    fromEmailAddressID: int,
    folderID: string,
    brandId: string,
    language: string,
    mailingSite: string,
    brandName: string,
    productName: string,
    mailType: string)

  /** What pressing Export does: refuse for missing configuration (no HTML
      fetch, nothing submitted); or fetch the HTML for (item id, language
      code) and then either stop because the fetch threw, stop because an
      address lookup threw while the record was built, or submit the record.
      Only `Submit` submits anything. */
  datatype ExportAction =
    | MissingConfiguration
    | HtmlFetchFailed(htmlItemId: string, htmlLanguage: string)
    | AddressLookupFailed(htmlItemId: string, htmlLanguage: string)
    | Submit(htmlItemId: string, htmlLanguage: string, request: ExportRecord)

  const TemplateNameSeparator := " | "
  const PlainTextPlaceholder := "..."
  const FromName := "CMS WIP"

  /** The address lists to resolve against: the loaded ones, or empty lists
      while the e-mail parameters are not loaded. */
  function ReplyToList(emailParams: Option<EmailParameters>): seq<EmailAddress>
  {
    if emailParams.Some? then emailParams.value.ReplyToAddresses else []
  }

  function FromList(emailParams: Option<EmailParameters>): seq<EmailAddress>
  {
    if emailParams.Some? then emailParams.value.FromEmailAddresses else []
  }

  /** Building the record throws: an absent address meets a non-empty list. */
  predicate LookupThrows(item: MailingItem, emailParams: Option<EmailParameters>)
  {
    || (item.replyToAddress.None? && ReplyToList(emailParams) != [])
    || (item.fromAddress.None? && FromList(emailParams) != [])
  }

  /** The grid's Export button for one (row, language) pair. `mailingHtml`
      is the awaited HTML fetch. */
  function GridExport(combination: CombinationRow, language: Language, mapping: Option<Mapping>,
                      brand: Option<Brand>, product: Option<Product>,
                      emailParams: Option<EmailParameters>,
                      mailingHtml: (string, string) -> Attempt<string>): (r: ExportAction)
    ensures r.MissingConfiguration? <==> mapping.None? || brand.None? || product.None?
    ensures !r.MissingConfiguration? ==>
              r.htmlItemId == combination.mailingItem.id && r.htmlLanguage == language.code
    ensures r.HtmlFetchFailed? <==>
              !r.MissingConfiguration? && mailingHtml(combination.mailingItem.id, language.code).Threw?
    ensures r.AddressLookupFailed? <==>
              && !r.MissingConfiguration? && mailingHtml(combination.mailingItem.id, language.code).Returned?
              && LookupThrows(combination.mailingItem, emailParams)
    ensures r.Submit? ==>
              && r.request.html == mailingHtml(combination.mailingItem.id, language.code).value
              && r.request.mailingItemId == combination.mailingItem.id
              && r.request.templateName == combination.mailingItem.name + TemplateNameSeparator + language.code
              && r.request.subject == combination.mailingItem.name
              && r.request.mailType == combination.mailingItem.name
              && r.request.plainText == PlainTextPlaceholder
              && r.request.fromName == FromName
              && r.request.language == language.code
              && r.request.folderID == mapping.value.folderId
              && r.request.brandId == mapping.value.optimoveBrandId
              && r.request.mailingSite == mapping.value.mailingSite
              && r.request.brandName == mapping.value.brandCode
              && r.request.productName == mapping.value.productCode
    ensures r.Submit? && emailParams.None? ==>
              r.request.replyToAddressID == 0 && r.request.fromEmailAddressID == 0
    ensures r.Submit? && emailParams.Some? ==>
              && Returned(r.request.replyToAddressID)
                 == ResolveEmailId(emailParams.value.ReplyToAddresses, combination.mailingItem.replyToAddress)
              && Returned(r.request.fromEmailAddressID)
                 == ResolveEmailId(emailParams.value.FromEmailAddresses, combination.mailingItem.fromAddress)
  {
    if mapping.None? || brand.None? || product.None? then MissingConfiguration
    else
      var item := combination.mailingItem;
      match mailingHtml(item.id, language.code)
      case Threw => HtmlFetchFailed(item.id, language.code)
      case Returned(html) =>
        var replyTo := ResolveEmailId(ReplyToList(emailParams), item.replyToAddress);
        var from := ResolveEmailId(FromList(emailParams), item.fromAddress);
        if replyTo.Threw? || from.Threw? then AddressLookupFailed(item.id, language.code)
        else
          var m := mapping.value;
          Submit(item.id, language.code, ExportRecord(
            mailingItemId := item.id,
            templateName := item.name + TemplateNameSeparator + language.code,
            subject := item.name,
            html := html,
            plainText := PlainTextPlaceholder,
            fromName := FromName,
            replyToAddressID := replyTo.value,
            fromEmailAddressID := from.value,
            folderID := m.folderId,
            brandId := m.optimoveBrandId,
            language := language.code,
            mailingSite := m.mailingSite,
            brandName := m.brandCode,
            productName := m.productCode,
            mailType := item.name))
  }

  /** An item without sender addresses can be exported only while the
      address lists are empty or not loaded: against a loaded non-empty list
      the button stops after the HTML fetch and submits nothing. */
  lemma MissingAddressBlocksExport(combination: CombinationRow, language: Language, mapping: Option<Mapping>,
                                   brand: Option<Brand>, product: Option<Product>,
                                   emailParams: Option<EmailParameters>,
                                   mailingHtml: (string, string) -> Attempt<string>)
    requires combination.mailingItem.replyToAddress.None? && combination.mailingItem.fromAddress.None?
    ensures GridExport(combination, language, mapping, brand, product, emailParams, mailingHtml).Submit?
            ==> ReplyToList(emailParams) == [] && FromList(emailParams) == []
  {
  }

  /** A submitted record's template name splits back into its subject (the
      item name) and its language code, around the separator. */
  lemma TemplateNameSplits(combination: CombinationRow, language: Language, mapping: Option<Mapping>,
                           brand: Option<Brand>, product: Option<Product>,
                           emailParams: Option<EmailParameters>,
                           mailingHtml: (string, string) -> Attempt<string>)
    ensures var r := GridExport(combination, language, mapping, brand, product, emailParams, mailingHtml);
            r.Submit? ==>
              var t := r.request.templateName;
              && |t| == |r.request.subject| + |TemplateNameSeparator| + |r.request.language|
              && t[..|r.request.subject|] == r.request.subject
              && t[|r.request.subject|..|r.request.subject| + |TemplateNameSeparator|] == TemplateNameSeparator
              && t[|r.request.subject| + |TemplateNameSeparator|..] == r.request.language
  {
    var r := GridExport(combination, language, mapping, brand, product, emailParams, mailingHtml);
    if r.Submit? {
      var name, code := r.request.subject, r.request.language;
      var t := r.request.templateName;
      assert t == name + TemplateNameSeparator + code;
      assert t[..|name|] == name;
      assert t[|name|..|name| + |TemplateNameSeparator|] == TemplateNameSeparator;
      assert t[|name| + |TemplateNameSeparator|..] == code;
    }
  }
}
