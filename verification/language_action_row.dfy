/** The per-language action row's Export button. It repeats the grid's guard
    and record, but takes the address resolver as an injected parameter.
 */
module LanguageActionRow {
  import opened Base
  import opened Types
  import CombinationGrid

  /** The row's Export button for its (combination, language) pair, with the
      injected HTML fetch and address resolver. */
  function RowExport(combination: CombinationRow, language: Language, mapping: Option<Mapping>,
                     brand: Option<Brand>, product: Option<Product>,
                     emailParams: Option<EmailParameters>,
                     mailingHtml: (string, string) -> Attempt<string>,
                     resolveEmailId: (seq<EmailAddress>, Option<string>) -> Attempt<int>)
    : (r: CombinationGrid.ExportAction)
    ensures r.MissingConfiguration? <==> mapping.None? || brand.None? || product.None?
    ensures !r.MissingConfiguration? ==>
              r.htmlItemId == combination.mailingItem.id && r.htmlLanguage == language.code
    ensures r.HtmlFetchFailed? <==>
              !r.MissingConfiguration? && mailingHtml(combination.mailingItem.id, language.code).Threw?
    ensures r.AddressLookupFailed? <==>
              && !r.MissingConfiguration? && mailingHtml(combination.mailingItem.id, language.code).Returned?
              && (|| resolveEmailId(CombinationGrid.ReplyToList(emailParams), combination.mailingItem.replyToAddress).Threw?
                  || resolveEmailId(CombinationGrid.FromList(emailParams), combination.mailingItem.fromAddress).Threw?)
    ensures r.Submit? ==>
              && r.request.html == mailingHtml(combination.mailingItem.id, language.code).value
              && r.request.mailingItemId == combination.mailingItem.id
              && r.request.templateName
                 == combination.mailingItem.name + CombinationGrid.TemplateNameSeparator + language.code
              && r.request.subject == combination.mailingItem.name
              && r.request.mailType == combination.mailingItem.name
              && r.request.plainText == CombinationGrid.PlainTextPlaceholder
              && r.request.fromName == CombinationGrid.FromName
              && r.request.language == language.code
              && r.request.folderID == mapping.value.folderId
              && r.request.brandId == mapping.value.optimoveBrandId
              && r.request.mailingSite == mapping.value.mailingSite
              && r.request.brandName == mapping.value.brandCode
              && r.request.productName == mapping.value.productCode
    ensures r.Submit? ==>
              && Returned(r.request.replyToAddressID)
                 == resolveEmailId(CombinationGrid.ReplyToList(emailParams), combination.mailingItem.replyToAddress)
              && Returned(r.request.fromEmailAddressID)
                 == resolveEmailId(CombinationGrid.FromList(emailParams), combination.mailingItem.fromAddress)
  {
    if mapping.None? || brand.None? || product.None? then CombinationGrid.MissingConfiguration
    else
      var item := combination.mailingItem;
      match mailingHtml(item.id, language.code)
      case Threw => CombinationGrid.HtmlFetchFailed(item.id, language.code)
      case Returned(html) =>
        var replyTo := resolveEmailId(CombinationGrid.ReplyToList(emailParams), item.replyToAddress);
        var from := resolveEmailId(CombinationGrid.FromList(emailParams), item.fromAddress);
        if replyTo.Threw? || from.Threw? then CombinationGrid.AddressLookupFailed(item.id, language.code)
        else
          var m := mapping.value;
          CombinationGrid.Submit(item.id, language.code, CombinationGrid.ExportRecord(
            mailingItemId := item.id,
            templateName := item.name + CombinationGrid.TemplateNameSeparator + language.code,
            subject := item.name,
            html := html,
            plainText := CombinationGrid.PlainTextPlaceholder,
            fromName := CombinationGrid.FromName,
            replyToAddressID := replyTo.value,
            fromEmailAddressID := from.value,
            folderID := m.folderId,
            brandId := m.optimoveBrandId,
            language := language.code,
            mailingSite := m.mailingSite,
            brandName := m.brandCode,
            productName := m.productCode,
            mailType := item.name))
  }

  /** Given the grid's resolver, the row's button does exactly what the grid's
      button does: same guard, same HTML request, same failures, same record
      field for field. */
  lemma RowExportMatchesGrid(combination: CombinationRow, language: Language, mapping: Option<Mapping>,
                             brand: Option<Brand>, product: Option<Product>,
                             emailParams: Option<EmailParameters>,
                             mailingHtml: (string, string) -> Attempt<string>)
    ensures RowExport(combination, language, mapping, brand, product, emailParams, mailingHtml,
                      CombinationGrid.ResolveEmailId)
            == CombinationGrid.GridExport(combination, language, mapping, brand, product, emailParams, mailingHtml)
  {
    var r := RowExport(combination, language, mapping, brand, product, emailParams, mailingHtml,
                       CombinationGrid.ResolveEmailId);
    var g := CombinationGrid.GridExport(combination, language, mapping, brand, product, emailParams, mailingHtml);
    if r.Submit? {
      assert r.request == g.request;
    }
  }
}
