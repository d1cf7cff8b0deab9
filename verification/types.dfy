/** The records the application passes around: brands, products, the
    brand/product mapping, mailing items, languages, staged combinations,
    the export-state record, e-mail address lists and export responses.
    Nullable and optional properties are `Option`s.
 */
module Types {
  import opened Base

  datatype Brand = Brand(code: string, name: string, description: Option<string>)

  /** `brandCode` is declared as required, but no product fixture sets it. */
  datatype Product = Product(code: string, name: string, brandCode: Option<string>,
                             description: Option<string>)

  /** Delivery configuration for one brand/product pair. */
  datatype Mapping = Mapping(
    brandCode: string,
    productCode: string,
    mailingSite: string,
    replyTo: string,
    fromAddress: string,
    optimoveBrandId: string,
    folderId: string,
    emailIds: seq<string>)

  /** A content item eligible for export. `replyToAddress` and `fromAddress`
      are the sender fields the export buttons read from the item; the item
      record does not declare them, so `None` stands for an absent property. */
  datatype MailingItem = MailingItem(
    id: string,
    name: string,
    mailingSite: string,
    templateId: Option<string>,
    path: string,
    lastModified: string,
    isActive: bool,
    replyToAddress: Option<string>,
    fromAddress: Option<string>)

  datatype Language = Language(code: string, name: string, displayName: string, isDefault: bool)

  /** A mailing item staged for export together with its chosen languages. */
  datatype CombinationRow = CombinationRow(
    id: string,
    mailingItem: MailingItem,
    selectedLanguages: seq<Language>,
    isExpanded: bool)

  /** The single state record held by the export hook. */
  datatype OptimoveState = OptimoveState(
    selectedBrand: Option<Brand>,
    selectedProduct: Option<Product>,
    selectedMailingItems: seq<MailingItem>,
    mapping: Option<Mapping>,
    combinations: seq<CombinationRow>,
    isLoading: bool,
    error: Option<string>)

  /** `isUpdate` is declared as a boolean; `None` is a response that leaves it unset. */
  datatype ExportResponse = ExportResponse(
    success: bool,
    templateId: Option<string>,
    message: string,
    isUpdate: Option<bool>)

  /** One entry of the platform's address lists. */
  datatype EmailAddress = EmailAddress(Id: int, Email: string)

  datatype EmailParameters = EmailParameters(
    FromEmailAddresses: seq<EmailAddress>,
    ReplyToAddresses: seq<EmailAddress>)

  /** The `isDefault` flag as a predicate value, for filtering. */
  predicate IsDefault(l: Language)
  {
    l.isDefault
  }
}
