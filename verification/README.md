# optimove-sync-builder, modelled in Dafny

optimove-sync-builder is a small React front end. An operator picks a brand, a product
of that brand and the mailing items of the product's mailing site, stages them in a
grid as (item, languages) combinations, and exports each (item, language) pair as a
template to the Optimove e-mail platform. This project models the logic behind that
UI as pure functions over immutable records:

- `OptimoveExport` is the selection-and-combination state manager (`useOptimoveExport.ts`).
  It covers brand/product/item selection, adding pending items to the grid with
  de-duplication by item id and default-language preselection, row edits, clear and
  reset, single export, and the sequential bulk export with its success and error counts.
- `CombinationGrid` and `LanguageActionRow` cover the Export buttons:
  - case-insensitive address resolution with the sentinel 0;
  - the missing-configuration guard;
  - the field-by-field export record;
  - the per-row language checkbox.
- `BrandDropdown`, `ProductDropdown` and `MailingItemDropdown` are the pickers. The
  brand and product dropdowns share one value rule, `CodePicker`. Their handlers
  `HandleValueChange` and `SelectValue` apply it to brands and to products. The pickers
  cover:
  - the brand-string conversion;
  - the `'none'` value and first-match lookups;
  - the select value shown;
  - the case-insensitive search filters;
  - item toggling and the length-based select-all.
- `PreviewHtml` is the preview hook as a state machine: a request step (empty id, cache
  hit, cache miss) and a completion step per fetch outcome, over an append-only cache.
- `MockApi` holds the in-memory backend: the fixture tables, keyed lookups with empty or
  null defaults, the template-exists rule and the simulated export response.
- `OptimoveApi` is the service layer: pass-through methods and the unescaped preview URL.
- `Scenario` states the main flow against the fixtures as lemmas.
- `Wiring` states facts across components: how the hook's fields drive the pickers, and how
  the grid's checkbox updates go through the hook.
- `Base`, `Seqs`, `Text` and `Types` hold shared pieces:
  - `Option`;
  - `Attempt` (a promise that resolves or throws);
  - the order-preserving `Filter` and the first-match `FindIndex`/`Find`;
  - ASCII lower-casing, substring search and decimal digits;
  - the records of `src/types/optimove.ts`.

Every asynchronous call is an input to the model:

- a mapping lookup `(brand, product) -> Attempt<Option<Mapping>>`;
- a per-item language lookup;
- the item and product loaders;
- the mailing-HTML fetch `(item, language) -> Attempt<string>`;
- a `succeeds: nat -> bool` telling whether the k-th export call of a bulk export
  resolves;
- a `FetchOutcome` delivered to the preview hook.

`Date.now()` is a `clock: nat -> nat`. It is read once for each pending item that has no row
yet; pending items that already have a row do not read it.

## Model

| member | source | states |
|---|---|---|
| OptimoveExport.SelectBrand | src/hooks/useOptimoveExport.ts:27-36 | the brand is set; product, mapping, pending items and error are cleared; combinations and isLoading are kept |
| OptimoveExport.SelectBrandLastWins | src/hooks/useOptimoveExport.ts:27-36 | only the last brand choice matters: selecting twice equals selecting the second brand once |
| OptimoveExport.SelectProduct | src/hooks/useOptimoveExport.ts:38-60 | without a brand or a product, only product and mapping are cleared. A resolved lookup stores the product and the returned (possibly null) mapping, empties pending items and clears the error. A thrown lookup keeps product, mapping and pending items and records "Failed to load mapping configuration". Loading is off afterwards |
| OptimoveExport.NoProductWithoutBrand | src/hooks/useOptimoveExport.ts:39-42 | without a selected brand no product or mapping can be selected, whatever the lookup does |
| OptimoveExport.SelectMailingItems | src/hooks/useOptimoveExport.ts:62-64 | replaces the pending list and changes nothing else |
| OptimoveExport.NewRow | src/hooks/useOptimoveExport.ts:85-90 | a new row is collapsed, holds the item, preselects the isDefault-filtered languages and has id "combo_" + item id + "_" + clock digits |
| OptimoveExport.BuildRows | src/hooks/useOptimoveExport.ts:80-92 | the lookup throws exactly when some pending item without a row has a throwing language lookup. Otherwise the rows' items are exactly the pending items absent from the existing rows, in pending order, and every row is a new row for its item |
| OptimoveExport.PrependNewRow | src/hooks/useOptimoveExport.ts:85-90 | pushing a new row in front of new rows keeps them all new and puts its item first |
| OptimoveExport.FetchFailsUnfold | src/hooks/useOptimoveExport.ts:80-84 | a language lookup throws for the pending list exactly when it throws for its first absent item or for the rest |
| OptimoveExport.AddToCombinations | src/hooks/useOptimoveExport.ts:66-118 | an empty pending list changes nothing. A throwing lookup changes only the error ("Failed to add items to combinations") and loading. Otherwise the old rows stay as a prefix, the appended rows hold exactly the absent pending items in order, each appended row is new, the pending list is emptied, and nothing else changes |
| OptimoveExport.AddCoversPending | src/hooks/useOptimoveExport.ts:80-98 | after a successful add every pending item has a row |
| OptimoveExport.AddTwiceAddsNothing | src/hooks/useOptimoveExport.ts:82-83 | adding the same items again creates no rows |
| OptimoveExport.AppendKeepsItemIdsUnique | src/hooks/useOptimoveExport.ts:94-98 | appending rows with distinct, new item ids keeps item ids unique |
| OptimoveExport.AddKeepsItemIdsUnique | src/hooks/useOptimoveExport.ts:80-98 | adding keeps row item ids unique when the pending list has no repeated id |
| OptimoveExport.PendingDuplicatesBothAdded | src/hooks/useOptimoveExport.ts:80-91 | the same item pending twice gets two rows, because only the pre-call rows are checked |
| OptimoveExport.MapMatching | src/hooks/useOptimoveExport.ts:123-127 | the rows keep their length and order, matching rows are rewritten and the others are untouched |
| OptimoveExport.UpdateCombinationLanguages | src/hooks/useOptimoveExport.ts:120-129 | rows with the id get the new language list; other rows, the order and every other field are kept |
| OptimoveExport.ToggleCombinationExpanded | src/hooks/useOptimoveExport.ts:131-140 | rows with the id flip isExpanded; nothing else changes |
| OptimoveExport.ToggleTwiceIsIdentity | src/hooks/useOptimoveExport.ts:131-140 | toggling twice restores the state |
| OptimoveExport.RemoveCombination | src/hooks/useOptimoveExport.ts:142-146 | survivors never have the id and come from the old rows; every row without the id survives; nothing else changes |
| OptimoveExport.RemoveKeepsOrder | src/hooks/useOptimoveExport.ts:145 | removal distributes over any split of the rows, so survivors keep their order |
| OptimoveExport.RemoveUnknownIdIsNoOp | src/hooks/useOptimoveExport.ts:145 | removing an id no row has changes nothing |
| OptimoveExport.ClearGrid | src/hooks/useOptimoveExport.ts:237-238 | the grid is emptied and every other field is kept |
| OptimoveExport.AddAfterClearGivesOneRowPerItem | src/hooks/useOptimoveExport.ts:80-98 | after the grid is cleared, a successful add gives exactly one row per pending item in pending order, duplicates included; a throwing lookup leaves the grid empty |
| OptimoveExport.Reset | src/hooks/useOptimoveExport.ts:220-229 | every field is back to its empty initial value |
| OptimoveExport.ResetForgetsHistory | src/hooks/useOptimoveExport.ts:9-17 | any two states reset to the same state, the initial one |
| OptimoveExport.ExportSingle | src/hooks/useOptimoveExport.ts:154-178 | the call's outcome is passed on. A throw records "Failed to export to Optimove" and is re-thrown. Loading is off afterwards |
| OptimoveExport.RowExports | src/hooks/useOptimoveExport.ts:196-198 | a row contributes one call per selected language, in order, for its item id |
| OptimoveExport.PlannedExportsCount | src/pages/ExportPopup.tsx:175 | the calls planned for a bulk export number exactly the languages summed over the rows, as the badge shows |
| OptimoveExport.CountSucceeded | src/hooks/useOptimoveExport.ts:197-203 | no more calls succeed than were made |
| OptimoveExport.ExportAll | src/hooks/useOptimoveExport.ts:180-218 | with no rows nothing is attempted and the state is unchanged. Otherwise exactly one call per (row, selected language) is made, in list order, and failures do not stop the loop. successCount counts the resolved calls, and successCount + errorCount equals the number of selected languages |
| CombinationGrid.ResolveEmailId | src/components/grid/CombinationGrid.tsx:114-117 | the Id of the first entry whose Email equals the target ignoring ASCII case, or 0 when none does. An absent address throws exactly when the list is non-empty, and gives 0 for an empty list |
| CombinationGrid.ResolveEmailIdIgnoresCase | src/components/grid/CombinationGrid.tsx:115 | resolution depends on the target only through its lower-cased form |
| CombinationGrid.ResolveEmailIdExamples | src/components/grid/CombinationGrid.tsx:114-117 | an upper-case target finds its entry; an empty list gives 0 even for an absent address; an absent address against a non-empty list throws |
| CombinationGrid.ZeroIdLooksUnresolved | src/components/grid/CombinationGrid.tsx:116 | an entry whose Id is 0 cannot be told apart from "not found" |
| CombinationGrid.HandleLanguageToggle | src/components/grid/CombinationGrid.tsx:97-107 | an unknown row id gives no update. Otherwise the update names that row. Checking appends the language to the first matching row's list without a duplicate check; unchecking filters out every language with that code |
| CombinationGrid.UncheckRemovesCode | src/components/grid/CombinationGrid.tsx:104 | unchecking leaves no language with the code, keeps every other one, and keeps their order |
| CombinationGrid.GridExport | src/components/grid/CombinationGrid.tsx:323-354 | missing mapping, brand or product means no HTML fetch and no submission. Otherwise the HTML is fetched for (item id, code). A throwing fetch submits nothing. An address lookup that throws (an absent address against a non-empty list) submits nothing. Otherwise every field of the record is stated: both address ids are 0 without e-mail parameters, and otherwise resolved against the reply-to and from lists |
| CombinationGrid.MissingAddressBlocksExport | src/components/grid/CombinationGrid.tsx:342-343 | an item without sender addresses is submitted only while both address lists are empty or not loaded |
| CombinationGrid.TemplateNameSplits | src/components/grid/CombinationGrid.tsx:340-341 | a submitted record's template name is exactly its subject (the item name), the separator " \| " and its language code, in that order |
| LanguageActionRow.RowExport | src/components/grid/LanguageActionRow.tsx:58-96 | the same guard, fetch failure, address-lookup failure and record as the grid, with the address ids from the injected resolver over the loaded lists, or over empty lists |
| LanguageActionRow.RowExportMatchesGrid | src/components/grid/LanguageActionRow.tsx:58-96 | with the grid's resolver, the row's button produces exactly the grid's action, failures included |
| BrandDropdown.ToBrands | src/components/dropdowns/BrandDropdown.tsx:25-29 | one brand per string, in order, with code = name = the string and an empty description |
| BrandDropdown.BrandCodesOfToBrands | src/components/dropdowns/BrandDropdown.tsx:25-29 | reading the codes back gives the fetched strings |
| BrandDropdown.LoadBrands | src/components/dropdowns/BrandDropdown.tsx:19-37 | a throw keeps the current list. Otherwise brand i has the i-th fetched string as code and name and an empty description, so the codes read back are the fetched strings |
| BrandDropdown.PickAfterLoad | src/components/dropdowns/BrandDropdown.tsx:25-50 | after a successful load, choosing a fetched string other than 'none' selects the brand made from its first occurrence |
| CodePicker.Pick | src/components/dropdowns/BrandDropdown.tsx:43-51 | 'none' selects nothing. Any other value selects the first option with that code, or nothing exactly when no option has it. The brand and product handlers are this rule over their lists |
| CodePicker.Shown | src/components/dropdowns/ProductDropdown.tsx:76 | the select shows the selection's code, or 'none' when nothing is selected or the code is empty; both dropdowns use it |
| CodePicker.PickShownRoundTrip | src/components/dropdowns/BrandDropdown.tsx:43-59 | choosing the shown value gives back the option, when it is the first with its code and the code is neither empty nor 'none' |
| CodePicker.NoneCodedUnselectable | src/components/dropdowns/BrandDropdown.tsx:44-59 | an option coded 'none' shows as nothing selected and no value selects it |
| ProductDropdown.OnBrandChange | src/components/dropdowns/ProductDropdown.tsx:31-52 | without a brand, products and selection are cleared. With a brand, the list is what the loader gives for its code (empty on a throw) and the selection is kept |
| ProductDropdown.FilteredProducts | src/components/dropdowns/ProductDropdown.tsx:66-68 | every offered product comes from the list and matches; every matching product is offered. Order and repeats are stated by FilteredProductsKeepOrder |
| ProductDropdown.FilteredProductsKeepOrder | src/components/dropdowns/ProductDropdown.tsx:66-68 | the filter distributes over any split of the list and keeps or drops a single product by its match, so the result is the order-preserving sublist of matches, repeats included |
| ProductDropdown.EmptySearchOffersAll | src/components/dropdowns/ProductDropdown.tsx:66-68 | an empty search offers every product, in order |
| ProductDropdown.PickIgnoresSearch | src/components/dropdowns/ProductDropdown.tsx:60-68 | the handler looks in the whole product list, so a value can select a product the search hides |
| MailingItemDropdown.OnMappingChange | src/components/dropdowns/MailingItemDropdown.tsx:26-47 | without a mapping, items and selection are cleared. With one, the items are what the loader gives for its site (empty on a throw) and the selection is kept |
| MailingItemDropdown.HandleItemToggle | src/components/dropdowns/MailingItemDropdown.tsx:49-55 | checking appends the item. Unchecking keeps only items with another id, and keeps every one of them; order and repeats are stated by UncheckKeepsOrder |
| MailingItemDropdown.UncheckKeepsOrder | src/components/dropdowns/MailingItemDropdown.tsx:53 | unchecking distributes over any split of the selection and keeps or drops a single item by its id, so the result is the order-preserving sublist, repeats included |
| MailingItemDropdown.ClickItem | src/components/dropdowns/MailingItemDropdown.tsx:49-61 | a row click flips whether the item shows as selected |
| MailingItemDropdown.ClickTwiceRestores | src/components/dropdowns/MailingItemDropdown.tsx:49-55 | clicking an unselected item twice restores the selection exactly |
| MailingItemDropdown.FilteredItems | src/components/dropdowns/MailingItemDropdown.tsx:75-79 | every shown item comes from the list and matches on its lower-cased name, id or template id; every matching item is shown. A missing template id never matches through that field. Order and repeats are stated by FilteredItemsKeepOrder |
| MailingItemDropdown.FilteredItemsKeepOrder | src/components/dropdowns/MailingItemDropdown.tsx:75-79 | the filter distributes over any split of the list and keeps or drops a single item by its match, so the result is the order-preserving sublist of matches, repeats included |
| MailingItemDropdown.EmptySearchShowsAll | src/components/dropdowns/MailingItemDropdown.tsx:75-79 | an empty term shows every item, in order |
| MailingItemDropdown.SearchIgnoresTermCase | src/components/dropdowns/MailingItemDropdown.tsx:75-79 | a term and its lower-cased form match the same items |
| MailingItemDropdown.HandleSelectAll | src/components/dropdowns/MailingItemDropdown.tsx:57-63 | equal lengths clear the selection; otherwise the selection becomes the shown items |
| MailingItemDropdown.SelectAllFlips | src/components/dropdowns/MailingItemDropdown.tsx:57-81 | after select-all the box is checked exactly when it was unchecked and something is shown |
| MailingItemDropdown.SelectAllJudgesByLength | src/components/dropdowns/MailingItemDropdown.tsx:57-81 | a same-size selection of other items counts as all selected and is cleared |
| PreviewHtml.HttpError | src/hooks/usePreviewHtml.ts:33 | the status error is "Preview HTTP " followed by the status digits |
| PreviewHtml.HttpErrorInjective | src/hooks/usePreviewHtml.ts:33 | different statuses give different messages |
| PreviewHtml.Request | src/hooks/usePreviewHtml.ts:12-31 | an empty item id changes nothing and fetches nothing. A hit shows the cached HTML (none for an empty cached string) and fetches nothing. A miss sets loading and clears the error; it then starts a fetch for key itemId + "\|" + lang ("en" when omitted), unless the site base URL does not parse, in which case no fetch starts. The site base URL is not part of the key |
| PreviewHtml.BadBaseUrlKeepsLoading | src/hooks/usePreviewHtml.ts:22-29 | a miss under a base URL that does not parse starts no fetch, so loading stays on and no HTML appears, however often the request repeats |
| PreviewHtml.Complete | src/hooks/usePreviewHtml.ts:32-41 | a 2xx response caches and shows its body. Another status records its error. An abort changes only loading. Another failure records its message, or "Failed to load preview" when that is empty. Loading is off after every outcome |
| PreviewHtml.CompletionErrorNonEmpty | src/hooks/usePreviewHtml.ts:33-39 | every completion that records an error records a non-empty one |
| PreviewHtml.HitAfterSuccess | src/hooks/usePreviewHtml.ts:17-36 | after a successful fetch the same item and language are served from the cache under any base URL |
| PreviewHtml.CacheNeverShrinks | src/hooks/usePreviewHtml.ts:4-35 | no run of requests and completions removes a cached key |
| PreviewHtml.CacheKeyInjective | src/hooks/usePreviewHtml.ts:13 | for item ids without "\|", the key determines the item id and the effective language |
| PreviewHtml.CacheKeyCollisions | src/hooks/usePreviewHtml.ts:6-13 | an item id containing "\|" can collide with another pair, and an omitted language shares the "en" key |
| MockApi.FixtureLanguagesHaveOneDefault | src/mock/optimoveMockApi.ts:127-153 | every fixture language list has exactly one default entry |
| MockApi.GetMockBrands | src/mock/optimoveMockApi.ts:162-166 | four brands, BMW first |
| MockApi.GetMockProducts | src/mock/optimoveMockApi.ts:168-172 | an unknown brand gives []; a known one gives its fixture list |
| MockApi.GetMockMapping | src/mock/optimoveMockApi.ts:174-179 | null exactly when brand + "_" + product is not a fixture key. A found mapping's own codes make the queried key, and its site has mailing items |
| MockApi.MappingsWellKeyed | src/mock/optimoveMockApi.ts:33-64 | each mapping fixture is stored under the key its codes make |
| MockApi.MappingKeyIsAmbiguous | src/mock/optimoveMockApi.ts:176 | brand "BMW_BMW" with product "SALES" finds the BMW/BMW_SALES mapping |
| MockApi.GetMockMailingItems | src/mock/optimoveMockApi.ts:181-185 | empty exactly for an unknown site; every item returned belongs to the queried site and has a language list |
| MockApi.SitesWellFormed | src/mock/optimoveMockApi.ts:67-153 | every site of the item table lists an item, each item is filed under its own site, and each has a language list |
| MockApi.GetMockLanguages | src/mock/optimoveMockApi.ts:187-191 | an unknown item gives []; a known one gives a non-empty list with one default |
| MockApi.BmwSalesFixture | src/mock/optimoveMockApi.ts:34-132 | BMW/BMW_SALES maps to bmw-sales-site; mailing_001 offers en-US (default), de-DE and fr-FR |
| MockApi.TemplateExistsIff | src/mock/optimoveMockApi.ts:193-198 | a template exists exactly when the code is listed for the item, and then the item offers that language |
| MockApi.ExportToOptimove | src/mock/optimoveMockApi.ts:200-221 | always success, isUpdate never set, templateId starts with "template_" + item + "_" + code |
| MockApi.ExportTemplateIdRecordsExistence | src/mock/optimoveMockApi.ts:205-218 | the templateId ends in "_updated" exactly when the template exists, and in "_new" exactly when not |
| OptimoveApi.GetBrands | src/services/optimoveApi.ts:16-18 | four brands, BMW first, with distinct codes, so a code picks at most one brand |
| OptimoveApi.GetProducts | src/services/optimoveApi.ts:20-22 | empty exactly for an unknown brand; product codes are distinct |
| OptimoveApi.GetMapping | src/services/optimoveApi.ts:24-26 | null exactly when brand + "_" + product is not a stored key; a found mapping leads to a non-empty item list |
| OptimoveApi.GetMailingItems | src/services/optimoveApi.ts:28-30 | empty exactly for an unknown site; every item belongs to the site and has a non-empty language list |
| OptimoveApi.GetLanguages | src/services/optimoveApi.ts:32-34 | empty exactly for an unknown item; a non-empty list has exactly one default |
| OptimoveApi.TemplateExists | src/services/optimoveApi.ts:36-38 | true exactly for a listed (item, language) pair, and then the item offers that language |
| OptimoveApi.ExportToOptimove | src/services/optimoveApi.ts:40-42 | always success without isUpdate; the template id ends in "_updated" exactly when a template exists for the pair |
| OptimoveApi.ConstructPreviewUrl | src/services/optimoveApi.ts:45-47 | the URL starts with the host ("https://sitecore-host" by default) and ends with the fixed mode suffix. Item id and language appear in it verbatim |
| OptimoveApi.ParseConstructRoundTrip | src/services/optimoveApi.ts:46 | for an item id without '&', the item id and language can be read back from the URL |
| OptimoveApi.ParseLaidOutUrl | src/services/optimoveApi.ts:46 | the laid-out URL parses back to its item id and language |
| OptimoveApi.FirstAmpersandAfterItemId | src/services/optimoveApi.ts:46 | after an item id without '&', the first '&' opens the language parameter |
| OptimoveApi.UnescapedUrlIsAmbiguous | src/services/optimoveApi.ts:46 | two different (item, language) pairs can give the same URL |
| Scenario.ChooseBmwSales | src/hooks/useOptimoveExport.ts:27-59 | choosing BMW then BMW Sales loads the bmw-sales-site mapping |
| Scenario.X5Defaults | src/hooks/useOptimoveExport.ts:88 | mailing_001 starts with en-US only |
| Scenario.AddOneToEmptyGrid | src/hooks/useOptimoveExport.ts:80-98 | one pending item on an empty grid gives exactly its row |
| Scenario.BmwSalesWalkthrough | src/hooks/useOptimoveExport.ts:27-98 | the whole walk ends with one collapsed mailing_001 row preselected with en-US |
| Wiring.NewBrandResetsPickers | src/pages/ExportPopup.tsx:88-108 | a new brand empties the item picker and its selection and clears the product selection; the product list is reloaded for the brand, or emptied without one |
| Wiring.CheckThenUncheckRestores | src/components/grid/CombinationGrid.tsx:97-107 | checking a language a uniquely identified row lacks and then unchecking it, each applied through updateCombinationLanguages, restores the state exactly |
| Wiring.ExportSingleWithBackend | src/hooks/useOptimoveExport.ts:154-178 | against the backend a single export resolves with success and no isUpdate, and records no error |

## Left out

- Rendering is not modelled: JSX, toasts, console logging, `useEffect`/`useCallback`
  scheduling, `setTimeout` delays and `formatDate`. None of it is logic.
  `toLowerCase` is modelled as ASCII lower-casing, with no Unicode case mapping.
- `Date.now()` is the `clock` parameter.
  - OptimoveExport.AddToCombinations: the row ids are stated as "combo_" + item id + "_"
    + the digits of some clock reading. The contract does not say which reading.
- `src/lib/previewUrl.ts` and `PreviewDrawer.tsx` are not part of this model. They wrap the
  platform URL parser. The preview hook's fetch therefore carries the site base URL, item
  and language, not a URL. Whether the parser accepts a base URL is the parameter
  `urlParses`; when it does not, building the URL throws and the hook starts no fetch.
  - PreviewHtml.Request: the abort of the previous fetch that precedes the URL build is
    not modelled; that fetch's completion arrives as an `Aborted` event.
- `useInView.ts` is not part of this model because it wraps IntersectionObserver. The
  prefetch in `LanguageActionRow.tsx:26-30` calls a hook inside an effect, so it is not
  modelled as filling the cache.
- Fetch, AbortController and interleavings of concurrent preview fetches are not
  modelled. Completions arrive as sequential `Done` events.
  - PreviewHtml.Complete: a failure while reading the response body is folded into
    `Failed`.
- The loading races between overlapping async handlers are not modelled. Each handler is
  one atomic step from the state it was called with.
- `ExportPopup.tsx` is layout. Only its badge count is modelled, as
  `SelectedLanguageCount`.
- `getMailingHtml` and `getEmailParameters` are called by the grid but do not exist in the
  service. They are parameters (`mailingHtml`, `emailParams`). `mailingHtml` may throw:
  as the service is written, the call rejects on every click that passes the guard, which
  is the model's `HtmlFetchFailed` with nothing submitted.
- The interface types disagree with their use. The model follows the use:
  - `MailingItem` gets the `replyToAddress`/`fromAddress` fields the Export buttons read,
    as optional strings, because the item record does not declare them.
  - The export record is built as its own `ExportRecord`. It is not fed to `exportSingle`,
    which takes (item id, language code).
  - `BrandDropdown` receives strings.
  - `Product.brandCode` is optional because no fixture sets it.
  - `ExportResponse.isUpdate` is optional because the mock never sets it.
- The fixture items carry no sender addresses, so both are `None`. Lower-casing an absent
  address throws once there is an entry to compare it with (`ResolveEmailId`).
- Object keys inherited from JavaScript's prototype (such as "constructor") are not
  modelled as present in the fixture tables.
- OptimoveExport.ExportAll: the outer catch that records "Failed to export items" is not
  modelled. Every call's failure is caught inside the loop, so it cannot be reached.
- Mapping failure: when the mapping lookup throws, the code keeps the old product and
  mapping and records an error. The model does the same.
- Row invariants: the code does not keep item ids unique across rows, and it does not
  keep language codes unique within a row. Items pending twice
  both get rows (`PendingDuplicatesBothAdded`), and checking appends without a check.
  Uniqueness is proved only under a duplicate-free pending list (`AddKeepsItemIdsUnique`).
  Two rows for the same item get the same row id when the clock gives the same millisecond
  twice; the new-row contract allows this, and updating, toggling or removing that id then
  acts on both rows.
- Default languages: new rows preselect every language flagged `isDefault`, however many
  there are.
- Preview errors: on a cache hit and on a successful fetch, the code leaves `error` as it
  was. The model does the same.
