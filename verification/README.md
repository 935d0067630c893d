# Quote builder for electricians and carpenters: a Dafny model

This project models the core of a browser-only quote builder for small
trades. The user picks a trade (electrician or carpenter) and gets an
empty quote, grouped in sections. The editor page offers the product
catalog of the trade, and custom products can be created, edited and
deleted in local storage. In this version of the program, though, the
catalog's add button never reaches the quote (see below). The quote
handlers still add, update and remove lines when they are called. The
builder prices the quote (products, labour, margin, discount, French VAT,
called "TVA" here). It then previews the printable document and keeps a
history of saved quotes in local storage.

The model follows the program's own structure, one module per source file:

| module | file | what it holds |
|---|---|---|
| `QuoteTypes` | `quote_types.dfy` | the entities: products, lines, sections, quotes, calculations; money as exact `real` |
| `QuoteUtils` | `quote_utils.dfy` | `calculateQuote`, the quote number format, `createEmptyQuote` |
| `QuoteBuilder` | `quote_builder.dfy` | the editor page: a class holding the optional quote, with one method per handler over pure transition functions |
| `QuoteStorage` | `quote_storage.dfy` | the history store and the number counter, a class whose fields stand for the two storage keys |
| `CustomProducts` | `custom_products.dfy` | the custom-product store, a class over the stored list |
| `Products` | `products.dfy` | the two built-in catalogs of fifteen products each, and their category lists |
| `QuotePreview` | `quote_preview.dfy` | the document plan: a list of typed blocks built from a quote and its calculations |
| `ProductCatalog` | `product_catalog.dfy` | the product picker: the filter, the quantity fields, the custom-product dialog |
| `SectionManager` | `section_manager.dfy` | the section editor: the guarded add, rename and delete requests |
| `QuoteItemsList` | `quote_items_list.dfy` | the quantity requests of the minus, plus and number controls |
| `Wrappers`, `Seqs`, `Text` | | `Option`; filter, find, dedupe and subsequence on sequences; the string built-ins used (`trim`, `toLowerCase`, `includes`, `startsWith`, `padStart`, decimal printing and parsing) |

Several values come from outside the program and are passed in as
parameters:
- clocks: a day number, a year and a month, and `Date.now()` as a number;
- `Math.random()`, as a real in [0, 1);
- fresh UUIDs, as strings;
- `parseFloat`/`parseInt` results, as `Option` values, with `None` for NaN;
- storage failures, as one boolean per read or write.

Six fields are missing from `createEmptyQuote` and `handleAddProduct` in
this version of the program. They are also passed in, with nothing claimed
about them:
- `sections`, `companyInfo` and `laborVisible` of a new quote;
- `sectionId`, `unit` and `included` of a new line.

In the section editor, `createDefaultSection` is not part of this model.
The add request carries the two arguments it would be called with.

Behaviours of the program worth knowing:
- `calculateQuote` sums the totals of every line, whatever its `included`
  flag. The document shows only included lines. So the section subtotals
  of the document need not add up to the products subtotal
  (`QuotePreview.ExcludedItemStillCounted`).
- Adding a product that some line already holds merges into the first such
  line in any section. It does not only merge within the target section,
  and the added line takes no section from the call.
- The editor page renders the product catalog with a trade and an add
  handler but no `sectionId` (src/pages/QuoteBuilder.tsx:179-182). The
  catalog's `handleAdd` returns at once when `sectionId` is falsy. So on
  this page `ProductCatalog.Catalog.HandleAdd` is always in its
  `sectionId == ""` case: it returns `None` and leaves the quantities as
  they are. No product ever reaches `handleAddProduct` from the page; the
  model takes a missing `sectionId` as the empty string.
- The built-in catalog of a trade does not include custom products, so
  custom products are never listed for adding either.
- A failed write in `saveCustomProduct` and `deleteCustomProduct` is not
  caught: the handler stops and the dialog stays open. The quote history,
  by contrast, catches its failures.
- The minus control stops at 1. The number field has no floor: a typed
  negative number is requested as it is.
- A partial update of the quote may supply lines whose totals are stale.
  Line consistency is kept only when the supplied lines are consistent.

## Model

| member | source | states |
|---|---|---|
| QuoteUtils.CalculateQuote | src/lib/quote-utils.ts:3-42 | each of the nine amounts on its own: products subtotal = sum of all line totals; labour = hours × rate; subtotal HT = their sum; margin = subtotal HT × margin/100; discount = subtotal with margin × discount/100; TVA = total HT × TVA/100. Closed forms: total HT = subtotal HT × (1 + margin/100) × (1 − discount/100), TTC = HT × (1 + TVA/100) |
| QuoteUtils.SumTotals | src/lib/quote-utils.ts:5 | the left fold over every line total; non-negative line totals give a non-negative products subtotal (its other properties are the two lemmas below and `QuoteUtils.CalculateIgnoresIncluded`) |
| QuoteUtils.SumTotalsAppend | src/lib/quote-utils.ts:5 | the products subtotal of a concatenation is the sum of the parts |
| QuoteUtils.SumTotalsOfTotals | src/lib/quote-utils.ts:5 | the products subtotal depends on the line totals alone |
| QuoteUtils.CalculateDependsOnInputsOnly | src/lib/quote-utils.ts:3-42 | quotes with the same line totals, hours, rate, margin, discount and TVA price identically |
| QuoteUtils.CalculateIgnoresIncluded | src/lib/quote-utils.ts:5 | flipping a line's `included` flag changes none of the nine amounts |
| QuoteUtils.CalculateBounds | src/lib/quote-utils.ts:20-23 | with non-negative inputs and a discount of at most 100%, 0 ≤ total HT ≤ subtotal with margin |
| QuoteUtils.TtcAtLeastHt | src/lib/quote-utils.ts:26-29 | a non-negative total HT at a non-negative TVA rate gives TTC ≥ HT |
| QuoteUtils.WorkedExample | src/lib/quote-utils.ts:5-29 | lines of 245 and 89, 4 h at 45, TVA 20%: subtotal HT 514, TVA 102.8, TTC 616.8 |
| QuoteUtils.WorkedExampleWithDiscount | src/lib/quote-utils.ts:5-29 | the same with a 10% discount: discount 51.4, HT 462.6, TVA 92.52, TTC 555.12 |
| QuoteUtils.FormatQuoteNumber | src/lib/quote-utils.ts:56 | a quote number starts with `DEV-` |
| QuoteUtils.SerialPartOfFormat | src/lib/quote-utils.ts:55-56 | the part after the last dash is the zero-padded serial, parses back to the serial, and has three digits below 1000 |
| QuoteUtils.FormatQuoteNumberInjective | src/lib/quote-utils.ts:56 | different serials in the same month give different numbers |
| QuoteUtils.MonthIsTwoDigits | src/lib/quote-utils.ts:54 | months 1 to 12 print as exactly two digits |
| QuoteUtils.RandomSerial | src/lib/quote-utils.ts:55 | `floor(random × 1000)` is below 1000 |
| QuoteUtils.GenerateQuoteNumber | src/lib/quote-utils.ts:51-57 | the number starts with `DEV-` and ends in a three-digit serial below 1000 |
| QuoteUtils.CreateEmptyQuote | src/lib/quote-utils.ts:59-86 | no lines, empty notes and client, 0 h at 45, margin 20, discount 0, TVA 20, valid for 30 days, a `DEV-` number |
| QuoteUtils.ZeroBaseCalculatesToZero | src/lib/quote-utils.ts:3-42 | no lines and no hours give nine zero amounts, whatever the rates |
| QuoteUtils.EmptyQuoteCalculatesToZero | src/lib/quote-utils.ts:59-86 | a new quote prices at zero throughout and its lines are consistent |
| QuoteBuilder.FindByProduct | src/pages/QuoteBuilder.tsx:34-36 | the first line holding the product, or none exactly when no line holds it |
| QuoteBuilder.FindByProductAt | src/pages/QuoteBuilder.tsx:34-36 | the first line with the product id is the one found |
| QuoteBuilder.WithQuantity | src/pages/QuoteBuilder.tsx:59 | the updated line has the new quantity, total = unit price × quantity, and every other field unchanged |
| QuoteBuilder.UpdateQuantityItems | src/pages/QuoteBuilder.tsx:57-61 | lines with the id get the new quantity and total; the others are unchanged; consistent lines stay consistent |
| QuoteBuilder.UpdateQuantityUnknownId | src/pages/QuoteBuilder.tsx:57-61 | an id that no line has changes nothing |
| QuoteBuilder.UpdateQuantity | src/pages/QuoteBuilder.tsx:52-63 | only the lines of the quote change, and consistency is kept |
| QuoteBuilder.NewItem | src/pages/QuoteBuilder.tsx:41-47 | a new line is consistent: total = product price × quantity |
| QuoteBuilder.AddProductItems | src/pages/QuoteBuilder.tsx:34-49 | adding a product keeps the lines consistent |
| QuoteBuilder.AddProduct | src/pages/QuoteBuilder.tsx:31-50 | only the lines of the quote change, and consistency is kept |
| QuoteBuilder.AddProductAppends | src/pages/QuoteBuilder.tsx:40-48 | a product no line holds is appended as exactly one new line |
| QuoteBuilder.UpdateQuantityOfUniqueLine | src/pages/QuoteBuilder.tsx:57-61 | with unique ids, updating line k by its id changes line k alone |
| QuoteBuilder.AddProductMerges | src/pages/QuoteBuilder.tsx:38-39 | a product already held merges into its first line: quantity summed, total recomputed, no line added, the others unchanged |
| QuoteBuilder.AddSameProductTwice | src/pages/QuoteBuilder.tsx:31-50 | adding a new product twice gives ONE new line of the summed quantity |
| QuoteBuilder.RemoveItem | src/pages/QuoteBuilder.tsx:65-71 | exactly the lines without the id remain, in order, each with as many copies as before; the lines with the id are all gone; an absent id changes nothing |
| QuoteBuilder.UpdateQuote | src/pages/QuoteBuilder.tsx:73-76 | each of the sixteen fields takes the supplied value when the update has one and keeps the old value otherwise; an empty update changes nothing |
| QuoteBuilder.UpdateQuoteIdempotent | src/pages/QuoteBuilder.tsx:75 | applying the same partial update twice is applying it once |
| QuoteBuilder.UpdateQuoteTotal | src/pages/QuoteBuilder.tsx:75 | an update supplying every field gives the same quote from any starting quote |
| QuoteBuilder.UpdateQuoteCompose | src/pages/QuoteBuilder.tsx:75 | two updates in a row are one update in which, field by field, the later one wins where it supplies a value |
| QuoteBuilder.Builder.constructor | src/pages/QuoteBuilder.tsx:18-19 | no trade and no quote |
| QuoteBuilder.Builder.Calculations | src/pages/QuoteBuilder.tsx:21-24 | the calculations exist exactly when a quote does, and price that quote |
| QuoteBuilder.Builder.HandleTradeSelect | src/pages/QuoteBuilder.tsx:26-29 | sets the trade and a new empty quote for it |
| QuoteBuilder.Builder.HandleUpdateQuantity | src/pages/QuoteBuilder.tsx:52-63 | a no-op without a quote; otherwise the quote becomes `UpdateQuantity`, and consistent lines stay consistent |
| QuoteBuilder.Builder.HandleAddProduct | src/pages/QuoteBuilder.tsx:31-50 | a no-op without a quote; otherwise merge or append as `AddProduct`, and consistent lines stay consistent |
| QuoteBuilder.Builder.HandleRemoveItem | src/pages/QuoteBuilder.tsx:65-71 | a no-op without a quote; otherwise the quote becomes `RemoveItem` |
| QuoteBuilder.Builder.HandleUpdateQuote | src/pages/QuoteBuilder.tsx:73-76 | a no-op without a quote; otherwise the quote becomes `UpdateQuote` of it, so every supplied field lands and the rest stay; consistency is kept when the supplied lines are consistent |
| QuoteBuilder.Builder.HandleReset | src/pages/QuoteBuilder.tsx:78-81 | back to no trade and no quote |
| QuoteStorage.FindQuote | src/lib/quote-storage.ts:18 | the first entry with the id, or none exactly when no entry has it |
| QuoteStorage.Upsert | src/lib/quote-storage.ts:17-23 | the history keeps its length or grows by one, and is never empty |
| QuoteStorage.UpsertPrepends | src/lib/quote-storage.ts:21-22 | a new id goes to the front |
| QuoteStorage.UpsertReplaces | src/lib/quote-storage.ts:19-20 | a known id is replaced where it stands |
| QuoteStorage.UpsertIdempotent | src/lib/quote-storage.ts:17-23 | saving the same quote twice is saving it once |
| QuoteStorage.UpsertKeepsIdsUnique | src/lib/quote-storage.ts:17-23 | unique ids stay unique, and the saved quote is the one entry with its id |
| QuoteStorage.WithoutQuote | src/lib/quote-storage.ts:32 | exactly the entries without the id remain, in order and with all their copies; every entry with the id is gone |
| QuoteStorage.WithoutAbsentQuote | src/lib/quote-storage.ts:32 | deleting an absent id changes nothing |
| QuoteStorage.DeleteUndoesSave | src/lib/quote-storage.ts:15-37 | saving and then deleting a quote is deleting its id |
| QuoteStorage.HistoryStore.constructor | src/lib/quote-storage.ts:3-4 | an empty history and no counter |
| QuoteStorage.HistoryStore.GetAllQuotes | src/lib/quote-storage.ts:6-13 | the stored history, or the empty one when the read fails |
| QuoteStorage.HistoryStore.SaveQuoteToHistory | src/lib/quote-storage.ts:15-28 | the history becomes `Upsert` of it (`[quote]` when the read fails); a failed write changes nothing |
| QuoteStorage.HistoryStore.DeleteQuoteFromHistory | src/lib/quote-storage.ts:30-37 | the history becomes `WithoutQuote` of it; a failed write changes nothing |
| QuoteStorage.HistoryStore.NextQuoteNumber | src/lib/quote-storage.ts:51-62 | the counter (0 when absent) goes up by one and is printed as a three-digit serial; on failure, `DEV-` plus the clock and an unchanged counter |
| QuoteStorage.HistoryStore.DuplicateQuote | src/lib/quote-storage.ts:39-49 | the copy takes the next number and is `Duplicated` of the original |
| QuoteStorage.Duplicated | src/lib/quote-storage.ts:39-49 | new id, number and dates, valid for 30 days; every line gets its new id; everything else is equal |
| QuoteStorage.DuplicateKeepsAmounts | src/lib/quote-storage.ts:39-49 | a copy prices exactly like the original |
| QuoteStorage.DuplicateFreshIds | src/lib/quote-storage.ts:46 | with fresh line ids, the copy's ids are unique and shared with no line of the original |
| CustomProducts.FindProduct | src/lib/custom-products.ts:16 | the first entry with the id, or none exactly when no entry has it |
| CustomProducts.SaveProduct | src/lib/custom-products.ts:14-23 | the list keeps its length or grows by one |
| CustomProducts.SaveAppends | src/lib/custom-products.ts:19-20 | a new id is pushed at the end |
| CustomProducts.SaveReplaces | src/lib/custom-products.ts:17-18 | a known id is replaced where it stands |
| CustomProducts.SaveKeepsIdsUnique | src/lib/custom-products.ts:14-23 | unique ids stay unique, and the saved product is the one entry with its id |
| CustomProducts.SaveIdempotent | src/lib/custom-products.ts:14-23 | saving the same product twice is saving it once |
| CustomProducts.WithoutProduct | src/lib/custom-products.ts:26 | exactly the entries without the id remain, in order and with all their copies; every entry with the id is gone |
| CustomProducts.WithoutAbsentProduct | src/lib/custom-products.ts:26 | deleting an absent id changes nothing |
| CustomProducts.OfTrade | src/lib/custom-products.ts:31 | exactly the products of the trade, in order and with all their copies |
| CustomProducts.OfTradeAppend | src/lib/custom-products.ts:31 | a product appended to the store shows in its own trade's list only |
| CustomProducts.ProductStore.constructor | src/lib/custom-products.ts:3 | an empty store |
| CustomProducts.ProductStore.GetCustomProducts | src/lib/custom-products.ts:5-12 | the stored list, or the empty one when the read fails |
| CustomProducts.ProductStore.SaveCustomProduct | src/lib/custom-products.ts:14-23 | the list becomes `SaveProduct` of it (`[product]` when the read fails); a failed write is reported and changes nothing |
| CustomProducts.ProductStore.DeleteCustomProduct | src/lib/custom-products.ts:25-28 | the list becomes `WithoutProduct` of it; a failed write is reported and changes nothing |
| CustomProducts.ProductStore.GetCustomProductsByTrade | src/lib/custom-products.ts:30-32 | `OfTrade` of the stored list: exactly the stored products of the trade, in stored order and with all their copies; none when the read fails |
| Products.GetProductsByTrade | src/data/products.ts:39-41 | fifteen products, all of the requested trade |
| Products.Categories | src/data/products.ts:45 | the category of each product, in order |
| Products.GetCategories | src/data/products.ts:43-46 | the dedupe of the catalog's categories (no contract of its own; `Products.CategoriesExact` and the two concrete lemmas below state what it returns) |
| Products.CatalogIdsUnique | src/data/products.ts:3-37 | no two built-in products of a trade share an id |
| Products.CategoriesExact | src/data/products.ts:43-46 | each category of the trade appears once, every product's category is listed, and catalog order is kept |
| Products.DistinctCategories | src/data/products.ts:45 | the same for the categories of any product list |
| Products.ElectricianCategoryList | src/data/products.ts:3-19 | the category of each electrician product, in order |
| Products.ElectricianRuns | src/data/products.ts:45 | the dedupe of that shape of list keeps the first of each run and drops a late repeat |
| Products.ElectricianCategories | src/data/products.ts:43-46 | Tableaux, Protection, Appareillage, Éclairage, Câbles, Accessoires, in that order |
| Products.CarpenterCategoryList | src/data/products.ts:21-37 | the category of each carpenter product, in order |
| Products.CarpenterRuns | src/data/products.ts:45 | the dedupe of that shape of list keeps the first of each run |
| Products.CarpenterCategories | src/data/products.ts:43-46 | Portes, Fenêtres, Volets, Sols, Finitions, Rangement, Escaliers, in that order |
| QuotePreview.Shown | src/components/quote/QuotePreview.tsx:76-77 | a contact line is shown exactly when it is not empty |
| QuotePreview.Locality | src/components/quote/QuotePreview.tsx:111-115 | the postal code and city line appears when either is set |
| QuotePreview.CompanyParty | src/components/quote/QuotePreview.tsx:72-92 | the company name as is; the address, phone and email lines each shown exactly when not empty, with their text; the locality line under the rule of `Locality` |
| QuotePreview.Siret | src/components/quote/QuotePreview.tsx:90-92 | the SIRET line appears exactly when the number is present and not empty |
| QuotePreview.ClientParty | src/components/quote/QuotePreview.tsx:105-121 | the client name is never blank: an empty one reads "Non renseigné"; the address, phone and email lines each shown exactly when not empty, with their text; the locality line under the rule of `Locality` |
| QuotePreview.IncludedItems | src/components/quote/QuotePreview.tsx:27 | exactly the included lines, in order and with all their copies |
| QuotePreview.SectionItems | src/components/quote/QuotePreview.tsx:41-43 | exactly the included lines of the section |
| QuotePreview.SectionItemsInOrder | src/components/quote/QuotePreview.tsx:41-43 | the rows are the included lines of the section in quote order, a subsequence of the lines |
| QuotePreview.SectionTotal | src/components/quote/QuotePreview.tsx:45-47 | the sum of the section's rows (no contract of its own; `QuotePreview.SectionTotalOfIncluded` states it) |
| QuotePreview.SectionTotalOfIncluded | src/components/quote/QuotePreview.tsx:45-47 | a section subtotal sums the totals of its included lines |
| QuotePreview.VisibleSections | src/components/quote/QuotePreview.tsx:49-51 | exactly the sections with rows, in section order and with all their copies |
| QuotePreview.HasRows | src/components/quote/QuotePreview.tsx:50 | a section has rows (no contract of its own; `QuotePreview.HasRowsIff` states it) |
| QuotePreview.HasRowsIff | src/components/quote/QuotePreview.tsx:41-51 | a section has rows if and only if some included line belongs to it |
| QuotePreview.SectionShownIff | src/components/quote/QuotePreview.tsx:27-51 | a section is shown if and only if some included line belongs to it |
| QuotePreview.RowOf | src/components/quote/QuotePreview.tsx:141-155 | a row shows the product name and the line's stored quantity, price and total; an empty unit reads "-"; the description appears, with its text, only when not empty |
| QuotePreview.Rows | src/components/quote/QuotePreview.tsx:141-156 | one row per line, in order |
| QuotePreview.SectionBlocks | src/components/quote/QuotePreview.tsx:125-170 | one block per shown section, in the same order |
| QuotePreview.SectionBlockOf | src/components/quote/QuotePreview.tsx:126-169 | the block carries the section's id and name; its j-th row is the row of the section's j-th item, and its subtotal is `getSectionTotal` of the section |
| QuotePreview.SectionBlockContents | src/components/quote/QuotePreview.tsx:126-169 | a section's block lists one row per line that is included and belongs to the section, in the order of the quote's lines; its subtotal is the sum of those lines' totals |
| QuotePreview.TotalLines | src/components/quote/QuotePreview.tsx:190-216 | HT first, TVA and TTC last, and the discount line between them exactly when the discount is positive |
| QuotePreview.Head | src/components/quote/QuotePreview.tsx:70-122 | the company header (company lines, SIRET, number, date, validity), then the client block with its fallbacks |
| QuotePreview.Tail | src/components/quote/QuotePreview.tsx:172-234 | two blocks, plus one for labour and one for notes when shown; no section block |
| QuotePreview.Plan | src/components/quote/QuotePreview.tsx:69-234 | the whole document, top to bottom (no contract of its own; the lemmas below state its layout) |
| QuotePreview.TailLayout | src/components/quote/QuotePreview.tsx:172-234 | labour first if shown, then totals, then notes if any, then the footer; labour and notes appear nowhere else |
| QuotePreview.PlanStart | src/components/quote/QuotePreview.tsx:70-122 | the plan opens with the full header (company lines, SIRET, number, date, validity) and the client block, and its length counts each optional block |
| QuotePreview.PlanSections | src/components/quote/QuotePreview.tsx:125-170 | after the client block come the shown sections' blocks, in order |
| QuotePreview.PlanSectionAt | src/components/quote/QuotePreview.tsx:125-170 | the block two places after the start, shifted by i, is the i-th shown section's |
| QuotePreview.PlanSectionContents | src/components/quote/QuotePreview.tsx:125-170 | the i-th section block of the document carries that section's id and name, one row per included line of the section in the quote's order, and the sum of those lines' totals as its subtotal |
| QuotePreview.PlanEnd | src/components/quote/QuotePreview.tsx:231-234 | the plan closes with the footer and its validity date |
| QuotePreview.LaborShownIff | src/components/quote/QuotePreview.tsx:173 | the labour block appears if and only if labour is visible and costs more than 0 |
| QuotePreview.NoLaborBlock | src/components/quote/QuotePreview.tsx:173 | hidden or zero labour leaves no labour block |
| QuotePreview.NotesShownIff | src/components/quote/QuotePreview.tsx:220 | the notes block appears if and only if there are notes |
| QuotePreview.NoNotesBlock | src/components/quote/QuotePreview.tsx:220 | empty notes leave no notes block |
| QuotePreview.TotalsPlace | src/components/quote/QuotePreview.tsx:189-217 | the totals block comes right after the sections and the labour block |
| QuotePreview.SectionBlockShownIff | src/components/quote/QuotePreview.tsx:49-51 | the plan has a block for a section if and only if some included line belongs to it |
| QuotePreview.PlanAt | src/components/quote/QuotePreview.tsx:69-234 | every block of the plan comes from the head, the section blocks or the tail, by position |
| QuotePreview.SectionBlockPresent | src/components/quote/QuotePreview.tsx:125-170 | a section with an included line has a block in the plan |
| QuotePreview.NoSectionBlock | src/components/quote/QuotePreview.tsx:49-51 | a section without included lines has no block in the plan |
| QuotePreview.SumTotalsSplit | src/components/quote/QuotePreview.tsx:27 | the sum of all line totals is the sum over included lines plus the sum over excluded ones |
| QuotePreview.SubtotalProductsCountsExcluded | src/components/quote/QuotePreview.tsx:27 | the products subtotal is the included lines' sum plus the excluded lines' sum |
| QuotePreview.ExcludedItemStillCounted | src/components/quote/QuotePreview.tsx:27-51 | one excluded line of 10: no section is shown, yet the products subtotal is 10 |
| ProductCatalog.FilteredProducts | src/components/quote/ProductCatalog.tsx:50-56 | a product is listed if and only if its lower-cased name contains the lower-cased search and the category is "all" or its own; every listed product keeps all its copies |
| ProductCatalog.FilteredInOrder | src/components/quote/ProductCatalog.tsx:50-56 | the list keeps catalog order |
| ProductCatalog.EmptyFilterKeepsAll | src/components/quote/ProductCatalog.tsx:50-56 | an empty search with "all" lists every product |
| ProductCatalog.RequestedQuantity | src/components/quote/ProductCatalog.tsx:65 | never 0: the stored quantity, or 1 when it is missing or 0 |
| ProductCatalog.NameBlankIff | src/components/quote/ProductCatalog.tsx:89 | a name trims to nothing exactly when it is all white space |
| ProductCatalog.CustomProductOf | src/components/quote/ProductCatalog.tsx:90-97 | trimmed name; trimmed category, or "Personnalisé" when it trims to nothing; price read or 0; the chosen unit; the current trade; the edited id when it is not empty, else `custom-` plus a fresh id |
| ProductCatalog.IsCustom | src/components/quote/ProductCatalog.tsx:108 | the id starts with `custom-` (no contract of its own; `ProductCatalog.SavedProductIsCustom` and `ProductCatalog.CatalogProductsNotCustom` state what passes) |
| ProductCatalog.SavedProductIsCustom | src/components/quote/ProductCatalog.tsx:88-108 | a new product, or an edited custom one, is saved under a custom id |
| ProductCatalog.CatalogProductsNotCustom | src/components/quote/ProductCatalog.tsx:108 | no built-in product counts as custom |
| ProductCatalog.Catalog.constructor | src/components/quote/ProductCatalog.tsx:33-44 | empty search, category "all", no quantities, closed empty dialog with unit "unité" |
| ProductCatalog.Catalog.Listed | src/components/quote/ProductCatalog.tsx:47-56 | exactly the built-in products of the trade that match the current search and category, in catalog order (both directions, and a subsequence of the catalog), so at most fifteen |
| ProductCatalog.Catalog.HandleQuantityChange | src/components/quote/ProductCatalog.tsx:58-61 | only that product's entry changes, to the number read or 0 |
| ProductCatalog.Catalog.HandleAdd | src/components/quote/ProductCatalog.tsx:63-68 | nothing without a section; otherwise the request carries the stored quantity or 1, and the entry resets so the next add defaults to 1 |
| ProductCatalog.Catalog.OpenNewProduct | src/components/quote/ProductCatalog.tsx:70-77 | an open dialog with empty name, category and price and unit "unité" |
| ProductCatalog.Catalog.OpenEditProduct | src/components/quote/ProductCatalog.tsx:79-86 | an open dialog filled from the product |
| ProductCatalog.Catalog.HandleSaveCustomProduct | src/components/quote/ProductCatalog.tsx:88-101 | a blank name saves nothing; otherwise `CustomProductOf` is saved, and when the write succeeds the dialog closes and the list refreshes |
| ProductCatalog.Catalog.SaveAndClose | src/components/quote/ProductCatalog.tsx:98-100 | the store save, then closing and refreshing only when the write succeeded |
| ProductCatalog.Catalog.HandleDeleteCustomProduct | src/components/quote/ProductCatalog.tsx:103-106 | the product leaves the store (an unreadable store is written back empty) and the list refreshes; a failed write changes nothing |
| SectionManager.Manager.constructor | src/components/quote/SectionManager.tsx:31-33 | an empty field and no edit in progress |
| SectionManager.Manager.HandleAddSection | src/components/quote/SectionManager.tsx:35-41 | a request exactly when the name is not blank: the trimmed name at order = section count, and the field clears |
| SectionManager.Manager.HandleStartEditing | src/components/quote/SectionManager.tsx:43-46 | the edit starts on the section's id with its current name |
| SectionManager.Manager.HandleSaveEdit | src/components/quote/SectionManager.tsx:48-54 | a rename exactly when an edit is in progress and the name is not blank: the trimmed name, which is not empty and has no white space at either end; then the edit ends |
| SectionManager.Manager.HandleDeleteSection | src/components/quote/SectionManager.tsx:56-60 | forwarded exactly when more than one section exists, so the last one stays |
| QuoteItemsList.MinusRequest | src/components/quote/QuoteItemsList.tsx:55 | never below 1; q − 1 from q ≥ 2; 1 from q ≤ 2 |
| QuoteItemsList.PlusRequest | src/components/quote/QuoteItemsList.tsx:73 | exactly one more than the current quantity |
| QuoteItemsList.TypedRequest | src/components/quote/QuoteItemsList.tsx:65 | never 0: the integer read, or 1 for NaN or 0 |
| QuoteItemsList.MinusUndoesPlus | src/components/quote/QuoteItemsList.tsx:54-73 | minus after plus gives back any quantity of at least 1 |
| QuoteItemsList.PlusUndoesMinus | src/components/quote/QuoteItemsList.tsx:54-73 | plus after minus gives back any quantity of at least 2 |
| QuoteItemsList.MinusLowers | src/components/quote/QuoteItemsList.tsx:55 | from a quantity of at least 1, minus stays between 1 and that quantity |
| QuoteItemsList.TypedRequestHasNoFloor | src/components/quote/QuoteItemsList.tsx:65 | a typed negative number is requested as it is |
| QuoteItemsList.RowOf | src/components/quote/QuoteItemsList.tsx:42-80 | the row shows the product name, the stored total and quantity, the line's unit price and the product's unit |
| QuoteItemsList.Rows | src/components/quote/QuoteItemsList.tsx:36-93 | one row per line, in order |
| QuoteItemsList.RowTotalIsStored | src/components/quote/QuoteItemsList.tsx:80 | the shown total equals price × quantity exactly when the line is consistent |
| QuoteItemsList.MinusThenUpdate | src/components/quote/QuoteItemsList.tsx:54-56 | after the editor applies a minus request, the line has quantity ≥ 1 and a matching total |
| QuoteItemsList.PlusThenUpdate | src/components/quote/QuoteItemsList.tsx:73 | after a plus request, the quantity is one more and the total one unit price more |

## Left out

- `formatCurrency` (`Intl.NumberFormat`) and the localized date printing are locale libraries. The plan carries amounts and day numbers, not their printed forms.
- The fixed labels of the document ("DEVIS", "Tél: ", "SIRET: ", "Sous-total …", column headings) belong to rendering and are not in the plan.
- The PDF export (`src/lib/pdf-generator.ts`) and any page-break logic are not part of this model.
- JSON serialisation and `localStorage` are replaced by store classes. Their fields hold the parsed values, and a failing read or write is a boolean parameter. A stored list that `JSON.parse` rejects counts as a failed read.
- QuoteStorage.HistoryStore.NextQuoteNumber: the stored counter is a natural number or absent. A stored text that `parseInt` reads as NaN is not modelled: it throws nothing, "NaN" is written back, and this and every later number ends in `-NaN`. A negative stored counter is not modelled either (a stored "-5" gives the serial printed "0-4").
- IEEE-754 rounding is not modelled. Money, quantities and rates are exact reals, so the worked examples are exact.
- `Math.random()`, `crypto.randomUUID()`, `new Date()` and `Date.now()` are parameters. Fresh ids are assumed unused only where a lemma says so.
- `Text.Lower` maps only the ASCII and Latin-1 capitals, not the full Unicode case mapping of `toLowerCase`.
- `QuoteUtils.FormatQuoteNumber` takes the year and month as numbers. The calendar arithmetic behind them (and behind `validUntil`, kept as a day count) is not modelled.
- `QuoteBuilder.Builder.HandleAddProduct` commits the merged line directly. It does not go through a nested `handleUpdateQuantity` call, which in the program commits the same quote.
- `ProductCatalog.Catalog.HandleSaveCustomProduct`: a failed store write is modelled as stopping the handler. The thrown exception itself, and what the page does with it, are not modelled.
- The `refreshKey` of the catalog is a counter only. The built-in list it re-memoizes does not depend on the custom store.
- Entering text into the inputs (`setSearch`, `setCategory`, `setCpName`, …) is plain assignment to the class fields, with no handler of its own.
- The rest of the application is outside this model: the landing pages, the client, company and trade forms, the feedback button, the summary panel and the history page.
