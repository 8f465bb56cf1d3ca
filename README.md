# Stock ledger of the inventory app, in Dafny

This project models the ledger core of a small Django inventory app. The app
keeps a catalogue of products (`ProdMast`), transaction headers of type IN or
OUT (`StockTrans`), and line items (`StockDetail`). Each line item names a
product, a quantity and an optional unit price. The app keeps no running stock
figure. The stock of a product is recomputed each time from the lines: it is
the sum of their quantities, with quantities on OUT transactions negated.

The model covers:

- **Stock projection**: the four places that compute stock, all proved equal
  to one signed sum, `Models.Stock`. These are `StockDetail.get_current_stock`
  (it can skip the record being validated), `StockDetailForm._get_current_stock`,
  the single pass of the inventory views, which fills a per-product
  dictionary, and the loop of `api_check_stock`. That last loop does the same
  as the form's helper, so `Inventory.CheckStock` reuses `Forms.CurrentStock`.
- **Inventory views**: the stock status rule (out of stock at 0 or less, low
  stock up to 10, good above), the sorted HTML listing, the JSON listing in
  dictionary order, and the single-product stock check.
- **Transaction creation**: the submission path of `transaction_list`. Blank
  and deleted forms are skipped. A product named twice is rejected. For OUT,
  each line is checked against the stock as it was before the submission. A
  batch without products is rejected. Everything happens in one atomic block,
  so a rejection leaves the store as it was.
- **Field validators**: name normalisation (`strip()` then `title()`) with
  the case-insensitive uniqueness check, quantity greater than 0 and price not
  negative, plus `StockDetail.clean`.
- **Per-transaction aggregates**: number of lines, total quantity and line
  value.

Modules:

| file | module | what |
|---|---|---|
| `wrappers.dfy` | `Wrappers` | `Option`, `Result` |
| `text.dfy` | `Text` | ASCII `strip`, `title`, case folding, string order |
| `models.dfy` | `Models` | records, errors, `Stock`, the `StockDetail` and `ProdMast` methods, the store invariant |
| `projection.dfy` | `Projection` | laws of the stock projection; first-appearance key order |
| `forms.dfy` | `Forms`, `FormsExamples` | form validators; concrete name examples |
| `inventory.dfy` | `Inventory` | the read-side views |
| `transactions.dfy` | `Transactions` | the write path; the `Ledger` class holding the store |

Representation:

- Stored rows are values: `Header`, `Line` and `Product`.
- The store that `transaction_list` changes is the class
  `Transactions.Ledger`. Its fields are the header map, the line sequence and
  the next ids to assign.
- A product being cleaned is the class `Models.ProductRecord`, because
  `ProdMast.clean` rewrites its own `prod_name`.
- Loops in the source are methods with loop invariants. Most are proved
  equal to a recursive specification function (`Stock`, `ProductOrder`,
  `CheckBatch`, `Staged`), and the properties are proved about those
  functions. The two loops that build view rows (`ViewEntries`,
  `ApiEntries`) are proved against a per-row formula instead.
- Prices are integer cents.
- Every rejection is a value of `Models.Error`, including the available and
  requested quantities of an insufficient-stock error.

A note on the order of checks: the code (views.py:90-92) rejects a batch
without products after the validation loops and the saving loop, still inside
the atomic block, and the model keeps that order. The rejection never fires,
though. With `min_num=1, validate_min=True` (forms.py:155-161), any formset
that validates has its first form filled and at least one form filled and not
deleted. So a batch that reaches the block always names a product
(`Transactions.EmptyCheckUnreachable`).

## Model

| member | source | states |
|---|---|---|
| Text.Strip | stock_management/forms.py:34 | the result is the slice of the input left once the whitespace in front of it and behind it is dropped; it has no whitespace at either end |
| Text.StripIdempotent | stock_management/models.py:22-23 | stripping an already stripped name changes nothing |
| Text.Title | stock_management/forms.py:34 | each character is upper-cased when it starts the string or follows a non-letter, and lower-cased otherwise; the length is kept |
| Text.TitleIdempotent | stock_management/models.py:22 | title-casing a title-cased name changes nothing |
| Text.Normalize | stock_management/forms.py:34 | the normalised name is stripped and as long as the stripped input |
| Text.NormalizeIdempotent | stock_management/models.py:21-22 | normalising again, as `ProdMast.clean` does after the form has normalised, returns the same name |
| Text.TitleSameIgnoringCase | stock_management/forms.py:34-39 | a title-cased name equals its input under the case-insensitive comparison behind `iexact` |
| Text.NormalizeSameIgnoringCase | stock_management/forms.py:34-39 | a normalised name equals its stripped input ignoring case |
| Text.NameLeTotal | stock_management/views.py:146 | any two names are comparable under the sort key's order |
| Text.NameLeTransitive | stock_management/views.py:146 | the sort key's order is transitive |
| Models.CurrentStockExcluding | stock_management/models.py:97-113 | the loop returns the signed sum over all lines except the record `self` |
| Models.CleanDetail | stock_management/models.py:78-83 | accepted exactly when the quantity is present and positive; otherwise "required" or "not positive" |
| Models.ValidateStockAvailability | stock_management/models.py:88-95 | IN always passes; OUT fails exactly when the stock without `self` is below the quantity, with that stock and the quantity in the error |
| Models.TotalQuantityAtLeastItems | stock_management/models.py:48-53 | with every quantity at least 1, a transaction's total quantity (`Models.TotalQuantity`, `get_total_quantity`) is at least its number of lines (`Models.TotalItems`, `get_total_items`) |
| Models.LineValue | stock_management/models.py:115-118 | the value is quantity times price, with no price counting as 0, and is never negative for valid lines |
| Models.ProductRecord.Clean | stock_management/models.py:20-24 | a non-empty name is replaced by its normal form; the record is accepted exactly when its stripped name has at least 2 characters |
| Projection.StockIsInMinusOut | stock_management/forms.py:146-152 | the stock (`Models.Stock`, the signed sum every stock loop is proved equal to) is the IN quantities minus the OUT quantities of the product |
| Projection.StockOfUnusedProduct | stock_management/models.py:113 | a product without lines has stock 0 (the default of the dictionary) |
| Projection.StockAppend | stock_management/views.py:124-128 | the stock of two ledgers replayed one after the other is the sum of their stocks |
| Projection.StockPermutation | stock_management/views.py:122 | the stock does not depend on the order the query returns lines in |
| Projection.UnsavedExcludesNothing | stock_management/models.py:106-107 | a record that is not saved yet skips no line |
| Projection.StockWithoutSelf | stock_management/models.py:105-107 | with distinct ids, skipping a stored line subtracts exactly its own contribution |
| Projection.StockIgnoresUnusedHeader | stock_management/views.py:45 | saving a header that no line references yet changes no stock |
| Projection.ProductOrderSpec | stock_management/views.py:121-128 | the dictionary's key order lists each product with lines once, and no other product |
| Forms.CleanProdName | stock_management/forms.py:31-46 | empty names pass through; otherwise accepted exactly when the normal form has at least 2 characters and no other product has it ignoring case; the value is the normal form; the reason for each rejection. The product being edited is left out of the lookup only when its pk is truthy |
| Forms.EditingPkZero | stock_management/forms.py:40-41 | an edited instance with pk 0 excludes nothing from the duplicate lookup, like an unsaved one |
| Forms.EditingOwnName | stock_management/forms.py:40-41 | an edited product with a truthy pk never collides with its own stored name |
| Forms.CleanProdNameStable | stock_management/forms.py:33-46 | an accepted name is stripped, at least 2 long, already normal, and accepted unchanged when cleaned again |
| Forms.CleanQuantity | stock_management/forms.py:111-115 | a quantity is accepted exactly when it is absent or positive, and is returned unchanged |
| Forms.CleanUnitPrice | stock_management/forms.py:117-121 | a price is accepted exactly when it is absent or not negative, and is returned unchanged |
| Forms.FormClean | stock_management/forms.py:123-137 | without transaction type OUT the form always passes; with a product and a non-zero quantity it fails exactly when OUT and the stock is below the quantity; it fails only in that case |
| Forms.CurrentStock | stock_management/forms.py:139-152 | the loop returns the product's stock, equal to IN minus OUT, and 0 when it has no lines |
| Forms.NameTakenNormalized | stock_management/forms.py:34-44 | the duplicate check on the normal form gives the same answer as on the merely stripped name, so any spelling of a stored name is taken |
| FormsExamples.WidgetAccepted | stock_management/forms.py:31-46 | "  widget " is accepted as "Widget" |
| FormsExamples.WidgetDuplicate | stock_management/forms.py:38-44 | once "Widget" exists, "WIDGET" is refused as a duplicate |
| Inventory.Status | stock_management/views.py:133-137 | out of stock exactly at 0 or less, low stock exactly in 1..10, good exactly above 10 |
| Inventory.Accumulate | stock_management/views.py:121-128 | the single pass yields keys in first-appearance order, each mapped to the product's stock |
| Inventory.ViewEntries | stock_management/views.py:131-143 | one row per key, in key order, with the if/elif status equal to the status rule |
| Inventory.ApiEntries | stock_management/views.py:165-173 | one row per key, in key order, with the conditional-expression status equal to the status rule |
| Inventory.InsertByName | stock_management/views.py:146 | inserting into a name-sorted list keeps it sorted and adds exactly that row |
| Inventory.SortByName | stock_management/views.py:146 | the result is sorted by name and is a permutation of the input |
| Inventory.SortKeepsProductsDistinct | stock_management/views.py:146 | sorting keeps one correct row per product |
| Inventory.InventoryView | stock_management/views.py:119-150 | the listing is sorted by name and has exactly one row, with the right stock and status, for each product that has lines |
| Inventory.ApiInventory | stock_management/views.py:153-179 | the rows follow first-appearance order, are correct, and `total_products` is their number |
| Inventory.CheckStock | stock_management/views.py:181-210 | an unknown product is not found; a known one is reported with its stock and status |
| Transactions.CheckBatchSpec | stock_management/views.py:47-81 | the validation loops accept exactly when no product repeats and, for OUT, every quantity is within the pre-batch stock; they yield the batch's products; their only errors are a duplicate product or insufficient stock |
| Transactions.ValidateBatch | stock_management/views.py:47-81 | the loop's result is the checked batch |
| Transactions.StageLines | stock_management/views.py:84-88 | the saving loop builds one line per filled, non-deleted form, under the new header, with consecutive ids |
| Transactions.OutcomeSpec | stock_management/views.py:41-98 | a submission succeeds exactly when every form is valid, the first form is filled, no product repeats, OUT quantities are covered and some form is filled and not deleted; it then reports as many items as lines are saved |
| Transactions.EmptyCheckUnreachable | stock_management/views.py:90-92 | no submission ends in the empty-transaction rejection, because a valid formset always names a product |
| Transactions.BlankFirstForm | stock_management/forms.py:155-161 | a submission whose first form is blank is refused as invalid, whatever the later forms hold |
| Transactions.StagedDistinct | stock_management/models.py:73 | the lines saved for a checked batch name distinct products |
| Transactions.StagedCount | stock_management/views.py:94-96 | a checked batch saves one line per product |
| Transactions.StagedStock | stock_management/views.py:84-88 | the saved lines move exactly the batch quantities, in the transaction's direction |
| Transactions.StockAfterCommit | stock_management/views.py:43-88 | after a commit, each stock is the old stock plus (IN) or minus (OUT) the quantity the batch names for it |
| Transactions.BatchQuantityBound | stock_management/views.py:51-69 | in a checked OUT batch the quantity named for a product is 0 or within its pre-batch stock |
| Transactions.CommitStockDirection | stock_management/views.py:51-69 | IN never lowers a stock; OUT never raises one and never takes one below 0 |
| Transactions.CommitConsistent | stock_management/models.py:55-73 | a commit keeps the store invariant: lines reference stored headers, fresh distinct ids, valid quantities and prices, and one line per (product, transaction) |
| Transactions.TotalItemsOfCommit | stock_management/models.py:48-49 | the new transaction's `get_total_items` (`Models.TotalItems`) equals the number of lines saved |
| Transactions.SingleOutLine | stock_management/views.py:51-69 | one OUT line is committed exactly when its quantity is within the stock, which then falls by exactly that quantity; otherwise it is refused with available and requested |
| Transactions.DuplicateInBatch | stock_management/views.py:72-79 | an IN batch naming one product twice is refused as a duplicate of it |
| Transactions.AcceptedBatch | stock_management/views.py:83-96 | a valid, checked, non-empty batch commits its products and leaves a consistent store whose new transaction has that many lines |
| Transactions.Ledger.CreateTransaction | stock_management/views.py:41-98 | the store invariant is kept; the call fails exactly when the submission's outcome is an error, and then changes nothing; on success it adds the header and the staged lines, advances the ids and reports the transaction and its item count |

## Left out

- HTTP handling: request dispatch, templates, redirects, flash messages and the JSON envelope (`status`, `message`, the 400 status) are not modelled. The views are modelled by what they compute. The URL table is not part of this model.
- The ORM becomes values: querysets are the line sequence and the header and product maps. `select_related` and `prefetch_related` are dropped. `get_object_or_404` becomes `Err(NotFound)`.
- Concurrency is not modelled. The atomic block is modelled as staging everything and installing it only on success. Two submissions racing each other are not modelled, nor are database errors inside the block.
- Ledger.CreateTransaction: a rejected submission leaves the next ids unchanged. A database may still use up the ids of rolled-back inserts, which the model does not capture.
- Timestamps (`created_at`, `updated_at`) and the `Meta.ordering` of queries are left out. Stock does not depend on line order (`Projection.StockPermutation`).
- Cascade deletion of products and transactions, product editing views and `transaction_detail` are not part of the core modelled here.
- Text is ASCII: `str.strip`, `str.title` and `iexact` are modelled on ASCII letters and ASCII whitespace. Unicode case mapping and Unicode whitespace are left out.
- The price is `Decimal` with 2 places in the source; here it is integer cents. `max_digits`, the `max_length` limits of the char fields, and the field-level stripping and required checks done by Django's form fields are left out.
- The formset's management form (`TOTAL_FORMS` and the rest) is left out. The submitted forms are given as a sequence.
- Django's model-field validation also checks that a quantity fits the database's integer column, through the range validators of `IntegerField` (models.py:58). The database backend is not part of this model, so the model accepts any positive quantity.
- The formset builds its forms without a `transaction_type`, so `StockDetailForm.clean` never checks stock on that path. The view passes `None`, and `Forms.FormClean` with `Some(OUT)` is the check as written for a form built with a type.
- The line items' `notes` field is not modelled.
- A line whose transaction is missing from the header map counts as IN. The store invariant (`Models.Consistent`) rules this out for stored lines.
- Inventory.SortByName: does not state stability (equal names keeping their order). The definition is stable, but names are unique in the catalogue, so no two rows compare equal.
- The two validation loops of the view (one for OUT, one for IN) are modelled as one loop with a branch on the type. Their checks and the order in which they run are the same.
