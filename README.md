# Stock Master warehouse core, modelled in Dafny

Stock Master is a warehouse application. Its core keeps two tables consistent:
- the **stock** table, one quantity per (product, location) row;
- the **stock ledger**, an append-only journal that gives, for every change to a row, the movement type, the causing document, the signed change, and the quantities before and after.

Four kinds of document move stock:
- **receipts** add stock;
- **deliveries** remove it, after a pre-check against the committed quantity;
- **transfers** move it between two locations of one product, again after a pre-check at the source;
- **adjustments** correct it up or down.

Receipts, deliveries and transfers are created as drafts and move stock only when they are validated, inside one database transaction. An adjustment is recorded and applied in a single transaction. Creating a product can also write an initial stock row together with its ledger entry.

The project also models the assistant's keyword classifier (`detectIntent`) and its module-explanation table.

## Structure

- `inventory.dfy` (Inventory): the rows of the tables, the error outcomes, and `Tables`, the state of the database.
- `ledger.dfy` (Ledger): ledger sums per row and per product, reference counts, and the `Chained` and `Reconstructs` predicates.
- `movements.dfy` (Movements): the stock service as values.
  - Each document becomes a list of *legs*: one signed change at one row, with an optional pre-check.
  - `Run` applies the legs one after another, as the service's loops do, in the order the model holds the document's lines (see "## Left out" on line order).
- `integrity.dfy` (Integrity): `Consistent`, the invariant every committed state keeps.
  - The ledger is chained and sums to the stock.
  - Every entry points at exactly one existing, validated document, adjustment or product.
  - Every record names an existing product.
- `db.dfy` (Db): the class `Database`.
  - Its fields are the tables as the transaction sees them.
  - `committed` is the state the pool sees, outside the transaction.
  - `Rollback` restores the committed state; `Commit` publishes the current one.
- `stock_service.dfy` (StockService): `getStock`, `updateStock`, `addLedgerEntry` and the four processors, as methods on `Database`.
  - `GetStock` reads the committed stock. `UpdateStock` follows `StockUpdate`. `AddLedgerEntry` appends one entry.
  - `ProcessReceipt`, `ProcessDelivery` and `ProcessTransfer` loop over the lines and are proved to give the outcome, stock and ledger of `Run`. `ProcessAdjustment` has no loop and is proved equal to `Run` of its one leg.
- `receipts.dfy`, `deliveries.dfy`, `transfers.dfy`, `adjustments.dfy`, `products.dfy`: the controllers.
  - Each operation is a pure transition function `Tables -> (result, Tables)` and a method on `Database` proved to follow it.
  - Around them are lemmas about what the transitions do and the proof that they keep `Consistent`.
- `chatbot.dfy` (Chatbot): `detectIntent` and `getModuleExplanation` as pure functions.

Ids the database generates (uuids) are parameters, fresh for their table. The acting user is a parameter too.

## Model

| member | source | states |
|---|---|---|
| Movements.StockUpdate | src/services/stockService.js:13-39 | The update succeeds exactly when stored (0 when missing) + change >= 0. It then returns before = the stored quantity and after = before + change; otherwise it fails with 'Insufficient stock'. |
| Movements.StepOutcome | src/services/stockService.js:106-134 | One iteration of a processor's loop (`Step`). It fails with the leg's own error when committed stock does not cover a pre-checked decrease, and with 'Insufficient stock' when the row would go negative. Otherwise only the leg's row moves, by the change, and one sound entry recording the leg, starting from the row's quantity so far, is appended. |
| Movements.Run | src/services/stockService.js:78-192 | The processors' loops: the legs are applied one after another and the first failure ends the run. A failure is either 'Insufficient stock' or the pre-check error of one of the legs. |
| Movements.RunFacts | src/services/stockService.js:78-192 | A successful run appends exactly one entry per leg, in leg order. Each entry records its leg and starts from the row's quantity so far. Every row ends at its old quantity plus the sum of the new entries, and non-negative stock stays non-negative. |
| Movements.RunKeepsLedger | src/services/stockService.js:13-75 | Appending a successful run's entries to a chained ledger that sums to the stock keeps it chained and summing to the new stock. |
| Movements.RunUntouched | src/services/stockService.js:30-36 | A row no leg touches keeps its quantity. |
| Movements.RunFailurePersists | src/services/stockService.js:79-101 | Once a prefix of the legs fails, the whole run fails with that error, because an error thrown in the loop ends it. |
| Movements.RunPrefixSucceeds | src/services/stockService.js:79-101 | A run that succeeds on all legs succeeds on every prefix of them. |
| Movements.RunSnoc | src/services/stockService.js:79-101 | Running legs followed by one more leg is running the legs, then that leg's step. |
| Movements.GuardedLegFails | src/services/stockService.js:104-115 | A pre-checked leg whose committed stock does not cover its decrease makes the run fail. When the earlier legs succeed, it fails with that leg's own error. |
| Movements.RunPassedGuards | src/services/stockService.js:104-115 | A successful run passed every pre-check against committed stock. |
| Movements.ReceiptLegs | src/services/stockService.js:78-101 | One leg per line, in the order of the lines given, adding the line's quantity. |
| Movements.DeliveryLegs | src/services/stockService.js:104-135 | One leg per line, in the order of the lines given, subtracting the line's quantity. |
| Movements.TransferLegs | src/services/stockService.js:138-192 | Two legs per line: out of the source (pre-checked), then into the destination. |
| Movements.TransferLegsPrefix | src/services/stockService.js:138-192 | The first 2n legs of a transfer are the legs of its first n lines. |
| Movements.TransferLegsSnoc | src/services/stockService.js:138-192 | The legs of the first i+1 lines are the legs of the first i lines, then line i's out-leg and in-leg. |
| Movements.TransferFailurePersists | src/services/stockService.js:138-192 | A failure on the first i lines is the failure of the whole transfer. |
| Movements.TransferOutFailurePersists | src/services/stockService.js:138-192 | A failure on line i's out-leg is the failure of the whole transfer. |
| Movements.AdjustmentChange | src/services/stockService.js:195-199 | The change is the quantity or its negation. For a positive quantity it is an increase exactly when the type is 'increase'; any other type decreases. |
| Movements.AdjustmentLeg | src/services/stockService.js:195-221 | processAdjustment's one leg: at the adjustment's product and location, with no pre-check, recorded as an 'adjustment' referring to the stock adjustment and noted with its reason. |
| Movements.AdjustmentRunOutcome | src/services/stockService.js:195-221 | An adjustment succeeds exactly when the row's quantity plus the signed change is non-negative. Having no pre-check, its outcome does not depend on the committed stock. |
| Movements.ReceiptRunSucceeds | src/services/stockService.js:78-101 | A receipt of positive quantities into non-negative stock never fails. It appends one entry per line with a positive change. |
| Movements.DeliveryShortLineFails | src/services/stockService.js:104-115 | A line whose committed stock is below its quantity makes the delivery fail. When the earlier lines succeed, the error names that line's product and location. |
| Movements.DeliverySucceeded | src/services/stockService.js:104-135 | After a successful delivery, the committed stock covered every line. Entry i is a 'delivery' of -quantity. |
| Movements.TransferShortSourceFails | src/services/stockService.js:138-150 | A line whose committed source stock is below its quantity makes the transfer fail, with that line's product. |
| Movements.TransferBalances | src/services/stockService.js:138-192 | A successful transfer records per line an out-entry at the source, then an in-entry at the destination, with opposite changes. The transfer's net change per product is 0. |
| Movements.PairsCancel | src/services/stockService.js:151-190 | Entries in out/in pairs of opposite change sum to 0 for every product. |
| Movements.TransferDrainFirstFails | src/services/stockService.js:138-192 | With 10 committed at locations 10 and 20, the lines 20→30 10, 20→40 10, 10→20 10 fail with 'Insufficient stock' on the second line. |
| Movements.TransferRefillFirstSucceeds | src/services/stockService.js:138-192 | The same three lines succeed when 10→20 comes first. |
| Movements.TransferConservesPair | src/services/stockService.js:138-192 | A one-line transfer leaves the sum of source and destination stock unchanged. |
| StockService.GetStock | src/services/stockService.js:4-10 | Returns the committed quantity of the row, or 0 when there is no row. |
| StockService.UpdateStock | src/services/stockService.js:13-39 | Result is `StockUpdate` of the stock the transaction sees. On success only that row changes, to after (inserted when missing). On failure, stock is unchanged. |
| StockService.AddLedgerEntry | src/services/stockService.js:42-75 | Appends exactly the given entry and changes nothing else. |
| StockService.ProcessReceipt | src/services/stockService.js:78-101 | The loop's outcome, stock and ledger are those of `Run` over the receipt's legs. |
| StockService.ProcessDelivery | src/services/stockService.js:104-135 | The loop's outcome, stock and ledger are those of `Run` over the delivery's legs, with each pre-check reading committed stock. |
| StockService.ProcessTransfer | src/services/stockService.js:138-192 | The loop's outcome, stock and ledger are those of `Run` over the transfer's legs. |
| StockService.ProcessAdjustment | src/services/stockService.js:195-221 | Outcome, stock and ledger are those of `Run` over the one adjustment leg: +quantity for 'increase', -quantity otherwise, noted with the reason. |
| Ledger.ChainedConsecutive | src/services/stockService.js:42-75 | In a chained ledger, an entry for a row starts from the quantity the previous entry for the same row ended at. |
| Integrity.ConsistentNonNegative | src/services/stockService.js:25-27 | No stock row of consistent tables is negative. |
| Db.Database.Commit | src/controllers/receiptController.js:83 | The committed state becomes the current tables. |
| Db.Database.Rollback | src/controllers/receiptController.js:88 | The current tables return to the committed state. |
| Receipts.Creation | src/controllers/receiptController.js:8-48 | Inserts a draft under the fresh id, created by the user, with the given lines. It is refused (nothing changes) when a line names an unknown product or location. |
| Receipts.CreateReceipt | src/controllers/receiptController.js:8-48 | The insert loop follows `Creation`; the database is left consistent and committed. |
| Receipts.Validation | src/controllers/receiptController.js:50-93 | Gives not found, already validated or cancelled when those apply. A draft fails exactly when its run fails, with the run's error. A draft's lines are run as a receipt; on success the receipt is Validated by the user. Any error leaves every table unchanged. |
| Receipts.ValidateReceipt | src/controllers/receiptController.js:50-93 | Follows `Validation` inside one transaction, rolled back on error. |
| Receipts.GetReceiptById | src/controllers/receiptController.js:148-179 | Returns the receipt exactly when the id exists. |
| Receipts.ValidationEffect | src/controllers/receiptController.js:74-80 | Validation appends one 'receipt' entry per line, in the order of the stored lines, with change = quantity and after = before + change. Stock = old stock + the new entries. Other tables are unchanged. |
| Receipts.DraftValidates | src/controllers/receiptController.js:50-93 | A draft receipt of positive lines in consistent tables always validates. |
| Receipts.ValidatedOnce | src/controllers/receiptController.js:65-67 | Validating a second time is refused with nothing changed. The receipt's entries number exactly its lines. |
| Receipts.ValidationKeepsConsistent | src/controllers/receiptController.js:50-93 | Validation keeps the tables consistent. |
| Receipts.CreationKeepsConsistent | src/controllers/receiptController.js:8-48 | Creating a draft keeps the tables consistent. |
| Deliveries.Creation | src/controllers/deliveryController.js:8-46 | As for receipts: a draft with the given lines, refused on unknown products or locations. |
| Deliveries.CreateDelivery | src/controllers/deliveryController.js:8-46 | The insert loop follows `Creation`. |
| Deliveries.Validation | src/controllers/deliveryController.js:48-90 | Gives not found, already validated or cancelled when those apply. A draft fails exactly when its delivery run fails, with the run's error. Any error leaves every table unchanged. |
| Deliveries.ValidateDelivery | src/controllers/deliveryController.js:48-90 | Follows `Validation` inside one transaction. |
| Deliveries.GetDeliveryById | src/controllers/deliveryController.js:144-175 | Returns the delivery exactly when the id exists. |
| Deliveries.ValidationEffect | src/controllers/deliveryController.js:71-78 | One 'delivery' entry per line, change = -quantity, with committed stock covering each line and after >= 0. Stock = old stock + the new entries. |
| Deliveries.ShortLineRollsBack | src/controllers/deliveryController.js:84-88 | A line short of committed stock makes validation fail with every table unchanged. |
| Deliveries.SecondLineShortRollsBack | src/controllers/deliveryController.js:84-88 | When the second line is short, the first line's decrease is rolled back too. The ledger is unchanged and the delivery stays a draft. |
| Deliveries.ValidatedOnce | src/controllers/deliveryController.js:61-64 | A second validation is refused with nothing changed. |
| Deliveries.ValidationKeepsConsistent | src/controllers/deliveryController.js:48-90 | Validation keeps the tables consistent. |
| Deliveries.CreationKeepsConsistent | src/controllers/deliveryController.js:8-46 | Creating a draft keeps the tables consistent. |
| Transfers.Creation | src/controllers/transferController.js:8-46 | A draft with the given lines, refused when a product, source or destination is unknown. |
| Transfers.CreateTransfer | src/controllers/transferController.js:8-46 | The insert loop follows `Creation`. |
| Transfers.Validation | src/controllers/transferController.js:48-90 | Gives not found, already validated or cancelled when those apply. A draft fails exactly when its transfer run fails, with the run's error. Any error leaves every table unchanged. |
| Transfers.ValidateTransfer | src/controllers/transferController.js:48-90 | Follows `Validation` inside one transaction. |
| Transfers.GetTransferById | src/controllers/transferController.js:148-183 | Returns the transfer exactly when the id exists. |
| Transfers.ValidationEffect | src/controllers/transferController.js:71-78 | 2 entries per line (out of the source, into the destination), with the pre-check holding. Every product's total stock change is 0. |
| Transfers.ShortSourceRollsBack | src/controllers/transferController.js:84-88 | A line short at its source makes validation fail with every table unchanged. |
| Transfers.ChainedLinesRefused | src/services/stockService.js:140-150 | A transfer a→b then b→c is refused when b's committed stock is below the quantity, even though the first line would have supplied it. |
| Transfers.ValidatedOnce | src/controllers/transferController.js:61-64 | A second validation is refused; the transfer has exactly 2 entries per line. |
| Transfers.ValidationKeepsConsistent | src/controllers/transferController.js:48-90 | Validation keeps the tables consistent. |
| Transfers.CreationKeepsConsistent | src/controllers/transferController.js:8-46 | Creating a draft keeps the tables consistent. |
| Adjustments.Creation | src/controllers/adjustmentController.js:8-51 | The record is inserted under the fresh id and applied. On an unknown product or location, or insufficient stock, every table (the record included) is left unchanged. |
| Adjustments.CreateAdjustment | src/controllers/adjustmentController.js:8-51 | Follows `Creation` in one transaction. |
| Adjustments.CreationEffect | src/controllers/adjustmentController.js:18-38 | Exactly one 'adjustment' entry, referring to the record, with change ±quantity, noted with the reason, by the adjusting user. Only that row changes, to before + change >= 0. |
| Adjustments.OverdrawnDecreaseFails | src/services/stockService.js:25-27 | A decrease beyond the row's quantity fails, and the rollback removes the record too. |
| Adjustments.CreationKeepsConsistent | src/controllers/adjustmentController.js:8-51 | Creating an adjustment keeps the tables consistent. |
| Products.StoredDescription | src/controllers/productController.js:18 | An empty description is stored as null; any other is stored as given. |
| Products.Creation | src/controllers/productController.js:3-91 | Succeeds exactly when the SKU is free and, for positive stock, a location exists. The new product carries the SKU; any error leaves every table unchanged. |
| Products.CreateProduct | src/controllers/productController.js:3-91 | The product, stock row and ledger inserts follow `Creation` in one transaction. |
| Products.CreationEffect | src/controllers/productController.js:24-72 | Positive stock: the row holds it, and one 'adjustment' / 'initial_stock' entry goes from 0 to it. Without stock: no row and no entry. |
| Products.CreationKeepsConsistent | src/controllers/productController.js:3-91 | Creating a product keeps the tables consistent: the initial entry is chained and is the product's only one. |
| Products.Clauses | src/controllers/productController.js:200-226 | One SET clause per supplied field; the list is empty exactly when no field is supplied. |
| Products.Update | src/controllers/productController.js:195-243 | An empty patch and an unknown id are refused with nothing changed. Otherwise only that product's row changes. |
| Products.UpdateProduct | src/controllers/productController.js:195-243 | Building the clause list and writing the row follow `Update`. |
| Products.ClausesPatch | src/controllers/productController.js:200-237 | Applying the SET clauses in order equals the field-wise patch: supplied fields take their new value and the rest are kept. |
| Products.AssignAllConcat | src/controllers/productController.js:228-231 | Applying two clause lists is applying the first, then the second. |
| Products.UpdateOnlySupplied | src/controllers/productController.js:204-237 | Exactly the supplied fields among name, description, category, reorder level and active change; the SKU never does. |
| Products.UpdateRefusals | src/controllers/productController.js:224-235 | An empty patch is refused before the id is looked up; a non-empty patch of an unknown id is not found. |
| Products.UpdateKeepsConsistent | src/controllers/productController.js:195-243 | Updating a product keeps the tables consistent. |
| Products.Deletion | src/controllers/productController.js:245-262 | Succeeds exactly when the product exists and nothing refers to it. It then removes only that product; otherwise nothing changes. |
| Products.DeleteProduct | src/controllers/productController.js:245-262 | Follows `Deletion`. |
| Products.DeleteReferencedRefused | src/controllers/productController.js:257-259 | A product with a stock row or a ledger entry is refused and remains. |
| Products.StockedProductNotDeletable | src/controllers/productController.js:24-72 | A product created with initial stock can no longer be deleted. |
| Products.DeletionKeepsConsistent | src/controllers/productController.js:245-262 | Deleting a product keeps the tables consistent. |
| Chatbot.FirstMentioned | src/utils/chatbotHelpers.js:335-340 | Returns the first module of the list that the message contains, and none exactly when it contains none. |
| Chatbot.DetectIntent | src/utils/chatbotHelpers.js:304-355 | 'product_search' iff a search word occurs. 'low_stock' iff none does and a low-stock phrase does. An explanation iff neither, with an explanation phrase and a module name. 'dashboard_summary' iff none of these and a summary word occurs. Otherwise 'general'. |
| Chatbot.DetectIntentCaseInsensitive | src/utils/chatbotHelpers.js:305 | A message and its lower-cased form get the same intent. |
| Chatbot.ProductNeverExplained | src/utils/chatbotHelpers.js:308-341 | The module explained is one the message mentions, from the list, and never 'product'. |
| Chatbot.EarlierModuleWins | src/utils/chatbotHelpers.js:335-340 | Of two modules mentioned, the later in the list is never the one reported. |
| Chatbot.ModuleExplanation | src/utils/chatbotHelpers.js:190-272 | An explanation exists exactly for the seven plural keys, after lower-casing, and is the table's entry. |
| Chatbot.ExplanationCaseInsensitive | src/utils/chatbotHelpers.js:271 | The lookup ignores case. |
| Chatbot.DetectedModulesExplained | src/utils/chatbotHelpers.js:190-272 | Among the singular names detectIntent reports, only 'dashboard' and 'history' have an explanation. |

## Left out

- Concurrency: requests are modelled one after another. `updateStock` reads a row and then upserts it without a lock, and validation reads the status without a row lock. Lost updates and double validation between concurrent requests are not modelled.
- Timestamps, document numbers (`generate*Number`, which use the clock and randomness) and `adjustment_date` are not modelled.
- Database-generated ids are parameters, required fresh for their table.
- Warehouses, categories and unit prices are not modelled. The category foreign key is not checked. Locations are a set of ids.
- The schema is not available. The model assumes restricting foreign keys from item rows, ledger entries, stock rows and adjustments to products, and from lines to locations. A violation is `MissingReference` on insert and `ProductInUse` on delete.
- The status UPDATE and the document INSERT are assumed not to fail for reasons other than those modelled.
- The 500 responses that carry the raw database message are collapsed into the error outcome that causes them.
- getReceiptById, getDeliveryById and getTransferById join item rows with product and location names. The model returns the document with its lines; under the foreign keys the join drops no line.
- When validation returns early (not found, already validated, cancelled), the source leaves its transaction open with no writes; the model changes nothing.
- Products.CreateProduct: the choice of the first active location, ordered by warehouse and location creation time, is a parameter. None stands for "no active location".
- Products.CreateProduct: `reorder_level || 0` and a missing `stock` are the caller's defaults: the model takes integers. `req.user?.id || null` is the user parameter.
- Products.CreateProduct: a new product is active. That is the column's default, which the schema would state.
- Products.FreshProduct requires that no stock row carries the new product id, as a freshly generated uuid guarantees.
- Chatbot.Lower lower-cases ASCII letters only. JavaScript's `toLowerCase` also maps other Unicode letters.
- Chatbot.ModuleExplanation: the source looks the name up in a plain object, so inherited keys such as 'constructor' return a non-null value. The model's map returns none for them.
- The database query helpers of chatbotHelpers.js, the chatbot controller and the AI service are not part of this model.
- Line order: the item queries of getReceiptById, getDeliveryById and getTransferById, which validation also uses, have no ORDER BY, so the database may return a document's lines in any order. The model takes them in the stored order of the document's `items`. The order decides the before and after quantities each entry records and which error is reported. For a transfer it can also decide whether validation succeeds (`TransferDrainFirstFails` and `TransferRefillFirstSucceeds`).
- Products.UpdateProduct: the update route has no validator. The body's values reach the UPDATE unchecked, and the model's fields cannot express null or ill-typed ones. A null name, a null reorder level or a null `is_active` (stored as NULL or refused by a NOT NULL column), and a non-numeric reorder level (a 500 from the database) are not modelled.
- Validators are taken only as preconditions: positive integer quantities, at least one line, adjustment type 'increase' or 'decrease', and non-negative stock and reorder level.
