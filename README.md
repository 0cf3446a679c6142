# Inventory ledger and training records — a Dafny model

This project models the core of a small inventory service with a training-record side module:

- **Product catalogue.** Each product carries a current stock level and warehouse subtotals. It gets a human-readable identifier `PRD-<CATEGORY>-<YEAR>-<seq>`, which a pre-save hook assigns from a counter kept per (category, year).
- **Stock ledger.** An append-only log of stock entries (`procure`, `distribute`, `adjustment`). The three inventory operations check their input, load the product, compute the new stock and save the product. They then save exactly one ledger entry, or abort and leave everything unchanged.
- **Read queries over the ledger.**
  - The admin dashboard: procure and distribute totals over an inclusive date window, plus the 20 newest entries.
  - The transaction listing: filtered, newest first, `skip`, then a limit capped at 200.
  - Lookup of one entry and of its invoice reference.
- **Training records.** Create (owned by the caller), owner-or-admin access, versioned update, delete, the caller's own list and the admin list.
- **Authentication gate.** The `Bearer ` header, its token, the verifier and user lookup, and the admin-role gate.

Layout, one module per file:

| file | module | what it holds |
|---|---|---|
| `common.dfy` | `Common` | `Option`, `Result`, `BodyField` (JSON field: undefined, null, or a value), `Min`, `Abs` |
| `ordering.dfy` | `Ordering` | newest-first order and a stable insertion sort, used for `.sort({ field: -1 })` |
| `stock_transaction.dfy` | `StockTransaction` | the ledger entry, its kinds and its well-formedness |
| `product.dfy` | `ProductModel` | the product document, `pad` (a loop), the identifier format, the counter class and the pre-save hook, and the warehouse recomputation |
| `ledger.dfy` | `Ledger` | the three operations as functions on a store value, the ledger invariant and the lemmas about it |
| `inventory.dfy` | `InventoryController` | the controller as a class with a mutable product table, ledger and counters; `Procure`, `Distribute`, `Adjust` and `CreateTxAndUpdateProduct` are proved to compute the corresponding `Ledger` function, and `CreateProduct` and `Insert` to compute `InventoryController.InsertProduct` |
| `admin.dfy` | `AdminController` | the dashboard |
| `transactions.dfy` | `TransactionController` | listing, lookup, invoice |
| `training.dfy` | `TrainingModel` | the training record, its version snapshots, `trim` and the schema validators |
| `trainings.dfy` | `TrainingRoutes` | the routes, with a `TrainingStore` class for the collection |
| `auth.dfy` | `Auth` | the authentication middleware and `adminOnly` |

Modelling choices:

- Dates are integer milliseconds. The current time and the current year are parameters.
- A product's internal `_id` is a natural number handed out by the controller object. A ledger entry's `_id` is its position in the ledger.
- The caller's identity (`req.user._id`) is a parameter `performer: Option<UserRef>`. When it is absent, the entry fails its required-field validation. The transaction is then aborted and the product's saved stock rolled back (`EntryRejected`).
- `notes` for procure and distribute goes through a JavaScript default parameter (`Ledger.DefaultNotes`): a field left out of the body is recorded as `""`, one sent as `null` is recorded as null, and any other value as sent. Adjust stores it as sent.
- The store's `limit(n)` reads `0` as "no limit" and a negative `n` as its absolute value. A negative `skip` is refused by the store.
- Training percentages are `real`. Stock quantities are integers.

## Model

| member | source | states |
|---|---|---|
| `Ledger.ProcureStock` | controllers/inventoryController.js:29-46 | a failure leaves the store unchanged; a success changes only the procured product's stock and appends exactly one entry, whose id is its position and whose balance is the new stock |
| `Ledger.DistributeStock` | controllers/inventoryController.js:48-66 | the same frame property for distribute |
| `Ledger.AdjustStock` | controllers/inventoryController.js:68-99 | the same frame property for adjust |
| `Ledger.Movement` | controllers/inventoryController.js:7-27 | `createTxAndUpdateProduct`: with the new stock the old stock plus abs(quantity) for procure, minus it for distribute, "Insufficient stock" iff the new stock is negative and the entry is refused iff it is not but no performer is known, both changing nothing; otherwise only that product changes, to the new stock, and one entry is appended with that kind, quantity abs(quantity), the performer, role "adminOrUser", the notes after the default parameter, the invoice, unit price and time |
| `Ledger.Register` | controllers/productController.js:5-10 | registering under a fresh key adds exactly that key, maps it to the new product, leaves every other product as it was and leaves the ledger alone |
| `Ledger.ProcureOutcome` | controllers/inventoryController.js:33-37 | a missing, zero or negative quantity fails "Quantity must be > 0" whatever the product; an unknown product fails "Product not found"; otherwise success iff a performer is known; on success stock rises by q and the entry records kind procure, quantity q, balance = new stock, role "adminOrUser", the unit price, invoice and time; the notes are "" when the field is absent, null when it is sent as null, and the sent text otherwise |
| `Ledger.DistributeOutcome` | controllers/inventoryController.js:52-57 | bad quantity, unknown product and stock < quantity each fail with their message; otherwise success iff a performer is known; the new stock is old − q and never negative; no unit price; role "adminOrUser"; the notes are "" when absent, null when sent as null, and the sent text otherwise |
| `Ledger.AdjustOutcome` | controllers/inventoryController.js:72-90 | a missing or negative newStock fails "Invalid newStock"; an unknown product fails; otherwise success iff a performer is known; stock becomes newStock and the entry records the absolute difference between newStock and the old stock, balance newStock and the caller's own role |
| `Ledger.BalanceOfAppend` | controllers/inventoryController.js:11-19 | the recorded balance of a product after an append is the new entry's balance for that product and unchanged for every other |
| `Ledger.BalanceOfUnreferenced` | models/Product.js:22 | a product with no entries has the baseline balance 0 |
| `Ledger.AppendPreservesInvariant` | controllers/inventoryController.js:11-25 | appending a correct record and updating the stock keeps the ledger invariant (valid products with ids, stock = newest balance, unique ids, ids = positions, every entry follows its predecessor balance) |
| `Ledger.AppendKeepsChain` | controllers/inventoryController.js:14-25 | an appended entry that follows its product's balance keeps the whole chain of entries correct |
| `Ledger.ProcurePreservesInvariant` | controllers/inventoryController.js:29-46 | procure keeps the ledger invariant, successful or not |
| `Ledger.DistributePreservesInvariant` | controllers/inventoryController.js:48-66 | distribute keeps the ledger invariant |
| `Ledger.AdjustPreservesInvariant` | controllers/inventoryController.js:68-99 | adjust keeps the ledger invariant |
| `Ledger.RegisterPreservesInvariant` | models/Product.js:16-24 | registering a valid product with a new identifier, at stock 0, keeps the invariant |
| `Ledger.ReplayPrefix` | controllers/inventoryController.js:8-11 | replaying any prefix of the ledger from 0 gives the balance that prefix records |
| `Ledger.StockIsReplay` | controllers/inventoryController.js:8-11 | every product's stock can be rebuilt from the ledger alone |
| `Ledger.ReplayIsNetFlow` | controllers/inventoryController.js:9 | without adjustments, the replayed balance is procured minus distributed |
| `Ledger.StockIsNetFlow` | controllers/inventoryController.js:9 | a never-adjusted product's stock is total procured minus total distributed |
| `Ledger.ProcureThenDistributeRestores` | controllers/inventoryController.js:29-66 | procuring q and then distributing q succeeds and gives back the same product table with two new entries |
| `Ledger.WorkedExample` | controllers/inventoryController.js:29-99 | from 100: procure 50 gives 150; distribute 180 is refused, leaving 150; adjust to 120 records 30 with balance 120 |
| `InventoryController.InsertProduct` | models/Product.js:17 | the unique index on `productId`: a duplicate is refused and nothing changes |
| `InventoryController.InsertProductOutcome` | models/Product.js:17 | an insert fails iff some product already has that identifier; otherwise exactly the new key is added and the invariant is kept |
| `InventoryController.Hooked` | models/Product.js:33-46 | the hooked product always has an identifier and stock 0 |
| `InventoryController.Inventory.CreateProduct` | controllers/productController.js:5-17 | validation first (counters untouched on failure); an explicit id leaves counters untouched; a generated id advances its counter by one; the result and new state are those of `InsertProduct` on the hooked product; the invariant holds |
| `InventoryController.Inventory.Insert` | models/Product.js:17 | the insert step computes `InsertProduct` under the next reference and keeps the invariant |
| `InventoryController.Inventory.CreateTxAndUpdateProduct` | controllers/inventoryController.js:7-27 | the step-by-step save, with rollback of the product when the entry is refused, computes `Ledger.Movement` |
| `InventoryController.Inventory.Procure` | controllers/inventoryController.js:29-46 | the handler computes `Ledger.ProcureStock` on the object's state and keeps the invariant |
| `InventoryController.Inventory.Distribute` | controllers/inventoryController.js:48-66 | the handler computes `Ledger.DistributeStock` and keeps the invariant |
| `InventoryController.Inventory.Adjust` | controllers/inventoryController.js:68-99 | the handler computes `Ledger.AdjustStock` and keeps the invariant |
| `StockTransaction.ParseKind` | models/StockTransaction.js:7 | exactly the three names are accepted, each mapping back to its name |
| `StockTransaction.KindNameRoundTrip` | models/StockTransaction.js:7 | every kind's name parses back to it; no two kinds share a name |
| `ProductModel.DecimalString` | models/Product.js:6 | `String(n)` is a non-empty string of digits |
| `ProductModel.DecimalRoundTrip` | models/Product.js:6 | reading back the decimal text of n gives n |
| `ProductModel.LeadingZeroValue` | models/Product.js:7 | a prepended '0' keeps the digit string's value |
| `ProductModel.Padded` | models/Product.js:5-9 | the length is the larger of the text's length and size; the original text is the suffix; everything before it is '0'; never truncated |
| `ProductModel.PaddedValue` | models/Product.js:5-9 | padding a digit string keeps it all digits with the same value |
| `ProductModel.PadInjective` | models/Product.js:5-9 | distinct numbers pad to distinct strings |
| `ProductModel.Pad` | models/Product.js:5-9 | the `while` loop returns exactly `Padded(String(num), size)` |
| `ProductModel.Upper` | models/Product.js:44 | `toUpperCase` maps each character to its upper case and keeps the length |
| `ProductModel.UpperFacts` | models/Product.js:35 | the upper-cased string has no lower-case letters; upper-casing a string without them is the identity |
| `ProductModel.CategoryPart` | models/Product.js:35 | the category part has no lower-case letters and is "GEN" for an empty category |
| `ProductModel.SplitAtLast` | models/Product.js:44 | text split at a separator before a separator-free tail determines both halves |
| `ProductModel.DigitsHaveNoSeparators` | models/Product.js:44 | digits contain neither '-' nor ':' and no lower-case letter |
| `ProductModel.FormatIdShape` | models/Product.js:44 | the final upper-casing changes nothing once the category is upper case |
| `ProductModel.FormatIdInjective` | models/Product.js:44 | the identifier determines its category, year and sequence number |
| `ProductModel.CounterIdInjective` | models/Product.js:37 | distinct (category, year) pairs use distinct counter keys |
| `ProductModel.NextIdIsFresh` | models/Product.js:37-44 | the next number's identifier was never issued, is issued afterwards, and everything issued stays issued |
| `ProductModel.NextIdIsNew` | models/Product.js:39-44 | the identifier of the counter's next number was never handed out |
| `ProductModel.IssuanceGrows` | models/Product.js:39-43 | raising a counter keeps every identifier issued |
| `ProductModel.NewProduct` | models/Product.js:16-24 | schema defaults: stock 0, no warehouses, category "GEN", reorder level 0, the given productId |
| `ProductModel.ReduceIsSum` | models/Product.js:49 | the `reduce` from `acc` equals acc plus the sum, missing quantities counting as 0 |
| `ProductModel.RecomputeCurrentStockFromWarehouses` | models/Product.js:48-52 | the stock becomes the warehouse sum, every other field is kept, and the sum is returned |
| `ProductModel.SumAppend` | models/Product.js:49 | adding a subtotal at the end adds its quantity (0 when missing) |
| `ProductModel.SumBounds` | models/Product.js:13 | with valid subtotals the sum is non-negative and at least every subtotal |
| `ProductModel.RecomputeKeepsValid` | models/Product.js:48-52 | recomputing the stock of a valid product keeps it valid |
| `ProductModel.HookId` | models/Product.js:33-46 | the identifier after the hook is never empty |
| `ProductModel.ProductIdCounter.Increment` | models/Product.js:39-43 | upsert with `$inc`: the counter becomes its old value (0 when missing) plus one, which is returned |
| `ProductModel.ProductIdCounter.NextId` | models/Product.js:35-44 | advances the (category, year) counter by one and returns the identifier of the new number |
| `ProductModel.ProductIdCounter.AssignProductId` | models/Product.js:33-46 | an explicit id is kept and the counters untouched; otherwise the counter advances by one and the product gets a never-issued identifier, which is issued afterwards |
| `Ordering.Insert` | controllers/transactionController.js:14 | inserting into a newest-first list adds exactly one element and stays newest first |
| `Ordering.SortNewestFirst` | controllers/transactionController.js:14 | the result is a permutation of the input, newest first |
| `Ordering.ConsNewestFirst` | controllers/adminController.js:24 | putting an element no older than the head in front keeps the order |
| `Ordering.TailNewestFirst` | controllers/adminController.js:24 | the tail of a newest-first list is newest first and no newer than its head |
| `Ordering.PrefixIsNewest` | controllers/adminController.js:24-25 | a prefix of a newest-first list is newest first and nothing left out is newer than anything taken |
| `AdminController.DashboardWindow` | controllers/adminController.js:8-10 | the window defaults to [now − 30 days, now]; each end given replaces its default |
| `AdminController.CountedEntries` | controllers/adminController.js:12-19 | exactly the entries of the kind in the window, each as often as in the ledger |
| `AdminController.TotalIsSumOfCounted` | controllers/adminController.js:12-19 | the total is the sum of the quantities of exactly the matching entries |
| `AdminController.TotalOfConcat` | controllers/adminController.js:14 | the total over a concatenation is the sum of the totals |
| `AdminController.TotalOfAppend` | controllers/adminController.js:14 | an appended entry adds its quantity iff it matches |
| `AdminController.AdjustmentsNotCounted` | controllers/adminController.js:12-19 | an adjustment anywhere in the ledger changes neither total |
| `AdminController.TotalZeroIffNoneCounted` | controllers/adminController.js:30-31 | over well-formed entries a total is non-negative and 0 iff no entry of that kind is in the window |
| `AdminController.GetDashboard` | controllers/adminController.js:7-35 | each total is the sum of the quantities of exactly the entries of that kind inside the query's window; the feed has min(20, n) ledger entries, newest first, and no entry left out is newer than one shown |
| `AdminController.RecentTxIsNewest` | controllers/adminController.js:23-25 | the feed has min(20, ledger length) ledger entries, newest first, and no entry left out is newer than one shown |
| `AdminController.ProcureRaisesTotal` | controllers/adminController.js:12-15 | a successful procure stamped in the window raises the procured total by its quantity and leaves the distributed total alone |
| `AdminController.DistributeRaisesTotal` | controllers/adminController.js:16-19 | a successful distribute in the window raises the distributed total by its quantity only |
| `AdminController.AdjustLeavesTotals` | controllers/adminController.js:12-19 | an adjustment changes neither total |
| `TransactionController.Filter` | controllers/transactionController.js:7-13 | every result matches every supplied filter, and each matching entry keeps its multiplicity |
| `TransactionController.PageSize` | controllers/transactionController.js:6-16 | no limit sent means 50; a positive limit is capped at 200; a limit of 0 means no limit; a negative limit n means abs(n) documents |
| `TransactionController.ListTransactions` | controllers/transactionController.js:5-20 | the query fails iff the skip is negative, and then with no response message |
| `TransactionController.ListIsSlice` | controllers/transactionController.js:13-16 | a page is the slice of the newest-first matching list starting at skip, of the page size or the rest |
| `TransactionController.ListIsSound` | controllers/transactionController.js:8-14 | every listed entry is in the ledger and matches every supplied filter; the page is newest first |
| `TransactionController.ListIsCapped` | controllers/transactionController.js:6-16 | with no limit a page holds at most 50 entries; with a positive limit, at most min(200, limit) |
| `TransactionController.NonPositiveLimitIsNotCapped` | controllers/transactionController.js:16 | a limit of −300 over 300 entries lists all 300: the 200 cap does not hold for negative limits |
| `TransactionController.FilterAll` | controllers/transactionController.js:7-12 | with no filter sent every entry matches |
| `TransactionController.FirstPageIsComplete` | controllers/transactionController.js:13-16 | a first page large enough lists every matching entry |
| `TransactionController.Page` | controllers/transactionController.js:15-16 | the page has min(n, what remains) entries, those from position skip on |
| `TransactionController.PageSplit` | controllers/transactionController.js:15-16 | two back-to-back pages make up the page of their combined size |
| `TransactionController.ListIsPage` | controllers/transactionController.js:15-16 | with a positive limit up to 200, a listing is that page of the matching entries |
| `TransactionController.PagesAreConsecutive` | controllers/transactionController.js:15-16 | under the model's tie order, page (s, a) followed by page (s + a, b) is page (s, a + b): paging loses and repeats nothing |
| `TransactionController.FilterIgnoresPaging` | controllers/transactionController.js:7-12 | skip and limit do not affect which entries match |
| `TransactionController.GetTransaction` | controllers/transactionController.js:22-28 | a result is a ledger entry with that id; the 404 "Not found" means no entry has that id |
| `TransactionController.GetTransactionFindsEntry` | controllers/transactionController.js:22-28 | on a ledger kept by the operations, id i is found iff i is below the ledger length, and then it is the i-th entry |
| `TransactionController.GetInvoice` | controllers/transactionController.js:30-35 | every failure is the 404 "Invoice not found" |
| `TransactionController.GetInvoiceOutcome` | controllers/transactionController.js:30-35 | found iff the entry exists with an invoice whose url is non-empty; then exactly its url, name and mime type |
| `TrainingModel.TrimStart` | models/Training.js:14 | a suffix of the input, starting with a non-space, after only spaces |
| `TrainingModel.TrimEnd` | models/Training.js:14 | a prefix of the input, ending with a non-space, before only spaces |
| `TrainingModel.Trim` | models/Training.js:14 | the result neither starts nor ends with whitespace |
| `TrainingModel.TrimIsSlice` | models/Training.js:14 | the trimmed text is a slice of the input with only whitespace cut off |
| `TrainingModel.TrimIdempotent` | models/Training.js:14 | trimming twice is trimming once |
| `TrainingModel.TrimBlank` | models/Training.js:14 | the trimmed text is empty iff the input is all whitespace |
| `TrainingModel.AllSpaceTrimsAway` | models/Training.js:14 | an all-whitespace string trims to nothing |
| `TrainingRoutes.NewTraining` | routes/trainings.js:9-31 | a field missing or null gives 400; a created record is valid, owned by the caller, with the trimmed code, no versions and both timestamps now |
| `TrainingRoutes.NewTrainingSucceeds` | routes/trainings.js:12-22 | with both fields sent, create succeeds iff the code is not blank, the percent is in [0, 100] and the caller has an id |
| `TrainingRoutes.Revise` | routes/trainings.js:69-82 | every failure of a permitted update is a server error |
| `TrainingRoutes.ReviseAppendsSnapshot` | routes/trainings.js:70-80 | a successful update appends exactly one version with the previous code and percent, the editor and the time; only sent fields change; owner and creation time are kept |
| `TrainingRoutes.ReviseSucceeds` | routes/trainings.js:77-82 | an update of a valid record fails iff a field is sent as null or a sent value fails validation |
| `TrainingRoutes.ReviseIsUndoable` | routes/trainings.js:70-75 | the earlier versions are the prefix and the last version gives back the replaced code and percent |
| `TrainingRoutes.Collect` | routes/trainings.js:36 | every stored record below n appears, exactly as stored, in increasing id order |
| `TrainingRoutes.OwnedBy` | routes/trainings.js:36 | exactly the records of that owner, never more often than in the input |
| `TrainingRoutes.MineIsOwnedAndComplete` | routes/trainings.js:34-42 | "mine" lists exactly the caller's records, each once, most recently updated first |
| `TrainingRoutes.CollectOnce` | routes/trainings.js:36 | a list with increasing ids has no duplicates |
| `TrainingRoutes.AdminListOf` | routes/trainings.js:113-123 | succeeds iff the admin gate passes; otherwise "Admin privileges required" |
| `TrainingRoutes.AdminListContents` | routes/trainings.js:115-117 | an admin sees all records, or exactly the named owner's when a non-empty ownerId is sent |
| `TrainingRoutes.TrainingStore.Create` | routes/trainings.js:9-31 | success iff the new record is accepted, whatever is already stored; on success it is stored under a fresh id and nothing else changes |
| `TrainingRoutes.TrainingStore.Get` | routes/trainings.js:45-57 | not found before forbidden; success iff the record exists and the caller owns it or is an admin; then the stored record |
| `TrainingRoutes.TrainingStore.Update` | routes/trainings.js:60-89 | not found, then forbidden, both changing nothing; otherwise the result is `Revise` of the stored record, saved only on success |
| `TrainingRoutes.TrainingStore.Delete` | routes/trainings.js:92-109 | not found, then 403 "Forbidden" for a caller who is neither owner nor admin, both changing nothing; otherwise exactly that record is removed and "Deleted" returned |
| `TrainingRoutes.TrainingStore.Mine` | routes/trainings.js:34-42 | exactly the caller's records, most recently updated first |
| `TrainingRoutes.TrainingStore.AdminList` | routes/trainings.js:113-123 | on a valid store: succeeds iff the caller is an admin, otherwise 403 "Admin privileges required"; an admin gets every stored record as stored, or exactly the records of `ownerId` when a non-empty one is sent |
| `Auth.Split` | middleware/auth.js:10 | `split` yields at least one piece and none contains the separator |
| `Auth.JoinSplit` | middleware/auth.js:10 | joining the pieces with the separator gives back the string |
| `Auth.SplitAfterWord` | middleware/auth.js:10 | a separator-free word and a separator split off as the first piece |
| `Auth.FirstPiece` | middleware/auth.js:10 | the first piece is the longest separator-free prefix |
| `Auth.TokenIsWordAfterPrefix` | middleware/auth.js:6-10 | the token is what follows `Bearer ` up to the next space or the end |
| `Auth.Authenticate` | middleware/auth.js:5-21 | every refusal carries one of the three messages |
| `Auth.AuthenticateOutcome` | middleware/auth.js:5-21 | "Missing or invalid Authorization header" iff the header is absent or lacks the prefix; "Invalid token" iff the token fails to verify or the lookup fails; authenticated iff the token verifies and the user is found, then exactly {id, role}; "User not found" iff the verified id has no user |
| `Auth.AdminOnly` | middleware/auth.js:23-28 | passes iff a user is present with role "admin"; otherwise 403 "Admin privileges required" |
| `Auth.AdminChain` | middleware/auth.js:5-28 | the two gates in a row pass exactly a verified, found admin |

## Left out

- Sessions, transaction isolation and concurrency are not modelled. This covers the race between concurrent distributes and the atomicity of the counter's `$inc`. An abort is modelled as "state unchanged", and the counter is sequential state.
- The low-stock list of the dashboard is not modelled. It compares `currentStock` with the string `"$reorderLevel"` rather than with the field, and it turns errors into `[]`.
- controllers/productController.js is not part of this model beyond registration (`Ledger.Register`, `InventoryController.Inventory.CreateProduct`). Its update handler can overwrite `currentStock` directly, bypassing the ledger, and the ledger invariant is not claimed to survive it. Listing by a regex name search is not modelled either.
- The routing files, routes/export.js and server.js are wiring and I/O, and are not modelled. server.js mounts only the auth, training, export and product routers; the inventory, admin and transaction routers are not mounted, so their handlers are modelled as written but cannot be reached through that server.
- No link between `stockByWarehouse` and `currentStock` is modelled, because no ledger operation maintains one. `ProductModel.RecomputeCurrentStockFromWarehouses` returns the updated document as a value instead of assigning it in place.
- `jwt.verify` and the user lookup are oracle parameters of `Auth.Authenticate`. The shape of the token payload is folded into the verifier.
- `.populate` display joins are not modelled.
- Floating-point numbers are not modelled. `unitPrice` and stock quantities are integers; training percentages are `real`, with no NaN. There is no casting of strings to numbers.
- `ProductModel.Upper`: `toUpperCase` is modelled on ASCII letters only.
- `TrainingModel.Trim`: only ASCII whitespace is trimmed.
- The `trim` and `uppercase` setters of the product fields (`productId`, `name`, `category`, `warehouseCode`) are not applied to input. The hook upper-cases the category itself.
- Malformed ObjectIds are not modelled. Ids are natural numbers, so the cast error does not arise: neither its 500 response in the training routes (caught there), nor the unanswered request in the transaction routes (whose handlers have no try block, as for a negative skip), nor, in the procure, distribute and adjust handlers, the 400 carrying the cast message when `Product.findOne` throws inside the try block.
- `Ordering.SortNewestFirst` resolves ties in input order. The store does not promise any tie order.
- `TransactionController.PagesAreConsecutive` holds under that fixed tie order only. The store sorts on `createdAt`, which is not unique, and may order tied entries differently from one query to the next, so two entries stamped in the same millisecond can be repeated or lost across real pages.
- `TrainingRoutes.AdminListOf`: the admin list's order (owner ascending, then most recently updated first) is not modelled; the list is in id order.
- The 409 "Duplicate trainingCode for this user" path of the training routes is not modelled. The unique index it relies on is disabled (commented out in models/Training.js:21), so that path cannot be reached.
- Caller identity differs between the source and its design. Procure, distribute and adjust read `req.user._id`, but the authentication middleware sets only `id` and `role`. With this middleware `performedBy` would be absent and every successful movement would be refused at the entry save. The model keeps the performer as a parameter, so both cases can be stated (`EntryRejected` when it is absent).
- Products carry no `metadata`, `images` or timestamps. The entries' `updatedAt` is not modelled.
- `TransactionController.Message`: a negative `skip` makes the store throw. The listing handler does not catch this, so no response is sent; the model returns `NegativeSkip` with no message.
