# Web-DB-with-Node: a Dafny model of the order pipeline, the in-memory server, the cart and the query-string helper

This project models the core of a small web shop API. It covers:

- server.js. A `POST /api/orders/` request is validated (`validateOrder`) and checked against the catalogue's prices (`checkProductsAndPrices`). It is then cut down to its recognised fields (`extractValidOrder`) and stored in one MySQL transaction (`storeValidOrder`, `rollback`). A timer later marks the order as dispatched (`dispatchOrder`). The read side turns query rows into the API's JSON (`ordersFromSQL`, `productsFromSQL`, `categoriesFromSQL`). All failures go through `WebAppError`, `databaseError` and `handleWebAppError`.
- server-inmemory.js. The same API over an `orders` array and a `products` array whose named properties are the category records: `addOrder` with its `dispatch` closure, `getOrder`, `listProducts` and `addProductToCategory`.
- static/js/cart.js. The browser's cart: a map from product id to line, plus the running `cartPrice` and `cartCount`. It covers `addProductToCart`, `clearCart` and the loop of `submitOrder` that builds the order lines.
- static/js/tools.js. `getParameterByName`, which reads one parameter out of the page's query string.

Each source file becomes one or more modules:

| module | file | contents |
|---|---|---|
| `Wrappers` | wrappers.dfy | `Option`, `Result` |
| `JsValue` | jsvalue.dfy | parsed JSON, JavaScript property reads (`undefined`, the `TypeError` of reading from `null`), truthiness, `String(number)` for object keys, array-index strings |
| `WebErrors` | web_errors.dfy | the error value and the response it becomes |
| `Validation` | validation.dfy | `validateOrder` |
| `Reconciliation` | reconciliation.dfy | `checkProductsAndPrices` |
| `Normalisation` | normalisation.dfy | `extractValidOrder` |
| `Tables` | tables.dfy | the MySQL rows and one database state, with the schema's keys as a predicate |
| `OrderStore` | order_store.dfy | the transaction, dispatch, the whole `addOrder` pipeline, and a `Database` class whose methods change the tables in place |
| `OrderQuery` | order_query.dfy | the `getOrder` join and the three row mappers |
| `InMemoryServer` | inmemory_server.dfy | server-inmemory.js, with a `Server` class holding `orders` and `products` |
| `ShoppingCart` | cart.dfy | cart.js, with a `Cart` class holding the three module variables |
| `QueryString` | query_string.dfy | `getParameterByName` |

Code that changes state in place is modelled as classes whose methods are proved against specification functions. These are `Database`, `Server` and `Cart`. Examples of such specification functions are `OrderStore.Store`, `OrderStore.PlaceOrder`, `InMemoryServer.PlacedOrder`, `InMemoryServer.AsWrittenAdd` and `ShoppingCart.AddTo`. The lemmas then state what the source promises about those functions.

Some loops are kept as loops, each proved equal to its function: the `forEach` of `validateOrder`, the counting loop, the line copying, the line insert, `productsFromSQL`, the two loops of `addProductToCategory` and the cart's line loop.

Some behaviour of the code that the model keeps:

- `validateOrder` checks only `typeof … === 'string'` for buyer and address, so `""` is accepted.
- It checks `Math.floor(qty) > 0`, so a quantity of `1.5` is accepted and stored as it is.
- Two lines clash when their products become the same object key. So the number `2` and the string `"2"` collide. A product id `"__proto__"` never becomes an own key, so any order containing one is rejected as a duplicate.
- The in-memory server's `getOrder` test `id in orders` also accepts the array's own `length` property: `GET /api/orders/length/` answers 200 with the array length.
- The in-memory `products` table is an array too. `POST /api/categories/length/` passes the category test: a body with keys then throws at `product in products.length` (500), and an empty body is answered "products added".
- MySQL keeps the order's date to the second. The 201 response echoes the server's full date, and `getOrder` later reads back the rounded one.

## Model

| member | source | states |
|---|---|---|
| `JsValue.Get` | server.js:255-264 | `v.key` is `undefined` unless `v` is an object with that own field; reading from `null` is the only read that throws |
| `JsValue.NumberAndDigitsCollide` | server.js:265 | the number `k` and the string of its digits name the same `priceCheck` entry |
| `JsValue.NumberToString` | server.js:265 | an integer-valued number becomes its decimal digits as an object key, with a minus sign when negative |
| `JsValue.ParseIndex` | server-inmemory.js:341 | a property name denotes an array index exactly when it is `"0"` or digits without a leading zero |
| `JsValue.IndexRoundTrip` | server-inmemory.js:323-326 | the printed order number, read back as a property name, is that same index |
| `JsValue.IndexTextCanonical` | server-inmemory.js:341 | a property name that denotes an index is exactly that index's printed form, so each order has one URL |
| `JsValue.DigitsOfNat` | server-inmemory.js:326 | the printed form of a number is a canonical index string whose value is the number |
| `Tables.StoredDate` | server.js:359-366 | what the date column keeps: a whole second within half a second of the server's date |
| `Tables.StoredDateWholeSeconds` | server.js:366 | a whole-second date is stored unchanged, so storing twice is storing once |
| `WebErrors.MakeError` | server.js:577-583 | the error keeps its status; its message is never empty, ends in a newline, and before it is the given text |
| `WebErrors.DatabaseError` | server.js:571-575 | any database error becomes status 500 "database error", whatever the detail |
| `WebErrors.HandleWebAppError` | server.js:592-595 | every error becomes a text response with no location, a non-zero status and a non-empty body; the error's own status and message are kept when it has them |
| `WebErrors.MadeErrorResponse` | server.js:577-595 | an error made with a non-zero status reaches the client with exactly that status and the message plus a newline |
| `WebErrors.DatabaseErrorHidesDetail` | server.js:571-575 | two database failures with different details give the same response to the client: 500 "database error\n" |
| `Validation.ValidationError` | server.js:269-272 | a failed check is answered with 400 and "invalid order: " plus that check's message |
| `Validation.CheckLine` | server.js:260-264 | one line's four checks in source order, with the first failing check's message; its meaning is `Validation.CheckLineAccepts` |
| `Validation.CheckLines` | server.js:260-266 | the `forEach`: each line in turn, stopping at the first failure, filling the price table; see `Validation.FirstBadLineDecides` and `Validation.CheckLinesTable` |
| `Validation.WellFormed` | server.js:255-268 | the independent definition of an acceptable payload: shape checks pass and the lines' product keys are distinct own keys |
| `Validation.Validate` | server.js:251-276 | `validateOrder`'s checks in source order, giving the first failure or the price table; `Validation.ValidateAcceptsExactly` ties it to `Validation.WellFormed` |
| `Validation.CheckLineAccepts` | server.js:260-264 | a line passes its checks exactly when it is an object with a number or string product, a number qty with floor at least 1 and a number price; it then yields its key and price |
| `Validation.FirstBadLineDecides` | server.js:260-265 | when line `i` is the first line that is not well formed, the loop's error is that line's first failed check |
| `Validation.CheckLinesTable` | server.js:260-266 | while all lines are well formed, the table's keys are the lines' keys minus `__proto__`; with distinct keys each key maps to its line's price |
| `Validation.KeySetSize` | server.js:265-268 | the number of distinct keys is at most the number of lines, and equal exactly when no key repeats |
| `Validation.ProtoKeyShrinksTable` | server.js:265-268 | the table has one entry per line exactly when the keys are distinct and none is `__proto__` |
| `Validation.ValidateAcceptsExactly` | server.js:255-268 | validation succeeds if and only if the payload is well formed: the shape checks all pass and no two lines share a product key |
| `Validation.ValidationOrder` | server.js:255-259 | the order-level checks run first, in source order, and the first that fails decides the error |
| `Validation.BadLineDecides` | server.js:255-265 | when the order-level checks pass, the first ill-formed line decides the error |
| `Validation.RepeatedProductRejected` | server.js:265-268 | well-formed lines with a repeated key are rejected with the duplicate-product error |
| `Validation.ValidateTable` | server.js:260-268 | an accepted payload's table maps each line's key to that line's price, with one entry per line |
| `Validation.FillPriceCheck` | server.js:260-266 | the `forEach` loop filling `priceCheck` stops at the first failing line and otherwise returns the table of the declarative definition |
| `Validation.ValidateOrder` | server.js:251-275 | the method gives validation's result: the first failed check or the price table |
| `Reconciliation.ToCentsExact` | server.js:285 | a price with whole cents survives `toFixed(2)` unchanged |
| `Reconciliation.ToCents` | server.js:285 | `toFixed(2)` read as whole cents, rounding half away from zero; `Reconciliation.ToCentsExact` shows whole-cent prices survive |
| `Reconciliation.Matching` | server.js:285 | the counting query finds only claimed products |
| `Reconciliation.ReconciledIffAllMatch` | server.js:297-306 | the count equals the number of keys if and only if every claimed product exists at the claimed price |
| `Reconciliation.PricesChanged` | server.js:305 | a short count is 400 "sorry, prices have changed\n" |
| `Reconciliation.CountKeys` | server.js:284-287 | the loop counts each distinct key of `priceCheck` once |
| `Reconciliation.CheckProductsAndPrices` | server.js:281-310 | a query error gives the database error; otherwise the order proceeds if and only if every product exists at its claimed price, else 400 "prices have changed" |
| `Normalisation.ExtractValidOrder` | server.js:317-334 | the pushing loop builds the normalised order: buyer, address and one copied line per client line |
| `Normalisation.Normalise` | server.js:317-334 | the order kept: buyer, address and each line's product, qty and price; see `Normalisation.NormaliseKeepsLines` |
| `Normalisation.NormaliseKeepsLines` | server.js:318-331 | line count and order are kept, and each line keeps exactly its product, qty and price |
| `Normalisation.OtherOrderFieldDropped` | server.js:318-324 | changing any order field other than lines, buyer and address leaves the payload valid and the stored order unchanged |
| `Normalisation.OtherLineFieldDropped` | server.js:325-331 | changing any line field other than product, qty and price leaves the payload valid and the stored order unchanged |
| `OrderStore.StoreAllOrNothing` | server.js:386-414 | the transaction succeeds if and only if no step fails; a failure at any step leaves customers, orders and lines as they were and reports only "database error"; the id counters never go back |
| `OrderStore.Store` | server.js:339-435 | the transaction: begin, upsert, order insert, line insert, commit, with a rollback after any later failure; its properties are the Store lemmas below |
| `OrderStore.AfterUpsert` | server.js:349-352 | the customer upsert's effect: a known pair keeps its id, a new pair takes the next one, and that id becomes `last_insert_id()` |
| `OrderStore.AfterOrderInsert` | server.js:359-362 | the order insert's effect: a new undispatched row for `last_insert_id()`'s customer, with the date to the second |
| `OrderStore.LineRows` | server.js:368-375 | the OrderLine rows the insert writes: one per line, each for `last_insert_id()`, with the product key, qty and price in cents |
| `OrderStore.AfterLinesInsert` | server.js:368-375 | the line insert's effect: those rows appended |
| `OrderStore.AfterRollback` | server.js:586-590 | the rollback's effect: the three tables as saved, the counters as they are |
| `OrderStore.Dispatch` | server.js:442-453 | the dispatch update's effect, nothing on error; see `OrderStore.DispatchTouchesOneRow` |
| `OrderStore.PlaceOrder` | server.js:245-435 | the whole handler: validation, price check, normalisation, transaction and response; its properties are the PlaceOrder lemmas |
| `OrderStore.NormalisedProductsDistinct` | server.js:265-268 | an accepted order's lines have distinct product keys, so its rows respect OrderLine's (order, product) key |
| `OrderStore.PlaceOrderPreservesValid` | server.js:245-435 | whatever the request and whichever step fails, `addOrder` keeps the schema's keys and foreign keys |
| `OrderStore.StoreSuccess` | server.js:359-375 | on success there is one new order row, not dispatched, with the server's date and the resolved customer, and one line row per line, each referencing the new order |
| `OrderStore.StoreSteps` | server.js:386-420 | with no fault, the transaction is upsert, then order insert, then line insert, and the new id is the order counter |
| `OrderStore.StoreResolvesCustomer` | server.js:349-352 | a known (name, address) keeps the Customer table and the order references the existing id; a new pair adds exactly one customer, which the order references |
| `OrderStore.RepeatBuyerSharesCustomer` | server.js:349-361 | two orders from the same buyer and address share one customer row and get different order ids |
| `OrderStore.UpsertPreservesValid` | server.js:349-352 | the customer upsert keeps the schema's keys, and `last_insert_id()` then names a customer |
| `OrderStore.OrderInsertPreservesValid` | server.js:359-362 | the order insert keeps the keys, and `last_insert_id()` then names the new order, which no earlier line references |
| `OrderStore.LinesInsertPreservesValid` | server.js:368-375 | inserting lines with distinct products for the new order keeps the (order, product) key and the foreign keys |
| `OrderStore.RollbackPreservesValid` | server.js:586-590 | restoring the tables after the counters moved on keeps them valid |
| `OrderStore.StorePreservesValid` | server.js:386-414 | whatever its outcome, the transaction keeps the schema's keys and foreign keys |
| `OrderStore.DispatchTouchesOneRow` | server.js:442-453 | dispatch sets only order `n`'s flag to 'y'; nothing else changes, and on error nothing changes at all |
| `OrderStore.DispatchIdempotent` | server.js:443 | dispatching twice is the same as dispatching once |
| `OrderStore.DispatchPreservesValid` | server.js:443 | dispatch keeps the schema's keys |
| `OrderStore.PlaceOrderRejectsInvalid` | server.js:269-272 | an invalid payload is answered 400 with the first failed check's message, and nothing is written |
| `OrderStore.PlaceOrderRejectsStalePrices` | server.js:299-306 | a valid payload with a missing product or a wrong price is answered 400 "sorry, prices have changed", and nothing is written |
| `OrderStore.RowsAtCataloguePrices` | server.js:368-375 | the line rows of an accepted, reconciled order name existing products at exactly their catalogue prices |
| `OrderStore.PlaceOrderWriteMeans` | server.js:297-310 | the orders change only when the payload is valid, the prices match and no step fails; the state is then the transaction's state |
| `OrderStore.PlaceOrderWritesOnlyMatchingPrices` | server.js:299-375 | an order is written only with a 201 response, with one line row per client line, each at the stored catalogue price |
| `OrderStore.PlaceOrderCreated` | server.js:416-424 | the response is 201 if and only if the payload is valid, the prices match and every step succeeds; it points to `/api/orders/<id>/` and echoes the normalised order with the server's date, dispatched false and the new id |
| `OrderStore.Database.InsertCustomer` | server.js:349-352 | the upsert on the connection's tables: a known pair keeps its id, a new pair takes the next one, and either becomes `last_insert_id()` |
| `OrderStore.Database.InsertOrder` | server.js:359-362 | the new order row references `last_insert_id()`, and its id becomes the new `last_insert_id()` |
| `OrderStore.Database.InsertLines` | server.js:368-375 | the loop appends one row per line, in line order, each referencing `last_insert_id()` |
| `OrderStore.Database.Rollback` | server.js:586-590 | the tables return to the saved state; the counters and `last_insert_id()` do not |
| `OrderStore.Database.StoreValidOrder` | server.js:339-435 | the statements run in sequence and the state and result are those of the transaction function |
| `OrderStore.Database.DispatchOrder` | server.js:442-453 | the update on the connection's tables is the dispatch function |
| `OrderStore.Database.AddOrder` | server.js:245-435 | the whole handler gives the state and response of the pipeline function, and keeps the schema valid |
| `OrderQuery.OrdersFromSQLShape` | server.js:496-519 | no rows give 404 "no such order: " + id; otherwise the view has the requested id, one line per row in row order, and dispatched exactly when the flag is 'y' |
| `OrderQuery.OrdersFromSQL` | server.js:496-519 | the mapper: 404 for no rows, else the first row's customer, date and flag, the requested id and the lines |
| `OrderQuery.Views` | server.js:509-516 | one line object per row, in row order, with the row's product id, title, price and quantity |
| `OrderQuery.JoinFrom` | server.js:483-489 | the inner join of Customer, Order, OrderLine and Product for one order |
| `OrderQuery.JoinResult` | server.js:483-491 | what the query may answer: the join's rows for a canonical id in any arrangement (the ORDER BY), none for other ids |
| `OrderQuery.GetOrder` | server.js:482-520 | `getOrder`: the database error, or the mapper's result on the rows |
| `OrderQuery.ViewsPermute` | server.js:490 | rearranging the rows rearranges the line objects: the same multiset |
| `OrderQuery.FoundFromRows` | server.js:496-519 | any arrangement of a non-empty join that shares one customer, date and flag gives 200 with those and exactly the join's lines as a multiset |
| `OrderQuery.CustomerWithIdInverse` | server.js:485-486 | with unique customer ids, the join finds exactly the customer an order references |
| `OrderQuery.UnknownOrderNotFound` | server.js:482-499 | an id that is not the canonical decimal text of an existing order gives 404 "no such order: " + id, whatever the order of the rows |
| `OrderQuery.JoinOfStored` | server.js:483-490 | after a stored order, the join gives the new id and one row per line, with the stored buyer and address, the date to the second, flag 'n', the catalogue title and the line's product, quantity and price in cents |
| `OrderQuery.StoredOrderIsFound` | server.js:482-519 | a stored order asked for by its id, whatever order the database sorts the rows into, is found with the buyer and address stored, the date to the second, not dispatched, and exactly the lines given (as a multiset), each with its product, catalogue title, quantity and price rounded to cents |
| `OrderQuery.DispatchedOrderShows` | server.js:442-453 | after dispatch, the order is still found and reads as dispatched, whatever order the rows come in |
| `OrderQuery.JoinDispatch` | server.js:506 | dispatch changes only the flag of the joined rows |
| `OrderQuery.ProductsFromSQL` | server.js:190-214 | no rows give 404 "no such category: " + id; otherwise the listing has the first row's category and one entry per id |
| `OrderQuery.ProductsMap` | server.js:201-209 | the `forEach` writing one entry per row, a later row winning; see `OrderQuery.ProductsMapContents` |
| `OrderQuery.Listing` | server.js:190-212 | what `productsFromSQL` returns |
| `OrderQuery.ProductsMapContents` | server.js:201-209 | the listing has an entry for every row's id and nothing else, and each entry comes from the last row with that id |
| `OrderQuery.CategoryURLRoundTrip` | server.js:135 | the category id can be read back from its products URL |
| `OrderQuery.CategoriesFromSQLLinks` | server.js:131-139 | one link per row in row order, titled with the row's name, with a URL the row's id can be read back from; distinct ids give distinct URLs |
| `OrderQuery.CategoriesFromSQL` | server.js:131-139 | one link per row in row order; see `OrderQuery.CategoriesFromSQLLinks` |
| `InMemoryServer.AddOrderRejects` | server-inmemory.js:315-318 | no body, or no truthy `order`, gives 400 and leaves `orders` unchanged; a truthy primitive `order` throws (500) and leaves `orders` unchanged |
| `InMemoryServer.Stamped` | server-inmemory.js:320-324 | the stamp on the stored order; see `InMemoryServer.StampedObject` |
| `InMemoryServer.PlacedOrder` | server-inmemory.js:314-328 | `addOrder`'s new orders array and response; see `InMemoryServer.AddOrderRejects` and `InMemoryServer.AddOrderAppends` |
| `InMemoryServer.Dispatched` | server-inmemory.js:334-337 | the timer's effect; see `InMemoryServer.DispatchedSetsFlag` |
| `InMemoryServer.OrderLookup` | server-inmemory.js:340-347 | `getOrder` on the array; see `InMemoryServer.OrderLookupFinds` |
| `InMemoryServer.Server.GetOrder` | server-inmemory.js:340-347 | `getOrder` on the server's orders |
| `InMemoryServer.Server.ListProducts` | server-inmemory.js:283-289 | `listProducts` on the server's categories |
| `InMemoryServer.StampedObject` | server-inmemory.js:320-324 | the stored order has the server's date, dispatched false and its index as id, overriding the client's values, and keeps every other client field as sent |
| `InMemoryServer.AddOrderAppends` | server-inmemory.js:320-328 | an accepted order is appended as number `|orders|`, earlier orders are unchanged, and the response is 201 at `/api/orders/<id>` with no trailing slash |
| `InMemoryServer.PlacedOrderIsFound` | server-inmemory.js:340-346 | the URL an accepted order is given finds that order |
| `InMemoryServer.DispatchedSetsFlag` | server-inmemory.js:334-337 | dispatch sets only that order's `dispatched` to true and keeps its other fields and every other order |
| `InMemoryServer.OrderLookupFinds` | server-inmemory.js:340-347 | the lookup answers 404 exactly for ids that are neither `length` nor an index in range, and otherwise returns the order at that index |
| `InMemoryServer.ProductsListing` | server-inmemory.js:283-289 | the category record is returned if and only if its key exists, otherwise 404 "no such category: " + id |
| `InMemoryServer.AddedProductsListed` | server-inmemory.js:283-310 | after an accepted add, the next listing of that category shows the as-written add's entries beside an unchanged `products` object, and the intended add's new products inside it |
| `InMemoryServer.ArrayFieldsKeys` | server-inmemory.js:301 | an array body contributes exactly its index names |
| `InMemoryServer.ArrayFieldsValues` | server-inmemory.js:309 | each index name of an array body carries the item at that index |
| `InMemoryServer.Conflicts` | server-inmemory.js:301-306 | the refused keys are among the body's keys |
| `InMemoryServer.AsWrittenAddMerges` | server-inmemory.js:301-310 | a body is refused if and only if one of its keys is `in` the category record; otherwise every body entry is added and the record's existing entries are kept |
| `InMemoryServer.AsWrittenAdd` | server-inmemory.js:301-310 | the two loops as written, on the category record; see `InMemoryServer.AsWrittenAddMerges` |
| `InMemoryServer.LengthCategoryAdd` | server-inmemory.js:292-310 | for the array's own `length`: no body 400, a body with keys throws (500), an empty body "products added" |
| `InMemoryServer.AsWrittenAddKeepsShape` | server-inmemory.js:301-310 | an accepted add never replaces the record's `products` object |
| `InMemoryServer.KnownProductAccepted` | server-inmemory.js:301-310 | a product the category already lists passes the check, and the listed products stay as they were |
| `InMemoryServer.IntendedAddListsProducts` | server-inmemory.js:301-310 | the corrected add refuses exactly the bodies naming an already listed product, and otherwise lists all new products beside the old ones, keeping the rest of the record |
| `InMemoryServer.IntendedAdd` | server-inmemory.js:301-310 | the corrected loops, on the record's `products` object; see `InMemoryServer.IntendedAddListsProducts` |
| `InMemoryServer.IntendedAddRejectsKnownProduct` | server-inmemory.js:302-304 | the corrected add refuses the request the as-written one accepts |
| `InMemoryServer.FindKnownKey` | server-inmemory.js:301-306 | the check loop finds a conflicting key if and only if there is one |
| `InMemoryServer.WriteFields` | server-inmemory.js:308-310 | the write loop, one key at a time and in any order, yields the record with every body entry set |
| `InMemoryServer.Server.AddOrder` | server-inmemory.js:314-338 | the handler's change to `orders` and its response are those of the order function; `products` is untouched |
| `InMemoryServer.Server.DispatchOrder` | server-inmemory.js:334-337 | the closure's change to `orders` is the dispatch function |
| `InMemoryServer.Server.CopyFields` | server-inmemory.js:308-310 | the write loop sets every body entry in the category record and changes nothing else |
| `InMemoryServer.Server.AddProductToCategory` | server-inmemory.js:291-312 | for `length` the reply of `LengthCategoryAdd`; otherwise unknown category 404, no body 400, a conflicting key 400 naming that key with nothing written, and else the record gains every body entry and the reply is "products added" |
| `InMemoryServer.Server.AddListedProducts` | server-inmemory.js:291-312 | the corrected handler: same responses, with the check and the write on the category's `products` object, keeping every record well shaped |
| `ShoppingCart.AddToEntries` | static/js/cart.js:11-12 | an unseen id gets `{product: id, qty: 1, price}`; a known id has its qty raised by one and keeps its first price; no other entry changes |
| `ShoppingCart.AddTo` | static/js/cart.js:11-12 | one `addProductToCart` on the cart map; see `ShoppingCart.AddToEntries` |
| `ShoppingCart.Build` | static/js/cart.js:6-12 | the cart after a sequence of adds from empty; see `ShoppingCart.BuildEntries` |
| `ShoppingCart.SumQtyAddTo` | static/js/cart.js:11-15 | each add raises the sum of the quantities by exactly one |
| `ShoppingCart.CountIsSumOfQty` | static/js/cart.js:10-15 | after any sequence of adds, the number of adds equals the sum of `qty` over the entries |
| `ShoppingCart.BuildEntries` | static/js/cart.js:10-12 | there is one entry per distinct id added; each names its own id, counts the adds of that id and has the price at the id's first add |
| `ShoppingCart.SubmittedOrderValidates` | static/js/cart.js:61-72 | a non-empty order built from submittable lines always passes the server's validation |
| `ShoppingCart.EntryLines` | static/js/cart.js:70-72 | the loop yields each cart entry exactly once, so the lines are submittable |
| `ShoppingCart.Cart.constructor` | static/js/cart.js:6-8 | the cart starts empty with both totals 0 |
| `ShoppingCart.Cart.AddProductToCart` | static/js/cart.js:10-15 | the map changes as one add, `cartCount` grows by 1, `cartPrice` by the product's price, and `cartCount` equals the sum of the quantities |
| `ShoppingCart.Cart.ClearCart` | static/js/cart.js:106-109 | the cart is empty and both totals are 0 |
| `ShoppingCart.Cart.SubmitLines` | static/js/cart.js:70-72 | the submitted lines are exactly the cart's entries, one per distinct product, each with `qty` at least 1 |
| `QueryString.ReplaceFirst` | static/js/tools.js:17 | a text without the character is unchanged |
| `QueryString.ReplaceFirstAt` | static/js/tools.js:17 | only the first occurrence is replaced: the text before it, then the replacement, then the rest unchanged |
| `QueryString.Escape` | static/js/tools.js:17 | the two `replace` calls escaping the first `[` and the first `]`; see `QueryString.EscapeIsLiteral` |
| `QueryString.EscapeIsLiteral` | static/js/tools.js:17-18 | for a name with at most one `[` and one `]` and no other metacharacter, the escaped pattern matches exactly the name |
| `QueryString.BracketFreeUnchanged` | static/js/tools.js:17 | a bracket-free name is used unchanged |
| `QueryString.OnlyFirstBracketEscaped` | static/js/tools.js:17 | only the first `[` is escaped; a second one stays bare |
| `QueryString.FindMatch` | static/js/tools.js:19 | a match leaves room for the name and the `=` |
| `QueryString.FindMatchLeftmost` | static/js/tools.js:18-19 | the search finds the leftmost position with `?` or `&`, then the name, then `=`, or reports that there is none |
| `QueryString.ValueFrom` | static/js/tools.js:18 | the captured value is the text up to the first `&` or `#`, or to the end |
| `QueryString.PlusToSpace` | static/js/tools.js:20 | every `+` becomes a space and every other character is kept |
| `QueryString.ParameterIsMatchValue` | static/js/tools.js:17-20 | for a plain name the result is the match of the name itself |
| `QueryString.NoMatchGivesEmpty` | static/js/tools.js:18-20 | with no `?name=` or `&name=` the result is the empty string |
| `QueryString.LeftmostMatchGivesValue` | static/js/tools.js:18-20 | at the leftmost match the result is the decoded capture, with `+` read as a space |
| `QueryString.MatchValue` | static/js/tools.js:18-20 | the search and the result: "" with no match, else the decoded capture of the leftmost match |
| `QueryString.GetParameterByName` | static/js/tools.js:16-21 | `getParameterByName`; see `QueryString.NoMatchGivesEmpty` and `QueryString.LeftmostMatchGivesValue` |

## Left out

- SQL text, `sql.format` and `sql.escape`. The statements are modelled by their effect on the tables. MySQL's coercion of a product key string to a numeric id is not modelled; only the exact key matches.
- `ORDER BY P.name` in `listProducts` and `ORDER BY priority, name` in `listCategories`. The mappers take rows in whatever order they come.
- `OrderQuery.StoredOrderIsFound`: `getOrder`'s rows come sorted by product name (`ORDER BY P.name`). The collation is not modelled, so the lines are stated as a multiset, for any arrangement of the join's rows.
- `OrderQuery.JoinOfStored`: states the join in OrderLine order, before the database sorts it. `OrderQuery.StoredOrderIsFound` takes the rows in any order.
- `OrderQuery.GetOrder`: MySQL compares the INT column with the path text by converting the text to a number, so `05`, `5.0` or `5abc` find order 5. The model matches only canonical decimal text. That conversion is not modelled.
- `OrderQuery.UnknownOrderNotFound`: for a non-canonical id such as `05`, the 404 it states is not what MySQL answers when order 5 exists, since MySQL's text-to-number conversion is not modelled.
- Floating point. Claimed prices are exact reals, rounded to cents half away from zero as `toFixed(2)` and MySQL's DECIMAL do. Stored prices are integer cents. The cart's prices are integer cents, so the float sum `cartPrice` and its display are not modelled.
- `String(number)` in exponent form (very large or very small numbers). Only plain decimal text with at most 20 fractional digits is modelled.
- The order of `Object.keys`. JSON objects are maps, so the model does not fix which conflicting key `addProductToCategory` reports (it is some key in conflict), nor the order of the cart's submitted lines.
- Names inherited from `Array.prototype` (such as `push`) in the in-memory `getOrder` test `id in orders`. `length` is modelled; the model answers 404 for the others. The check loop of `addProductToCategory` does include the Object.prototype names a category record inherits.
- `InMemoryServer.ProductsListing`: the categories table is an array. So `GET /api/categories/length/` and the Array.prototype names such as `push` pass `id in products`, and `res.send` gets a number or a function. How it replies depends on the Express version. The model answers 404 for them.
- `InMemoryServer.Server.AddProductToCategory`: `length` is modelled. For an Array.prototype name such as `push` the source checks and writes properties of that shared function. The model answers 404 for those.
- `InMemoryServer.Server.AddListedProducts`: as for `InMemoryServer.Server.AddProductToCategory`, the Array.prototype names other than `length` answer 404 in the model.
- The body of Express's default error page when a handler throws. That response is modelled only as status 500.
- Timers, concurrency, connection handling and reconnection, API-key checks, routing, redirects, static files, and the DOM and network parts of the client. Dispatch is an operation the caller invokes.
- `new Date()` is a timestamp parameter, and it is never serialised to text. The date column's rounding to whole seconds is modelled. The driver's time-zone conversion is not.
- `decodeURIComponent` is a function parameter. Its `URIError` on malformed input is not modelled.
- `QueryString.GetParameterByName`: requires a name with no regular-expression metacharacter other than one `[` and one `]`. A name with other metacharacters builds a real pattern, and regular-expression matching is not modelled.
- `ShoppingCart.Cart.AddProductToCart`: requires a product id that is not an Object.prototype name such as `constructor`. For such an id, `in` is true on an empty cart and the source updates an inherited function.
- The seed data of server-inmemory.js and the catalogue-management operations (`addCategory` answers 501) are not modelled. `Server` and `Database` take initial tables as constructor arguments.
- The quantity column's SQL type is not modelled. Quantities are stored as the real numbers sent, so `1.5` stays `1.5`.

## Findings

| source | as written | input that shows it | evidently intended | confidence | as-written member | corrected member |
|---|---|---|---|---|---|---|
| server-inmemory.js:301-310 | `addProductToCategory` checks and writes keys of the category record `products[id]`; the listed products are in `products[id].products`, which `listProducts` returns and the client lists (static/js/products.js:50) | `POST /api/categories/cam/` with body `{"nixon123x": {...}}`: accepted although Cameras already lists `nixon123x`, and the new entry lands beside `category` and `products`, out of the listing | refuse a product already in `products[id].products` and add new products to that object | high, not executed | `InMemoryServer.KnownProductAccepted` | `InMemoryServer.IntendedAddListsProducts` |

The handler as written is `InMemoryServer.Server.AddProductToCategory`, over `InMemoryServer.AsWrittenAdd`. The corrected handler is `InMemoryServer.Server.AddListedProducts`, over `InMemoryServer.IntendedAdd`. `InMemoryServer.IntendedAddRejectsKnownProduct` shows it refusing the request above.
