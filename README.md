# Order service of e_comm_hl, modelled in Dafny

The order service of e_comm_hl is a Go HTTP service over PostgreSQL. This project models its one piece of real logic, the workflow that adds an item to an order (`POST /orders/{id}/order`). It also models the two stores that workflow calls and two other order handlers.

The workflow runs six steps in a fixed order:

1. Read the product.
2. Check its stock.
3. Write the product back with the stock lowered.
4. Append an `order_items` row.
5. Re-read the order.
6. Write the order back with a larger total.

Failures in steps 1 to 3 answer 400. Failures in steps 4 to 6 answer 500. Success answers 201. Nothing is rolled back.

Layout, one module per source file plus four helpers:

- `ProductTypes`, `OrderTypes` hold the records and request payloads. `validate:"required"` is read as "field is non-zero".
- `ProductStore`, `OrderStore` are classes. Their fields hold the tables: a map from id to row for products and orders, a sequence for order items, and the next value of each id sequence. Every statement sent to the database takes a `RoundTrip` argument saying whether the driver succeeds or fails, and with what text. The get-by-id methods are proved equal to the function `Get`, and the update methods to the function `Replace`. The list, create and delete methods are specified by their own `ensures`: which rows the result holds, or what the table holds afterwards.
- `OrderRoutes` holds the pure function `AddOrderItem`, which takes the tables to the new tables and the reply. `Handler.HandleCreateOrderItem` runs the Go code's steps against the two store objects and is proved to end in the state and reply that `AddOrderItem` gives. The workflow's properties are lemmas about `AddOrderItem`.
- Helpers:
  - `Base`: results, the `RoundTrip` outcome, and Go's 64-bit `int` with wrap-around subtraction.
  - `Strconv`: `strconv.Atoi` with its error ignored.
  - `Pattern`: PostgreSQL `LIKE`/`ILIKE`.
  - `Rows`: the `for rows.Next()` loop every query runs.

Inputs a handler cannot decide go in as parameters:

- the database outcome of each round trip;
- the clock reading `now` that the database stamps on new rows;
- the order in which the database returns rows, which is unspecified without `ORDER BY`;
- the decoded request body, or the decoder's error.

Where the code and its design description disagree, the model follows the code:

- The new order item's `Price` is never set (order/routes/routes.go:224-228), so it is stored as 0. The design describes it as a snapshot of the product price. `ItemRecordedWithoutPrice` and `WorkedExample` state the zero.
- An order id with no row is found only at step 5, after the stock has been lowered and the item appended. The response is then 500, and both writes stay. The design says the tables are not changed. `NoRollbackWhenOrderMissing` states what the code does.
- `required` rejects only zero, so a negative quantity passes validation, passes the stock check and raises the stock (`NegativeQuantityRestocks`).

## Model

| member | source | states |
|---|---|---|
| Base.Sub64 | order/routes/routes.go:216 | Go's `int` subtraction: exact when the difference fits in 64 bits, otherwise congruent to it modulo 2^64 |
| Strconv.AtoiItoa | order/routes/routes.go:186 | reading back the decimal notation of any 64-bit id gives that id |
| Strconv.Atoi | order/routes/routes.go:186 | `strconv.Atoi` with its error dropped: the digits after an optional sign are scanned left to right; once they pass 2^64-1 the result is the bound of the sign, a non-digit met first gives 0, and a complete number is held to the 64-bit range |
| Strconv.AtoiSyntaxError | order/routes/routes.go:186 | a path segment with a character that is neither a digit nor a leading sign is read as id 0, provided the digits read before it do not exceed 2^64-1 |
| Strconv.AtoiRangeError | order/routes/routes.go:186 | digits past 2^64-1 give the largest `int`, or the smallest after `-`, whatever follows them, a non-digit included |
| Strconv.OverflowBeforeBadCharacter | order/routes/routes.go:186 | twenty nines followed by `x` are read as the largest `int`, not 0 |
| Pattern.LikeContains | product/store/store.go:98 | for a literal `n`, `s LIKE '%'+n+'%'` holds exactly when `n` occurs in `s` |
| Pattern.ILikeContains | product/store/store.go:98 | for a literal `n`, `s ILIKE '%'+n+'%'` holds exactly when lower-cased `n` occurs in lower-cased `s` |
| Rows.Query | order/store/store.go:29-37 | the rows-loop result holds rows of the table, each once, only rows the filter selects, and every selected row |
| OrderTypes.MissingFields | order/types/types.go:53-56 | the list of fields failing `required` is empty exactly when the payload is valid, and names ProductID or Quantity exactly when that field is zero |
| ProductStore.Replace | product/store/store.go:75-78 | the update sets the five columns of the row with that id, keeps its id and created_at, and leaves other rows and the key set alone |
| ProductStore.Store.constructor | product/store/store.go:14-18 | a new store starts with an empty products table that satisfies the table invariant |
| ProductStore.Store.GetProducts | product/store/store.go:20-38 | a driver error is passed on; otherwise the result lists every product exactly once |
| ProductStore.Store.GetProductByID | product/store/store.go:40-62 | the zero-id sentinel loop answers the stored row, "product not found" when no row has that id, or the driver error |
| ProductStore.Store.CreateProduct | product/store/store.go:64-73 | one row is added under the next sequence id with the five given fields and the stamp; on a driver error nothing changes |
| ProductStore.Store.UpdateProduct | product/store/store.go:75-85 | a full-row replace of the five columns, or the wrapped error with no change; a missing id changes nothing and still succeeds |
| ProductStore.Store.DeleteProduct | product/store/store.go:87-95 | only the row with that id is removed, or the wrapped error with no change |
| ProductStore.Store.GetProductsByName | product/store/store.go:97-116 | exactly the products whose name matches `ILIKE '%'+name+'%'`, each once |
| ProductStore.Store.GetProductsByCategory | product/store/store.go:118-137 | exactly the products whose category equals `'%'+category+'%'`; when no stored category begins with `%` the answer is empty |
| OrderStore.Replace | order/store/store.go:124-126 | the update sets userId, total and status of the row with that id, keeps its id and created_at, and leaves other rows and the key set alone |
| OrderStore.Store.constructor | order/store/store.go:14-18 | a new store starts with empty orders and order_items tables that satisfy the table invariant |
| OrderStore.Store.ListOrders | order/store/store.go:20-40 | a driver error is passed on; otherwise the result lists every order exactly once |
| OrderStore.Store.CreateOrder | order/store/store.go:42-51 | one order row is added under the next id with the given userId, total and status; items untouched; on error nothing changes |
| OrderStore.Store.GetOrderById | order/store/store.go:54-76 | the zero-id sentinel loop answers the stored row, "order not found" when no row has that id, or the driver error |
| OrderStore.Store.GetOrdersByUserId | order/store/store.go:78-99 | exactly the orders whose userId equals the argument, each once |
| OrderStore.Store.GetOrdersByStatus | order/store/store.go:101-122 | exactly the orders whose status equals the argument, each once |
| OrderStore.Store.UpdateOrder | order/store/store.go:124-133 | a full-row replace of userId, total and status, or the wrapped error with no change; a missing id changes nothing and still succeeds; items untouched |
| OrderStore.Store.DeleteOrder | order/store/store.go:135-143 | only the matching order row is removed; order_items rows stay |
| OrderStore.Store.CreateOrderItem | order/store/store.go:146-154 | exactly one item row with the given order, product, quantity and price is appended, whether or not the order exists; orders untouched |
| OrderRoutes.AddOrderItem | order/routes/routes.go:177-254 | the reference definition of the add-item workflow: the tables and reply after the six steps, stopping at the first failure; its properties are the lemmas below |
| OrderRoutes.Handler.constructor | order/routes/routes.go:20-25 | the handler holds the two stores it is given |
| OrderRoutes.Handler.HandleCreateOrderItem | order/routes/routes.go:177-254 | running the six steps against the two stores ends in exactly the tables and reply `AddOrderItem` gives, and keeps both stores' invariants |
| OrderRoutes.Handler.HandleOrderByStatusOrUser | order/routes/routes.go:152-175 | both parameters empty gives 400 with no query; a non-empty status wins over user; otherwise the orders of user `Atoi(user)`; a driver error gives 500 |
| OrderRoutes.Handler.HandleUpdateOrder | order/routes/routes.go:96-131 | empty id or malformed body gives 400 with no change; on success the decoded body replaces userId, total and status whole, even for a missing id; a store error gives 500 |
| OrderRoutes.InvalidPayloadRejected | order/routes/routes.go:194-198 | a zero product_id or quantity gives 400 naming the fields whatever the database would answer, and no table changes |
| OrderRoutes.LookupFailureRejected | order/routes/routes.go:200-205 | a failed or empty product lookup gives 400 with that error, and no product, item or order is written |
| OrderRoutes.OutOfStockRejected | order/routes/routes.go:207-210 | stock below the request gives 400 with a message naming the product, and no table changes |
| OrderRoutes.StockReserved | order/routes/routes.go:212-222 | after the stock check and the product write, only that product's quantity changes, to stock minus request (wrapped in 64 bits, exact for a positive request) |
| OrderRoutes.ItemRecordedWithoutPrice | order/routes/routes.go:224-233 | after the insert, exactly one item with the path's order id, the product, the quantity, price 0 and the next item id is appended |
| OrderRoutes.CreatedExactlyWhen | order/routes/routes.go:177-254 | the reply is 201 if and only if the id is non-empty, the body decodes and is valid, the product exists with enough stock, the order exists and no round trip fails |
| OrderRoutes.StepStatuses | order/routes/routes.go:200-252 | a failed product read or write gives 400; a failed item insert, order read or order write gives 500; no failure with the order present gives 201 |
| OrderRoutes.SuccessAddsToTotal | order/routes/routes.go:235-252 | on 201 the order's total becomes old total plus quantity times the price read in step 1; user, status, id and created_at stay; other orders do not change |
| OrderRoutes.FailuresAreNotRolledBack | order/routes/routes.go:212-250 | a 400 leaves every table unchanged; a 500 leaves the stock decrement, and the item if its insert succeeded, while the orders stay unchanged |
| OrderRoutes.ItemsOnlyGrow | order/routes/routes.go:224-233 | the old item sequence is a prefix of the new one, which is at most one row longer; the keys of products and orders do not change |
| OrderRoutes.NoRollbackWhenOrderMissing | order/routes/routes.go:224-239 | with an unknown order id the stock is still lowered and the item still appended, and the reply is 500 "order not found" |
| OrderRoutes.NotIdempotent | order/routes/routes.go:212-228 | two identical successful calls append two items and lower the stock twice (exactly twice the request when it is positive), and the request goes into the total twice |
| OrderRoutes.StockStaysNonNegative | order/routes/routes.go:207-218 | with non-negative stock, no product's stock goes below zero unless stock minus request passes the largest `int` and wraps around |
| OrderRoutes.NegativeQuantityRestocks | order/types/types.go:55 | a negative quantity passes `required` and the stock check; the call succeeds and the stock goes up by its magnitude |
| OrderRoutes.WorkedExample | order/routes/routes.go:177-254 | product 1 with 5 in stock at 10.0 and empty order 7: adding 3 leaves 2 in stock, a total of 30.0 and an item priced 0.0; then asking for 10 gives 400 with no change |

## Left out

- Floating point: prices and totals are exact reals, so float64 rounding of `Total + float64(Quantity)*Price` is not modelled.
- Concurrency: each model call is one sequential call. The lost-update race between two add-item requests is out of scope.
- JSON decoding is a parameter. The decoder's result, or its error, is given as `Body`. A missing `product_id` decodes as 0, which the validation step then rejects.
- The validator's message text is reduced to "invalid payload: " followed by the failing field names.
- A driver failure in the middle of reading rows is left out: each query either succeeds with every row or fails before any row. The store loops never call `rows.Err()` (order/store/store.go:30, 64, 88, 111; product/store/store.go:28, 49, 106, 127), so in the source such a failure just ends the loop. `ProductStore.Store.GetProductByID` then answers "product not found", so the add-item workflow replies 400 with that text. `OrderStore.Store.GetOrderById` answers "order not found", so the workflow replies 500. `OrderStore.Store.ListOrders`, `OrderStore.Store.GetOrdersByUserId`, `OrderStore.Store.GetOrdersByStatus`, `ProductStore.Store.GetProducts`, `ProductStore.Store.GetProductsByName` and `ProductStore.Store.GetProductsByCategory` return the rows read so far with no error, and `OrderRoutes.Handler.HandleOrderByStatusOrUser` replies 200 with that partial list. Their "every selected row" clauses and `Rows.Query`'s completeness clause hold only for a scan that runs to the end.
- `rows.Scan` errors are left out, along with what follows from them: `GetOrderById` answers a nil order with no error on a scan failure (order/store/store.go:65-67), and the other loops return the error. The positional column order of `scanRowIntoProduct` is also left out.
- SQL column types and ranges, and the row order of a `SELECT` without `ORDER BY`, are not modelled. Row order is an argument, constrained only to visit each row once.
- Assumed about the database schema, which is not among the repository's files: ids are `SERIAL` keys starting at 1, so the `ID == 0` test after the scan means "no row". The store invariants `RowsValid` and `TablesValid` state this. A row stored under id 0 would turn that test's answer around.
- Also assumed: `order_items.orderid` has no foreign key to `orders`, so the item insert succeeds for an unknown order. With such a key the insert itself would fail, and the model covers that case as a failed `itemInsert`.
- Id sequences are modelled as advancing only on a successful insert. PostgreSQL also consumes a value on a failed insert.
- The model's `ILike` folds case for the ASCII letters only, where PostgreSQL follows the database's locale. A pattern ending in a lone backslash, which PostgreSQL rejects, is matched as a literal backslash. The search patterns built here always end in `%`.
- The handlers `handleListOrders`, `handleCreateOrder`, `handleGetOrderById` and `handleDeleteOrder` are not modelled; only the store operations they call are. `handleCreateOrder` (order/routes/routes.go:48-73) rejects with 400 a body whose UserID, Total or Status is zero or empty, so no order with total 0 is created through it. `handleGetOrderById` (order/routes/routes.go:76-94) answers every store error with 404. Writing the HTTP response (`utils.WriteJSON`, `utils.WriteError`) is reduced to the `Reply` value.
- These parts of the repository are not part of this model: the API gateway (api/), the user and payment services, the product HTTP routes, server start-up (*/main.go), configuration and the database connection.
