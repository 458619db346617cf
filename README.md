# FrankFurt order lifecycle and stock consistency, in Dafny

FrankFurt is a restaurant point-of-sale system. It has an Express/MySQL back end and a React front end. This project models its core and proves properties of the model:

- **The order lifecycle.**
  - Staff create orders from the order-management page (`createManualOrder`) or from the table-sale screen (`registrarVenta`).
  - Orders move through `pendiente → en_preparacion → entregado → pagado` (`updateOrderStatus`, `processPayment`).
  - The kitchen board groups orders by status (`getStatusBoard`).
- **Stock and table consistency.**
  - Order creation decrements `inventario`.
  - A table sale occupies the table.
  - A refused request writes nothing.
- **Supporting rules.**
  - The two carts of the front end.
  - The stock classification.
  - The inventory ledger.
  - Account handling: the password-reset code, profile changes, user administration and sign-in.
  - Menu administration.
  - The frequent-clients report.
  - The browser's token helpers and the server's authentication middleware.

Modelling approach:

- **Tables.** SQL tables are sequences of rows. A lookup returns the first matching row, which is what `rows[0]` does. An UPDATE rewrites the matching rows.
- **Handlers.** Each handler is a specification function from the old tables to the response and the new tables. A rolled-back transaction returns the old tables unchanged.
- **Handlers that change state step by step.** These are methods of a class that holds the tables:
  - `Restaurant.RestaurantDb` holds the order tables;
  - `Accounts.UserTable` holds the user table;
  - `Menu.MenuCatalog` holds the product catalogue;
  - `InventoryLedger.Ledger` holds the movement ledger.

  Each method ensures that its response and new fields equal the specification function applied to the old fields. Each method also keeps the class invariant `Valid()`:
  - for `RestaurantDb`, the key of `pedido`: every order id was handed out by the counter and no two orders share one;
  - for `UserTable` and `MenuCatalog`, the table's key and counter;
  - for `Ledger`, every row typed and positive, and every id below the counter.
- **Loops.** The source's loops are methods with loop invariants. These are the order loops, the status-board decoration, the customization grouping, the status counts, the client consolidation and the history-query builder.
- **Value conventions.**
  - Money is an integer amount of minor currency units, and the 0.01 payment tolerance is 1 unit.
  - Times are integer milliseconds.
  - JavaScript truthiness is written out: an absent or 0 id is false, and an absent or empty string is false.

## Model

| member | source | states |
|---|---|---|
| Schema.AppendOrderKeepsIds | Back_End/controllers/orderController.js:251-257 | inserting an order under the counter's id and advancing the counter keeps the key of `pedido` |
| Schema.SetOrderEstadoKeepsIds | Back_End/controllers/orderController.js:372-375 | a status update keeps the key, and under the key it changes only the order found |
| Schema.ParseStatus | Back_End/controllers/orderController.js:350-356 | a name is accepted exactly when it is one of the four status names, and it reads back as that status |
| Schema.ParseStatusName | Back_End/controllers/orderController.js:350 | every status's name parses back to the status |
| Schema.OrNull | Back_End/controllers/orderController.js:254 | `x \|\| null` keeps a value exactly when it is truthy |
| Schema.TextOrNull | Back_End/controllers/orderController.js:254 | `s \|\| null` turns only the empty string or an absent value into null |
| Schema.FindMesa | Back_End/controllers/orderController.js:237-244 | the table found has the id asked for, and none is found only when no row has it |
| Schema.FindOrder | Back_End/controllers/orderController.js:359-369 | the index found is the first row with the id; None means no row has it |
| Schema.FirstInv | Back_End/controllers/orderController.js:302-307 | the first `inventario` row for (product, sede), or None when there is none |
| Schema.FindProduct | Back_End/controllers/manualSaleController.js:265-278 | the product found has the id asked for; None means no row has it |
| Schema.DecrementStock | Back_End/controllers/orderController.js:277-282 | exactly the rows for (product, sede) lose the quantity; the other rows and the length are unchanged |
| Schema.SetMesaEstado | Back_End/controllers/manualSaleController.js:413-416 | only the rows with the id take the new state |
| Schema.SetOrderEstado | Back_End/controllers/orderController.js:372-375 | only the rows with the id take the new status; every other column is kept |
| ManualOrders.ManualRejections | Back_End/controllers/orderController.js:214-228 | a request with neither a table nor a customer, or with an empty product list, is a 400 and writes nothing |
| ManualOrders.ManualAllOrNothing | Back_End/controllers/orderController.js:231-316 | a failed request leaves every table unchanged; a success adds one `pendiente` order under the counter's id, whose total is the sum of the client's subtotals, at the sede rule's sede, with the request's customer, table and notes (`|| null`) |
| ManualOrders.ManualKeepsOrderIds | Back_End/controllers/orderController.js:251-257 | a manual order keeps the key of `pedido` |
| ManualOrders.ManualSedeRule | Back_End/controllers/orderController.js:234-245 | the sede is 1 unless a truthy table id names an existing table, whose sede is used |
| ManualOrders.SumSubtotalsAppend | Back_End/controllers/orderController.js:231 | the reduce over one more line adds that line's subtotal |
| ManualOrders.SumSubtotalsConcat | Back_End/controllers/orderController.js:231 | the sum of subtotals distributes over concatenation |
| ManualOrders.ManualDecrementFirst | Back_End/controllers/orderController.js:277-294 | one line's decrement or provisioning leaves the first row of every other (product, sede) in place; the line's own product has a row afterwards |
| ManualOrders.FirstInvAt | Back_End/controllers/orderController.js:302-305 | a row for (product, sede) with no such row before it is the one the lookup finds |
| ManualOrders.FirstInvNone | Back_End/controllers/orderController.js:302-305 | with no row for (product, sede) the lookup finds none |
| ManualOrders.ManualRunNonNegative | Back_End/controllers/orderController.js:261-314 | after the loop completes, every product ordered has a row at the sede, and its stock is not negative |
| ManualOrders.ManualRunStock | Back_End/controllers/orderController.js:277-294 | each pre-existing inventory row loses exactly the quantity ordered of its product at the order's sede and is otherwise untouched; provisioned rows come after the existing ones |
| ManualOrders.ManualRunLines | Back_End/controllers/orderController.js:261-272 | one `pedido_producto` row per request line, in order, with its product, quantity and the `precio \|\| subtotal/cantidad` unit price |
| ManualOrders.ManualSuccess | Back_End/controllers/orderController.js:203-325 | a successful request, end to end: the lines it stores, the stock of every existing row, and no first row left below zero |
| ManualOrders.ManualCreatedRun | Back_End/controllers/orderController.js:251-324 | a successful request passed its checks and committed exactly the lines and stock of the per-line run at the sede rule's sede |
| ManualOrders.ManualRunSuccess | Back_End/controllers/orderController.js:261-314 | a completed per-line run: one line per request line in order, each existing row lowered by its product's quantity at the sede, no first row below zero |
| ManualOrders.ManualShortStockRefused | Back_End/controllers/orderController.js:302-313 | a one-line order for more than the unique row holds is refused, naming the product, and nothing is written |
| ManualOrders.ManualRunStops | Back_End/controllers/orderController.js:307-313 | the loop stops at the first line that leaves stock negative: a failure on a prefix is the failure of the whole list |
| ManualOrders.ManualRunSnoc | Back_End/controllers/orderController.js:261-314 | the run on one more line is the run on the prefix followed by one step |
| Restaurant.ApplyManualLines | Back_End/controllers/orderController.js:261-314 | the per-line loop computes exactly the specified run: the lines, the inventory, or the first failure |
| Restaurant.ApplyManualLine | Back_End/controllers/orderController.js:268-313 | one pass computes exactly the specified step: the queued line and decremented (or provisioned) stock, or the failure naming the product |
| Restaurant.CheckSaleStock | Back_End/controllers/manualSaleController.js:277-300 | the validation loop finds exactly the specified first stock problem, or none |
| Restaurant.ComputeSaleTotal | Back_End/controllers/manualSaleController.js:305-328 | the accumulated `totalPedido` is the specified total of catalogue price × quantity plus the active extras × quantity |
| Restaurant.InsertSaleLines | Back_End/controllers/manualSaleController.js:351-408 | the insertion loop appends the specified lines and customization rows and applies the specified decrements |
| Restaurant.InsertPers | Back_End/controllers/manualSaleController.js:390-400 | one `pedido_personalizacion` row per listed id, in order |
| Restaurant.RestaurantDb.constructor | Back_End/controllers/orderController.js:203-207 | the object holds the given tables, on which the key of `pedido` holds |
| Restaurant.RestaurantDb.CreateManualOrder | Back_End/controllers/orderController.js:203-337 | the response and the new tables are the handler's specification applied to the old tables, and the key of `pedido` still holds |
| Restaurant.RestaurantDb.RegistrarVenta | Back_End/controllers/manualSaleController.js:189-452 | the response and the new tables are the specification under the per-line stock rule the controller applies, and the key of `pedido` still holds |
| Restaurant.RestaurantDb.CommitSale | Back_End/controllers/manualSaleController.js:305-435 | once the checks pass, the response and the new tables are the specified commit: the order with the computed total, its lines and customizations, the decrements and the table taken; the key of `pedido` still holds |
| Restaurant.RestaurantDb.UpdateOrderStatus | Back_End/controllers/orderController.js:342-393 | the response and the `pedido` table are the specification's, no other table changes, and the key of `pedido` still holds |
| Restaurant.RestaurantDb.ProcessPayment | Back_End/controllers/orderController.js:398-484 | the response and the new tables are the payment specification applied to the old tables, and the key of `pedido` still holds |
| OrderWorkflow.UpdateStatusOutcome | Back_End/controllers/orderController.js:350-383 | a 400 exactly for a name outside the four statuses, a 404 exactly for an unknown order, and a refusal writes nothing |
| OrderWorkflow.UpdateStatusIgnoresCurrent | Back_End/controllers/orderController.js:359-375 | any status may follow any other: an existing order ends with exactly the requested status, and every other column and order is unchanged |
| OrderWorkflow.PaymentAcceptedIff | Back_End/controllers/orderController.js:410-456 | a payment is accepted exactly when the amount is positive, the order exists and is `entregado`, the amount is within 1 unit of its total, and no `pago` row already has the order's id |
| OrderWorkflow.PaymentEffect | Back_End/controllers/orderController.js:452-464 | a refused payment writes nothing; an accepted one appends one cash payment for the amount and marks the order `pagado`, and nothing else changes |
| OrderWorkflow.FindOrderAfterSet | Back_End/controllers/orderController.js:459-462 | after a status update the order is still found at the same index, now with the new status |
| OrderWorkflow.StatusKeepsOrderIds | Back_End/controllers/orderController.js:372-375 | a status update keeps the key of `pedido` |
| OrderWorkflow.PaymentKeepsOrderIds | Back_End/controllers/orderController.js:459-462 | a payment keeps the key of `pedido`, and an accepted one changes the paid order and no other row |
| OrderWorkflow.PayOnce | Back_End/controllers/orderController.js:432-438 | after a successful payment a second payment for the same order is refused and writes nothing |
| StatusBoard.GetStatusBoard | Back_End/controllers/orderController.js:39-85 | the decoration loop and the four filters build exactly the board of the decorated, sorted orders |
| StatusBoard.DecorateKeeps | Back_End/controllers/orderController.js:54-76 | decoration keeps each order's id, status and date; it attaches the table exactly when the order has one and the customer exactly when it has one |
| StatusBoard.ItemsOfSound | Back_End/controllers/orderController.js:40-52 | every product listed on an order comes from one of that order's lines, with the line's quantity and unit price |
| StatusBoard.ItemsOfComplete | Back_End/controllers/orderController.js:40-52 | every line of the order whose product exists is listed |
| StatusBoard.GroupMembership | Back_End/controllers/orderController.js:80-85 | an order is in the group of its status and in no other |
| StatusBoard.GroupsCount | Back_End/controllers/orderController.js:80-85 | the four groups together hold as many orders as the query returned |
| StatusBoard.OrderedPrefix | Back_End/controllers/orderController.js:28-35 | a sorted list stays sorted without its last order, and no earlier order has a later status than the last one |
| StatusBoard.GroupOrdered | Back_End/controllers/orderController.js:28-35 | filtering keeps the query's order inside each group |
| StatusBoard.GroupNewestFirst | Back_End/controllers/orderController.js:35 | within a group the orders are newest first |
| StatusBoard.GroupEmpty | Back_End/controllers/orderController.js:80-85 | a group is empty when no order has its status |
| StatusBoard.GroupSnoc | Back_End/controllers/orderController.js:80-85 | one more order extends only its own group |
| StatusBoard.GroupsConcat | Back_End/controllers/orderController.js:28-35 | because the query sorts by status first, reading the groups in priority order gives back the sorted list |
| StatusBoard.GroupsSnoc | Back_End/controllers/orderController.js:28-35 | an order whose status is the latest so far lands at the end of the concatenated groups |
| StatusBoard.ConcatStep | Back_End/controllers/orderController.js:80-85 | four blocks, one of them extended by x with all later ones empty: the concatenation is extended by x |
| StatusBoard.BoardPartition | Back_End/controllers/orderController.js:8-87 | each status's group holds exactly the orders of that status, and the groups in priority order are the whole list |
| TableSales.FindStock | Back_End/controllers/manualSaleController.js:265-278 | the stock entry found belongs to the product, at the sede, with the catalogue's name and price |
| TableSales.StockProblem | Back_End/controllers/manualSaleController.js:277-300 | the first failure found is a line with no stock entry or with a demand above its stock |
| TableSales.PersRowsOf | Back_End/controllers/manualSaleController.js:390-400 | one row per listed customization id, each for that order and product |
| TableSales.SaleInventory | Back_End/controllers/manualSaleController.js:403-407 | the decrements keep the inventory's length, ids and sedes |
| TableSales.SaleCreatedCase | Back_End/controllers/manualSaleController.js:200-346 | a successful sale passed every check and committed |
| TableSales.SaleInputChecks | Back_End/controllers/manualSaleController.js:200-233 | a missing table, an empty cart and a malformed line are refused in that order, with nothing written |
| TableSales.SaleTableGate | Back_End/controllers/manualSaleController.js:238-259 | an unknown table is a 404 and a table that is not `disponible` a 409, with nothing written |
| TableSales.SaleAllOrNothing | Back_End/controllers/manualSaleController.js:305-421 | a refused sale writes nothing; a success adds one pending `mesa` order under the counter's id, carrying the computed total, the customer (1 by default), the table and the notes |
| TableSales.SaleCommitKeepsOrderIds | Back_End/controllers/manualSaleController.js:334-346 | the writes of a sale keep the key of `pedido` |
| TableSales.StockProblemNone | Back_End/controllers/manualSaleController.js:277-300 | both directions: the validation loop passes exactly when every line's product has a stock entry covering the line's demand |
| TableSales.SaleOccupiesTable | Back_End/controllers/manualSaleController.js:243-416 | a successful sale found the table `disponible`, and the table is `ocupada` afterwards |
| TableSales.FindMesaSet | Back_End/controllers/manualSaleController.js:413-416 | after the table update the table is found with the new state |
| TableSales.SaleInventoryAt | Back_End/controllers/manualSaleController.js:403-407 | each inventory row loses exactly the cart's quantity of its product when it is at the sale's sede, and is otherwise untouched |
| TableSales.SaleLinesAt | Back_End/controllers/manualSaleController.js:351-387 | one order line per cart line, in cart order, priced from the catalogue |
| TableSales.SalePersCount | Back_End/controllers/manualSaleController.js:390-400 | as many customization rows as ids selected across the cart |
| TableSales.ExtraCostBySet | Back_End/controllers/manualSaleController.js:313-322 | the extras depend only on the set of ids listed: a repeated id is charged once |
| TableSales.ExtraCostOnlyActive | Back_End/controllers/manualSaleController.js:313-317 | inactive options never cost anything |
| TableSales.CartQtyDistinct | Back_End/controllers/manualSaleController.js:289 | with distinct product ids, a product's cart quantity is its single line's quantity |
| TableSales.CartQtyAbsent | Back_End/controllers/manualSaleController.js:289 | a product on no line has cart quantity 0 |
| TableSales.NoOversellPerProduct | Back_End/controllers/manualSaleController.js:277-407 | under the per-product check, every row that was non-negative before a successful sale is non-negative after it |
| TableSales.NoOversellPerLine | Back_End/controllers/manualSaleController.js:277-407 | under the controller's per-line check the same holds when no product appears on two lines |
| TableSales.NoOversellUnder | Back_End/controllers/manualSaleController.js:277-407 | shared step: when every row's demand is checked against it, no non-negative row goes negative |
| TableSales.LineOfExists | Back_End/controllers/manualSaleController.js:277-278 | a product with a non-zero cart quantity is on some line |
| TableSales.RulesAgreeOnDistinct | Back_End/controllers/manualSaleController.js:277-300 | with distinct product ids the per-line and per-product checks give the same decision |
| TableSales.StockProblemSameDemand | Back_End/controllers/manualSaleController.js:277-300 | two rules that agree on every line's demand find the same first problem |
| TableSales.PerLineOversells | Back_End/controllers/manualSaleController.js:277-300 | as written, a cart with the same product on two lines passes against one unit of stock, commits, and leaves the stock at -1, under the table keys stated under Left out |
| TableSales.PerProductRefuses | Back_End/controllers/manualSaleController.js:277-300 | checked per product, that cart is refused as INSUFFICIENT_STOCK and nothing is written |
| TableSales.StockProblemSticks | Back_End/controllers/manualSaleController.js:280-299 | the validation loop returns at the first failing line |
| TableSales.NoIdsNoExtra | Back_End/controllers/manualSaleController.js:312 | a line with no customization pays no extras |
| SaleCatalog.GetMesas | Back_End/controllers/manualSaleController.js:15-41 | exactly the tables of sede 1, as a permutation of them sorted by `ORDER BY CASE estado … END, numero`; their count; and the count of those that are `disponible` |
| SaleCatalog.InsertMesaSorted | Back_End/controllers/manualSaleController.js:26-32 | inserting a table into a listing in query order keeps it in query order |
| SaleCatalog.SortMesasSorted | Back_End/controllers/manualSaleController.js:26-32 | the sorted listing is in query order: disponible, ocupada, limpieza (another state first, as NULL sorts first), then by number |
| SaleCatalog.MesasOfSede1Exact | Back_End/controllers/manualSaleController.js:25 | exactly the tables of sede 1 pass the `WHERE idSede = 1` filter |
| SaleCatalog.AvailableBound | Back_End/controllers/manualSaleController.js:40 | the available tables are exactly those in state `disponible`, and there are no more of them than tables |
| SaleCatalog.AllAvailable | Back_End/controllers/manualSaleController.js:40 | the available count equals the total exactly when every table is `disponible` |
| SaleCatalog.GroupOptions | Back_End/controllers/manualSaleController.js:114-119 | the reduce builds one group per category key, each holding that key's options in query order |
| SaleCatalog.GroupSnoc | Back_End/controllers/manualSaleController.js:114-119 | one more option adds its key and extends only its own group |
| SaleCatalog.GetPersonalizaciones | Back_End/controllers/manualSaleController.js:96-126 | the data are the active options, the total is their count, and the groups are the grouping of the data |
| SaleCatalog.ActiveOptionsExact | Back_End/controllers/manualSaleController.js:108 | only active options are offered, and all of them |
| SaleCatalog.WithKeyExact | Back_End/controllers/manualSaleController.js:115 | each option is in its own category's group and in no other; options without a category are under `Otras` |
| ClientCart.FirstPlain | Front_End/src/Administrador/ManualSale.jsx:134-137 | the line found is the first line of the product with no customization selected |
| ClientCart.Agregar | Front_End/src/Administrador/ManualSale.jsx:128-164 | adding keeps the cart or adds one line; no stock, or a plain line already at stock, leaves the cart unchanged |
| ClientCart.UnitsSet | Front_End/src/Administrador/ManualSale.jsx:144-148 | replacing a line changes the unit count by the difference of quantities |
| ClientCart.UnitsAppend | Front_End/src/Administrador/ManualSale.jsx:161 | appending a line adds its quantity to the unit count |
| ClientCart.AgregarOneUnit | Front_End/src/Administrador/ManualSale.jsx:128-164 | adding adds exactly one unit, or none; it adds one exactly when there is stock and the plain line is below it |
| ClientCart.AgregarBounded | Front_End/src/Administrador/ManualSale.jsx:139-148 | adding never takes a plain line past the card's stock, and every line stays a positive quantity of a real product |
| ClientCart.Eliminar | Front_End/src/Administrador/ManualSale.jsx:184-185 | removal keeps a subsequence with no line of that id |
| ClientCart.EliminarExact | Front_End/src/Administrador/ManualSale.jsx:185 | removal drops exactly the lines with the id |
| ClientCart.EliminarConcat | Front_End/src/Administrador/ManualSale.jsx:185 | removal distributes over concatenation, so the others keep their order |
| ClientCart.EliminarAbsent | Front_End/src/Administrador/ManualSale.jsx:185 | a cart without the id is returned unchanged |
| ClientCart.ModificarCantidad | Front_End/src/Administrador/ManualSale.jsx:166-182 | a quantity ≤ 0 removes the line, one above the line's stock changes nothing, and otherwise only that line's quantity changes |
| ClientCart.ModificarKeepsCart | Front_End/src/Administrador/ManualSale.jsx:166-182 | every line stays a positive quantity of a real product, and a changed line stays within its stock |
| ClientCart.SumPrecioAdicional | Front_End/src/Administrador/ManualSale.jsx:195-197 | the `precio_adicional` sum over any selection of server option rows is 0 |
| ClientCart.TotalIgnoresExtras | Front_End/src/Administrador/ManualSale.jsx:189-203 | as written, the total is the cart priced with no surcharges at all |
| ClientCart.TotalMissesExtra | Front_End/src/Administrador/ManualSale.jsx:189-203 | on a one-line cart with a 2000 extra, the screen total is 10000 while the corrected total is 12000 |
| ClientCart.Unselect | Front_End/src/Administrador/ManualSale.jsx:229-231 | the result is the selection without the options of that id, order kept |
| ClientCart.Toggle | Front_End/src/Administrador/ManualSale.jsx:222-236 | toggling removes a selected option, or appends an unselected one |
| ClientCart.ToggleTwice | Front_End/src/Administrador/ManualSale.jsx:222-236 | toggling the same option twice restores the selection, exactly when the option was not selected |
| ClientCart.UnselectAbsent | Front_End/src/Administrador/ManualSale.jsx:229-231 | unselecting an absent id changes nothing |
| ClientCart.UnselectSnoc | Front_End/src/Administrador/ManualSale.jsx:229-234 | unselecting the option just appended gives back the selection before it |
| ClientCart.UnselectDistinct | Front_End/src/Administrador/ManualSale.jsx:229-231 | unselecting keeps a selection free of repeats |
| ClientCart.ToggleDistinct | Front_End/src/Administrador/ManualSale.jsx:222-236 | toggling keeps a selection free of repeats |
| ClientCart.NotesOf | Front_End/src/Administrador/ManualSale.jsx:247 | stored notes are never blank: the trimmed text, or null |
| ClientCart.Guardar | Front_End/src/Administrador/ManualSale.jsx:238-254 | saving without an edited line changes nothing, and otherwise rewrites only the line with that id |
| ClientCart.GuardarKeepsUnits | Front_End/src/Administrador/ManualSale.jsx:238-250 | saving touches only the selection and notes of the edited line, so the item count is kept; an empty selection is stored as null |
| ClientCart.GuardarUnits | Front_End/src/Administrador/ManualSale.jsx:238-250 | saving keeps the item count |
| ClientCart.OptionIds | Front_End/src/Administrador/ManualSale.jsx:287-289 | the ids sent are the selected options' ids, in order |
| ClientCart.Payload | Front_End/src/Administrador/ManualSale.jsx:284-291 | one sale line per cart line, carrying its product, quantity and option ids |
| ClientCart.ConfirmSendsValid | Front_End/src/Administrador/ManualSale.jsx:259-298 | nothing is sent without a table and a non-empty cart; what a well-formed cart sends passes every input check of `registrarVenta` |
| ClientCart.ExtraCostFresh | Back_End/controllers/manualSaleController.js:313-322 | an option id outside the listed ids does not change the server's extras |
| ClientCart.ExtraCostAdd | Back_End/controllers/manualSaleController.js:313-322 | listing one more active, unique, not yet listed option adds its `costoExtra` |
| ClientCart.SelectionExtraMatches | Back_End/controllers/manualSaleController.js:313-322 | for a repeat-free selection of active options, the sum of `costoExtra` is what the server's query adds up |
| ClientCart.FixedLineMatches | Back_End/controllers/manualSaleController.js:305-328 | one line: the corrected screen amount equals the server's line amount |
| ClientCart.FixedTotalPrefix | Front_End/src/Administrador/ManualSale.jsx:189-203 | the corrected total over the first n lines is the server's total over the first n lines of the payload |
| ClientCart.FixedLineMatchesAt | Front_End/src/Administrador/ManualSale.jsx:189-203 | for a cart drawn from the database, each line's corrected amount is the server's amount for the line sent |
| ClientCart.FixedTotalMatchesServer | Front_End/src/Administrador/ManualSale.jsx:189-203 | with the field name corrected, the screen total is the total `registrarVenta` stores for the payload sent, given the database's prices and options |
| OrderPage.NextStatus | Front_End/src/Administrador/OrderManagementPage.jsx:37-44 | the flow moves one rank up, and `pagado` has no next status |
| OrderPage.ButtonsAgree | Front_End/src/Administrador/OrderManagementPage.jsx:55-147 | the two buttons never show together; the advance button moves one step and never to `pagado`, which only the pay button reaches |
| OrderPage.WalkReachesPagado | Front_End/src/Administrador/OrderManagementPage.jsx:37-44 | from any status the flow reaches `pagado` in 4 − rank steps |
| OrderPage.AdvanceAccepted | Front_End/src/Administrador/OrderManagementPage.jsx:55-60 | every status the advance button sends is accepted by `updateOrderStatus` for an existing order, which then holds exactly that status |
| OrderPage.PayButtonAccepted | Front_End/src/Administrador/OrderManagementPage.jsx:655-667 | the pay button sends the order's own total, which the server accepts for a delivered order with a positive total and no payment |
| OrderPage.AddProduct | Front_End/src/Administrador/OrderManagementPage.jsx:272-300 | no product, a quantity ≤ 0 or one above the stock leaves the list unchanged; otherwise one line priced at price × quantity is appended |
| OrderPage.RemoveAtExact | Front_End/src/Administrador/OrderManagementPage.jsx:302-306 | exactly the line at the index goes and the rest keep their order; an index outside the list removes nothing |
| OrderPage.FormTotal | Front_End/src/Administrador/OrderManagementPage.jsx:308-310 | the modal's total is the sum of subtotals the server stores as the order total |
| OrderPage.AddKeepsFormLines | Front_End/src/Administrador/OrderManagementPage.jsx:272-300 | adding keeps every line a positive quantity within the stock shown, priced at price × quantity |
| OrderPage.HandleSubmit | Front_End/src/Administrador/OrderManagementPage.jsx:312-336 | nothing is sent without the chosen target or with an empty list; the notes are sent trimmed, or null |
| OrderPage.SubmitPassesServerChecks | Front_End/src/Administrador/OrderManagementPage.jsx:312-336 | a submitted form names a table or a customer, never both, with a non-empty list, so `createManualOrder` does not refuse it for those reasons; the total stored is the one shown |
| StockStatus.Classify | Back_End/controllers/inventoryController.js:21-25 | the first matching arm wins: 0 is Agotado, at most half the minimum is Crítico, at most the minimum is Bajo, else En Stock |
| StockStatus.CountIf | Back_End/controllers/inventoryController.js:57-88 | each `SUM(CASE …)` counts at most every row |
| StockStatus.CountLevel | Back_End/controllers/inventoryController.js:21-25 | the number of rows with a level is at most the number of rows |
| StockStatus.StatsMatchLevels | Back_End/controllers/inventoryController.js:55-90 | over an empty view the total is 0 and every `SUM` card is NULL; otherwise, with no negative values, each card counts exactly the rows the list labels with that level |
| StockStatus.AttentionCard | Back_End/controllers/inventoryController.js:57-88 | the `requiere_atencion` card is the low plus the critical card for any values, and NULL with them over an empty view |
| StockStatus.CountsMatchLevels | Back_End/controllers/inventoryController.js:57-88 | with no negative values, each `SUM(CASE …)` condition holds on exactly the rows the list's `CASE` labels with the same level |
| StockStatus.LevelsPartition | Back_End/controllers/inventoryController.js:21-25 | the four level counts add up to the number of rows |
| StockStatus.AttentionIsLowPlusCritical | Back_End/controllers/inventoryController.js:64-86 | `requiere_atencion` equals low plus critical, for any values |
| StockStatus.NegativeMinimumCountsTwice | Back_End/controllers/inventoryController.js:60-79 | a single row with no stock and a negative minimum makes the four level counts add up to one more than the number of rows: it is counted twice |
| StockStatus.InStockListExact | Back_End/controllers/inventoryController.js:107-119 | the in-stock list is exactly the rows above their minimum (its name order is under Left out) |
| StockStatus.OutOfStockListExact | Back_End/controllers/inventoryController.js:169-181 | the out-of-stock list is exactly the rows with no stock (its name order is under Left out) |
| StockStatus.LowStockRowsExact | Back_End/controllers/inventoryController.js:136-151 | the low-stock filter keeps exactly the rows with 0 < stock ≤ minimum, labelled as the full CASE labels them |
| StockStatus.InsertByStockSorted | Back_End/controllers/inventoryController.js:152 | inserting one labelled row into a list in ascending stock keeps it ascending |
| StockStatus.SortByStockSorted | Back_End/controllers/inventoryController.js:152 | the sort puts any labelled rows in ascending stock, as a permutation of them |
| StockStatus.LowStockListExact | Back_End/controllers/inventoryController.js:136-152 | the low-stock list is a permutation of the filtered, labelled rows in `ORDER BY stock_disponible ASC` order, so it holds exactly the rows with 0 < stock ≤ minimum, labelled as the full CASE labels them |
| StockStatus.SearchInsumo | Back_End/controllers/inventoryController.js:394-420 | an absent or blank query is a 400 before any lookup; otherwise the matching rows with their levels |
| StockStatus.SearchExact | Back_End/controllers/inventoryController.js:404-420 | the search returns exactly the rows whose name contains the query, each with its level |
| InventoryLedger.Validate | Back_End/controllers/inventoryController.js:223-247 | the check order: a falsy field, then the type, then the reason, then the quantity; no error exactly when all hold |
| InventoryLedger.RecordAppendsOne | Back_End/controllers/inventoryHistoryController.js:54-100 | a rejection is exactly a validation error and leaves the ledger unchanged; an acceptance appends one row under the next id with the request's name, quantity, type, reason and date, the notes as `observaciones \|\| null`, and the sede as given or 1 when absent or 0 |
| InventoryLedger.RecordKeepsLedgerOk | Back_End/controllers/inventoryController.js:223-267 | both handlers keep every ledger row typed and positive |
| InventoryLedger.HistoryAcceptsMore | Back_End/controllers/inventoryHistoryController.js:71 | whatever `recordInventoryMovement` accepts, `addInventoryHistory` accepts too; only `desperdicio` separates them |
| InventoryLedger.Ledger.constructor | Back_End/controllers/inventoryController.js:250-259 | the ledger holds the given rows and next id, on which the invariant holds |
| InventoryLedger.Ledger.RecordInventoryMovement | Back_End/controllers/inventoryController.js:212-292 | the response and the new ledger are the specification with the four reasons, and the invariant still holds |
| InventoryLedger.Ledger.AddInventoryHistory | Back_End/controllers/inventoryHistoryController.js:42-122 | the response and the new ledger are the specification with the five reasons, and the invariant still holds |
| InventoryLedger.PlaceholdersAppend | Back_End/controllers/inventoryHistoryController.js:142-167 | placeholders in a concatenated query add up |
| InventoryLedger.BuildHistoryQuery | Back_End/controllers/inventoryHistoryController.js:142-167 | the query has exactly one `?` per parameter, and the parameters are the truthy criteria in clause order |
| InventoryLedger.AddCriterion | Back_End/controllers/inventoryHistoryController.js:147-165 | one step keeps placeholders and parameters in step, and pushes the value exactly when the criterion is given |
| InventoryLedger.AddClause | Back_End/controllers/inventoryHistoryController.js:148-163 | every clause brings exactly one placeholder |
| InventoryLedger.UnknownTypeIgnored | Back_End/controllers/inventoryHistoryController.js:157-160 | a type other than entrada or salida adds no parameter |
| InventoryLedger.CountType | Back_End/controllers/inventoryHistoryController.js:195-196 | a per-type count is at most the number of rows |
| InventoryLedger.SummarySplits | Back_End/controllers/inventoryHistoryController.js:192-198 | over an empty ledger every `SUM` is NULL; otherwise, on a valid ledger, entradas plus salidas is the total and the quantity sums are non-negative |
| InventoryLedger.TypesSplit | Back_End/controllers/inventoryHistoryController.js:192-198 | on a valid ledger the per-type counts add up to every row and the quantity sums are non-negative |
| Users.FindByEmail | Back_End/controllers/userController.js:439-446 | the row found is the first with that e-mail; None means no row has it |
| Users.FindById | Back_End/controllers/userController.js:226-231 | the row found is the first with that id; None means no row has it |
| Users.SameKeysLookups | Back_End/controllers/userProfileController.js:213-216 | updates that leave ids and e-mails alone find the same rows by id and e-mail |
| Users.SameKeysTableOk | Back_End/controllers/userProfileController.js:213-216 | such updates keep the table's keys |
| Users.InsertTableOk | Back_End/controllers/userController.js:131-146 | appending a row with the next id and an unused e-mail keeps ids and e-mails unique |
| Users.FindByIdUnique | Back_End/controllers/userController.js:312-317 | with distinct ids the row found by id is the only one with it |
| UserAdmin.Initial | Back_End/controllers/userController.js:60 | `charAt(0)`: at most one character, a prefix, empty exactly for the empty string |
| UserAdmin.Avatar | Back_End/controllers/userController.js:60 | the avatar is the uppercased first initial followed by the uppercased second |
| UserAdmin.SplitNameJoin | Back_End/controllers/userController.js:44-46 | a name with a space is the first piece, a space and the rest; a name without one is all first name |
| UserAdmin.FirstSpaceAfter | Back_End/controllers/userController.js:44 | for a first name without a space, the first space of `first + " " + last` is right after it |
| UserAdmin.NameRoundTrip | Back_End/controllers/userController.js:44-112 | the stored full name splits back into the first and last name typed (one-word first name, last name without blanks at its ends), and the avatar agrees |
| UserAdmin.ListUser | Back_End/controllers/userController.js:43-62 | the listing's status is `active` exactly for `activo === 1`, with the row's id, e-mail and the split name's avatar |
| UserAdmin.CheckForm | Back_End/controllers/userController.js:82-110 | no error exactly when the first name, last name and e-mail are non-blank and the e-mail matches the pattern, checked in that order |
| UserAdmin.ActiveFlag | Back_End/controllers/userController.js:113 | 1 exactly for `active`, else 0 |
| UserAdmin.OrDefault | Back_End/controllers/userController.js:114-115 | the value when given and non-empty, else the fallback |
| UserAdmin.NewUserRow | Back_End/controllers/userController.js:112-146 | the e-mail is trimmed and lowercased, the role defaults to `cliente`, `activo` follows the status, the password defaults to `default_password`, and no reset code is set |
| UserAdmin.InsertKeepsTable | Back_End/controllers/userController.js:119-146 | the insert happens exactly when no row holds the e-mail; it appends one row with the next id and keeps the keys; a duplicate is a 409 |
| UserAdmin.EditOf | Back_End/controllers/userController.js:221-266 | the edit writes the form's fields; the password changes only for a non-blank one, and an absent role is written as null |
| UserAdmin.UpdateKeepsTable | Back_End/controllers/userController.js:226-273 | success exactly when the user exists and no other id holds the e-mail; only that row is rewritten, keeping its id, reset code and (unless given) password |
| UserAdmin.OpenOrders | Back_End/controllers/userController.js:325-331 | the count of the user's orders in `pendiente` or `en_preparacion` is at most the number of orders |
| UserAdmin.OpenOrdersZero | Back_End/controllers/userController.js:325-333 | the count is 0 exactly when no such order exists |
| UserAdmin.DeleteUserIsSoft | Back_End/controllers/userController.js:312-342 | a user is deactivated exactly when it exists with no open orders; only `activo` changes and no row is removed |
| UserAdmin.LoginEffect | Back_End/controllers/userController.js:431-475 | an unknown e-mail is a 404, an inactive user a 403 and a wrong password a 401, in that order; a sign-in changes only that user's last access |
| UserAdmin.DeactivatedCannotLogIn | Back_End/controllers/userController.js:341-457 | a user the administrator deactivated cannot sign in with any password |
| UserAdmin.CreatedUserCanLogIn | Back_End/controllers/userController.js:131-475 | a user just created can sign in exactly when it was created active and the password matches the one stored, and the sign-in carries the new id |
| UserProfile.NewPasswordRule | Back_End/controllers/userProfileController.js:143-167 | the new password passes exactly when both are given and it has 8 or more characters, a letter and a digit |
| UserProfile.ChangePasswordEffect | Back_End/controllers/userProfileController.js:143-216 | success exactly when the rule passes, the user exists, the old password matches and the new one differs; only that user's password changes, to one that the new password matches and the old does not |
| UserProfile.OldPasswordRetired | Back_End/controllers/userProfileController.js:187-195 | after a change the old password no longer passes as the current one |
| UserProfile.PhoneOf | Back_End/controllers/userProfileController.js:104 | a stored phone is never empty: trimmed, or null |
| UserProfile.ProfileKeepsTable | Back_End/controllers/userProfileController.js:87-105 | success exactly when no other user holds the e-mail and the user exists; only that row's e-mail and phone change, and e-mails stay unique |
| UserProfile.DeleteAccountIsSoft | Back_End/controllers/userProfileController.js:242-291 | the account is deactivated exactly with its own password; only `activo` changes and no row is removed |
| PasswordReset.GenerateVerificationCode | Back_End/controllers/passwordController.js:16-18 | the code is six decimal digits, and its value is 100000 plus the random draw |
| PasswordReset.Issue | Back_End/controllers/passwordController.js:49-52 | only the code and its expiry change on the row |
| PasswordReset.SendTouchesOneUser | Back_End/controllers/passwordController.js:32-53 | only the account with that e-mail gets the code, whether the mail is sent or not; nothing else changes |
| PasswordReset.SendThenVerify | Back_End/controllers/passwordController.js:45-169 | a code just sent verifies up to and including its expiry instant and not after; any other code is wrong |
| PasswordReset.Consume | Back_End/controllers/passwordController.js:236-239 | the password is replaced and the code and its expiry are cleared |
| PasswordReset.ResetEffect | Back_End/controllers/passwordController.js:204-240 | success exactly when the account has a code equal to the one typed that has not expired; only that account changes |
| PasswordReset.VerifiedCodeResets | Back_End/controllers/passwordController.js:150-231 | whatever `verifyCode` accepts, `resetPassword` accepts for the same account, code and instant |
| PasswordReset.CodeConsumedOnce | Back_End/controllers/passwordController.js:218-240 | after a successful reset no code is accepted for that account by either endpoint |
| Accounts.UserTable.constructor | Back_End/controllers/userController.js:25-41 | the table holds the given rows and next id |
| Accounts.UserTable.SetKeepingKeys | Back_End/controllers/userProfileController.js:213-216 | an update that leaves ids and e-mails in place keeps the table valid |
| Accounts.UserTable.Insert | Back_End/controllers/userController.js:119-146 | the duplicate check and insert are the specification's |
| Accounts.UserTable.CreateUser | Back_End/controllers/userController.js:78-184 | response and table are `createUser`'s specification; the keys hold |
| Accounts.UserTable.RegisterUser | Back_End/controllers/userController.js:362-422 | response and table are `registerUser`'s specification; the keys hold |
| Accounts.UserTable.Edit | Back_End/controllers/userController.js:226-273 | the existence and e-mail checks and the write are the specification's |
| Accounts.UserTable.UpdateUser | Back_End/controllers/userController.js:187-303 | response and table are `updateUser`'s specification; the keys hold |
| Accounts.UserTable.DeleteUser | Back_End/controllers/userController.js:307-357 | response and table are `deleteUser`'s specification |
| Accounts.UserTable.LoginUser | Back_End/controllers/userController.js:428-496 | response and table are `loginUser`'s specification |
| Accounts.UserTable.ChangePassword | Back_End/controllers/userProfileController.js:136-233 | response and table are `changePassword`'s specification |
| Accounts.UserTable.UpdateProfile | Back_End/controllers/userProfileController.js:62-134 | response and table are `updateProfile`'s specification |
| Accounts.UserTable.DeleteAccount | Back_End/controllers/userProfileController.js:235-300 | response and table are `deleteAccount`'s specification |
| Accounts.UserTable.SendVerificationCode | Back_End/controllers/passwordController.js:21-122 | response and table are `sendVerificationCode`'s specification |
| Accounts.UserTable.VerifyCode | Back_End/controllers/passwordController.js:125-183 | the response is `verifyCode`'s, and nothing is written |
| Accounts.UserTable.ResetPassword | Back_End/controllers/passwordController.js:186-253 | response and table are `resetPassword`'s specification |
| Menu.CheckProduct | Back_End/controllers/menuController.js:101-142 | no error exactly when the name is non-blank with 3 or more characters, the price is truthy and positive, the menu is non-blank and the stock limit is not negative |
| Menu.TrimOrNull | Back_End/controllers/menuController.js:197-204 | null exactly when absent or empty; otherwise the trimmed value, which trimming again leaves unchanged |
| Menu.FieldsOf | Back_End/controllers/menuController.js:144-204 | the stored name is the trimmed name, already free of surrounding blanks, and the description and image are trimmed or null; `disponible` is 1 exactly for `Activo`; the stock limit is 10 when not given and always positive; `especial_dia` is 0 or 1 |
| Menu.CategoryId | Back_End/controllers/menuController.js:150-161 | the id found belongs to a category with that name |
| Menu.MenuId | Back_End/controllers/menuController.js:164-175 | the id found belongs to a menu with that name |
| Menu.FindProductIndex | Back_End/controllers/menuController.js:289-299 | the index found holds the id, and None means no product has it |
| Menu.CreateKeepsCatalog | Back_End/controllers/menuController.js:150-205 | a product is created exactly when the category and menu exist and the name is free; it is appended with the next id and the keys hold |
| Menu.UpdateKeepsCatalog | Back_End/controllers/menuController.js:289-359 | an update rewrites only the product with the id, keeps its id, refuses a name another product holds, and keeps the keys |
| Menu.DeleteIsSoft | Back_End/controllers/menuController.js:395-409 | it fails only for an unknown id; otherwise only `disponible` changes, to 0 |
| Menu.ListItem | Back_End/controllers/menuController.js:28-39 | `Activo` exactly for `disponible === 1`, a stock limit of 0 shown as 10, `especial_dia` true exactly for 1 |
| Menu.TextOrNullText | Back_End/controllers/menuController.js:31-38 | `x \|\| null` is null exactly for an absent or empty text |
| Menu.CreatedThenListed | Back_End/controllers/menuController.js:28-205 | a product just created is listed with the name and price stored, `Activo` exactly when it was created active, and its own stock limit |
| Menu.DeletedListedInactive | Back_End/controllers/menuController.js:33-408 | a deactivated product is listed as `Inactivo` |
| Menu.MenuCatalog.constructor | Back_End/controllers/menuController.js:7-27 | the catalogue holds the given tables |
| Menu.MenuCatalog.Insert | Back_End/controllers/menuController.js:150-205 | the lookups and insert are the specification's |
| Menu.MenuCatalog.CreateMenuItem | Back_End/controllers/menuController.js:97-231 | response and tables are `createMenuItem`'s specification; the keys hold |
| Menu.MenuCatalog.Rewrite | Back_End/controllers/menuController.js:289-359 | the checks and update are the specification's |
| Menu.MenuCatalog.UpdateMenuItem | Back_End/controllers/menuController.js:236-385 | response and tables are `updateMenuItem`'s specification; the keys hold |
| Menu.MenuCatalog.DeleteMenuItem | Back_End/controllers/menuController.js:390-423 | response and tables are `deleteMenuItem`'s specification |
| Reports.PedidosPorEstado | Back_End/controllers/reportsController.js:51-60 | the map has exactly the four status keys, each holding the count of the last group row for that status, else 0 |
| Reports.CountForDistinct | Back_End/controllers/reportsController.js:43-60 | with one group row per status, each key holds that row's count, and a status without orders shows 0 |
| Reports.IndexOf | Back_End/controllers/reportsController.js:196-209 | the index found holds an entry for the user |
| Reports.Consolidate | Back_End/controllers/reportsController.js:193-221 | the loop produces exactly the fold of the rows |
| Reports.LatestDate | Back_End/controllers/reportsController.js:218-220 | the latest purchase among a user's rows is one of them and no earlier than any |
| Reports.IndexAfterAppend | Back_End/controllers/reportsController.js:196-207 | after a new user's entry is appended, lookups for other users are unchanged |
| Reports.IndexAfterUpdate | Back_End/controllers/reportsController.js:209-220 | updating an entry keeps every user's lookup |
| Reports.IndexAfterAdd | Back_End/controllers/reportsController.js:195-221 | after one row, the row's user has an entry and other users' lookups are unchanged |
| Reports.AddRowTallies | Back_End/controllers/reportsController.js:195-221 | one step of the loop keeps every user's tally right |
| Reports.AddRowDistinct | Back_End/controllers/reportsController.js:196-207 | one step keeps one entry per user |
| Reports.ClientsTally | Back_End/controllers/reportsController.js:193-221 | an entry exists exactly for users with rows, one per user, with the sum of their orders and spending, their number of months and their latest purchase |
| Reports.Insert | Back_End/controllers/reportsController.js:235-241 | inserting into the stable sort adds exactly that entry (as a multiset) |
| Reports.InsertSorted | Back_End/controllers/reportsController.js:235-241 | inserting into a sorted list keeps it sorted by months, then orders, both descending |
| Reports.SortClients | Back_End/controllers/reportsController.js:235-241 | the sort is a permutation of its input |
| Reports.SortClientsSorted | Back_End/controllers/reportsController.js:235-241 | the sorted list is ordered by months, then orders, both descending |
| Reports.SortedPrefixTop | Back_End/controllers/reportsController.js:242 | in a sorted list nothing after position n ranks above anything before it |
| Reports.ReportIsTop | Back_End/controllers/reportsController.js:224-242 | the report is sorted, has min(20, clients) entries taken from the consolidation, and no entry left out ranks above one kept |
| TokenUtils.DecodeToken | Front_End/src/utils/tokenUtils.js:60-69 | no payload for a missing or empty token; otherwise the decoder's result |
| TokenUtils.ExpiryMs | Front_End/src/utils/tokenUtils.js:79-82 | an expiry exists exactly for a decoded payload with a truthy `exp`, and it is `exp` seconds in milliseconds |
| TokenUtils.TimeRemaining | Front_End/src/utils/tokenUtils.js:97-112 | never negative; 0 without `exp` or once expired; otherwise exactly `exp − now` |
| TokenUtils.ExpiryBoundary | Front_End/src/utils/tokenUtils.js:86-87 | with a non-zero `exp`, the token is expired exactly when now is past it, so `exp == now` is not expired |
| TokenUtils.ValidIff | Front_End/src/utils/tokenUtils.js:141-143 | a token is valid exactly when present, decoded with a truthy `exp`, and that instant has not passed |
| TokenUtils.RemainingAgreesWithExpiry | Front_End/src/utils/tokenUtils.js:77-112 | time left means not expired, an expired token has none left, and both fail only at the expiry instant |
| TokenUtils.ExpiryIsPermanent | Front_End/src/utils/tokenUtils.js:77-112 | as time passes the time left never grows, an expired token stays expired, and a token valid later was valid earlier |
| TokenUtils.Breakdown | Front_End/src/utils/tokenUtils.js:124-125 | whole hours, minutes below 60 and seconds below 60 that add up to the span, truncated to the second |
| TokenUtils.FormatByMagnitude | Front_End/src/utils/tokenUtils.js:119-134 | `Expirado` exactly for ≤ 0; from an hour up "Hh Mm", from a minute up "Mm", otherwise "Ss", in the breakdown's units |
| TokenUtils.GetAuthHeaders | Front_End/src/utils/tokenUtils.js:176-187 | empty exactly when neither the given nor the stored token is present; otherwise a Bearer header for the given token (or else the stored one) and a JSON content type |
| TokenUtils.Rank | Front_End/src/utils/tokenUtils.js:229-234 | a rank exists exactly for the four names, at that name's position in the ladder |
| TokenUtils.LadderIndex | Front_End/src/utils/tokenUtils.js:229-234 | the position of a ladder name |
| TokenUtils.MinimumRoleIsLadderOrder | Front_End/src/utils/tokenUtils.js:241-243 | a role meets a minimum exactly when both are on the ladder and it stands no lower |
| TokenUtils.MinimumRoleIsOrder | Front_End/src/utils/tokenUtils.js:241-243 | reflexive exactly on the ladder, transitive, total and antisymmetric on the ladder |
| TokenUtils.AdminMeetsEveryMinimum | Front_End/src/utils/tokenUtils.js:237-243 | the administrator meets every minimum; a client meets only its own |
| TokenUtils.CanAccessUnion | Front_End/src/utils/tokenUtils.js:244-246 | access is list membership: a union of lists admits what either admits, and the empty list admits nobody |
| TokenUtils.IssuedRolesNeverRank | Front_End/src/utils/tokenUtils.js:229-243 | as written, no role name the back end issues meets any minimum |
| TokenUtils.RankFixed | Front_End/src/utils/tokenUtils.js:229-234 | the corrected rank agrees with the written one on its names and ranks every issued name |
| TokenUtils.FixedRanksIssuedRoles | Front_End/src/utils/tokenUtils.js:241-243 | the corrected check agrees with the written one on the ladder, gives `administrador` every minimum and `cliente` only the client's |
| Auth.Protect | Back_End/middleware/authMiddleware.js:7-45 | `next` is reached only for a "Bearer " header whose second piece is non-empty and verifies, with `req.user` set to the verified claims |
| Auth.ProtectRefusals | Back_End/middleware/authMiddleware.js:10-44 | every refusal is a 401; a missing header, a wrong prefix or an empty token is refused whatever the verifier says |
| Auth.BearerTokenRead | Back_End/middleware/authMiddleware.js:19 | the second space-separated piece of "Bearer " + token is the token, when it is non-empty and has no space |
| Auth.HeaderRoundTrip | Back_End/middleware/authMiddleware.js:10-31 | `protect` on the header `getAuthHeaders` builds verifies exactly the token given |
| Auth.Authorize | Back_End/middleware/authMiddleware.js:52-83 | `next` keeps `req.user`; every refusal is one of no user, no role, role not listed |
| Auth.AuthorizeDecision | Back_End/middleware/authMiddleware.js:54-81 | passes exactly when the user's role is non-empty and listed; 401 without a user, 403 otherwise; a wider list admits at least as much |
| Auth.SignedInReachesRoute | Back_End/middleware/authMiddleware.js:7-83 | after a sign-in, a request with the signed token reaches a guarded route exactly when the stored role of that user is on the route's list |
| Common.TrimStart | Back_End/controllers/userController.js:82 | the leading blanks are dropped: the result is a suffix starting with a non-blank |
| Common.TrimEnd | Back_End/controllers/userController.js:82 | the trailing blanks are dropped: the result is a prefix ending with a non-blank |
| Common.TrimIdempotent | Back_End/controllers/userController.js:112 | trimming twice is trimming once |
| Common.TrimNoWhite | Back_End/controllers/userProfileController.js:104 | a string without blanks trims to itself |
| Common.BlankIffAllWhite | Back_End/controllers/userProfileController.js:70 | `!s.trim()` holds exactly when every character is blank |
| Common.ToLower | Back_End/controllers/userController.js:121 | same length, each character lowercased |
| Common.ToUpper | Back_End/controllers/userController.js:60 | same length, each character uppercased |
| Common.ToLowerIdempotent | Back_End/controllers/userController.js:121 | lowercasing twice is lowercasing once |
| Common.EmailPatternTrimmed | Back_End/controllers/userProfileController.js:78-104 | a string the e-mail pattern accepts trims to itself and is not blank |
| Common.FirstSpace | Back_End/controllers/userController.js:44 | the index of the first space, or None when there is none |
| Common.NatToString | Front_End/src/utils/tokenUtils.js:130-133 | at least one character, all decimal digits |
| Common.ParseNatToString | Front_End/src/utils/tokenUtils.js:130-133 | the decimal rendering reads back as the number |
| Common.NatToStringLength | Back_End/controllers/passwordController.js:17 | a number in [10^k, 10^(k+1)) has k + 1 digits, the first not 0 |

## Left out

- The I/O layer is not modelled: HTTP, the MySQL connection pool, logging, toasts, `localStorage` and React state. Each handler is one atomic step over the tables, and there is no interleaving of concurrent requests.
- SQL queries that only read and aggregate are taken as given where their rows are the input: the frequent-clients `GROUP BY … HAVING total_pedidos >= 8 … LIMIT 50` query and the joins of the stock view. Where a modelled listing sorts by numbers, its `ORDER BY` is modelled (the status board, the table listing, the low-stock list). The comment above the frequent-clients query speaks of 5 purchases, while the query says 8; the model takes the query's rows as input, so neither number appears.
- Foreign libraries are left abstract:
  - `bcrypt` is a hash with a match predicate, and salting is not modelled;
  - `jwt.verify` and `jwtDecode` are parameters;
  - `nodemailer` is a success flag;
  - `Math.random` is a parameter within its range;
  - `Date.now()` is a parameter.
- Binary floating point is not modelled. Money is in integer minor units. A `NaN` price or `parseFloat` of a non-numeric string is not modelled. Numbers that arrive as strings (a `stock_limite` sent as text) are not modelled.
- `createManualOrder`'s `precio || subtotal / cantidad` is kept as its two cases rather than a number, because a division result has no integer value.
- MySQL string collation is not modelled: e-mail and name comparisons are exact string equality.
- TokenUtils.TimeRemaining: returns milliseconds where the source returns seconds as a fraction; with `now` in whole milliseconds the model's value is 1000 times the source's, and a sub-millisecond clock is not modelled.
- TokenUtils.FormatTimeRemaining: takes whole milliseconds; a fractional-millisecond input is not modelled.
- Text encoding is not modelled: case conversion covers ASCII letters only, and `trim` removes ASCII whitespace only.
- The other exports of the modelled files are not modelled, because they are read-only listings, UI-only or wiring:
  - `getProfile`, `verifyToken`, `logoutUser`, and the `updateProfile`/`deleteAccount` copies in `userController.js`;
  - `getAvailableMesas`, `getMenuProducts`, `getClientes`, `getProductos`, `getCategorias`, `getEstadisticas`;
  - `getEspecialesDelDia`, `getSalesReport`, `getProductsReport`;
  - the other inventory listings;
  - the token storage helpers, `getUserFromToken` and `setupAxiosInterceptors`.
- SaleCatalog.GetMesas: tables that tie on state and number may come back from the database in any order; the model keeps their input order. The state is compared by exact string equality, not under MySQL collation.
- SaleCatalog.GetPersonalizaciones: does not model the query's `ORDER BY categoria, nombre`, because it compares strings under MySQL collation. The model takes the rows in the order the database returns them, and `data` and each group keep that order.
- StockStatus.InStockListExact: the in-stock list, and likewise the out-of-stock list of `StockStatus.OutOfStockListExact`, keeps the view's order. The source sorts both by `nombre_insumo` under MySQL collation (inventoryController.js:119 and :181), which is not modelled.
- StockStatus.LowStockListExact: rows with equal stock keep the view's order, while MySQL may return them in any order. The `ORDER BY stock_disponible ASC` itself is modelled and proved.
- StockStatus.SearchExact: matches the query as plain text. In the source's `LIKE '%q%'`, a `%` or `_` inside the query is a wildcard, and the result is sorted by name under MySQL collation; neither is modelled.
- ManualOrders.ManualDecrement: assumes that the unique key of `inventario` is (idProducto, idSede). Then the provisioning `INSERT … ON DUPLICATE KEY UPDATE` only runs after an UPDATE that matched no row, so its duplicate-key branch cannot fire and the insert always adds a row. Under another key, for example one on (idInsumo, idSede) with the fixed idInsumo 1, that branch would decrement an existing row instead, and `ManualDecrementFirst` and `ManualRunNonNegative` would not hold.
- TableSales.PerLineOversells: assumes that `pedido_producto` has no unique key on (idPedido, idProducto) and that `inventario`'s stock column accepts a negative value; the database schema is not part of this model. The sale inserts one `pedido_producto` row per cart line, so two lines of one product give two rows with the same pair. Under such a key, or with an unsigned stock column, the second write fails, the transaction rolls back with a 500 and nothing is oversold.
- Restaurant.RestaurantDb.RegistrarVenta: models the controller's per-line stock check; the per-product check is the corrected rule (see Findings).
- UserProfile.ProfileKeepsTable: a missing user answers 500 and writes nothing. The source's UPDATE matches no row, and reading the row back fails.
- UserAdmin.RegisterUserSpec: the column defaults the `usuario` table gives to `rol` and `activo` are a parameter, since the schema is not part of this model.

## Findings

| source | as written | input that shows it | evidently intended | confidence | as-written member | corrected member |
|---|---|---|---|---|---|---|
| Front_End/src/Administrador/ManualSale.jsx:195-197 | the cart total adds `precio_adicional` of each selected option, but the option rows from `getPersonalizaciones` carry `costoExtra` and no `precio_adicional` | one line, a 10000 product with one 2000 option: the screen shows 10000, the server stores 12000 | the screen total equals what `registrarVenta` stores | high; not executed | ClientCart.TotalMissesExtra | ClientCart.FixedTotalMatchesServer |
| Back_End/controllers/manualSaleController.js:277-300 | each cart line is checked alone against the stock read before the order, though the cart keeps a customised and a plain line of the same product apart | one unit in stock, the product on two lines of 1 each: both pass, the sale commits, stock ends at -1 | the stock covers the cart's total quantity of each product | medium: holds when `pedido_producto` takes two rows with the same (idPedido, idProducto) and the stock column accepts a negative value (see Left out); not executed | TableSales.PerLineOversells | TableSales.PerProductRefuses |
| Front_End/src/utils/tokenUtils.js:229-243 | `hasMinimumRole` ranks only `Cliente`, `Empleado`, `Manager`, `Administrador`, while the back end issues `cliente`, `empleado`, `administrador` | `createRoleChecker('administrador').hasMinimumRole('Cliente')` is false | the back end's role names rank like the capitalised ones | low (no caller in the modelled files); not executed | TokenUtils.IssuedRolesNeverRank | TokenUtils.FixedRanksIssuedRoles |
