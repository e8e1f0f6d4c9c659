# Point-of-sale cart engine and sale transaction, in Dafny

This project models the two pieces of sale logic of a small retail point-of-sale system:

- **The client cart engine** (`my-pos/src/App.jsx`). React keeps the state `inventory`, `cart`,
  `alerts` and `vendedor`; the state is the class `PosClient.PointOfSale`. Its event handlers
  `addToCart`, `updateCartQuantity`, `removeFromCart` and `processSale` are methods. The new arrays
  these handlers build with `find`, `map`, `filter` and `reduce` are pure functions in module
  `Cart`. Those functions include the running total `calculateTotal`, the low-stock filter and the
  optimistic reconciliation of the inventory after a committed sale. `groupSalesByID` is a loop
  over an insertion-ordered dictionary, in module `SalesGrouping`.
- **The backend sale transaction** (`backend/pos_backend.py`). The class
  `PosBackend.InventoryManager` keeps the two spreadsheets as in-memory state:
  - the "Inventario" sheet is a sequence of stock records, searched by product code;
  - the "Ventas" sheet is an append-only sequence of sale rows.

  `update_stock`, `save_sale`, `process_sale` and `get_low_stock_alerts` are its methods. Each one
  is proved against a specification function: `StockStep`, `SaleRows`, `ProcessItems` and
  `LowStockReport`. The read-only reports `get_sales_history` and `get_sales_summary` are pure
  functions in module `SalesReports`.

Shared records are in `SaleRecords`: the sales-sheet row, the wire cart entry and the sale alert.
The generic sequence functions are in `Seqs`: first index, filter, first-seen order and occurrence
counts. The Option and Result types are in `Wrappers`.

Modelling choices:

- Prices and amounts are integer cents.
- The clock, the sale id and the outcome of the `POST /sale` exchange are parameters.
- One timestamp `ts` stands for the `datetime.now()` of every `update_stock` call of a sale.
- `fecha` and `hora` stand for the clock reading in `save_sale`.
- The client's `processSale` takes the server's answer as a `SaleResponse`: accepted, refused
  (`success: false`) or a transport failure (a thrown `fetch` or JSON parse).
- The sheet's `find` is modelled as "the first row whose Codigo column holds the code".
- Python's string comparison is modelled as lexicographic order on code points (`StrLe`).
- The slice `records[-limit:]`, negative and oversized limits included, is modelled by `SliceFrom`.
- Python's truth value of the optional parameters is modelled too: None and "" are false, and a
  limit of 0 is false.

A sale request is meant to be all or nothing. The code of `process_sale` is not atomic, and the
model follows the code. Stock is decremented item by item, and the loop
returns at the first refused item. The items before that item keep their decrement, and no sale
row is written. `ProcessItemsFailure`, `StockOnFailure` and `NonAtomicExample` state this.

The backend does not check that a quantity sold is positive, and the model does not either. A
zero or negative quantity passes the stock check, as in the code.

## Model

| member | source | states |
|---|---|---|
| Cart.FindLine | my-pos/src/App.jsx:85 | `cart.find` by id returns nothing exactly when no line has the id, and otherwise a line of the cart with that id |
| Cart.FindLineFirst | my-pos/src/App.jsx:85 | the line `cart.find` returns is the first with the id: it sits at an index before which no line has the id |
| Cart.FindProduct | my-pos/src/App.jsx:108 | `inventory.find` by id returns nothing exactly when no product has the id, and otherwise a product of the inventory with that id |
| Cart.FindProductFirst | my-pos/src/App.jsx:108 | the product `inventory.find` returns is the first with the id, whether or not ids are unique: it sits at an index before which no product has the id |
| Cart.LineIndex | my-pos/src/App.jsx:85 | when ids are unique, the search for the id of line k finds line k |
| Cart.IncrementedAt | my-pos/src/App.jsx:97-101 | when ids are unique, the increment-by-id map changes exactly line k, by one unit, and keeps every other line and the order |
| Cart.WithQuantityAt | my-pos/src/App.jsx:123-127 | when ids are unique, the set-quantity map changes exactly line k and only its quantity |
| Cart.AppendPreserves | my-pos/src/App.jsx:102-104 | appending a line whose id is not in the cart keeps ids unique and quantities positive, and keeps the stock bound when the new line is within stock |
| Cart.UpdatePreserves | my-pos/src/App.jsx:123-127 | setting one line to a quantity of at least 1 keeps ids unique and quantities positive, and keeps the stock bound when that quantity is within the product's stock |
| Cart.WithoutSpec | my-pos/src/App.jsx:130-132 | removal leaves no line with the id and keeps every other line; removing an absent id changes nothing; removing twice is removing once |
| Cart.WithoutAt | my-pos/src/App.jsx:130-132 | when ids are unique, removing the id of line k gives the lines before k followed by the lines after k |
| Cart.WithoutPreserves | my-pos/src/App.jsx:130-132 | removal keeps ids unique and quantities positive |
| Cart.WithoutKeepsInvariants | my-pos/src/App.jsx:130-132 | removal keeps all three invariants of the cart (unique ids, quantities of at least 1, quantities within stock), is a no-op for an absent id, and drops only line k for an id at k |
| Cart.TotalAppend | my-pos/src/App.jsx:194-196 | the total of two carts joined is the sum of their totals |
| Cart.TotalSplit | my-pos/src/App.jsx:194-196 | the total is the total before line k, plus line k's `precio * cantidadVendida`, plus the total after line k |
| Cart.TotalUpdate | my-pos/src/App.jsx:194-196 | replacing one line changes the total by the difference of the two subtotals |
| Cart.TotalIncremented | my-pos/src/App.jsx:194-196 | incrementing a line raises the total by exactly that line's price |
| Cart.TotalWithQuantity | my-pos/src/App.jsx:194-196 | setting a line's quantity changes the total by the price times the change of quantity |
| Cart.TotalWithout | my-pos/src/App.jsx:194-196 | removing a line lowers the total by exactly that line's subtotal |
| Cart.TotalAppendLine | my-pos/src/App.jsx:194-196 | the empty cart totals 0, and appending a line adds its subtotal |
| Cart.TotalNonNegative | my-pos/src/App.jsx:194-196 | with non-negative prices and positive quantities the total is non-negative |
| Cart.RequestItems | my-pos/src/App.jsx:141-144 | the request has one entry per cart line, in cart order, carrying the line's `codigo` and quantity |
| Cart.ReconciledSpec | my-pos/src/App.jsx:157-166 | after a committed sale the inventory keeps its order and every field but the quantity; a product with a cart line loses exactly that line's quantity; any other product is unchanged |
| Cart.ReconciledNonNegative | my-pos/src/App.jsx:157-166 | when every line is within the stock of its (id-unique) product, no reconciled quantity is negative |
| Cart.LowStock | my-pos/src/App.jsx:31-32 | a product is on the low-stock list exactly when it is in the inventory with `cantidad <= minStock` |
| Cart.LowStockOrder | my-pos/src/App.jsx:31-32 | the low-stock list of a joined inventory is the list of the first part followed by that of the second, so it keeps inventory order; a single product is listed exactly when it is at or below its minimum |
| PosClient.PointOfSale.constructor | my-pos/src/App.jsx:6-14 | the state after the inventory snapshot is loaded: an empty cart, the alerts of the snapshot, all invariants |
| PosClient.PointOfSale.AddToCart | my-pos/src/App.jsx:84-105 | a product with stock 0 changes nothing, before the line is looked at; an existing line at the product's stock changes nothing; otherwise only that line rises by exactly one; a new product is appended with quantity 1; ids stay unique |
| PosClient.PointOfSale.UpdateCartQuantity | my-pos/src/App.jsx:107-128 | a new quantity of 0 or less removes the line; one above the inventory stock changes nothing; otherwise only that line's quantity is set; every line stays within [1, stock] |
| PosClient.PointOfSale.SetQuantity | my-pos/src/App.jsx:123-127 | setting line k of a valid cart to a quantity of at least 1 changes only that line and keeps ids unique and quantities positive; when the new quantity is within the product's stock the whole state stays valid |
| PosClient.PointOfSale.RemoveFromCart | my-pos/src/App.jsx:130-132 | the new cart is the filter of the old; an absent id changes nothing; a present id drops exactly its line; the invariants are kept |
| PosClient.PointOfSale.ProcessSale | my-pos/src/App.jsx:134-191 | an empty cart builds no request and changes nothing; otherwise the request is the cart by code and quantity; on success the inventory is reconciled and the cart emptied; on refusal or transport failure cart and inventory are unchanged; when the old inventory has unique ids and no negative stock, no stock goes negative |
| SaleRecords.SumsAppend | backend/pos_backend.py:237-238 | the Cantidad and Subtotal column sums split over a concatenation of rows |
| SalesGrouping.GroupOfAppend | my-pos/src/App.jsx:205-222 | reading one more row appends its item to the group of an id already seen, and creates the group of a new id from that row's header with that row's item |
| SalesGrouping.GroupingStep | my-pos/src/App.jsx:205-222 | one pass of the `forEach` body keeps the loop invariant: the keys in insertion order are the ids first seen, and each maps to the group of the rows read |
| SalesGrouping.GroupingDictState | my-pos/src/App.jsx:204-223 | the dictionary after any prefix of the rows satisfies the loop invariant |
| SalesGrouping.GroupSalesById | my-pos/src/App.jsx:203-225 | the loop returns exactly the groups of the rows: one per distinct VentaID, in first-seen order |
| SalesGrouping.Values | my-pos/src/App.jsx:224 | `Object.values` returns the entries in key order |
| SalesGrouping.ValuesAreGroups | my-pos/src/App.jsx:224 | once every row is read, the values in key order are the groups |
| SalesGrouping.GroupedIds | my-pos/src/App.jsx:203-225 | there are as many groups as distinct VentaIDs; each row's id has a group; no two groups share an id |
| SalesGrouping.GroupedOrder | my-pos/src/App.jsx:203-225 | an earlier group's id first occurs before a later group's id |
| SalesGrouping.GroupHeader | my-pos/src/App.jsx:206-213 | a group's `fecha`, `hora`, `total` and `vendedor` are those of the first row with its id; on a sheet whose rows of one sale share a header, they are those of every one of its rows |
| SalesGrouping.ItemsWithIdCount | my-pos/src/App.jsx:216-222 | a group holds one item per row carrying its id |
| SalesGrouping.ItemsWithIdMembers | my-pos/src/App.jsx:216-222 | the item of every row carrying an id is among that id's items |
| SalesGrouping.ItemSource | my-pos/src/App.jsx:216-222 | each item of an id comes from a row carrying that id |
| SalesGrouping.ItemTotalGrouped | my-pos/src/App.jsx:203-225 | the groups hold as many items in all as there are rows |
| PosBackend.FindCode | backend/pos_backend.py:44-45 | the search finds no row exactly when no row has the code, and otherwise the first row holding it |
| PosBackend.StockStep | backend/pos_backend.py:40-83 | the update succeeds exactly when the code is found and its stock covers the quantity; it fails with not-found exactly when the code is missing |
| PosBackend.StockStepSuccess | backend/pos_backend.py:62-82 | an accepted update changes only the found row, and only its quantity and timestamp; the new quantity is the old one less the quantity sold and at least 0; the alert is raised exactly when the new quantity is at or below the minimum; the report carries the row's id, name and price |
| PosBackend.StockStepCodes | backend/pos_backend.py:62-69 | an accepted update keeps the Codigo column, so every later search finds the same row |
| PosBackend.ProcessItems | backend/pos_backend.py:143-156 | the loop keeps the sheet's size; a run without refusal has one result per item; a refused run stops at an item index with one result per earlier item |
| PosBackend.ProcessItemsStopped | backend/pos_backend.py:150-154 | once an item is refused, later items change nothing |
| PosBackend.ProcessItemsStep | backend/pos_backend.py:143-156 | one more item after the loop so far: nothing after a refusal, otherwise the item's refusal or its update appended to the results |
| PosBackend.ProcessItemsLast | backend/pos_backend.py:143-156 | the loop over all items, from the loop over all but the last one |
| PosBackend.ProcessItemsFailure | backend/pos_backend.py:143-154 | when an item is refused, every item before it was accepted and their decrements stay in the sheet; the refusal names that item's code and the stock step's error |
| PosBackend.NonAtomicExample | backend/pos_backend.py:143-154 | a two-item sale whose second product has no stock fails on that item, and the first product stays decremented from 5 to 3 |
| PosBackend.ProcessItemsKeepsRows | backend/pos_backend.py:143-156 | the loop keeps ids, codes, names, prices and minimums of every row, and only quantities and timestamps change |
| PosBackend.ProcessItemsNonNegative | backend/pos_backend.py:55-62 | the stock of no row goes below zero |
| PosBackend.StockAfterStep | backend/pos_backend.py:62-65 | one accepted update moves the sheet from "less what was sold" before the item to the same after it |
| PosBackend.ProcessItemsStock | backend/pos_backend.py:143-156 | after a sale whose items were all accepted, the row found for each code has lost exactly the quantity the sale sold of that code, and every other row keeps its quantity |
| PosBackend.StockOnFailure | backend/pos_backend.py:143-154 | after a refused item, the sheet holds exactly the decrements of the items before it |
| PosBackend.ProcessItemsKeepsCodes | backend/pos_backend.py:143-156 | the loop keeps the Codigo column |
| PosBackend.AlertsOfMembers | backend/pos_backend.py:171-176 | there are no more alerts than results, and every result that flags low stock has its alert |
| PosBackend.AlertSource | backend/pos_backend.py:171-176 | each alert comes from a result that flags low stock, with its name and remaining quantity |
| PosBackend.ResultsAppend | backend/pos_backend.py:156-176 | one more accepted item adds its `price * quantity_sold` to the total, its alert when flagged, and its detail |
| PosBackend.ProcessItemsResults | backend/pos_backend.py:156-169 | every result describes its item against the sheet before the sale: the item's code and quantity, the row's id, name and price, a non-negative new stock, and an alert exactly at or below the minimum |
| PosBackend.ProcessItemsTotal | backend/pos_backend.py:158-160 | the total of a fully accepted sale is the sum of price times quantity over its items, at the sheet's prices before the sale |
| PosBackend.DetailsOf | backend/pos_backend.py:163-169 | one detail per result, in order, copying its id, code, name, price and quantity |
| PosBackend.SaleRows | backend/pos_backend.py:99-114 | one row per detail, each with the sale's id, fecha, hora, total and vendedor; the item's columns; subtotal = price times quantity |
| PosBackend.SaleRowsConsistent | backend/pos_backend.py:99-117 | appending a sale under a fresh id keeps every sale's rows sharing one header |
| PosBackend.SaleRowsSums | backend/pos_backend.py:99-114 | a sale's rows add up to its total in the Subtotal column and to its units in the Cantidad column |
| PosBackend.LowStockReportMembers | backend/pos_backend.py:258-265 | the report is no longer than the sheet and holds every row at or below its minimum |
| PosBackend.LowStockSource | backend/pos_backend.py:258-265 | each entry of the report comes from a row at or below its minimum, with its code, name, quantity and minimum |
| PosBackend.LowStockReportAppend | backend/pos_backend.py:258-265 | the report of two sheets joined is the first report followed by the second, so it keeps sheet order |
| PosBackend.InventoryManager.constructor | backend/pos_backend.py:7-17 | the manager starts on the given inventory and sales sheets |
| PosBackend.InventoryManager.UpdateStock | backend/pos_backend.py:40-83 | the sheet and the answer are those of the stock step: a refusal leaves the sheet unchanged |
| PosBackend.InventoryManager.SaveSale | backend/pos_backend.py:91-123 | the sales sheet gains exactly the sale's rows at its end, and the count saved is the number of details |
| PosBackend.InventoryManager.ProcessSale | backend/pos_backend.py:132-195 | the sheet is the one the item loop leaves; on a refusal the sale fails on that item's code and no row is written; otherwise the answer has the total, the number of items, the results and the alerts, and the sale's rows are appended |
| PosBackend.InventoryManager.GetLowStockAlerts | backend/pos_backend.py:253-267 | the scan returns the low-stock report of the sheet |
| SalesReports.StrLeReflexive | backend/pos_backend.py:204 | every date string is `>=` itself |
| SalesReports.StrLeAntisymmetric | backend/pos_backend.py:204-206 | two strings each `<=` the other are equal |
| SalesReports.SliceFromLimit | backend/pos_backend.py:209-210 | `records[-limit:]` keeps the last `limit` rows for a positive limit (all of them when fewer), drops the first `-limit` for a negative one, and is always a suffix |
| SalesReports.InRangeSpec | backend/pos_backend.py:203-206 | a row is kept exactly when it lies within each bound that is given; no bound keeps the whole sheet |
| SalesReports.InRangeAppend | backend/pos_backend.py:203-206 | the date filter distributes over concatenation, so the rows in range keep the sheet's order and multiplicity |
| SalesReports.InRangeSingle | backend/pos_backend.py:203-206 | one row is kept exactly when it lies within every bound that is given |
| SalesReports.InRangeOneDay | backend/pos_backend.py:203-206 | the same day as both bounds keeps exactly the rows of that day |
| SalesReports.SalesHistorySpec | backend/pos_backend.py:197-212 | the history is a suffix of the rows in range: all of them for a limit of None or 0, the last `limit` for a positive limit |
| SalesReports.SalesSummarySpec | backend/pos_backend.py:217-246 | the summary is of today when no date is given; it counts the distinct VentaIDs of the day (the number of groups), sums their Cantidad and Subtotal, and has no sales exactly when the day has no rows |
| SalesReports.SummaryAfterSale | backend/pos_backend.py:224-246 | saving a sale under a fresh id on the summarised day adds one sale, its total and its units to the summary |
| SalesReports.DistinctIdsFresh | backend/pos_backend.py:236 | rows of a sale whose id is new add exactly one distinct id |

## Left out

- `backend/api_server.py` is not part of this model. It is the HTTP routing and JSON plumbing around `InventoryManager`. It matters only because it passes `limit` as an integer or None, and the dates as strings or None.
- gspread, OAuth and the sheet calls. The sheets are in-memory sequences. The quirk that the sheet's `find` matches a code in any cell is not modelled: the model searches the Codigo column.
- `get_inventory` and `get_product_by_code` are not modelled. They are plain reads of the sheet, and `get_inventory` is part of `GetLowStockAlerts`.
- Exceptions from the sheet, from `int()` and from `float()`. The model has no such failures. Their `success: False` answers, the empty history after an exception and the summary's `error` answer are left out.
- PosBackend.InventoryManager.SaveSale: it always succeeds, because a failing `append_rows` is I/O. The "sale processed but not saved" answer of `process_sale` (backend/pos_backend.py:182-186) is therefore not modelled.
- PosBackend.InventoryManager.ProcessSale: a refusal is reported as the item's code and the stock error, not as the formatted message string.
- PosBackend.InventoryManager.ProcessSale: the sale id, the date and time of the rows, and one timestamp for every stock update are parameters. The code reads the clock in each `update_stock` and again in `save_sale`, and draws the id from `uuid4`.
- Floating point. Prices are integer cents. The client's `parseFloat` and `toFixed(2)` are not modelled.
- The client's network I/O is not modelled: `loadInventory`, `loadSalesHistory`, `loadSalesSummary`, and the `loadInventory()` refresh after a sale (my-pos/src/App.jsx:184). The constructor stands for the state after a load.
- Rendering, tabs, `alert()` and console messages, the search filter (my-pos/src/App.jsx:198-201), the invoice modal and `clienteData` are not modelled. They are presentation only.
- PosClient.PointOfSale.UpdateCartQuantity requires the line to be in the cart and its product to be in the inventory. The code throws a TypeError otherwise (my-pos/src/App.jsx:111, 118).
- PosClient.PointOfSale.AddToCart promises that the stock bound holds after the call only when the product passed in is the inventory's entry for its id and its stock is not negative. The code accepts any product object. The rendered buttons always pass the inventory's entry. The code tests the stock with `=== 0` (my-pos/src/App.jsx:87), so a product with negative stock still gets a line of quantity 1, which is above its stock.
- PosClient.PointOfSale.ProcessSale is modelled as one atomic step. In the code it awaits the request with `cart` and `inventory` as they were when it was called, and no button is disabled while the request is pending (my-pos/src/App.jsx:356-443). Lines added during that time are dropped by `setCart([])` on success (my-pos/src/App.jsx:183), and the inventory is reconciled from the old snapshot. The model does not capture these interleavings.
- PosClient.PointOfSale.ProcessSale: the response's figures are taken as given. The client does not check them against its own cart.
- SalesGrouping.GroupSalesById: JavaScript iterates integer-like object keys first, in numeric order. The model uses plain insertion order, which is what the code gets for the `VTA-…` ids the backend issues.
- Regrouping is not modelled. Grouping the flattened groups again would be expected to give the same groups, but the code has no flattening step.
- SalesReports.SalesSummarySpec does not model the JSON shape. The code's empty answer carries an `unique_sales: 0` key and no `sales` key. The model's empty summary carries an empty list of rows.
