/**
 * The sale transaction of the backend's `InventoryManager`, with the two spreadsheets
 * replaced by in-memory state: the "Inventario" sheet is a sequence of stock records
 * looked up by product code, and the "Ventas" sheet is an append-only sequence of sale
 * rows. Prices are integer cents; the clock and the sale id are parameters.
 */
module PosBackend {
  import opened Wrappers
  import opened SaleRecords
  import Seqs

  /** One row of the inventory sheet: ID, Codigo, Nombre, Cantidad, Precio, MinStock, and the
      timestamp of its last update. */
  datatype StockRecord = StockRecord(
    id: string,
    codigo: string,
    nombre: string,
    cantidad: int,
    precio: int,
    minStock: int,
    actualizado: string)

  /** The report of a successful `update_stock`. */
  datatype StockUpdate = StockUpdate(
    productId: string,
    productCode: string,
    productName: string,
    price: int,
    quantitySold: int,
    newQuantity: int,
    alert: bool)

  /** Why `update_stock` refuses: no row has the code, or its stock is below the quantity sold. */
  datatype StockError = ProductNotFound | InsufficientStock

  datatype Stocked = Stocked(table: seq<StockRecord>, update: StockUpdate)

  /** The Codigo column. */
  function Codes(table: seq<StockRecord>): (codes: seq<string>)
    ensures |codes| == |table|
    ensures forall i :: 0 <= i < |table| ==> codes[i] == table[i].codigo
  {
    seq(|table|, i requires 0 <= i < |table| => table[i].codigo)
  }

  /** The row that the sheet's search finds for a code: the first one holding it. */
  function FindCode(table: seq<StockRecord>, code: string): (r: Option<nat>)
    ensures r.None? <==> code !in Codes(table)
    ensures r.Some? ==> r.value < |table| && table[r.value].codigo == code
    ensures r.Some? ==> forall j :: 0 <= j < r.value ==> table[j].codigo != code
  {
    Seqs.FirstIndexOf(Codes(table), code)
  }

  predicate NonNegativeStock(table: seq<StockRecord>) {
    forall i :: 0 <= i < |table| ==> table[i].cantidad >= 0
  }

  /** `update_stock` as a function of the sheet: refuse when the code is missing or the stock
      does not cover the sale; otherwise decrement the stock, stamp the row and report. */
  function StockStep(table: seq<StockRecord>, code: string, sold: int, ts: string): (r: Result<Stocked, StockError>)
    ensures r.Success? <==> code in Codes(table) && table[FindCode(table, code).value].cantidad >= sold
    ensures r.Failure? ==> (r.error == ProductNotFound <==> code !in Codes(table))
  {
    match FindCode(table, code)
    case None => Failure(ProductNotFound)
    case Some(k) =>
      var rec := table[k];
      if rec.cantidad < sold then Failure(InsufficientStock)
      else
        var newQty := rec.cantidad - sold;
        Success(Stocked(
          table[k := rec.(cantidad := newQty, actualizado := ts)],
          StockUpdate(rec.id, code, rec.nombre, rec.precio, sold, newQty, newQty <= rec.minStock)))
  }

  /** What an accepted update writes and reports: only the found row changes, and only in its
      quantity, which drops by the quantity sold and stays at or above zero, and its timestamp;
      the alert is raised exactly when the new quantity is at or below the row's minimum. */
  lemma StockStepSuccess(table: seq<StockRecord>, code: string, sold: int, ts: string)
    requires StockStep(table, code, sold, ts).Success?
    ensures
      var k := FindCode(table, code).value;
      var t', u := StockStep(table, code, sold, ts).value.table, StockStep(table, code, sold, ts).value.update;
      && |t'| == |table|
      && (forall j :: 0 <= j < |table| && j != k ==> t'[j] == table[j])
      && t'[k] == table[k].(cantidad := u.newQuantity, actualizado := ts)
      && u.newQuantity + sold == table[k].cantidad
      && u.newQuantity >= 0
      && (u.alert <==> u.newQuantity <= table[k].minStock)
      && u.productId == table[k].id && u.productCode == code && u.productName == table[k].nombre
      && u.price == table[k].precio && u.quantitySold == sold
  {
  }

  /** An accepted update keeps the Codigo column, so every later search finds the same row. */
  lemma StockStepCodes(table: seq<StockRecord>, code: string, sold: int, ts: string)
    requires StockStep(table, code, sold, ts).Success?
    ensures Codes(StockStep(table, code, sold, ts).value.table) == Codes(table)
    ensures forall c :: FindCode(StockStep(table, code, sold, ts).value.table, c) == FindCode(table, c)
  {
    StockStepSuccess(table, code, sold, ts);
    var t' := StockStep(table, code, sold, ts).value.table;
    assert Codes(t') == Codes(table);
  }

  /** The first item of a sale that `update_stock` refused. */
  datatype ItemFailure = ItemFailure(index: nat, codigo: string, error: StockError)

  /** The state of `process_sale`'s loop: the sheet, the `results` so far, and the failure that
      ended the loop, if any. */
  datatype Progress = Progress(table: seq<StockRecord>, updates: seq<StockUpdate>, failure: Option<ItemFailure>)

  /** `update_stock` applied to the items in cart order, stopping at the first refusal. */
  function ProcessItems(table: seq<StockRecord>, items: seq<SaleItem>, ts: string): (p: Progress)
    ensures |p.table| == |table|
    ensures p.failure.None? ==> |p.updates| == |items|
    ensures p.failure.Some? ==> p.failure.value.index < |items| && |p.updates| == p.failure.value.index
  {
    if items == [] then Progress(table, [], None)
    else
      var n := |items| - 1;
      var p := ProcessItems(table, items[..n], ts);
      if p.failure.Some? then p
      else
        match StockStep(p.table, items[n].codigo, items[n].cantidadVendida, ts)
        case Failure(e) => Progress(p.table, p.updates, Some(ItemFailure(n, items[n].codigo, e)))
        case Success(s) => Progress(s.table, p.updates + [s.update], None)
  }

  /** Once the loop has stopped, later items change nothing. */
  lemma {:induction false} ProcessItemsStopped(table: seq<StockRecord>, items: seq<SaleItem>, j: nat, ts: string)
    requires j <= |items|
    requires ProcessItems(table, items[..j], ts).failure.Some?
    ensures ProcessItems(table, items, ts) == ProcessItems(table, items[..j], ts)
  {
    if j < |items| {
      var n := |items| - 1;
      var init := items[..n];
      assert init[..j] == items[..j];
      ProcessItemsStopped(table, init, j, ts);
      assert ProcessItems(table, init, ts).failure.Some?;
    } else {
      assert items[..j] == items;
    }
  }

  /** The loop after its last item, from the loop before it. */
  lemma ProcessItemsLast(table: seq<StockRecord>, items: seq<SaleItem>, ts: string)
    requires items != []
    ensures var n := |items| - 1;
      var q := ProcessItems(table, items[..n], ts);
      var s := StockStep(q.table, items[n].codigo, items[n].cantidadVendida, ts);
      var p := ProcessItems(table, items, ts);
      && (q.failure.None? && s.Success? ==> p == Progress(s.value.table, q.updates + [s.value.update], None))
      && (q.failure.Some? || s.Failure? ==> p.table == q.table && p.updates == q.updates)
  {
  }

  /** One more item after a run without failure. */
  lemma ProcessItemsStep(table: seq<StockRecord>, items: seq<SaleItem>, i: nat, ts: string)
    requires i < |items|
    ensures ProcessItems(table, items[..i + 1], ts) ==
      var p := ProcessItems(table, items[..i], ts);
      if p.failure.Some? then p
      else match StockStep(p.table, items[i].codigo, items[i].cantidadVendida, ts)
        case Failure(e) => Progress(p.table, p.updates, Some(ItemFailure(i, items[i].codigo, e)))
        case Success(s) => Progress(s.table, p.updates + [s.update], None)
  {
    assert items[..i + 1][..i] == items[..i];
  }

  /** `process_sale` is not atomic: when an item is refused, the items before it were all
      accepted and stay decremented, and the sheet is the one they left. */
  lemma {:induction false} ProcessItemsFailure(table: seq<StockRecord>, items: seq<SaleItem>, ts: string)
    requires ProcessItems(table, items, ts).failure.Some?
    ensures var p := ProcessItems(table, items, ts);
      var f := p.failure.value;
      var before := ProcessItems(table, items[..f.index], ts);
      && before.failure.None?
      && p.table == before.table && p.updates == before.updates
      && f.codigo == items[f.index].codigo
      && StockStep(before.table, items[f.index].codigo, items[f.index].cantidadVendida, ts) == Failure(f.error)
  {
    var n := |items| - 1;
    var p := ProcessItems(table, items[..n], ts);
    if p.failure.Some? {
      ProcessItemsFailure(table, items[..n], ts);
      var f := p.failure.value;
      assert items[..n][..f.index] == items[..f.index];
    } else {
      assert items[..n] == items[..|items| - 1];
    }
  }

  /** A sale of two units of a product with stock 5 followed by a product with no stock: the
      sale fails on its second item, and the first product keeps its decrement. */
  lemma NonAtomicExample()
    ensures var table := [StockRecord("1", "CAM001", "Camisa", 5, 1000, 2, "t0"),
                          StockRecord("2", "PAN001", "Pantalon", 0, 2500, 1, "t0")];
      var p := ProcessItems(table, [SaleItem("CAM001", 2), SaleItem("PAN001", 1)], "t1");
      p.failure == Some(ItemFailure(1, "PAN001", InsufficientStock)) && p.table[0].cantidad == 3
  {
    var table := [StockRecord("1", "CAM001", "Camisa", 5, 1000, 2, "t0"),
                  StockRecord("2", "PAN001", "Pantalon", 0, 2500, 1, "t0")];
    var items := [SaleItem("CAM001", 2), SaleItem("PAN001", 1)];
    assert Codes(table) == ["CAM001", "PAN001"];
    Seqs.FirstIndexOfUnique(Codes(table), "CAM001", 0);
    var s := StockStep(table, "CAM001", 2, "t1");
    assert s.Success? && s.value.table[0].cantidad == 3;
    StockStepCodes(table, "CAM001", 2, "t1");
    Seqs.FirstIndexOfUnique(Codes(table), "PAN001", 1);
    assert FindCode(s.value.table, "PAN001") == Some(1);
    assert s.value.table[1].cantidad == 0;
    assert items[..1][..0] == [];
    assert ProcessItems(table, items[..1], "t1") == Progress(s.value.table, [s.value.update], None);
    assert items[..2] == items;
    ProcessItemsStep(table, items, 1, "t1");
  }

  /** The loop only rewrites quantities and timestamps: ids, codes, names, prices and minimums
      stay as they were, so every search finds the row it found before the sale. */
  lemma {:induction false} ProcessItemsKeepsRows(table: seq<StockRecord>, items: seq<SaleItem>, ts: string)
    ensures var t' := ProcessItems(table, items, ts).table;
      && |t'| == |table|
      && Codes(t') == Codes(table)
      && forall j :: 0 <= j < |table| ==> t'[j] == table[j].(cantidad := t'[j].cantidad, actualizado := t'[j].actualizado)
  {
    if items != [] {
      var n := |items| - 1;
      ProcessItemsKeepsRows(table, items[..n], ts);
      var p := ProcessItems(table, items[..n], ts);
      if p.failure.None? {
        var s := StockStep(p.table, items[n].codigo, items[n].cantidadVendida, ts);
        if s.Success? {
          StockStepSuccess(p.table, items[n].codigo, items[n].cantidadVendida, ts);
          StockStepCodes(p.table, items[n].codigo, items[n].cantidadVendida, ts);
        }
      }
    }
  }

  /** The stock of no row goes below zero: rows the sale touches end at or above zero, the others
      are untouched. */
  lemma {:induction false} ProcessItemsNonNegative(table: seq<StockRecord>, items: seq<SaleItem>, ts: string)
    requires NonNegativeStock(table)
    ensures NonNegativeStock(ProcessItems(table, items, ts).table)
  {
    if items != [] {
      var n := |items| - 1;
      ProcessItemsNonNegative(table, items[..n], ts);
      var p := ProcessItems(table, items[..n], ts);
      if p.failure.None? && StockStep(p.table, items[n].codigo, items[n].cantidadVendida, ts).Success? {
        StockStepSuccess(p.table, items[n].codigo, items[n].cantidadVendida, ts);
      }
    }
  }

  /** The quantity of `code` that the items ask for. */
  function Sold(items: seq<SaleItem>, code: string): int {
    if items == [] then 0
    else Sold(items[..|items| - 1], code) + (if items[|items| - 1].codigo == code then items[|items| - 1].cantidadVendida else 0)
  }

  /** The quantity of one row after one accepted update, from its quantity before. */
  lemma SoldStep(table: seq<StockRecord>, t: seq<StockRecord>, done: seq<SaleItem>, it: SaleItem, ts: string, j: nat)
    requires |t| == |table| && Codes(t) == Codes(table) && j < |table|
    requires t[j].cantidad ==
      table[j].cantidad - (if FindCode(table, table[j].codigo) == Some(j) then Sold(done, table[j].codigo) else 0)
    requires StockStep(t, it.codigo, it.cantidadVendida, ts).Success?
    ensures StockStep(t, it.codigo, it.cantidadVendida, ts).value.table[j].cantidad ==
      table[j].cantidad - (if FindCode(table, table[j].codigo) == Some(j) then Sold(done + [it], table[j].codigo) else 0)
  {
    StockStepSuccess(t, it.codigo, it.cantidadVendida, ts);
    assert (done + [it])[..|done|] == done;
    assert FindCode(t, it.codigo) == FindCode(table, it.codigo);
    assert table[j].codigo == Codes(table)[j];
  }

  /** The quantities of `t` are those of `table` less what `done` sold of each code, counted on
      the row that the search finds for that code. */
  predicate StockAfter(table: seq<StockRecord>, t: seq<StockRecord>, done: seq<SaleItem>) {
    |t| == |table| &&
    forall j :: 0 <= j < |table| ==>
      t[j].cantidad ==
        table[j].cantidad - (if FindCode(table, table[j].codigo) == Some(j) then Sold(done, table[j].codigo) else 0)
  }

  lemma StockAfterStep(table: seq<StockRecord>, t: seq<StockRecord>, done: seq<SaleItem>, it: SaleItem, ts: string)
    requires StockAfter(table, t, done) && Codes(t) == Codes(table)
    requires StockStep(t, it.codigo, it.cantidadVendida, ts).Success?
    ensures StockAfter(table, StockStep(t, it.codigo, it.cantidadVendida, ts).value.table, done + [it])
  {
    StockStepSuccess(t, it.codigo, it.cantidadVendida, ts);
    forall j | 0 <= j < |table|
      ensures StockStep(t, it.codigo, it.cantidadVendida, ts).value.table[j].cantidad ==
        table[j].cantidad - (if FindCode(table, table[j].codigo) == Some(j) then Sold(done + [it], table[j].codigo) else 0)
    {
      SoldStep(table, t, done, it, ts, j);
    }
  }

  /** Stock conservation: after a sale whose items were all accepted, the row found for a code
      has lost exactly the quantity sold of that code, and every other row is unchanged. */
  lemma {:induction false} ProcessItemsStock(table: seq<StockRecord>, items: seq<SaleItem>, ts: string)
    requires ProcessItems(table, items, ts).failure.None?
    ensures StockAfter(table, ProcessItems(table, items, ts).table, items)
  {
    if items == [] {
      assert forall c :: Sold([], c) == 0;
    } else {
      var n := |items| - 1;
      var q := ProcessItems(table, items[..n], ts);
      ProcessItemsLast(table, items, ts);
      ProcessItemsStock(table, items[..n], ts);
      ProcessItemsKeepsCodes(table, items[..n], ts);
      StockAfterStep(table, q.table, items[..n], items[n], ts);
      assert items[..n] + [items[n]] == items;
    }
  }

  /** After a refused item, the sheet holds the decrements of exactly the items before it. */
  lemma StockOnFailure(table: seq<StockRecord>, items: seq<SaleItem>, ts: string)
    requires ProcessItems(table, items, ts).failure.Some?
    ensures var p := ProcessItems(table, items, ts);
      StockAfter(table, p.table, items[..p.failure.value.index])
  {
    ProcessItemsFailure(table, items, ts);
    ProcessItemsStock(table, items[..ProcessItems(table, items, ts).failure.value.index], ts);
  }

  lemma ProcessItemsKeepsCodes(table: seq<StockRecord>, items: seq<SaleItem>, ts: string)
    ensures Codes(ProcessItems(table, items, ts).table) == Codes(table)
  {
    ProcessItemsKeepsRows(table, items, ts);
  }

  /** The price list of the sheet: the price of the row found for a code. */
  function PriceOf(table: seq<StockRecord>, code: string): int {
    match FindCode(table, code)
    case None => 0
    case Some(k) => table[k].precio
  }

  /** The value of the items at the sheet's prices. */
  function CartValue(table: seq<StockRecord>, items: seq<SaleItem>): int {
    if items == [] then 0
    else
      var last := items[|items| - 1];
      CartValue(table, items[..|items| - 1]) + PriceOf(table, last.codigo) * last.cantidadVendida
  }

  /** `total_sale`: the sum of `price * quantity_sold` over the results. */
  function TotalOf(updates: seq<StockUpdate>): int {
    if updates == [] then 0
    else
      var last := updates[|updates| - 1];
      TotalOf(updates[..|updates| - 1]) + last.price * last.quantitySold
  }

  /** The alerts of the results that flag low stock, in cart order. */
  function AlertsOf(updates: seq<StockUpdate>): seq<SaleAlert> {
    if updates == [] then []
    else
      var last := updates[|updates| - 1];
      AlertsOf(updates[..|updates| - 1]) + (if last.alert then [SaleAlert(last.productName, last.newQuantity)] else [])
  }

  /** Every result that flags low stock has its alert (`AlertSource` gives the converse). */
  lemma {:induction false} AlertsOfMembers(updates: seq<StockUpdate>)
    ensures |AlertsOf(updates)| <= |updates|
    ensures forall i :: 0 <= i < |updates| && updates[i].alert ==>
      SaleAlert(updates[i].productName, updates[i].newQuantity) in AlertsOf(updates)
  {
    if updates != [] {
      var init, last := updates[..|updates| - 1], updates[|updates| - 1];
      AlertsOfMembers(init);
      var a, b := AlertsOf(init), AlertsOf(updates);
      forall i | 0 <= i < |updates| && updates[i].alert
        ensures SaleAlert(updates[i].productName, updates[i].newQuantity) in b
      {
        if i < |init| {
          assert updates[i] == init[i];
        } else {
          assert updates[i] == last && b[|a|] == SaleAlert(last.productName, last.newQuantity);
        }
      }
    }
  }

  /** The result that an alert comes from. */
  lemma {:induction false} AlertSource(updates: seq<StockUpdate>, j: nat) returns (i: nat)
    requires j < |AlertsOf(updates)|
    ensures i < |updates| && updates[i].alert && AlertsOf(updates)[j] == SaleAlert(updates[i].productName, updates[i].newQuantity)
  {
    assert updates != [];
    var init, last := updates[..|updates| - 1], updates[|updates| - 1];
    var a := AlertsOf(init);
    if j < |a| {
      i := AlertSource(init, j);
      assert updates[i] == init[i];
    } else {
      i := |updates| - 1;
    }
  }

  /** The total, the alerts and the details of one more accepted item. */
  lemma ResultsAppend(results: seq<StockUpdate>, u: StockUpdate)
    ensures TotalOf(results + [u]) == TotalOf(results) + u.price * u.quantitySold
    ensures AlertsOf(results + [u]) == AlertsOf(results) + (if u.alert then [SaleAlert(u.productName, u.newQuantity)] else [])
    ensures DetailsOf(results + [u]) == DetailsOf(results) + [DetailOf(u)]
  {
    assert (results + [u])[..|results|] == results;
  }

  /** The result of an accepted item, described against the sheet as it was before the sale:
      the item's code and quantity, the row's id, name and price, a stock that is not negative,
      and an alert exactly when that stock is at or below the row's minimum. */
  predicate Describes(table: seq<StockRecord>, it: SaleItem, u: StockUpdate) {
    && it.codigo in Codes(table)
    && var rec := table[FindCode(table, it.codigo).value];
    && u.productCode == it.codigo && u.quantitySold == it.cantidadVendida
    && u.productId == rec.id && u.productName == rec.nombre && u.price == rec.precio
    && u.newQuantity >= 0
    && (u.alert <==> u.newQuantity <= rec.minStock)
  }

  /** Every result of the loop describes its item against the sheet before the sale. */
  lemma {:induction false} ProcessItemsResults(table: seq<StockRecord>, items: seq<SaleItem>, ts: string)
    ensures var u := ProcessItems(table, items, ts).updates;
      forall i :: 0 <= i < |u| ==> Describes(table, items[i], u[i])
  {
    if items != [] {
      var n := |items| - 1;
      var q := ProcessItems(table, items[..n], ts);
      ProcessItemsResults(table, items[..n], ts);
      if q.failure.None? {
        var it := items[n];
        if StockStep(q.table, it.codigo, it.cantidadVendida, ts).Success? {
          ResultStep(table, items[..n], it, ts);
        }
      }
    }
  }

  /** The result of an item accepted after `done` describes it against the sheet before the sale. */
  lemma ResultStep(table: seq<StockRecord>, done: seq<SaleItem>, it: SaleItem, ts: string)
    requires ProcessItems(table, done, ts).failure.None?
    requires StockStep(ProcessItems(table, done, ts).table, it.codigo, it.cantidadVendida, ts).Success?
    ensures Describes(table, it, StockStep(ProcessItems(table, done, ts).table, it.codigo, it.cantidadVendida, ts).value.update)
  {
    var t := ProcessItems(table, done, ts).table;
    StockStepSuccess(t, it.codigo, it.cantidadVendida, ts);
    ProcessItemsKeepsRows(table, done, ts);
    assert FindCode(t, it.codigo) == FindCode(table, it.codigo);
    var k := FindCode(table, it.codigo).value;
    assert t[k] == table[k].(cantidad := t[k].cantidad, actualizado := t[k].actualizado);
  }

  lemma TotalStep(table: seq<StockRecord>, done: seq<SaleItem>, it: SaleItem, updates: seq<StockUpdate>, u: StockUpdate)
    requires TotalOf(updates) == CartValue(table, done)
    requires u.price == PriceOf(table, it.codigo) && u.quantitySold == it.cantidadVendida
    ensures TotalOf(updates + [u]) == CartValue(table, done + [it])
  {
    assert (updates + [u])[..|updates|] == updates;
    assert (done + [it])[..|done|] == done;
  }

  /** The total of a sale whose items were all accepted is the value of its items at the prices
      the sheet had before the sale. */
  lemma {:induction false} ProcessItemsTotal(table: seq<StockRecord>, items: seq<SaleItem>, ts: string)
    requires ProcessItems(table, items, ts).failure.None?
    ensures TotalOf(ProcessItems(table, items, ts).updates) == CartValue(table, items)
  {
    if items != [] {
      var n := |items| - 1;
      var q := ProcessItems(table, items[..n], ts);
      ProcessItemsLast(table, items, ts);
      ProcessItemsTotal(table, items[..n], ts);
      var it := items[n];
      ResultStep(table, items[..n], it, ts);
      TotalStep(table, items[..n], it, q.updates, StockStep(q.table, it.codigo, it.cantidadVendida, ts).value.update);
      assert items[..n] + [it] == items;
    }
  }

  /** The history detail of one result. */
  datatype SaleDetail = SaleDetail(productId: string, productCode: string, productName: string, price: int, quantitySold: int)

  function DetailOf(u: StockUpdate): SaleDetail {
    SaleDetail(u.productId, u.productCode, u.productName, u.price, u.quantitySold)
  }

  function DetailsOf(updates: seq<StockUpdate>): (details: seq<SaleDetail>)
    ensures |details| == |updates|
    ensures forall i :: 0 <= i < |updates| ==> details[i] == DetailOf(updates[i])
  {
    seq(|updates|, i requires 0 <= i < |updates| => DetailOf(updates[i]))
  }

  /** The history row of one detail of a sale. */
  function RowOf(saleId: string, fecha: string, hora: string, d: SaleDetail, total: int, vendedor: string): SaleRow {
    SaleRow(saleId, fecha, hora, d.productId, d.productCode, d.productName, d.quantitySold, d.price,
            d.price * d.quantitySold, total, vendedor)
  }

  /** The rows `save_sale` appends: one per detail, all with the sale's id and header. */
  function SaleRows(saleId: string, fecha: string, hora: string, details: seq<SaleDetail>, total: int, vendedor: string): (rows: seq<SaleRow>)
    ensures |rows| == |details|
    ensures forall i :: 0 <= i < |rows| ==>
      && rows[i].ventaId == saleId
      && HeaderOf(rows[i]) == SaleHeader(fecha, hora, total, vendedor)
      && rows[i].productoId == details[i].productId && rows[i].codigo == details[i].productCode
      && rows[i].nombre == details[i].productName && rows[i].cantidad == details[i].quantitySold
      && rows[i].precioUnitario == details[i].price
      && rows[i].subtotal == details[i].price * details[i].quantitySold
  {
    seq(|details|, i requires 0 <= i < |details| => RowOf(saleId, fecha, hora, details[i], total, vendedor))
  }

  /** Appending a sale under a fresh id keeps the sheet's rows of one sale sharing one header. */
  lemma SaleRowsConsistent(sales: seq<SaleRow>, saleId: string, fecha: string, hora: string, details: seq<SaleDetail>, total: int, vendedor: string)
    requires HeadersConsistent(sales)
    requires saleId !in Ids(sales)
    ensures HeadersConsistent(sales + SaleRows(saleId, fecha, hora, details, total, vendedor))
  {
    var rows := SaleRows(saleId, fecha, hora, details, total, vendedor);
    forall i | 0 <= i < |sales| ensures sales[i].ventaId != saleId {
      assert Ids(sales)[i] == sales[i].ventaId;
    }
  }

  /** The rows of a sale add up to its reported figures: its Subtotal column to the total, its
      Cantidad column to the units sold. */
  lemma {:induction false} SaleRowsSums(saleId: string, fecha: string, hora: string, updates: seq<StockUpdate>, total: int, vendedor: string)
    ensures var rows := SaleRows(saleId, fecha, hora, DetailsOf(updates), total, vendedor);
      SumSubtotal(rows) == TotalOf(updates) && SumCantidad(rows) == UnitsOf(updates)
  {
    var rows := SaleRows(saleId, fecha, hora, DetailsOf(updates), total, vendedor);
    if updates != [] {
      var n := |updates| - 1;
      SaleRowsSums(saleId, fecha, hora, updates[..n], total, vendedor);
      var prev := SaleRows(saleId, fecha, hora, DetailsOf(updates[..n]), total, vendedor);
      assert rows[..n] == prev;
      assert rows[..|rows| - 1] == prev;
    }
  }

  /** The units sold over the results. */
  function UnitsOf(updates: seq<StockUpdate>): int {
    if updates == [] then 0 else UnitsOf(updates[..|updates| - 1]) + updates[|updates| - 1].quantitySold
  }

  /** The outcome of `process_sale`. */
  datatype SaleResult =
    | SaleOk(saleId: string, total: int, items: nat, results: seq<StockUpdate>, alerts: seq<SaleAlert>)
    | SaleFailed(codigo: string, error: StockError)

  /** One row of the low-stock report. */
  datatype LowStockAlert = LowStockAlert(codigo: string, nombre: string, cantidad: int, minimo: int)

  function LowAlertOf(r: StockRecord): LowStockAlert {
    LowStockAlert(r.codigo, r.nombre, r.cantidad, r.minStock)
  }

  /** `get_low_stock_alerts`: the rows whose stock is at or below their minimum, in sheet order. */
  function LowStockReport(table: seq<StockRecord>): seq<LowStockAlert> {
    if table == [] then []
    else
      var last := table[|table| - 1];
      LowStockReport(table[..|table| - 1]) + (if last.cantidad <= last.minStock then [LowAlertOf(last)] else [])
  }

  /** The report holds an entry for every row at or below its minimum (`LowStockSource` gives the
      converse). */
  lemma {:induction false} LowStockReportMembers(table: seq<StockRecord>)
    ensures |LowStockReport(table)| <= |table|
    ensures forall i :: 0 <= i < |table| && table[i].cantidad <= table[i].minStock ==> LowAlertOf(table[i]) in LowStockReport(table)
  {
    if table != [] {
      var init, last := table[..|table| - 1], table[|table| - 1];
      LowStockReportMembers(init);
      var a, b := LowStockReport(init), LowStockReport(table);
      forall i | 0 <= i < |table| && table[i].cantidad <= table[i].minStock ensures LowAlertOf(table[i]) in b {
        if i < |init| {
          assert table[i] == init[i];
        } else {
          assert table[i] == last && b[|a|] == LowAlertOf(last);
        }
      }
    }
  }

  /** The row that an entry of the report comes from. */
  lemma {:induction false} LowStockSource(table: seq<StockRecord>, j: nat) returns (i: nat)
    requires j < |LowStockReport(table)|
    ensures i < |table| && table[i].cantidad <= table[i].minStock && LowStockReport(table)[j] == LowAlertOf(table[i])
  {
    assert table != [];
    var init := table[..|table| - 1];
    if j < |LowStockReport(init)| {
      i := LowStockSource(init, j);
      assert table[i] == init[i];
    } else {
      i := |table| - 1;
    }
  }

  /** The report of two sheets one after the other is the first report followed by the second:
      the report keeps the sheet's order. */
  lemma {:induction false} LowStockReportAppend(a: seq<StockRecord>, b: seq<StockRecord>)
    ensures LowStockReport(a + b) == LowStockReport(a) + LowStockReport(b)
  {
    if b == [] {
      assert a + b == a;
    } else {
      var n := |b| - 1;
      LowStockReportAppend(a, b[..n]);
      assert (a + b)[..|a + b| - 1] == a + b[..n];
    }
  }

  /** The spreadsheet behind `InventoryManager`, as in-memory state. */
  class InventoryManager {
    var inventory: seq<StockRecord>
    var sales: seq<SaleRow>

    constructor (stock: seq<StockRecord>, history: seq<SaleRow>)
      ensures inventory == stock && sales == history
    {
      inventory := stock;
      sales := history;
    }

    /** `update_stock`: find the row, check the stock, write the new quantity and timestamp. */
    method UpdateStock(productCode: string, quantitySold: int, ts: string) returns (r: Result<StockUpdate, StockError>)
      modifies this`inventory
      ensures match StockStep(old(inventory), productCode, quantitySold, ts)
        case Success(s) => inventory == s.table && r == Success(s.update)
        case Failure(e) => inventory == old(inventory) && r == Failure(e)
    {
      var found := FindCode(inventory, productCode);
      if found.None? {
        return Failure(ProductNotFound);
      }
      var row := found.value;
      var rec := inventory[row];
      if rec.cantidad < quantitySold {
        return Failure(InsufficientStock);
      }
      var newQty := rec.cantidad - quantitySold;
      inventory := inventory[row := rec.(cantidad := newQty)];
      inventory := inventory[row := inventory[row].(actualizado := ts)];
      var alert := newQty <= rec.minStock;
      r := Success(StockUpdate(rec.id, productCode, rec.nombre, rec.precio, quantitySold, newQty, alert));
    }

    /** `save_sale`: build one row per detail and append them all to the sales sheet. */
    method SaveSale(saleId: string, details: seq<SaleDetail>, total: int, vendedor: string, fecha: string, hora: string)
      returns (itemsSaved: nat)
      modifies this`sales
      ensures sales == old(sales) + SaleRows(saleId, fecha, hora, details, total, vendedor)
      ensures itemsSaved == |details|
    {
      var rows: seq<SaleRow> := [];
      for i := 0 to |details|
        invariant |rows| == i
        invariant forall j :: 0 <= j < i ==> rows[j] == RowOf(saleId, fecha, hora, details[j], total, vendedor)
      {
        rows := rows + [RowOf(saleId, fecha, hora, details[i], total, vendedor)];
      }
      assert rows == SaleRows(saleId, fecha, hora, details, total, vendedor);
      sales := sales + rows;
      itemsSaved := |rows|;
    }

    /** `process_sale`: update the stock of each item in cart order, accumulating the total, the
        details and the alerts; stop at the first refusal; otherwise save the sale. */
    method ProcessSale(cartItems: seq<SaleItem>, vendedor: string, saleId: string, fecha: string, hora: string, ts: string)
      returns (r: SaleResult)
      modifies this
      ensures var p := ProcessItems(old(inventory), cartItems, ts);
        inventory == p.table &&
        match p.failure
        case Some(f) => r == SaleFailed(f.codigo, f.error) && sales == old(sales)
        case None =>
          && r == SaleOk(saleId, TotalOf(p.updates), |cartItems|, p.updates, AlertsOf(p.updates))
          && sales == old(sales) + SaleRows(saleId, fecha, hora, DetailsOf(p.updates), TotalOf(p.updates), vendedor)
    {
      ghost var table := inventory;
      var results: seq<StockUpdate> := [];
      var alerts: seq<SaleAlert> := [];
      var totalSale := 0;
      var saleDetails: seq<SaleDetail> := [];
      for i := 0 to |cartItems|
        invariant ProcessItems(table, cartItems[..i], ts) == Progress(inventory, results, None)
        invariant totalSale == TotalOf(results)
        invariant alerts == AlertsOf(results)
        invariant saleDetails == DetailsOf(results)
        invariant sales == old(sales)
      {
        var item := cartItems[i];
        ProcessItemsStep(table, cartItems, i, ts);
        var result := UpdateStock(item.codigo, item.cantidadVendida, ts);
        if result.Failure? {
          ProcessItemsStopped(table, cartItems, i + 1, ts);
          return SaleFailed(item.codigo, result.error);
        }
        var u := result.value;
        ResultsAppend(results, u);
        results := results + [u];
        totalSale := totalSale + u.price * u.quantitySold;
        saleDetails := saleDetails + [DetailOf(u)];
        if u.alert {
          alerts := alerts + [SaleAlert(u.productName, u.newQuantity)];
        }
      }
      assert cartItems[..|cartItems|] == cartItems;
      var saved := SaveSale(saleId, saleDetails, totalSale, vendedor, fecha, hora);
      r := SaleOk(saleId, totalSale, |results|, results, alerts);
    }

    /** `get_low_stock_alerts`: scan the sheet and report each row at or below its minimum. */
    method GetLowStockAlerts() returns (alerts: seq<LowStockAlert>)
      ensures alerts == LowStockReport(inventory)
    {
      alerts := [];
      for i := 0 to |inventory|
        invariant alerts == LowStockReport(inventory[..i])
      {
        var rec := inventory[i];
        assert inventory[..i + 1][..i] == inventory[..i];
        if rec.cantidad <= rec.minStock {
          alerts := alerts + [LowAlertOf(rec)];
        }
      }
      assert inventory[..|inventory|] == inventory;
    }
  }
}
