/**
 * The records that the client and the backend exchange and keep: one row of the
 * sales sheet ("Ventas"), one entry of the `POST /sale` cart, and one low-stock
 * alert of the sale response. Amounts are integer cents.
 */
module SaleRecords {

  /** One row of the sales sheet, in its column order: VentaID, Fecha, Hora,
      product id, Codigo, Nombre, Cantidad, PrecioUnitario, Subtotal, TotalVenta, Vendedor. */
  datatype SaleRow = SaleRow(
    ventaId: string,
    fecha: string,
    hora: string,
    productoId: string,
    codigo: string,
    nombre: string,
    cantidad: int,
    precioUnitario: int,
    subtotal: int,
    totalVenta: int,
    vendedor: string)

  /** The part of a row that belongs to the whole sale rather than to one of its items. */
  datatype SaleHeader = SaleHeader(fecha: string, hora: string, total: int, vendedor: string)

  /** One entry of the `cart` array sent with `POST /sale`. */
  datatype SaleItem = SaleItem(codigo: string, cantidadVendida: int)

  /** One entry of the `alerts` array of a successful sale response. */
  datatype SaleAlert = SaleAlert(producto: string, cantidadRestante: int)

  function HeaderOf(r: SaleRow): SaleHeader {
    SaleHeader(r.fecha, r.hora, r.totalVenta, r.vendedor)
  }

  /** The VentaID column. */
  function Ids(rows: seq<SaleRow>): (ids: seq<string>)
    ensures |ids| == |rows|
  {
    seq(|rows|, i requires 0 <= i < |rows| => rows[i].ventaId)
  }

  lemma IdsAppend(rows: seq<SaleRow>, r: SaleRow)
    ensures Ids(rows + [r]) == Ids(rows) + [r.ventaId]
  {
  }

  lemma IdsPrefix(rows: seq<SaleRow>, n: nat)
    requires n <= |rows|
    ensures Ids(rows[..n]) == Ids(rows)[..n]
  {
  }

  /** The intended invariant of the sales sheet: rows that share a VentaID share their header. */
  ghost predicate HeadersConsistent(rows: seq<SaleRow>) {
    forall i, j :: 0 <= i < |rows| && 0 <= j < |rows| && rows[i].ventaId == rows[j].ventaId ==>
      HeaderOf(rows[i]) == HeaderOf(rows[j])
  }

  /** Sum of the Cantidad column. */
  function SumCantidad(rows: seq<SaleRow>): int {
    if rows == [] then 0 else SumCantidad(rows[..|rows| - 1]) + rows[|rows| - 1].cantidad
  }

  /** Sum of the Subtotal column. */
  function SumSubtotal(rows: seq<SaleRow>): int {
    if rows == [] then 0 else SumSubtotal(rows[..|rows| - 1]) + rows[|rows| - 1].subtotal
  }

  /** Both column sums split over a concatenation of sheets. */
  lemma {:induction false} SumsAppend(a: seq<SaleRow>, b: seq<SaleRow>)
    ensures SumCantidad(a + b) == SumCantidad(a) + SumCantidad(b)
    ensures SumSubtotal(a + b) == SumSubtotal(a) + SumSubtotal(b)
  {
    if b != [] {
      var b' := b[..|b| - 1];
      assert (a + b)[..|a + b| - 1] == a + b';
      SumsAppend(a, b');
    } else {
      assert a + b == a;
    }
  }
}
