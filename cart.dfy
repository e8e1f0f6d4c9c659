/**
 * The pure half of the point-of-sale client's cart engine: the values the
 * event handlers compute with `find`, `map`, `filter` and `reduce` before they
 * hand them to `setCart` / `setInventory`. Prices are integer cents.
 */
module Cart {
  import opened Wrappers
  import opened SaleRecords
  import Seqs

  type ProductId = string

  /** An inventory entry as the client formats it after `GET /inventory`. */
  datatype Product = Product(
    id: ProductId,
    nombre: string,
    cantidad: int,
    precio: int,
    minStock: int,
    codigo: string)

  /** A cart line, `{ ...product, cantidadVendida }`: a copy of the product taken when it was
      added, plus the quantity being sold. */
  datatype CartLine = CartLine(item: Product, cantidadVendida: int)

  function LineIds(cart: seq<CartLine>): (ids: seq<ProductId>)
    ensures |ids| == |cart| && forall i :: 0 <= i < |cart| ==> ids[i] == cart[i].item.id
  {
    seq(|cart|, i requires 0 <= i < |cart| => cart[i].item.id)
  }

  function ProductIds(inventory: seq<Product>): (ids: seq<ProductId>)
    ensures |ids| == |inventory| && forall i :: 0 <= i < |inventory| ==> ids[i] == inventory[i].id
  {
    seq(|inventory|, i requires 0 <= i < |inventory| => inventory[i].id)
  }

  /** `cart.find(item => item.id === id)`. */
  function FindLine(cart: seq<CartLine>, id: ProductId): (r: Option<CartLine>)
    ensures r.None? <==> forall i :: 0 <= i < |cart| ==> cart[i].item.id != id
    ensures r.Some? ==> r.value.item.id == id && r.value in cart
  {
    match Seqs.FirstIndexOf(LineIds(cart), id)
    case None => None
    case Some(k) => Some(cart[k])
  }

  /** `inventory.find(p => p.id === id)`. */
  function FindProduct(inventory: seq<Product>, id: ProductId): (r: Option<Product>)
    ensures r.None? <==> forall i :: 0 <= i < |inventory| ==> inventory[i].id != id
    ensures r.Some? ==> r.value.id == id && r.value in inventory
  {
    match Seqs.FirstIndexOf(ProductIds(inventory), id)
    case None => None
    case Some(k) => Some(inventory[k])
  }

  /** `cart.find` returns the first line with the id: it sits at an index before which no line has it. */
  lemma FindLineFirst(cart: seq<CartLine>, id: ProductId) returns (k: nat)
    requires FindLine(cart, id).Some?
    ensures k < |cart| && cart[k] == FindLine(cart, id).value
    ensures forall j :: 0 <= j < k ==> cart[j].item.id != id
  {
    var ids := LineIds(cart);
    k := Seqs.FirstIndexOf(ids, id).value;
    forall j | 0 <= j < k ensures cart[j].item.id != id {
      assert ids[..k][j] == ids[j];
    }
  }

  /** `inventory.find` returns the first product with the id; ids need not be unique. */
  lemma FindProductFirst(inventory: seq<Product>, id: ProductId) returns (k: nat)
    requires FindProduct(inventory, id).Some?
    ensures k < |inventory| && inventory[k] == FindProduct(inventory, id).value
    ensures forall j :: 0 <= j < k ==> inventory[j].id != id
  {
    var ids := ProductIds(inventory);
    k := Seqs.FirstIndexOf(ids, id).value;
    forall j | 0 <= j < k ensures inventory[j].id != id {
      assert ids[..k][j] == ids[j];
    }
  }

  /** No product id has two lines. */
  predicate UniqueIds(cart: seq<CartLine>) {
    forall i, j :: 0 <= i < j < |cart| ==> cart[i].item.id != cart[j].item.id
  }

  predicate UniqueProductIds(inventory: seq<Product>) {
    forall i, j :: 0 <= i < j < |inventory| ==> inventory[i].id != inventory[j].id
  }

  /** Every line sells at least one unit. */
  predicate AllPositive(cart: seq<CartLine>) {
    forall i :: 0 <= i < |cart| ==> cart[i].cantidadVendida >= 1
  }

  /** Every line's product is in the inventory and the line sells no more than its stock. */
  predicate WithinStock(cart: seq<CartLine>, inventory: seq<Product>) {
    forall i :: 0 <= i < |cart| ==> LineWithinStock(cart[i], inventory)
  }

  predicate LineWithinStock(line: CartLine, inventory: seq<Product>) {
    FindProduct(inventory, line.item.id).Some? &&
    line.cantidadVendida <= FindProduct(inventory, line.item.id).value.cantidad
  }

  predicate NonNegativeStock(inventory: seq<Product>) {
    forall i :: 0 <= i < |inventory| ==> inventory[i].cantidad >= 0
  }

  /** The index of the unique line with a given id. */
  lemma LineIndex(cart: seq<CartLine>, k: nat)
    requires UniqueIds(cart) && k < |cart|
    ensures Seqs.FirstIndexOf(LineIds(cart), cart[k].item.id) == Some(k)
    ensures FindLine(cart, cart[k].item.id) == Some(cart[k])
  {
    var ids := LineIds(cart);
    assert ids[k] == cart[k].item.id;
    forall i | 0 <= i < k ensures ids[..k][i] != ids[k] { assert ids[..k][i] == cart[i].item.id; }
    Seqs.FirstIndexOfUnique(ids, ids[k], k);
  }

  /** `cart.map(item => item.id === id ? { ...item, cantidadVendida: item.cantidadVendida + 1 } : item)`. */
  function Incremented(cart: seq<CartLine>, id: ProductId): (r: seq<CartLine>)
    ensures |r| == |cart|
  {
    seq(|cart|, i requires 0 <= i < |cart| =>
      if cart[i].item.id == id then cart[i].(cantidadVendida := cart[i].cantidadVendida + 1) else cart[i])
  }

  /** `cart.map(item => item.id === id ? { ...item, cantidadVendida: q } : item)`. */
  function WithQuantity(cart: seq<CartLine>, id: ProductId, q: int): (r: seq<CartLine>)
    ensures |r| == |cart|
  {
    seq(|cart|, i requires 0 <= i < |cart| =>
      if cart[i].item.id == id then cart[i].(cantidadVendida := q) else cart[i])
  }

  function IdIsNot(id: ProductId): CartLine -> bool {
    (line: CartLine) => line.item.id != id
  }

  /** `cart.filter(item => item.id !== id)`. */
  function Without(cart: seq<CartLine>, id: ProductId): seq<CartLine> {
    Seqs.Filter(cart, IdIsNot(id))
  }

  /** With unique ids, incrementing by id changes exactly the k-th line, by one unit. */
  lemma IncrementedAt(cart: seq<CartLine>, k: nat)
    requires UniqueIds(cart) && k < |cart|
    ensures Incremented(cart, cart[k].item.id) ==
            cart[k := cart[k].(cantidadVendida := cart[k].cantidadVendida + 1)]
  {
  }

  /** With unique ids, setting the quantity by id changes exactly the k-th line and only its quantity. */
  lemma WithQuantityAt(cart: seq<CartLine>, k: nat, q: int)
    requires UniqueIds(cart) && k < |cart|
    ensures WithQuantity(cart, cart[k].item.id, q) == cart[k := cart[k].(cantidadVendida := q)]
  {
  }

  /** Removing deletes exactly the lines with that id and keeps every other line, in order. */
  lemma WithoutSpec(cart: seq<CartLine>, id: ProductId)
    ensures forall i :: 0 <= i < |Without(cart, id)| ==> Without(cart, id)[i].item.id != id
    ensures forall i :: 0 <= i < |cart| && cart[i].item.id != id ==> cart[i] in Without(cart, id)
    ensures (forall i :: 0 <= i < |cart| ==> cart[i].item.id != id) ==> Without(cart, id) == cart
    ensures Without(Without(cart, id), id) == Without(cart, id)
  {
    Seqs.FilterAllOrNone(cart, IdIsNot(id));
    Seqs.FilterIdempotent(cart, IdIsNot(id));
  }

  /** With unique ids, removing the id of line k leaves the lines before and after it, joined. */
  lemma WithoutAt(cart: seq<CartLine>, k: nat)
    requires UniqueIds(cart) && k < |cart|
    ensures Without(cart, cart[k].item.id) == cart[..k] + cart[k + 1..]
  {
    var p := IdIsNot(cart[k].item.id);
    forall i | 0 <= i < |cart| && i != k ensures p(cart[i]) {
      assert cart[i].item.id != cart[k].item.id;
    }
    Seqs.FilterOmitsOne(cart, p, k);
  }

  /** Removing lines keeps ids unique and quantities positive. */
  lemma WithoutPreserves(cart: seq<CartLine>, id: ProductId)
    requires UniqueIds(cart) && AllPositive(cart)
    ensures UniqueIds(Without(cart, id)) && AllPositive(Without(cart, id))
  {
    var ids := LineIds(cart);
    if id in ids {
      var k := Seqs.FirstIndexOf(ids, id).value;
      assert cart[k].item.id == id;
      WithoutAtPreserves(cart, k);
    } else {
      WithoutSpec(cart, id);
    }
  }

  lemma WithoutAtPreserves(cart: seq<CartLine>, k: nat)
    requires UniqueIds(cart) && AllPositive(cart) && k < |cart|
    ensures UniqueIds(Without(cart, cart[k].item.id)) && AllPositive(Without(cart, cart[k].item.id))
  {
    WithoutAt(cart, k);
    DropPreserves(cart, k);
  }

  lemma DropPreserves(cart: seq<CartLine>, k: nat)
    requires UniqueIds(cart) && AllPositive(cart) && k < |cart|
    ensures UniqueIds(cart[..k] + cart[k + 1..]) && AllPositive(cart[..k] + cart[k + 1..])
  {
    var r := cart[..k] + cart[k + 1..];
    forall i | 0 <= i < |r| ensures r[i] == cart[if i < k then i else i + 1] {
    }
  }

  /** Being within stock is a property of each line, so any selection of lines keeps it. */
  lemma WithinStockSubset(lines: seq<CartLine>, cart: seq<CartLine>, inventory: seq<Product>)
    requires WithinStock(cart, inventory)
    requires forall i :: 0 <= i < |lines| ==> lines[i] in cart
    ensures WithinStock(lines, inventory)
  {
    forall i | 0 <= i < |lines| ensures LineWithinStock(lines[i], inventory) {
      var j :| 0 <= j < |cart| && cart[j] == lines[i];
    }
  }

  /** Adding a line for a product that has none, with a quantity between 1 and its stock, keeps
      the cart's invariants. */
  lemma AppendPreserves(cart: seq<CartLine>, inventory: seq<Product>, line: CartLine)
    requires UniqueIds(cart) && AllPositive(cart) && WithinStock(cart, inventory)
    requires line.item.id !in LineIds(cart) && line.cantidadVendida >= 1
    ensures UniqueIds(cart + [line]) && AllPositive(cart + [line])
    ensures LineWithinStock(line, inventory) ==> WithinStock(cart + [line], inventory)
  {
    var r := cart + [line];
    forall i | 0 <= i < |cart| ensures r[i].item.id != line.item.id {
      assert LineIds(cart)[i] == cart[i].item.id;
    }
  }

  /** Changing the quantity of line k to a value between 1 and its stock keeps the cart's invariants. */
  lemma UpdatePreserves(cart: seq<CartLine>, inventory: seq<Product>, k: nat, q: int)
    requires UniqueIds(cart) && AllPositive(cart) && WithinStock(cart, inventory) && k < |cart|
    requires 1 <= q
    ensures UniqueIds(cart[k := cart[k].(cantidadVendida := q)])
    ensures AllPositive(cart[k := cart[k].(cantidadVendida := q)])
    ensures LineWithinStock(cart[k].(cantidadVendida := q), inventory) ==>
      WithinStock(cart[k := cart[k].(cantidadVendida := q)], inventory)
  {
  }

  /** Everything `removeFromCart` promises of the new cart. */
  lemma WithoutKeepsInvariants(cart: seq<CartLine>, inventory: seq<Product>, id: ProductId)
    requires UniqueIds(cart) && AllPositive(cart) && WithinStock(cart, inventory)
    ensures UniqueIds(Without(cart, id)) && AllPositive(Without(cart, id))
    ensures WithinStock(Without(cart, id), inventory)
    ensures id !in LineIds(cart) ==> Without(cart, id) == cart
    ensures forall k :: 0 <= k < |cart| && cart[k].item.id == id ==> Without(cart, id) == cart[..k] + cart[k + 1..]
  {
    WithoutSpec(cart, id);
    WithoutPreserves(cart, id);
    WithinStockSubset(Without(cart, id), cart, inventory);
    forall k | 0 <= k < |cart| && cart[k].item.id == id
      ensures Without(cart, id) == cart[..k] + cart[k + 1..]
    {
      WithoutAt(cart, k);
    }
    if id !in LineIds(cart) {
      assert forall i :: 0 <= i < |cart| ==> cart[i].item.id != id by {
        forall i | 0 <= i < |cart| ensures cart[i].item.id != id { assert LineIds(cart)[i] == cart[i].item.id; }
      }
    }
  }

  /** Subtotal of one line: `precio * cantidadVendida`. */
  function Subtotal(line: CartLine): int {
    line.item.precio * line.cantidadVendida
  }

  /** `cart.reduce((sum, item) => sum + item.precio * item.cantidadVendida, 0)`: a left fold. */
  function Total(cart: seq<CartLine>): int {
    if cart == [] then 0 else Total(cart[..|cart| - 1]) + Subtotal(cart[|cart| - 1])
  }

  /** The total of two carts joined is the sum of their totals (no drift, whatever the order of updates). */
  lemma {:induction false} TotalAppend(a: seq<CartLine>, b: seq<CartLine>)
    ensures Total(a + b) == Total(a) + Total(b)
  {
    if b == [] {
      assert a + b == a;
    } else {
      var b' := b[..|b| - 1];
      assert (a + b)[..|a + b| - 1] == a + b';
      TotalAppend(a, b');
    }
  }

  /** The total is the sum of the subtotals, however a cart is split into a line and the rest. */
  lemma TotalSplit(cart: seq<CartLine>, k: nat)
    requires k < |cart|
    ensures Total(cart) == Total(cart[..k]) + Subtotal(cart[k]) + Total(cart[k + 1..])
  {
    assert cart == cart[..k] + [cart[k]] + cart[k + 1..];
    TotalAppend(cart[..k] + [cart[k]], cart[k + 1..]);
    TotalAppend(cart[..k], [cart[k]]);
    assert [cart[k]][..0] == [];
  }

  /** Replacing one line changes the total by the difference of the two subtotals. */
  lemma TotalUpdate(cart: seq<CartLine>, k: nat, line: CartLine)
    requires k < |cart|
    ensures Total(cart[k := line]) == Total(cart) - Subtotal(cart[k]) + Subtotal(line)
  {
    var r := cart[k := line];
    TotalSplit(cart, k);
    TotalSplit(r, k);
    assert r[..k] == cart[..k];
    assert r[k + 1..] == cart[k + 1..];
  }

  /** Raising one line's quantity by one raises the total by that line's price. */
  lemma {:induction false} TotalIncremented(cart: seq<CartLine>, k: nat)
    requires UniqueIds(cart) && k < |cart|
    ensures Total(Incremented(cart, cart[k].item.id)) == Total(cart) + cart[k].item.precio
  {
    var line := cart[k].(cantidadVendida := cart[k].cantidadVendida + 1);
    IncrementedAt(cart, k);
    TotalUpdate(cart, k, line);
    assert Subtotal(line) == Subtotal(cart[k]) + cart[k].item.precio by {
      var p, q := cart[k].item.precio, cart[k].cantidadVendida;
      assert p * (q + 1) == p * q + p;
    }
  }

  /** Setting one line's quantity changes the total by the price times the difference. */
  lemma TotalWithQuantity(cart: seq<CartLine>, k: nat, q: int)
    requires UniqueIds(cart) && k < |cart|
    ensures Total(WithQuantity(cart, cart[k].item.id, q)) ==
            Total(cart) + cart[k].item.precio * (q - cart[k].cantidadVendida)
  {
    var line := cart[k].(cantidadVendida := q);
    WithQuantityAt(cart, k, q);
    TotalUpdate(cart, k, line);
    SubtotalChange(cart[k], q);
  }

  /** A line's subtotal moves by its price times the change of its quantity. */
  lemma SubtotalChange(line: CartLine, q: int)
    ensures Subtotal(line.(cantidadVendida := q)) - Subtotal(line) == line.item.precio * (q - line.cantidadVendida)
  {
    var p, q0 := line.item.precio, line.cantidadVendida;
    assert p * q - p * q0 == p * (q - q0);
  }

  /** Removing a line lowers the total by exactly that line's subtotal. */
  lemma TotalWithout(cart: seq<CartLine>, k: nat)
    requires UniqueIds(cart) && k < |cart|
    ensures Total(Without(cart, cart[k].item.id)) == Total(cart) - Subtotal(cart[k])
  {
    WithoutAt(cart, k);
    TotalSplit(cart, k);
    TotalAppend(cart[..k], cart[k + 1..]);
  }

  /** Appending a new line raises the total by its subtotal; the empty cart totals 0. */
  lemma TotalAppendLine(cart: seq<CartLine>, line: CartLine)
    ensures Total([]) == 0
    ensures Total(cart + [line]) == Total(cart) + Subtotal(line)
  {
    assert (cart + [line])[..|cart|] == cart;
  }

  /** With non-negative prices and positive quantities the total is non-negative. */
  lemma {:induction false} TotalNonNegative(cart: seq<CartLine>)
    requires AllPositive(cart)
    requires forall i :: 0 <= i < |cart| ==> cart[i].item.precio >= 0
    ensures Total(cart) >= 0
  {
    if cart != [] {
      TotalNonNegative(cart[..|cart| - 1]);
    }
  }

  /** One entry per line of the wire cart of `POST /sale`: `{ codigo, cantidad_vendida }`. */
  function RequestItems(cart: seq<CartLine>): (items: seq<SaleItem>)
    ensures |items| == |cart|
    ensures forall i :: 0 <= i < |cart| ==>
      items[i].codigo == cart[i].item.codigo && items[i].cantidadVendida == cart[i].cantidadVendida
  {
    seq(|cart|, i requires 0 <= i < |cart| => SaleItem(cart[i].item.codigo, cart[i].cantidadVendida))
  }

  /** The optimistic local reconciliation after a committed sale: `inventory.map` that lowers the
      quantity of each product that has a cart line by that line's quantity. */
  function Reconciled(inventory: seq<Product>, cart: seq<CartLine>): (r: seq<Product>)
    ensures |r| == |inventory|
  {
    seq(|inventory|, i requires 0 <= i < |inventory| =>
      match FindLine(cart, inventory[i].id)
      case Some(line) => inventory[i].(cantidad := inventory[i].cantidad - line.cantidadVendida)
      case None => inventory[i])
  }

  /** Reconciliation keeps the inventory's order and every field but the quantity; a product with a
      line loses exactly that line's quantity (unique ids), any other keeps its quantity. */
  lemma ReconciledSpec(inventory: seq<Product>, cart: seq<CartLine>)
    requires UniqueIds(cart)
    ensures ProductIds(Reconciled(inventory, cart)) == ProductIds(inventory)
    ensures forall i :: 0 <= i < |inventory| ==>
      Reconciled(inventory, cart)[i] == inventory[i].(cantidad := Reconciled(inventory, cart)[i].cantidad)
    ensures forall i, k :: 0 <= i < |inventory| && 0 <= k < |cart| && cart[k].item.id == inventory[i].id ==>
      Reconciled(inventory, cart)[i].cantidad == inventory[i].cantidad - cart[k].cantidadVendida
    ensures forall i :: 0 <= i < |inventory| && inventory[i].id !in LineIds(cart) ==>
      Reconciled(inventory, cart)[i] == inventory[i]
  {
    forall k | 0 <= k < |cart| ensures FindLine(cart, cart[k].item.id) == Some(cart[k]) {
      LineIndex(cart, k);
    }
    forall i | 0 <= i < |inventory| && inventory[i].id !in LineIds(cart)
      ensures FindLine(cart, inventory[i].id).None?
    {
      forall j | 0 <= j < |cart| ensures cart[j].item.id != inventory[i].id {
        assert LineIds(cart)[j] == cart[j].item.id;
      }
    }
  }

  /** Stock never goes negative on the client: if every line is within the (id-unique) stock, the
      reconciled quantities are still non-negative. */
  lemma ReconciledNonNegative(inventory: seq<Product>, cart: seq<CartLine>)
    requires UniqueProductIds(inventory) && NonNegativeStock(inventory) && WithinStock(cart, inventory)
    ensures NonNegativeStock(Reconciled(inventory, cart))
  {
    var r := Reconciled(inventory, cart);
    forall i | 0 <= i < |inventory| ensures r[i].cantidad >= 0 {
      var found := FindLine(cart, inventory[i].id);
      if found.Some? {
        var k := Seqs.FirstIndexOf(LineIds(cart), inventory[i].id).value;
        assert cart[k] == found.value;
        ProductIndex(inventory, i);
      }
    }
  }

  /** With unique ids, the product found for the id of entry i is entry i. */
  lemma ProductIndex(inventory: seq<Product>, i: nat)
    requires UniqueProductIds(inventory) && i < |inventory|
    ensures FindProduct(inventory, inventory[i].id) == Some(inventory[i])
  {
    var ids := ProductIds(inventory);
    forall j | 0 <= j < i ensures ids[..i][j] != ids[i] { assert ids[..i][j] == inventory[j].id; }
    Seqs.FirstIndexOfUnique(ids, ids[i], i);
  }

  predicate IsLowStock(p: Product) {
    p.cantidad <= p.minStock
  }

  /** `inventory.filter(item => item.cantidad <= item.minStock)`. */
  function LowStock(inventory: seq<Product>): (r: seq<Product>)
    ensures forall p :: p in r <==> p in inventory && p.cantidad <= p.minStock
  {
    Seqs.Filter(inventory, IsLowStock)
  }

  /** The low-stock list keeps inventory order: it distributes over any split of the inventory,
      and a single product is listed exactly when it is at or below its minimum. */
  lemma LowStockOrder(a: seq<Product>, b: seq<Product>, p: Product)
    ensures LowStock(a + b) == LowStock(a) + LowStock(b)
    ensures LowStock([p]) == if p.cantidad <= p.minStock then [p] else []
  {
    Seqs.FilterAppend(a, b, IsLowStock);
  }
}
