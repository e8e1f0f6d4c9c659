/**
 * The state the point-of-sale client keeps in React (`inventory`, `cart`,
 * `alerts`, `vendedor`) and the event handlers that replace it: adding a
 * product, changing or removing a line, and the outcome of submitting a sale.
 * The network exchange is not modelled: the result of `POST /sale` is an input.
 */
module PosClient {
  import opened Wrappers
  import opened SaleRecords
  import opened Cart
  import Seqs

  datatype AddOutcome = OutOfStock | NotEnoughStock | LineIncremented | LineAdded

  datatype UpdateOutcome = LineRemoved | QuantityRefused | QuantitySet

  /** The body that `processSale` posts to `/sale`. */
  datatype SaleRequest = SaleRequest(cart: seq<SaleItem>, vendedor: string)

  /** What the `POST /sale` exchange produced. */
  datatype SaleResponse =
    | Accepted(saleId: string, total: int, items: int, alerts: seq<SaleAlert>)  // `success: true`
    | Refused(error: string)                                                   // `success: false`
    | TransportFailure                                     // `fetch` or `response.json()` threw

  /** What `processSale` reports to the seller. */
  datatype SaleOutcome =
    | EmptyCart
    | Committed(saleId: string, total: int, items: int, alerts: seq<SaleAlert>)
    | SaleRejected(error: string)
    | ConnectionError

  class PointOfSale {
    var inventory: seq<Product>
    var cart: seq<CartLine>
    /** Kept equal to the low-stock filter of `inventory` by the effect that watches it. */
    var alerts: seq<Product>
    var vendedor: string

    /** Cart lines have distinct product ids and sell between 1 and the stock of their product. */
    ghost predicate Valid()
      reads this
    {
      && UniqueIds(cart)
      && AllPositive(cart)
      && WithinStock(cart, inventory)
      && alerts == LowStock(inventory)
    }

    /** The state after the inventory snapshot has been loaded: an empty cart. */
    constructor (snapshot: seq<Product>, seller: string)
      ensures Valid()
      ensures inventory == snapshot && cart == [] && vendedor == seller
    {
      inventory := snapshot;
      cart := [];
      alerts := LowStock(snapshot);
      vendedor := seller;
    }

    /** `addToCart`: the out-of-stock check comes first, then the check against the existing line. */
    method AddToCart(product: Product) returns (outcome: AddOutcome)
      requires Valid()
      modifies this`cart
      ensures product.cantidad == 0 ==> outcome == OutOfStock && cart == old(cart)
      ensures product.cantidad != 0 && product.id !in LineIds(old(cart)) ==>
        outcome == LineAdded && cart == old(cart) + [CartLine(product, 1)]
      ensures product.cantidad != 0 && product.id in LineIds(old(cart)) ==>
        var k := Seqs.FirstIndexOf(LineIds(old(cart)), product.id).value;
        var line := old(cart)[k];
        if line.cantidadVendida >= product.cantidad then
          outcome == NotEnoughStock && cart == old(cart)
        else
          outcome == LineIncremented &&
          cart == old(cart)[k := line.(cantidadVendida := line.cantidadVendida + 1)]
      ensures UniqueIds(cart) && AllPositive(cart)
      ensures FindProduct(inventory, product.id) == Some(product) && product.cantidad >= 0 ==> Valid()
    {
      var existing := FindLine(cart, product.id);
      if product.cantidad == 0 {
        return OutOfStock;
      }
      if existing.Some? {
        if existing.value.cantidadVendida >= product.cantidad {
          return NotEnoughStock;
        }
        var k := Seqs.FirstIndexOf(LineIds(cart), product.id).value;
        LineIndex(cart, k);
        SetQuantity(k, cart[k].cantidadVendida + 1);
        outcome := LineIncremented;
      } else {
        AppendPreserves(cart, inventory, CartLine(product, 1));
        cart := cart + [CartLine(product, 1)];
        outcome := LineAdded;
      }
    }

    /** `updateCartQuantity`: a quantity that reaches 0 removes the line; one above the stock of the
        inventory is refused; otherwise the line's quantity is set. */
    method UpdateCartQuantity(productId: ProductId, delta: int) returns (outcome: UpdateOutcome)
      requires Valid()
      requires productId in LineIds(cart)
      modifies this`cart
      ensures Valid()
      ensures
        var k := Seqs.FirstIndexOf(LineIds(old(cart)), productId).value;
        var line := old(cart)[k];
        var q := line.cantidadVendida + delta;
        var stock := FindProduct(inventory, productId).value.cantidad;
        && (q <= 0 ==> outcome == LineRemoved && cart == old(cart)[..k] + old(cart)[k + 1..])
        && (0 < q && stock < q ==> outcome == QuantityRefused && cart == old(cart))
        && (0 < q <= stock ==> outcome == QuantitySet && cart == old(cart)[k := line.(cantidadVendida := q)])
    {
      var k := Seqs.FirstIndexOf(LineIds(cart), productId).value;
      LineIndex(cart, k);
      assert LineWithinStock(cart[k], inventory);
      var product := FindProduct(inventory, productId).value;
      var cartItem := FindLine(cart, productId).value;
      assert cartItem == cart[k];
      var newQuantity := cartItem.cantidadVendida + delta;
      ghost var before := cart;
      if newQuantity <= 0 {
        WithoutAt(cart, k);
        RemoveFromCart(productId);
        assert cart == before[..k] + before[k + 1..];
        return LineRemoved;
      }
      if newQuantity > product.cantidad {
        return QuantityRefused;
      }
      SetQuantity(k, newQuantity);
      outcome := QuantitySet;
    }

    /** The `setCart(cart.map(...))` of `addToCart` and `updateCartQuantity` that sets the quantity
        of line `k`: only that line changes, and within its product's stock the cart stays valid. */
    method SetQuantity(k: nat, q: int)
      requires Valid()
      requires k < |cart| && 1 <= q
      modifies this`cart
      ensures cart == old(cart)[k := old(cart)[k].(cantidadVendida := q)]
      ensures UniqueIds(cart) && AllPositive(cart)
      ensures LineWithinStock(old(cart)[k].(cantidadVendida := q), inventory) ==> Valid()
    {
      WithQuantityAt(cart, k, q);
      UpdatePreserves(cart, inventory, k, q);
      cart := WithQuantity(cart, cart[k].item.id, q);
    }

    /** `removeFromCart`: drops every line with the id and keeps the rest in order. */
    method RemoveFromCart(productId: ProductId)
      requires Valid()
      modifies this`cart
      ensures Valid()
      ensures cart == Without(old(cart), productId)
      ensures productId !in LineIds(old(cart)) ==> cart == old(cart)
      ensures forall k :: 0 <= k < |old(cart)| && old(cart)[k].item.id == productId ==>
        cart == old(cart)[..k] + old(cart)[k + 1..]
    {
      WithoutKeepsInvariants(cart, inventory, productId);
      cart := Without(cart, productId);
    }

    /** `processSale`: an empty cart is refused before any request is built; a committed sale
        lowers the local stock of every product in the cart and empties the cart; a rejected
        or failed one leaves cart and inventory as they were. */
    method ProcessSale(response: SaleResponse) returns (request: Option<SaleRequest>, outcome: SaleOutcome)
      requires Valid()
      modifies this`inventory, this`cart, this`alerts
      ensures Valid()
      ensures old(cart) == [] ==>
        request == None && outcome == EmptyCart && cart == old(cart) && inventory == old(inventory)
      ensures old(cart) != [] ==> request == Some(SaleRequest(RequestItems(old(cart)), vendedor))
      ensures old(cart) != [] && response.Accepted? ==>
        && outcome == Committed(response.saleId, response.total, response.items, response.alerts)
        && cart == []
        && inventory == Reconciled(old(inventory), old(cart))
      ensures old(cart) != [] && response.Refused? ==>
        outcome == SaleRejected(response.error) && cart == old(cart) && inventory == old(inventory)
      ensures old(cart) != [] && response.TransportFailure? ==>
        outcome == ConnectionError && cart == old(cart) && inventory == old(inventory)
      ensures UniqueProductIds(old(inventory)) && NonNegativeStock(old(inventory)) ==> NonNegativeStock(inventory)
    {
      if cart == [] {
        return None, EmptyCart;
      }
      request := Some(SaleRequest(RequestItems(cart), vendedor));
      match response
      case Accepted(saleId, total, items, saleAlerts) =>
        if UniqueProductIds(inventory) && NonNegativeStock(inventory) {
          ReconciledNonNegative(inventory, cart);
        }
        inventory := Reconciled(inventory, cart);
        alerts := LowStock(inventory);
        cart := [];
        outcome := Committed(saleId, total, items, saleAlerts);
      case Refused(error) =>
        outcome := SaleRejected(error);
      case TransportFailure =>
        outcome := ConnectionError;
    }
  }
}
