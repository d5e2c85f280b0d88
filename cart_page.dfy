/**
 * The cart page's derived values: the subtotal over whole-dollar prices, the
 * flat shipping charge, the free-shipping hint and the item count in the
 * header. The checkout page computes the subtotal and shipping the same way
 * and uses the definitions here.
 */
module CartPage {
  import opened JsCore
  import opened CartReducer

  const FreeShippingOver: int := 50
  const ShippingFee: int := 10

  /** What one line adds: `Math.floor(price) * quantity`. */
  function LineAmount(l: CartLine): int
  {
    l.price.Floor * l.quantity
  }

  /** `items.reduce((acc, item) => acc + Math.floor(item.price) * item.quantity, 0)`. */
  function Subtotal(items: seq<CartLine>): int
  {
    if items == [] then 0 else Subtotal(items[..|items| - 1]) + LineAmount(items[|items| - 1])
  }

  /** Free above 50, otherwise a flat 10. */
  function Shipping(subtotal: int): (r: int)
    ensures r == 0 <==> subtotal > FreeShippingOver
    ensures r != 0 ==> r == ShippingFee
  {
    if subtotal > FreeShippingOver then 0 else ShippingFee
  }

  /** The amount the free-shipping hint asks for, when it is shown. */
  function FreeShippingHint(subtotal: int): (r: Option<int>)
    ensures r.Some? <==> subtotal < FreeShippingOver
    ensures r.Some? ==> r.value > 0 && subtotal + r.value == FreeShippingOver
  {
    if subtotal < FreeShippingOver then Some(FreeShippingOver - subtotal) else None
  }

  /** `CartCount`: the number of lines. */
  function CartCount(items: seq<CartLine>): (r: nat)
    ensures r == |items|
  {
    |items|
  }

  /** The sum of the quantities, which the header does not show. */
  function Units(items: seq<CartLine>): int
  {
    if items == [] then 0 else Units(items[..|items| - 1]) + items[|items| - 1].quantity
  }

  lemma {:induction false} SubtotalAppend(a: seq<CartLine>, b: seq<CartLine>)
    ensures Subtotal(a + b) == Subtotal(a) + Subtotal(b)
    decreases |b|
  {
    if b == [] {
      assert a + b == a;
    } else {
      assert (a + b)[..|a + b| - 1] == a + b[..|b| - 1];
      SubtotalAppend(a, b[..|b| - 1]);
    }
  }

  /** A cart whose lines keep the invariant and whose prices are not negative has a subtotal of at least zero. */
  lemma {:induction false} SubtotalNonNegative(items: seq<CartLine>)
    requires Valid(items) && forall i :: 0 <= i < |items| ==> items[i].price >= 0.0
    ensures Subtotal(items) >= 0
  {
    if items != [] {
      SubtotalNonNegative(items[..|items| - 1]);
    }
  }

  /** Adding a product that is not in the cart raises the subtotal by its whole-dollar price times the quantity asked for. */
  lemma AddNewRaisesSubtotal(items: seq<CartLine>, p: AddPayload)
    requires forall i :: 0 <= i < |items| ==> items[i].id != p.id
    ensures Subtotal(Reduce(CartState(items), AddToCart(p)).items) == Subtotal(items) + p.price.Floor * OrOne(p.quantity)
  {
    AddNewAppends(items, p);
    SubtotalAppend(items, [NewLine(p)]);
    assert [NewLine(p)][..0] == [];
  }

  /** What the page renders: the empty state, or the summary with its count, subtotal, shipping and hint. */
  datatype CartView = EmptyCart | Summary(count: nat, subtotal: int, shipping: int, hint: Option<int>)

  function ViewOf(items: seq<CartLine>): (v: CartView)
    ensures v == EmptyCart <==> items == []
    ensures v.Summary? ==> v.count >= 1 && v.count == CartCount(items)
    ensures v.Summary? ==> v.subtotal == Subtotal(items) && v.shipping == Shipping(v.subtotal) && v.hint == FreeShippingHint(v.subtotal)
    ensures v.Summary? ==> (v.shipping == 0 <==> v.subtotal > FreeShippingOver)
    ensures v.Summary? && v.hint.Some? ==> v.subtotal + v.hint.value == FreeShippingOver
  {
    if |items| == 0 then EmptyCart
    else
      var s := Subtotal(items);
      Summary(CartCount(items), s, Shipping(s), FreeShippingHint(s))
  }

  /** After CLEAR_CART the page shows the empty state, so the flat shipping charge of an empty subtotal is never displayed. */
  lemma ClearedCartShowsEmpty(state: CartState)
    ensures ViewOf(Reduce(state, ClearCart).items) == EmptyCart
    ensures Shipping(Subtotal(Reduce(state, ClearCart).items)) == ShippingFee
  {
  }

  /** At exactly 50 there is no hint, yet shipping is still charged. */
  lemma NoHintAtFifty()
    ensures FreeShippingHint(50).None? && Shipping(50) == ShippingFee
    ensures FreeShippingHint(49) == Some(1) && Shipping(51) == 0
  {
  }

  /** The header counts lines, not units: one line of three units shows 1. */
  lemma CountIsLines(l: CartLine)
    requires l.quantity == 3
    ensures CartCount([l]) == 1 && Units([l]) == 3
  {
    assert [l][..0] == [];
  }
}
