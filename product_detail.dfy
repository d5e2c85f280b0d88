/**
 * The product detail page: the quantity selector, the add-to-cart choice
 * between adding a line and updating the existing one, and the "added" badge.
 */
module ProductDetail {
  import opened JsCore
  import opened ShopModel
  import opened CartReducer
  import ProductCard

  /** `handleIncreaseQty`: one more, only while below the stock (an absent stock compares as false). */
  function Increased(quantity: int, stock: Option<int>): int
  {
    if stock.Some? && quantity < stock.value then quantity + 1 else quantity
  }

  /** `handleDecreaseQty`: one less, never below 1. */
  function Decreased(quantity: int): int
  {
    if quantity > 1 then quantity - 1 else 1
  }

  /** Whether some cart line holds the product. */
  predicate InCart(items: seq<CartLine>, id: string)
  {
    exists i :: 0 <= i < |items| && items[i].id == id
  }

  /**
   * `handleAddToCart`: nothing without a product; a product already in the
   * cart gets its first line set to `min(line + quantity, stock)`; any other
   * is added with the chosen quantity.
   */
  function AddToCartAction(items: seq<CartLine>, selected: Option<Product>, quantity: int): (a: Option<Action>)
    requires selected.Some? ==> selected.value.stock.Some?
    ensures a.None? <==> selected.None?
    ensures selected.Some? && FindIndex(HasId(selected.value.id), items).Some? ==>
      var k := FindIndex(HasId(selected.value.id), items).value;
      a == Some(UpdateCartItem(selected.value.id,
                  ProductCard.QuantityUpdate(Min(items[k].quantity + quantity, selected.value.stock.value))))
    ensures selected.Some? && FindIndex(HasId(selected.value.id), items).None? ==>
      a == Some(AddToCart(ProductCard.AddPayloadOf(selected.value, quantity)))
  {
    if selected.None? then None
    else
      var p := selected.value;
      match FindIndex(HasId(p.id), items)
      case Some(k) => Some(UpdateCartItem(p.id, ProductCard.QuantityUpdate(Min(items[k].quantity + quantity, p.stock.value))))
      case None => Some(AddToCart(ProductCard.AddPayloadOf(p, quantity)))
  }

  class DetailPage {
    var quantity: int
    var isAdded: bool

    constructor()
      ensures quantity == 1 && !isAdded
    {
      quantity := 1;
      isAdded := false;
    }

    method HandleIncreaseQty(selected: Option<Product>)
      modifies this`quantity
      ensures quantity == Increased(old(quantity), if selected.Some? then selected.value.stock else None)
    {
      if selected.Some? && selected.value.stock.Some? && quantity < selected.value.stock.value {
        quantity := quantity + 1;
      }
    }

    method HandleDecreaseQty()
      modifies this`quantity
      ensures quantity == Decreased(old(quantity))
    {
      quantity := if quantity > 1 then quantity - 1 else 1;
    }

    /** `handleAddToCart`: dispatches the chosen action and shows the badge; without a product, nothing happens. */
    method HandleAddToCart(items: seq<CartLine>, selected: Option<Product>) returns (dispatched: Option<Action>)
      requires selected.Some? ==> selected.value.stock.Some?
      modifies this`isAdded
      ensures dispatched == AddToCartAction(items, selected, quantity)
      ensures isAdded == (selected.Some? || old(isAdded))
    {
      if selected.None? {
        return None;
      }
      dispatched := AddToCartAction(items, selected, quantity);
      isAdded := true;
    }

    /** The effect on the cart and the product: the badge follows cart membership, but only while the cart is non-empty. */
    method SyncAdded(items: seq<CartLine>, selected: Option<Product>)
      modifies this`isAdded
      ensures isAdded == if selected.Some? && |items| > 0 then InCart(items, selected.value.id) else old(isAdded)
    {
      if selected.Some? && |items| > 0 {
        isAdded := FindIndex(HasId(selected.value.id), items).Some?;
      }
    }
  }

  /** The selector stays between 1 and the stock under both buttons, and decrease alone can never go below 1. */
  lemma SelectorBounds(quantity: int, stock: int)
    requires 1 <= quantity <= stock
    ensures 1 <= Increased(quantity, Some(stock)) <= stock
    ensures 1 <= Decreased(quantity) <= stock
    ensures Increased(quantity, Some(stock)) == quantity + 1 <==> quantity < stock
    ensures forall q :: Decreased(q) >= 1
  {
  }

  /**
   * Adding from the detail page keeps the cart invariant, given a selector
   * within the stock and cart lines whose stock snapshot agrees with the
   * product's current stock.
   */
  lemma DetailAddKeepsValid(items: seq<CartLine>, p: Product, quantity: int)
    requires Valid(items) && p.stock.Some? && 1 <= quantity <= p.stock.value
    requires forall i :: 0 <= i < |items| && items[i].id == p.id ==> items[i].stock == p.stock.value
    ensures Valid(Reduce(CartState(items), AddToCartAction(items, Some(p), quantity).value).items)
  {
    match FindIndex(HasId(p.id), items)
    case Some(k) =>
      var q := Min(items[k].quantity + quantity, p.stock.value);
      UpdateSpec(items, p.id, ProductCard.QuantityUpdate(q));
    case None =>
      ReducePreservesValid(CartState(items), AddToCart(ProductCard.AddPayloadOf(p, quantity)));
  }

  /**
   * The update clamps to the product's current stock, not to the line's
   * snapshot: after a restock from 2 to 5, a full line of 2 plus 3 more
   * becomes 5 against a line stock of 2.
   */
  lemma ClampUsesCurrentStock(l: CartLine, p: Product)
    requires l.id == p.id && l.stock == 2 && l.quantity == 2 && p.stock == Some(5)
    ensures var r := Reduce(CartState([l]), AddToCartAction([l], Some(p), 3).value).items;
      r[0].quantity == 5 && !Valid(r)
  {
    assert HasId(p.id)(l);
    UpdateSpec([l], p.id, ProductCard.QuantityUpdate(5));
  }

  /** After an add, the product is in the cart, so the badge the effect computes agrees with the one the handler set. */
  lemma AddPutsProductInCart(items: seq<CartLine>, p: Product, quantity: int)
    requires p.stock.Some?
    ensures InCart(Reduce(CartState(items), AddToCartAction(items, Some(p), quantity).value).items, p.id)
  {
    match FindIndex(HasId(p.id), items)
    case Some(k) =>
      var q := Min(items[k].quantity + quantity, p.stock.value);
      UpdateSpec(items, p.id, ProductCard.QuantityUpdate(q));
      var r := Reduce(CartState(items), AddToCartAction(items, Some(p), quantity).value).items;
      assert r[k].id == p.id;
    case None =>
      AddNewAppends(items, ProductCard.AddPayloadOf(p, quantity));
      var r := Reduce(CartState(items), AddToCartAction(items, Some(p), quantity).value).items;
      assert r[|items|].id == p.id;
  }
}
