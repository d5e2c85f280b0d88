/**
 * The catalog card: which cart action its "Add to Cart" button dispatches, and
 * how it shows the price and the stock.
 */
module ProductCard {
  import opened JsCore
  import opened ShopModel
  import opened CartReducer
  import ProductReducer

  /** `{ ...product, quantity }` as an ADD_TO_CART payload. */
  function AddPayloadOf(product: Product, quantity: int): AddPayload
    requires product.stock.Some?
  {
    AddPayload(product.id, product.name, product.price, product.image, product.stock.value, Some(quantity))
  }

  function QuantityUpdate(q: int): LineUpdates
  {
    LineUpdates(None, None, None, None, None, Some(q))
  }

  /**
   * `handleCart` as written: a product already in the cart gets an
   * UPDATE_CART_ITEM to the first matching line's quantity plus one, with no
   * stock check; any other product is added with quantity 1.
   */
  function HandleCart(items: seq<CartLine>, product: Product): (a: Action)
    requires product.stock.Some?
    ensures FindIndex(HasId(product.id), items).Some? ==>
      a == UpdateCartItem(product.id, QuantityUpdate(items[FindIndex(HasId(product.id), items).value].quantity + 1))
    ensures FindIndex(HasId(product.id), items).None? ==> a == AddToCart(AddPayloadOf(product, 1))
  {
    match FindIndex(HasId(product.id), items)
    case Some(k) => UpdateCartItem(product.id, QuantityUpdate(items[k].quantity + 1))
    case None => AddToCart(AddPayloadOf(product, 1))
  }

  /** `handleCart` with the increase left to INCREASE_QTY, which stops at the line's stock. */
  function HandleCartFixed(items: seq<CartLine>, product: Product): (a: Action)
    requires product.stock.Some?
    ensures a.IncreaseQty? <==> FindIndex(HasId(product.id), items).Some?
  {
    if FindIndex(HasId(product.id), items).Some? then IncreaseQty(product.id)
    else AddToCart(AddPayloadOf(product, 1))
  }

  /**
   * As written, clicking the card of a product whose only cart line is already
   * at its stock lifts that line above the stock.
   */
  lemma CardPushesAboveStock(l: CartLine, product: Product)
    requires ValidLine(l) && l.quantity == l.stock
    requires product.id == l.id && product.stock == Some(l.stock)
    ensures var r := Reduce(CartState([l]), HandleCart([l], product)).items;
      |r| == 1 && r[0].quantity == l.stock + 1 && !Valid(r)
  {
    assert HasId(product.id)(l);
    UpdateSpec([l], product.id, QuantityUpdate(l.quantity + 1));
  }

  /** With the fix, a click keeps every line between one unit and its stock, for any product with something in stock. */
  lemma FixedCardKeepsValid(items: seq<CartLine>, product: Product)
    requires Valid(items) && product.stock.Some? && product.stock.value >= 1
    ensures Valid(Reduce(CartState(items), HandleCartFixed(items, product)).items)
  {
    ReducePreservesValid(CartState(items), HandleCartFixed(items, product));
  }

  /** The button is not disabled when nothing is in stock: such a product still gets a line of 1, above its stock. */
  lemma OutOfStockStillAdded(items: seq<CartLine>, product: Product)
    requires product.stock == Some(0)
    requires forall i :: 0 <= i < |items| ==> items[i].id != product.id
    ensures var r := Reduce(CartState(items), HandleCart(items, product)).items;
      |r| == |items| + 1 && r[|items|].quantity == 1 && !ValidLine(r[|items|])
  {
    assert FindIndex(HasId(product.id), items).None?;
    AddNewAppends(items, AddPayloadOf(product, 1));
  }

  /** The price is shown in whole units, rounded down. */
  function ShownPrice(product: Product): (r: int)
    ensures r as real <= product.price < r as real + 1.0
  {
    product.price.Floor
  }

  /** The stock line under the price: "In Stock" only for a stock above zero; an absent stock is out of stock. */
  function StockLabel(product: Product): (r: string)
    ensures r == "In Stock" || r == "Out of Stock"
    ensures r == "In Stock" ==> product.stock.Some? && product.stock.value >= 1
    ensures product.stock.None? || product.stock.value <= 0 ==> r == "Out of Stock"
  {
    if InStock(product) then "In Stock" else "Out of Stock"
  }

  /**
   * After an UPDATE_PRODUCT_STOCK whose payload is a bare id, the matching
   * product has no stock left to compare, so its card shows "Out of Stock"
   * whatever it held before; the other cards are unchanged.
   */
  lemma BareIdStockShowsOutOfStock(products: seq<Product>, s: ProductReducer.ProductState, id: string, i: nat)
    requires s.item == ProductReducer.Items(products) && i < |products|
    ensures var r := ProductReducer.Reduce(s, ProductReducer.UpdateProductStock(ProductReducer.BareId(id)));
      && r.Ok? && r.value.item.Items?
      && (products[i].id == id ==> StockLabel(r.value.item.products[i]) == "Out of Stock")
      && (products[i].id != id ==> StockLabel(r.value.item.products[i]) == StockLabel(products[i]))
  {
    ProductReducer.StockUpdateOnItems(products, s, ProductReducer.BareId(id));
  }
}
