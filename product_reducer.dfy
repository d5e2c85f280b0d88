/**
 * The product slice of the client store: the last list response, the product
 * shown on the detail page, and the loading and error flags.
 */
module ProductReducer {
  import opened JsCore
  import opened ShopModel

  /** The body of the product list response: `{ data, pagination, ... }`. */
  datatype ListBody = ListBody(products: seq<Product>, pagination: Pagination)

  /** The `item` slot holds an array at first and the whole list body after GET_SUCCESS. */
  datatype Listing = Items(products: seq<Product>) | Body(body: ListBody)

  /** The detail product, with the `quantity` the reducer adds to it. */
  datatype Selected = Selected(product: Product, quantity: int)

  /** `IsError` is `null` (false) or `true`. */
  datatype ProductState = ProductState(item: Listing, isError: bool, isLoading: bool, selected: Option<Selected>)

  const Initial: ProductState := ProductState(Items([]), false, false, None)

  /**
   * The UPDATE_PRODUCT_STOCK payload is compared with ids by `===` and also read
   * as `payload.stock`: a bare id string matches but has no `stock`; an object
   * with a `stock` never equals a string id.
   */
  datatype StockPayload = BareId(id: string) | StockObject(id: string, stock: int)

  datatype Action =
    | GetRequest                                            // GET_REQUEST and GET_REQUEST_BY_ID
    | GetSuccess(body: ListBody)
    | GetSuccessById(product: Product, quantity: Option<int>)
    | GetFailure                                            // GET_FAILURE and GET_FAILURE_BY_ID
    | UpdateProductStock(payload: StockPayload)
    | OtherAction

  /** `{ ...p, stock: payload.stock }` for the products `payload` equals. */
  function Restock(payload: StockPayload): Product -> Product
  {
    (p: Product) => if payload.BareId? && p.id == payload.id then p.(stock := None) else p
  }

  /**
   * The reducer; `Err` is the exception thrown when UPDATE_PRODUCT_STOCK calls
   * `.map` on a list body.
   */
  function Reduce(state: ProductState, action: Action): Result<ProductState, string>
  {
    match action
    case GetRequest => Ok(state.(isError := false, isLoading := true))
    case GetSuccess(body) => Ok(state.(item := Body(body), isError := false, isLoading := false))
    case GetSuccessById(p, q) =>
      Ok(state.(selected := Some(Selected(p, if q.Some? && q.value != 0 then q.value else 1))))
    case GetFailure => Ok(state.(isError := true, isLoading := false))
    case UpdateProductStock(payload) =>
      if state.item.Body? then Err("TypeError: currentState.item.map is not a function")
      else
        Ok(state.(
          item := Items(Map(Restock(payload), state.item.products)),
          selected :=
            if state.selected.Some? then Some(state.selected.value.(product := Restock(payload)(state.selected.value.product)))
            else None))
    case OtherAction => Ok(state)
  }

  /** A request clears the error and raises the loading flag; a failure does the opposite; neither touches the data. */
  lemma RequestAndFailureFlags(state: ProductState)
    ensures var r := Reduce(state, GetRequest);
      r.Ok? && r.value.isLoading && !r.value.isError && r.value.item == state.item && r.value.selected == state.selected
    ensures var r := Reduce(state, GetFailure);
      r.Ok? && !r.value.isLoading && r.value.isError && r.value.item == state.item && r.value.selected == state.selected
  {
  }

  /** A list response is stored whole in `item` and ends loading. */
  lemma ListSuccessStoresBody(state: ProductState, body: ListBody)
    ensures var r := Reduce(state, GetSuccess(body));
      r.Ok? && r.value.item == Body(body) && !r.value.isLoading && !r.value.isError && r.value.selected == state.selected
  {
  }

  /**
   * A detail response is stored with `quantity || 1` but leaves the loading flag
   * as it was: after the request/response pair the state is still loading.
   */
  lemma DetailSuccessKeepsLoading(state: ProductState, p: Product)
    ensures var s1 := Reduce(state, GetRequest);
      s1.Ok? &&
      var s2 := Reduce(s1.value, GetSuccessById(p, None));
      s2.Ok? && s2.value.isLoading && s2.value.selected == Some(Selected(p, 1))
  {
  }

  /** Once a list response has been stored, a stock update throws. */
  lemma StockUpdateAfterListThrows(state: ProductState, body: ListBody, payload: StockPayload)
    ensures var s1 := Reduce(state, GetSuccess(body));
      s1.Ok? && Reduce(s1.value, UpdateProductStock(payload)).Err?
  {
  }

  /**
   * On an array listing, a bare-id stock update leaves the matching products
   * (and the detail product, if it matches) with no stock and the others
   * unchanged; an object payload matches nothing.
   */
  lemma StockUpdateOnItems(products: seq<Product>, s: ProductState, payload: StockPayload)
    requires s.item == Items(products)
    ensures var r := Reduce(s, UpdateProductStock(payload));
      && r.Ok?
      && |r.value.item.products| == |products|
      && (forall i :: 0 <= i < |products| ==>
            r.value.item.products[i] == if payload.BareId? && products[i].id == payload.id
                                        then products[i].(stock := None) else products[i])
      && (payload.StockObject? ==> r.value == s)
  {
    if payload.StockObject? {
      var m := Map(Restock(payload), products);
      assert m == products;
    }
  }

  /** Any other action returns the state it was given. */
  lemma OtherActionUnchanged(state: ProductState)
    ensures Reduce(state, OtherAction) == Ok(state)
  {
  }
}
