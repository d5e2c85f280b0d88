/**
 * Placing an order at checkout: the order built from the cart, the signed-in
 * user and the shipping form, and the two actions dispatched for it.
 */
module Checkout {
  import opened JsCore
  import opened ShopModel
  import CartReducer
  import OrderReducer
  import CartPage
  import AuthReducer

  /** One order line copied from a cart line. */
  function ItemOf(l: CartReducer.CartLine): OrderItem
  {
    OrderItem(l.id, l.name, l.price, l.quantity, l.image)
  }

  /** `user?._id || "guest"`. */
  function CustomerId(user: Option<User>): (r: string)
    ensures r != ""
    ensures r == "guest" <==> user.None? || user.value.id == "" || user.value.id == "guest"
  {
    if user.Some? && user.value.id != "" then user.value.id else "guest"
  }

  /**
   * The three clock readings `handlePlaceOrder` takes: `Date.now()` for the
   * id and two separate `new Date()` calls for the two stamps, which need
   * not agree.
   */
  datatype Stamps = Stamps(id: string, created: int, updated: int)

  /** The order `handlePlaceOrder` builds. */
  function BuildOrder(items: seq<CartReducer.CartLine>, user: Option<User>, form: Address, stamps: Stamps): (o: Order)
    ensures o.status == "processing" && o.userId == CustomerId(user) && o.shippingAddress == form
    ensures |o.items| == |items|
    ensures forall i :: 0 <= i < |items| ==> o.items[i] == OrderItem(items[i].id, items[i].name, items[i].price, items[i].quantity, items[i].image)
    ensures o.totalAmount == Some(CartPage.Subtotal(items))
    ensures o.id == stamps.id && o.createdAt == stamps.created && o.updatedAt == stamps.updated
  {
    Order(stamps.id, CustomerId(user), "processing", Map(ItemOf, items), Some(CartPage.Subtotal(items)), form, stamps.created, stamps.updated)
  }

  /** One dispatch, to whichever slice it is for. */
  datatype Dispatch = ToOrders(orderAction: OrderReducer.Action) | ToCart(cartAction: CartReducer.Action)

  /** `handlePlaceOrder`: ORDER_CREATED with the order, then CLEAR_CART. Nothing checks the cart or the form first. */
  function PlaceOrder(items: seq<CartReducer.CartLine>, user: Option<User>, form: Address, stamps: Stamps): (r: seq<Dispatch>)
    ensures |r| == 2 && r[0].ToOrders? && r[1] == ToCart(CartReducer.ClearCart)
  {
    [ToOrders(OrderReducer.OrderCreated(BuildOrder(items, user, form, stamps))), ToCart(CartReducer.ClearCart)]
  }

  /** The two slices the dispatches reach. */
  datatype Store = Store(orders: OrderReducer.OrderState, cart: CartReducer.CartState)

  function Apply(store: Store, d: Dispatch): Store
  {
    match d
    case ToOrders(a) => store.(orders := OrderReducer.Reduce(store.orders, a))
    case ToCart(a) => store.(cart := CartReducer.Reduce(store.cart, a))
  }

  function ApplyAll(store: Store, ds: seq<Dispatch>): Store
    decreases |ds|
  {
    if ds == [] then store else ApplyAll(Apply(store, ds[0]), ds[1..])
  }

  /** The order's value at the prices it froze: the same sum over its lines. */
  function OrderSubtotal(items: seq<OrderItem>): int
  {
    if items == [] then 0 else OrderSubtotal(items[..|items| - 1]) + items[|items| - 1].price.Floor * items[|items| - 1].quantity
  }

  /** The order lines are priced exactly as the cart lines were. */
  lemma {:induction false} OrderSubtotalOfCart(items: seq<CartReducer.CartLine>)
    ensures OrderSubtotal(Map(ItemOf, items)) == CartPage.Subtotal(items)
  {
    if items != [] {
      var init := items[..|items| - 1];
      OrderSubtotalOfCart(init);
      assert Map(ItemOf, items)[..|items| - 1] == Map(ItemOf, init);
    }
  }

  /**
   * Placing an order appends it to the order list and empties the cart, and
   * the stored total is the subtotal of its own lines: neither tax nor
   * shipping is included.
   */
  lemma PlaceOrderEffect(store: Store, user: Option<User>, form: Address, stamps: Stamps)
    ensures var o := BuildOrder(store.cart.items, user, form, stamps);
      var after := ApplyAll(store, PlaceOrder(store.cart.items, user, form, stamps));
      && after.orders.orders == store.orders.orders + [o]
      && after.cart.items == []
      && o.totalAmount == Some(OrderSubtotal(o.items))
  {
    OrderSubtotalOfCart(store.cart.items);
    var ds := PlaceOrder(store.cart.items, user, form, stamps);
    var s1 := Apply(store, ds[0]);
    var s2 := Apply(s1, ds[1]);
    assert ds[1..][1..] == [];
    assert ApplyAll(s1, ds[1..]) == ApplyAll(s2, ds[1..][1..]);
    assert ApplyAll(store, ds) == s2;
  }

  /** Dispatching the two actions the other way round would record an empty order: the order must come first. */
  lemma OrderComesBeforeClear(store: Store, user: Option<User>, form: Address, stamps: Stamps)
    ensures var ds := PlaceOrder(store.cart.items, user, form, stamps);
      ds[0] == ToOrders(OrderReducer.OrderCreated(BuildOrder(store.cart.items, user, form, stamps)))
    ensures var cleared := Apply(store, ToCart(CartReducer.ClearCart));
      BuildOrder(cleared.cart.items, user, form, stamps).items == []
      && BuildOrder(cleared.cart.items, user, form, stamps).totalAmount == Some(0)
  {
  }

  /** With an empty cart and no user, an order is still placed: no lines, total 0, placed by "guest". */
  lemma EmptyCartStillOrders(store: Store, form: Address, stamps: Stamps)
    requires store.cart.items == []
    ensures var after := ApplyAll(store, PlaceOrder([], None, form, stamps));
      && |after.orders.orders| == |store.orders.orders| + 1
      && after.orders.orders[|store.orders.orders|].items == []
      && after.orders.orders[|store.orders.orders|].userId == "guest"
      && after.orders.orders[|store.orders.orders|].totalAmount == Some(0)
  {
    PlaceOrderEffect(store, None, form, stamps);
  }

  /**
   * Signed in through the auth reducer as written, the store holds no user,
   * so every order is placed by "guest"; reading the `user` property the
   * order carries the customer's id.
   */
  lemma SignedInOrderIsGuest(state: AuthReducer.AuthState, token: string, u: User,
                             items: seq<CartReducer.CartLine>, form: Address, stamps: Stamps)
    requires u.id != ""
    ensures var auth := AuthReducer.Reduce(state, AuthReducer.LoginSuccess(AuthReducer.PagePayload(token, u)));
      BuildOrder(items, auth.user, form, stamps).userId == "guest"
    ensures var auth := AuthReducer.ReduceFixed(state, AuthReducer.LoginSuccess(AuthReducer.PagePayload(token, u)));
      BuildOrder(items, auth.user, form, stamps).userId == u.id
  {
    AuthReducer.LoginLosesUser(state, token, u);
    AuthReducer.LoginKeepsUserFixed(state, token, u);
  }
}
