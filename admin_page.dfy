/**
 * The administrator dashboard: the four statistics, the status badges, the
 * status filter, the five most recent orders, the status-update handler and
 * product deletion.
 */
module AdminPage {
  import opened JsCore
  import opened ShopModel
  import OrderReducer
  import OrderPage
  import RouteGuards
  import AuthReducer
  import CartPage
  import Checkout

  // ------------------------------------------------------------ statistics

  /** `order.totalAmount || 0`: an absent amount counts as nothing. */
  function AmountOrZero(o: Order): int
  {
    if o.totalAmount.Some? then o.totalAmount.value else 0
  }

  /** `Order.reduce((sum, order) => sum + (order.totalAmount || 0), 0)`. */
  function Revenue(orders: seq<Order>): int
  {
    if orders == [] then 0 else Revenue(orders[..|orders| - 1]) + AmountOrZero(orders[|orders| - 1])
  }

  /** `new Set(Order.map((o) => o.userId))`: the distinct customer ids. */
  function Customers(orders: seq<Order>): (r: set<string>)
    ensures forall c :: c in r <==> exists i :: 0 <= i < |orders| && orders[i].userId == c
  {
    if orders == [] then {}
    else
      var init := orders[..|orders| - 1];
      assert forall i :: 0 <= i < |init| ==> init[i] == orders[i];
      Customers(init) + {orders[|orders| - 1].userId}
  }

  datatype Stats = Stats(totalOrders: nat, totalRevenue: int, totalProducts: nat, totalCustomers: nat)

  /** The statistics `fetchDashboardData` computes from the orders in the store and the fetched products. */
  function StatsOf(orders: seq<Order>, products: seq<Product>): (s: Stats)
    ensures s.totalOrders == |orders| && s.totalProducts == |products|
    ensures s.totalRevenue == Revenue(orders) && s.totalCustomers == |Customers(orders)|
    ensures s.totalCustomers <= s.totalOrders
    ensures s.totalCustomers == 0 <==> orders == []
  {
    CustomersAtMostOrders(orders);
    assert orders != [] ==> orders[0].userId in Customers(orders);
    Stats(|orders|, Revenue(orders), |products|, |Customers(orders)|)
  }

  /** There are never more customers than orders. */
  lemma {:induction false} CustomersAtMostOrders(orders: seq<Order>)
    ensures |Customers(orders)| <= |orders|
  {
    if orders != [] {
      CustomersAtMostOrders(orders[..|orders| - 1]);
    }
  }

  /** Placing an order raises the revenue by its amount, or by nothing when it has none. */
  lemma RevenueAfterOrder(state: OrderReducer.OrderState, o: Order)
    ensures Revenue(OrderReducer.Reduce(state, OrderReducer.OrderCreated(o)).orders) == Revenue(state.orders) + AmountOrZero(o)
  {
    var r := OrderReducer.Reduce(state, OrderReducer.OrderCreated(o)).orders;
    assert r[..|r| - 1] == state.orders;
  }

  /** A status update never changes the revenue: cancelled orders still count. */
  lemma {:induction false} RevenueIgnoresStatus(orders: seq<Order>, id: string, status: string, now: int)
    ensures Revenue(Map(OrderReducer.Restamp(id, status, now), orders)) == Revenue(orders)
  {
    if orders != [] {
      var m := Map(OrderReducer.Restamp(id, status, now), orders);
      var init := orders[..|orders| - 1];
      assert m[..|m| - 1] == Map(OrderReducer.Restamp(id, status, now), init);
      RevenueIgnoresStatus(init, id, status, now);
    }
  }

  /** Placing an order at checkout raises the revenue by exactly the cart's subtotal. */
  lemma CheckoutRaisesRevenue(store: Checkout.Store, user: Option<User>, form: Address, stamps: Checkout.Stamps)
    ensures var after := Checkout.ApplyAll(store, Checkout.PlaceOrder(store.cart.items, user, form, stamps));
      Revenue(after.orders.orders) == Revenue(store.orders.orders) + CartPage.Subtotal(store.cart.items)
  {
    var o := Checkout.BuildOrder(store.cart.items, user, form, stamps);
    Checkout.PlaceOrderEffect(store, user, form, stamps);
    RevenueAfterOrder(store.orders, o);
  }

  /** When every order is placed by "guest", however many there are, the dashboard shows one customer. */
  lemma AllGuestsOneCustomer(orders: seq<Order>)
    requires orders != [] && forall i :: 0 <= i < |orders| ==> orders[i].userId == "guest"
    ensures StatsOf(orders, []).totalCustomers == 1
  {
    assert Customers(orders) == {"guest"};
  }

  // ----------------------------------------------------------- status badges

  /** `getStatusConfig`: four statuses, and the processing badge for any other. */
  function StatusConfig(status: string): (c: (string, string))
    ensures status == "shipped" ==> c == ("Shipped", "purple")
    ensures status == "delivered" ==> c == ("Delivered", "green")
    ensures status == "cancelled" ==> c == ("Cancelled", "red")
    ensures c.0 == "Processing" <==> status != "shipped" && status != "delivered" && status != "cancelled"
    ensures c.0 == "Processing" ==> c.1 == "blue"
    ensures c.0 in {"Processing", "Shipped", "Delivered", "Cancelled"}
  {
    if status == "shipped" then ("Shipped", "purple")
    else if status == "delivered" then ("Delivered", "green")
    else if status == "cancelled" then ("Cancelled", "red")
    else ("Processing", "blue")
  }

  /** A pending order shows as "Pending" on the order-history page but as "Processing" here. */
  lemma PendingShownAsProcessing()
    ensures StatusConfig("pending").0 == "Processing"
    ensures OrderPage.StatusConfig("pending").caption == "Pending"
  {
  }

  // ------------------------------------------------------------ recent orders

  predicate NewestFirst(s: seq<Order>)
  {
    forall i, j :: 0 <= i < j < |s| ==> s[i].createdAt >= s[j].createdAt
  }

  /** An order no older than every order of a newest-first list can lead it. */
  lemma ConsNewest(x: Order, t: seq<Order>)
    requires NewestFirst(t)
    requires forall i :: 0 <= i < |t| ==> t[i].createdAt <= x.createdAt
    ensures NewestFirst([x] + t)
  {
    forall i, j | 0 <= i < j < |[x] + t|
      ensures ([x] + t)[i].createdAt >= ([x] + t)[j].createdAt
    {
      assert ([x] + t)[j] == t[j - 1];
      if i > 0 {
        assert ([x] + t)[i] == t[i - 1];
      }
    }
  }

  /** The head of a newest-first list is no older than any order in it, and the rest is newest-first too. */
  lemma HeadNewest(s: seq<Order>)
    requires NewestFirst(s) && s != []
    ensures NewestFirst(s[1..])
    ensures forall i :: 0 <= i < |s| ==> s[i].createdAt <= s[0].createdAt
  {
    forall i, j | 0 <= i < j < |s[1..]| ensures s[1..][i].createdAt >= s[1..][j].createdAt {
      assert s[1..][i] == s[i + 1] && s[1..][j] == s[j + 1];
    }
  }

  /** Puts `o` before the first order no newer than it, so equal dates keep their original order. */
  function InsertByDate(o: Order, s: seq<Order>): (r: seq<Order>)
    requires NewestFirst(s)
    ensures NewestFirst(r)
    ensures multiset(r) == multiset(s) + multiset{o}
  {
    if s == [] then
      [o]
    else if s[0].createdAt <= o.createdAt then
      HeadNewest(s);
      ConsNewest(o, s);
      [o] + s
    else
      HeadNewest(s);
      var t := InsertByDate(o, s[1..]);
      NoNewerThan(t, s[1..], o, s[0].createdAt);
      ConsNewest(s[0], t);
      assert s == [s[0]] + s[1..];
      assert multiset(s) == multiset{s[0]} + multiset(s[1..]);
      [s[0]] + t
  }

  /** A rearrangement of orders no newer than `bound`, plus one more such order, has none newer either. */
  lemma NoNewerThan(t: seq<Order>, s: seq<Order>, o: Order, bound: int)
    requires multiset(t) == multiset(s) + multiset{o}
    requires forall i :: 0 <= i < |s| ==> s[i].createdAt <= bound
    requires o.createdAt <= bound
    ensures forall i :: 0 <= i < |t| ==> t[i].createdAt <= bound
  {
    forall i | 0 <= i < |t|
      ensures t[i].createdAt <= bound
    {
      assert t[i] in multiset(t);
    }
  }

  /** `[...Order].sort((a, b) => new Date(b.createdAt) - new Date(a.createdAt))`, a stable sort on a copy. */
  function SortByNewest(s: seq<Order>): (r: seq<Order>)
    ensures NewestFirst(r)
    ensures multiset(r) == multiset(s)
  {
    if s == [] then []
    else
      assert s == [s[0]] + s[1..];
      InsertByDate(s[0], SortByNewest(s[1..]))
  }

  /** `.slice(0, 5)` of the sorted copy. */
  function RecentOrders(orders: seq<Order>): (r: seq<Order>)
    ensures |r| == Min(5, |orders|)
    ensures NewestFirst(r)
    ensures multiset(r) <= multiset(orders)
    ensures forall o :: o in r ==> o in orders
  {
    var sorted := SortByNewest(orders);
    assert |sorted| == |multiset(sorted)| == |orders|;
    var r := sorted[..Min(5, |orders|)];
    assert sorted == r + sorted[Min(5, |orders|)..];
    assert multiset(sorted) == multiset(r) + multiset(sorted[Min(5, |orders|)..]);
    assert forall o :: o in r ==> o in multiset(sorted);
    r
  }

  /** Beyond the five shown, no order is newer than the oldest of them. */
  lemma RecentAreNewest(orders: seq<Order>, o: Order)
    requires |orders| > 5 && o in orders && o !in RecentOrders(orders)
    ensures o.createdAt <= RecentOrders(orders)[4].createdAt
  {
    var sorted := SortByNewest(orders);
    assert o in multiset(orders);
    assert o in sorted;
    var k :| 0 <= k < |sorted| && sorted[k] == o;
  }

  /** With five orders or fewer, all of them are shown. */
  lemma FewOrdersAllShown(orders: seq<Order>)
    requires |orders| <= 5
    ensures multiset(RecentOrders(orders)) == multiset(orders)
  {
    var sorted := SortByNewest(orders);
    assert |sorted| == |multiset(sorted)| == |orders|;
    assert sorted[..|orders|] == sorted;
  }

  // --------------------------------------------------------- the redirect

  /** The dashboard's own check: `user?.role` is neither "admin" nor "Admin", a missing user included. */
  predicate RedirectsHome(user: Option<User>)
  {
    !(user.Some? && RouteGuards.IsAdminRole(user.value.role))
  }

  /** A visitor the admin guard lets through is never redirected by the dashboard. */
  lemma GuardedNeverRedirects(auth: AuthReducer.AuthState)
    requires RouteGuards.AdminRoute(auth) == RouteGuards.Render
    ensures !RedirectsHome(auth.user)
  {
  }

  // ---------------------------------------------------------------- handlers

  /** `setSelectedOrder((prev) => ({ ...prev, status }))` when the ids match; otherwise the selection is kept. */
  function SelectedAfter(selected: Option<Order>, orderId: string, status: string): Option<Order>
  {
    if selected.Some? && selected.value.id == orderId then Some(selected.value.(status := status)) else selected
  }

  /**
   * The open order keeps matching the store after an update: the same order
   * with the same status, differing at most in `updatedAt`, which the store
   * re-stamps and the dialog does not.
   */
  lemma SelectedFollowsStore(orders: seq<Order>, i: nat, orderId: string, status: string, now: int)
    requires i < |orders|
    ensures var after := OrderReducer.Reduce(OrderReducer.OrderState(orders), OrderReducer.OrderStatusUpdated(orderId, status, now)).orders;
      SelectedAfter(Some(orders[i]), orderId, status) == Some(after[i].(updatedAt := orders[i].updatedAt))
  {
    OrderReducer.StatusUpdatedSpec(OrderReducer.OrderState(orders), orderId, status, now);
  }

  /** `(p) => p._id !== productId`. */
  function IdIsNot(productId: string): Product -> bool
  {
    (p: Product) => p.id != productId
  }

  /** `prev.filter((p) => p._id !== productId)`: the other products, in their order. */
  function WithoutProduct(products: seq<Product>, productId: string): (r: seq<Product>)
    ensures r == Filter(IdIsNot(productId), products)
    ensures forall p :: p in r <==> p in products && p.id != productId
    ensures (forall i :: 0 <= i < |products| ==> products[i].id != productId) ==> r == products
  {
    if forall i :: 0 <= i < |products| ==> products[i].id != productId then
      FilterAll(IdIsNot(productId), products);
      Filter(IdIsNot(productId), products)
    else Filter(IdIsNot(productId), products)
  }

  /**
   * Deleting a product works element by element: it distributes over
   * concatenation and drops a single product exactly when its id matches, so
   * the remaining products keep their relative order and multiplicity.
   */
  lemma WithoutProductAppend(a: seq<Product>, b: seq<Product>, p: Product, productId: string)
    ensures WithoutProduct(a + b, productId) == WithoutProduct(a, productId) + WithoutProduct(b, productId)
    ensures WithoutProduct([p], productId) == if p.id == productId then [] else [p]
  {
    FilterAppend(IdIsNot(productId), a, b);
    assert [p][1..] == [];
  }

  class Dashboard {
    var products: seq<Product>
    var stats: Stats
    var selectedOrder: Option<Order>
    var statusFilter: string
    var loading: bool

    constructor()
      ensures products == [] && stats == Stats(0, 0, 0, 0) && selectedOrder.None?
      ensures statusFilter == "all" && !loading
    {
      products := [];
      stats := Stats(0, 0, 0, 0);
      selectedOrder := None;
      statusFilter := "all";
      loading := false;
    }

    /**
     * `fetchDashboardData`: `fetched` is the product list the request returned,
     * `None` when it failed; a failure leaves the products and statistics as
     * they were.
     */
    method FetchDashboardData(orders: seq<Order>, fetched: Option<seq<Product>>)
      modifies this`products, this`stats, this`loading
      ensures fetched.Some? ==> products == fetched.value && stats == StatsOf(orders, fetched.value)
      ensures fetched.None? ==> products == old(products) && stats == old(stats)
      ensures !loading
    {
      loading := true;
      if fetched.Some? {
        products := fetched.value;
        stats := StatsOf(orders, products);
      }
      loading := false;
    }

    /** The orders the table shows for the current filter. */
    function FilteredOrders(orders: seq<Order>): (r: seq<Order>)
      reads this
      ensures statusFilter == "all" ==> r == orders
      ensures statusFilter != "all" ==> r == Filter(StatusIs(statusFilter), orders)
      ensures statusFilter != "all" ==> forall o :: o in r <==> o in orders && o.status == statusFilter
    {
      FilterByStatus(orders, statusFilter)
    }

    /** `handleUpdateOrderStatus`: the action it dispatches, and the open order re-stated when it is the one updated. */
    method HandleUpdateOrderStatus(orderId: string, newStatus: string, now: int) returns (dispatched: OrderReducer.Action)
      modifies this`selectedOrder
      ensures dispatched == OrderReducer.OrderStatusUpdated(orderId, newStatus, now)
      ensures selectedOrder == SelectedAfter(old(selectedOrder), orderId, newStatus)
    {
      dispatched := OrderReducer.OrderStatusUpdated(orderId, newStatus, now);
      if selectedOrder.Some? && selectedOrder.value.id == orderId {
        selectedOrder := Some(selectedOrder.value.(status := newStatus));
      }
    }

    /**
     * `handleDeleteProduct`: nothing unless the administrator confirms and the
     * delete request succeeds; then exactly the products with that id leave.
     */
    method HandleDeleteProduct(productId: string, confirmed: bool, deleted: bool)
      modifies this`products
      ensures products == if confirmed && deleted then WithoutProduct(old(products), productId) else old(products)
    {
      if !confirmed {
        return;
      }
      if deleted {
        products := WithoutProduct(products, productId);
      }
    }
  }
}
