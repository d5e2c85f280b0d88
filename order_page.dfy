/**
 * The order-history page: the status badges, the status tabs with their
 * counts, and which of its three views it renders. It lists every order the
 * store holds, whoever placed it.
 */
module OrderPage {
  import opened JsCore
  import opened ShopModel

  /** The label, colour and sentence a status badge shows. */
  datatype StatusStyle = StatusStyle(caption: string, color: string, description: string)

  /** The five statuses the page knows. */
  predicate KnownStatus(status: string)
  {
    status == "pending" || status == "processing" || status == "shipped" || status == "delivered" || status == "cancelled"
  }

  /** `getStatusConfig`: the five known statuses, and the processing badge for any other. */
  function StatusConfig(status: string): (c: StatusStyle)
    ensures status == "pending" ==> c == StatusStyle("Pending", "orange", "Your order is pending")
    ensures status == "shipped" ==> c == StatusStyle("Shipped", "purple", "Your order is on the way")
    ensures status == "delivered" ==> c == StatusStyle("Delivered", "green", "Order delivered successfully")
    ensures status == "cancelled" ==> c == StatusStyle("Cancelled", "red", "Order was cancelled")
    ensures !KnownStatus(status) || status == "processing" ==> c == StatusStyle("Processing", "blue", "Your order is being prepared")
    ensures c.caption == "Processing" <==> !KnownStatus(status) || status == "processing"
    ensures c.caption in {"Pending", "Processing", "Shipped", "Delivered", "Cancelled"}
  {
    if status == "pending" then StatusStyle("Pending", "orange", "Your order is pending")
    else if status == "shipped" then StatusStyle("Shipped", "purple", "Your order is on the way")
    else if status == "delivered" then StatusStyle("Delivered", "green", "Order delivered successfully")
    else if status == "cancelled" then StatusStyle("Cancelled", "red", "Order was cancelled")
    else StatusStyle("Processing", "blue", "Your order is being prepared")
  }

  /** The five known statuses get five different badges. */
  lemma DistinctBadges(s: string, t: string)
    requires KnownStatus(s) && KnownStatus(t) && s != t
    ensures StatusConfig(s).caption != StatusConfig(t).caption
  {
  }

  /** `Order.filter((o) => o.status === status).length`. */
  function Count(orders: seq<Order>, status: string): nat
  {
    |Filter((o: Order) => o.status == status, orders)|
  }

  /** The badge counts on the tabs; cancelled orders have no tab and no count. */
  datatype OrderCounts = OrderCounts(all: nat, pending: nat, processing: nat, shipped: nat, delivered: nat)

  /** The tab badges: every order under "all", and under each status tab the orders that tab lists. */
  function CountsOf(orders: seq<Order>): (c: OrderCounts)
    ensures c.all == |orders|
    ensures c.pending == Count(orders, "pending") && c.processing == Count(orders, "processing")
    ensures c.shipped == Count(orders, "shipped") && c.delivered == Count(orders, "delivered")
    ensures c.pending + c.processing + c.shipped + c.delivered + Count(orders, "cancelled") <= c.all
  {
    CountsAtMostAll(orders);
    OrderCounts(|orders|, Count(orders, "pending"), Count(orders, "processing"), Count(orders, "shipped"), Count(orders, "delivered"))
  }

  /** One order's share of the five status counts. */
  function Share(o: Order): nat
  {
    if KnownStatus(o.status) then 1 else 0
  }

  /** The orders with a known status. */
  function Known(orders: seq<Order>): nat
  {
    if orders == [] then 0 else Share(orders[0]) + Known(orders[1..])
  }

  /**
   * The five status counts add up to the orders whose status is known, so
   * the four tab counts never exceed the "all" count.
   */
  lemma {:induction false} CountsAtMostAll(orders: seq<Order>)
    ensures Count(orders, "pending") + Count(orders, "processing") + Count(orders, "shipped")
            + Count(orders, "delivered") + Count(orders, "cancelled") == Known(orders)
    ensures Known(orders) <= |orders|
  {
    if orders != [] {
      CountsAtMostAll(orders[1..]);
    }
  }

  /** Every order counts once exactly when every status is one of the five. */
  lemma {:induction false} KnownIsAll(orders: seq<Order>)
    ensures Known(orders) == |orders| <==> forall i :: 0 <= i < |orders| ==> KnownStatus(orders[i].status)
  {
    if orders != [] {
      KnownIsAll(orders[1..]);
      CountsAtMostAll(orders[1..]);
      if !KnownStatus(orders[0].status) {
        assert Known(orders) < |orders|;
      }
      assert forall i :: 1 <= i < |orders| ==> orders[1..][i - 1] == orders[i];
    }
  }

  /** A tab's count is the length of the list that tab shows. */
  lemma CountMatchesTab(orders: seq<Order>, status: string)
    requires status != "all"
    ensures Count(orders, status) == |FilterByStatus(orders, status)|
  {
    FilterPointwise((o: Order) => o.status == status, (o: Order) => status == "all" || o.status == status, orders);
  }

  /** A new order lands at the end of its status tab, after the ones already there. */
  lemma NewOrderEndsItsTab(orders: seq<Order>, o: Order)
    requires o.status != "all"
    ensures FilterByStatus(orders + [o], o.status) == FilterByStatus(orders, o.status) + [o]
  {
    var keep := (x: Order) => o.status == "all" || x.status == o.status;
    FilterAppend(keep, orders, [o]);
    assert [o][1..] == [];
  }

  /** What the page renders: the empty state, a tab with nothing in it, or the tab's orders. */
  datatype View = EmptyState | NoMatches(message: string) | Listing(orders: seq<Order>)

  function ViewOf(orders: seq<Order>, filter: string): (v: View)
    ensures v == EmptyState <==> orders == []
    ensures v.Listing? ==> v.orders == FilterByStatus(orders, filter) && v.orders != []
    ensures v.NoMatches? ==> orders != [] && FilterByStatus(orders, filter) == []
  {
    if orders == [] then EmptyState
    else
      var shown := FilterByStatus(orders, filter);
      if shown == [] then
        NoMatches(if filter == "all" then "You haven't placed any orders yet" else "No " + filter + " orders at the moment")
      else Listing(shown)
  }

  /** On the "all" tab the page never reaches its own "no orders yet" message: an empty list takes the empty state first. */
  lemma AllTabNeverEmptyMessage(orders: seq<Order>)
    ensures ViewOf(orders, "all") == EmptyState || ViewOf(orders, "all") == Listing(orders)
  {
  }
}
