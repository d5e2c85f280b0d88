/**
 * The order slice of the client store: the list of placed orders, appended to
 * at checkout and re-stated when an administrator changes an order's status.
 */
module OrderReducer {
  import opened JsCore
  import opened ShopModel

  datatype OrderState = OrderState(orders: seq<Order>)

  const Initial: OrderState := OrderState([])

  /** ORDER_STATUS_UPDATED carries the clock reading `now` that stamps `updatedAt`. */
  datatype Action =
    | OrderCreated(order: Order)
    | OrderStatusUpdated(orderId: string, status: string, now: int)
    | OtherAction

  function Restamp(orderId: string, status: string, now: int): Order -> Order
  {
    (o: Order) => if o.id == orderId then o.(status := status, updatedAt := now) else o
  }

  function Reduce(state: OrderState, action: Action): OrderState
  {
    match action
    case OrderCreated(o) => state.(orders := state.orders + [o])
    case OrderStatusUpdated(id, status, now) => state.(orders := Map(Restamp(id, status, now), state.orders))
    case OtherAction => state
  }

  function Ids(orders: seq<Order>): seq<string>
  {
    if orders == [] then [] else Ids(orders[..|orders| - 1]) + [orders[|orders| - 1].id]
  }

  /** ORDER_CREATED appends the order and leaves every earlier order where it was. */
  lemma CreatedAppends(state: OrderState, o: Order)
    ensures var r := Reduce(state, OrderCreated(o)).orders;
      && |r| == |state.orders| + 1
      && r[..|state.orders|] == state.orders
      && r[|state.orders|] == o
  {
  }

  /**
   * ORDER_STATUS_UPDATED re-states only the orders with the given id: they get
   * the new status and `updatedAt`, keep every other field; all other orders
   * are unchanged, and the list keeps its length and order.
   */
  lemma StatusUpdatedSpec(state: OrderState, id: string, status: string, now: int)
    ensures var r := Reduce(state, OrderStatusUpdated(id, status, now)).orders;
      && |r| == |state.orders|
      && forall i :: 0 <= i < |r| ==>
           if state.orders[i].id == id
           then r[i].status == status && r[i].updatedAt == now
                && r[i].(status := state.orders[i].status, updatedAt := state.orders[i].updatedAt) == state.orders[i]
           else r[i] == state.orders[i]
  {
  }

  /** A status update never changes which order ids the list holds, nor their order. */
  lemma {:induction false} StatusUpdatedKeepsIds(orders: seq<Order>, id: string, status: string, now: int)
    ensures Ids(Map(Restamp(id, status, now), orders)) == Ids(orders)
  {
    if orders != [] {
      var m := Map(Restamp(id, status, now), orders);
      var init := orders[..|orders| - 1];
      assert m[..|m| - 1] == Map(Restamp(id, status, now), init);
      StatusUpdatedKeepsIds(init, id, status, now);
    }
  }

  /** Applying the same status update twice at the same instant is the same as applying it once. */
  lemma StatusUpdatedIdempotent(state: OrderState, id: string, status: string, now: int)
    ensures var a := OrderStatusUpdated(id, status, now);
      Reduce(Reduce(state, a), a) == Reduce(state, a)
  {
  }

  /** An update for an id that no order has leaves the list as it was. */
  lemma StatusUpdatedUnknownId(state: OrderState, id: string, status: string, now: int)
    requires forall i :: 0 <= i < |state.orders| ==> state.orders[i].id != id
    ensures Reduce(state, OrderStatusUpdated(id, status, now)) == state
  {
  }

  /** Any other action returns the state it was given. */
  lemma OtherActionUnchanged(state: OrderState)
    ensures Reduce(state, OtherAction) == state
  {
  }
}
