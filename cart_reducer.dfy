/**
 * The cart slice of the client store: a list of lines, each a product snapshot
 * with a stock ceiling and a quantity, changed only by the reducer below.
 */
module CartReducer {
  import opened JsCore

  datatype CartLine = CartLine(id: string, name: string, price: real, image: string, stock: int, quantity: int)

  datatype CartState = CartState(items: seq<CartLine>)

  const Initial: CartState := CartState([])

  /** The ADD_TO_CART payload: a product snapshot and an optional requested quantity. */
  datatype AddPayload = AddPayload(id: string, name: string, price: real, image: string, stock: int, quantity: Option<int>)

  /** `payload.updates` of UPDATE_CART_ITEM: each present property is spread over the line. */
  datatype LineUpdates = LineUpdates(
    id: Option<string>,
    name: Option<string>,
    price: Option<real>,
    image: Option<string>,
    stock: Option<int>,
    quantity: Option<int>)

  datatype Action =
    | AddToCart(payload: AddPayload)
    | RemoveFromCart(id: string)
    | IncreaseQty(id: string)
    | DecreaseQty(id: string)
    | UpdateCartItem(target: string, updates: LineUpdates)
    | ClearCart
    | OtherAction

  /** The cart invariant: every line holds between one unit and its stock ceiling. */
  predicate ValidLine(l: CartLine)
  {
    1 <= l.quantity <= l.stock
  }

  predicate Valid(items: seq<CartLine>)
  {
    forall i :: 0 <= i < |items| ==> ValidLine(items[i])
  }

  /** `payload.quantity || 1`: an absent or zero quantity counts as one. */
  function OrOne(q: Option<int>): int
  {
    if q.Some? && q.value != 0 then q.value else 1
  }

  function HasId(id: string): CartLine -> bool
  {
    (l: CartLine) => l.id == id
  }

  function NewLine(p: AddPayload): CartLine
  {
    CartLine(p.id, p.name, p.price, p.image, p.stock, OrOne(p.quantity))
  }

  function Add(items: seq<CartLine>, p: AddPayload): seq<CartLine>
  {
    match FindIndex(HasId(p.id), items)
    case Some(k) =>
      items[k := items[k].(quantity := Min(items[k].quantity + OrOne(p.quantity), items[k].stock))]
    case None =>
      items + [NewLine(p)]
  }

  function Remove(items: seq<CartLine>, id: string): seq<CartLine>
  {
    Filter((l: CartLine) => l.id != id, items)
  }

  function IncreaseLine(id: string): CartLine -> CartLine
  {
    (l: CartLine) => if l.id == id && l.quantity < l.stock then l.(quantity := l.quantity + 1) else l
  }

  function Increase(items: seq<CartLine>, id: string): seq<CartLine>
  {
    Map(IncreaseLine(id), items)
  }

  function DecrementLine(id: string): CartLine -> CartLine
  {
    (l: CartLine) => if l.id == id then l.(quantity := l.quantity - 1) else l
  }

  function Positive(l: CartLine): bool
  {
    l.quantity > 0
  }

  function Decrease(items: seq<CartLine>, id: string): seq<CartLine>
  {
    Filter(Positive, Map(DecrementLine(id), items))
  }

  /** `{ ...line, ...updates }`. */
  function Merge(l: CartLine, u: LineUpdates): CartLine
  {
    CartLine(
      if u.id.Some? then u.id.value else l.id,
      if u.name.Some? then u.name.value else l.name,
      if u.price.Some? then u.price.value else l.price,
      if u.image.Some? then u.image.value else l.image,
      if u.stock.Some? then u.stock.value else l.stock,
      if u.quantity.Some? then u.quantity.value else l.quantity)
  }

  function UpdateLine(id: string, u: LineUpdates): CartLine -> CartLine
  {
    (l: CartLine) => if l.id == id then Merge(l, u) else l
  }

  function Update(items: seq<CartLine>, id: string, u: LineUpdates): seq<CartLine>
  {
    Map(UpdateLine(id, u), items)
  }

  /** The cart reducer: one new state per action, nothing changed in place. */
  function Reduce(state: CartState, action: Action): CartState
  {
    match action
    case AddToCart(p) => state.(items := Add(state.items, p))
    case RemoveFromCart(id) => state.(items := Remove(state.items, id))
    case IncreaseQty(id) => state.(items := Increase(state.items, id))
    case DecreaseQty(id) => state.(items := Decrease(state.items, id))
    case UpdateCartItem(id, u) => state.(items := Update(state.items, id, u))
    case ClearCart => Initial
    case OtherAction => state
  }

  // ------------------------------------------------------------------ ADD

  /**
   * Adding an id that is already in the cart keeps the number of lines and
   * raises the first line with that id to `min(old + (quantity || 1), stock)`;
   * every other line is unchanged.
   */
  lemma AddExisting(items: seq<CartLine>, p: AddPayload, k: nat)
    requires k < |items| && items[k].id == p.id
    requires forall j :: 0 <= j < k ==> items[j].id != p.id
    ensures var r := Reduce(CartState(items), AddToCart(p)).items;
      && |r| == |items|
      && r[k] == items[k].(quantity := Min(items[k].quantity + OrOne(p.quantity), items[k].stock))
      && forall j :: 0 <= j < |items| && j != k ==> r[j] == items[j]
  {
    var f := FindIndex(HasId(p.id), items);
    assert HasId(p.id)(items[k]);
    assert f == Some(k);
  }

  /** Adding the same product twice never makes a second line. */
  lemma AddTwiceKeepsOneLine(items: seq<CartLine>, p: AddPayload)
    requires forall i :: 0 <= i < |items| ==> items[i].id != p.id
    ensures var once := Reduce(CartState(items), AddToCart(p)).items;
      var twice := Reduce(CartState(once), AddToCart(p)).items;
      |once| == |twice| == |items| + 1
  {
    var once := Add(items, p);
    assert once[|items|].id == p.id;
    assert HasId(p.id)(once[|items|]);
    var first := FindIndex(HasId(p.id), once);
    assert first.Some?;
  }

  /**
   * Adding a new id appends exactly one line at the end, holding
   * `quantity || 1` units, whatever the stock ceiling.
   */
  lemma AddNewAppends(items: seq<CartLine>, p: AddPayload)
    requires forall i :: 0 <= i < |items| ==> items[i].id != p.id
    ensures Reduce(CartState(items), AddToCart(p)).items
      == items + [CartLine(p.id, p.name, p.price, p.image, p.stock, OrOne(p.quantity))]
  {
    assert FindIndex(HasId(p.id), items).None?;
  }

  /** The new line's quantity is not clamped: a request for 5 of a product with 2 in stock gives a line of 5. */
  lemma AddNewIsNotClamped()
    ensures var p := AddPayload("p1", "Lamp", 20.0, "", 2, Some(5));
      var r := Reduce(Initial, AddToCart(p)).items;
      |r| == 1 && r[0].quantity == 5 && !ValidLine(r[0])
  {
    var p := AddPayload("p1", "Lamp", 20.0, "", 2, Some(5));
    AddNewAppends([], p);
  }

  // ------------------------------------------------------------ INCREASE

  /** INCREASE_QTY adds exactly one unit to each matching line below its ceiling and touches nothing else. */
  lemma IncreaseSpec(items: seq<CartLine>, id: string)
    ensures var r := Reduce(CartState(items), IncreaseQty(id)).items;
      && |r| == |items|
      && forall i :: 0 <= i < |items| ==>
           r[i] == if items[i].id == id && items[i].quantity < items[i].stock
                   then items[i].(quantity := items[i].quantity + 1) else items[i]
  {
  }

  /** At the stock ceiling INCREASE_QTY changes nothing. */
  lemma IncreaseAtCeilingIsNoOp(items: seq<CartLine>, id: string)
    requires forall i :: 0 <= i < |items| && items[i].id == id ==> items[i].quantity >= items[i].stock
    ensures Reduce(CartState(items), IncreaseQty(id)).items == items
  {
  }

  // ------------------------------------------------------------ DECREASE

  /**
   * DECREASE_QTY takes one unit off the matching lines and then drops every
   * line whose quantity is not positive, the target or not; survivors keep
   * their order.
   */
  lemma DecreaseSpec(items: seq<CartLine>, id: string)
    ensures var r := Reduce(CartState(items), DecreaseQty(id)).items;
      && (forall l :: l in r ==> l.quantity > 0)
      && (forall i :: 0 <= i < |items| && items[i].id != id && items[i].quantity > 0 ==> items[i] in r)
      && (forall i :: 0 <= i < |items| && items[i].id == id && items[i].quantity > 1 ==>
            items[i].(quantity := items[i].quantity - 1) in r)
      && (forall l :: l in r ==> exists i :: 0 <= i < |items| && l == DecrementLine(id)(items[i]))
      && |r| <= |items|
  {
    var m := Map(DecrementLine(id), items);
    forall l | l in Decrease(items, id)
      ensures exists i :: 0 <= i < |items| && l == DecrementLine(id)(items[i])
    {
      var i :| 0 <= i < |m| && m[i] == l;
    }
    forall i | 0 <= i < |items| && items[i].id != id && items[i].quantity > 0
      ensures items[i] in Decrease(items, id)
    {
      assert m[i] == items[i];
    }
    forall i | 0 <= i < |items| && items[i].id == id && items[i].quantity > 1
      ensures items[i].(quantity := items[i].quantity - 1) in Decrease(items, id)
    {
      assert m[i] == items[i].(quantity := items[i].quantity - 1);
    }
  }

  /**
   * DECREASE_QTY works line by line: it distributes over concatenation, and
   * a single line becomes its decremented self when that stays positive and
   * disappears otherwise. So the survivors keep their order and nothing is
   * added or duplicated.
   */
  lemma DecreaseAppend(a: seq<CartLine>, b: seq<CartLine>, l: CartLine, id: string)
    ensures Decrease(a + b, id) == Decrease(a, id) + Decrease(b, id)
    ensures Decrease([l], id) == if DecrementLine(id)(l).quantity > 0 then [DecrementLine(id)(l)] else []
  {
    var f := DecrementLine(id);
    assert Map(f, a + b) == Map(f, a) + Map(f, b);
    FilterAppend(Positive, Map(f, a), Map(f, b));
    assert Map(f, [l]) == [f(l)];
    assert [f(l)][1..] == [];
  }

  /** A zero-quantity line of another product disappears when any line is decreased. */
  lemma DecreaseDropsOtherEmptyLines()
    ensures var a := CartLine("a", "A", 5.0, "", 3, 2);
      var b := CartLine("b", "B", 5.0, "", 3, 0);
      Reduce(CartState([a, b]), DecreaseQty("a")).items == [a.(quantity := 1)]
  {
    var a := CartLine("a", "A", 5.0, "", 3, 2);
    var b := CartLine("b", "B", 5.0, "", 3, 0);
    var m := Map(DecrementLine("a"), [a, b]);
    assert m == [a.(quantity := 1), b];
    assert Filter(Positive, m[1..]) == [];
  }

  // -------------------------------------------------------------- REMOVE

  /** REMOVE_FROM_CART deletes every line with the id and keeps the rest in their order. */
  lemma RemoveSpec(a: seq<CartLine>, b: seq<CartLine>, id: string)
    ensures forall l :: l in Remove(a, id) <==> l in a && l.id != id
    ensures Remove(a + b, id) == Remove(a, id) + Remove(b, id)
  {
    FilterAppend((l: CartLine) => l.id != id, a, b);
  }

  /** Removing an id that is not in the cart changes nothing. */
  lemma RemoveAbsentIsNoOp(items: seq<CartLine>, id: string)
    requires forall i :: 0 <= i < |items| ==> items[i].id != id
    ensures Reduce(CartState(items), RemoveFromCart(id)).items == items
  {
    FilterAll((l: CartLine) => l.id != id, items);
  }

  // -------------------------------------------------------------- UPDATE

  /** UPDATE_CART_ITEM merges the updates into every matching line and keeps the line count. */
  lemma UpdateSpec(items: seq<CartLine>, id: string, u: LineUpdates)
    ensures var r := Reduce(CartState(items), UpdateCartItem(id, u)).items;
      && |r| == |items|
      && forall i :: 0 <= i < |items| ==> r[i] == if items[i].id == id then Merge(items[i], u) else items[i]
  {
  }

  /** UPDATE_CART_ITEM does not clamp: it can lift a valid cart above a line's stock. */
  lemma UpdateCanBreakInvariant()
    ensures var line := CartLine("p1", "Lamp", 20.0, "", 2, 2);
      var u := LineUpdates(None, None, None, None, None, Some(3));
      && Valid([line])
      && !Valid(Reduce(CartState([line]), UpdateCartItem("p1", u)).items)
  {
    var line := CartLine("p1", "Lamp", 20.0, "", 2, 2);
    var u := LineUpdates(None, None, None, None, None, Some(3));
    assert Reduce(CartState([line]), UpdateCartItem("p1", u)).items[0].quantity == 3;
  }

  // --------------------------------------------------------- CLEAR / other

  lemma ClearAndOther(state: CartState)
    ensures Reduce(state, ClearCart).items == []
    ensures Reduce(state, OtherAction) == state
  {
  }

  // ----------------------------------------------------------- invariant

  /** The actions other than UPDATE and ADD-of-a-new-id keep the cart invariant (ADD needs a positive quantity). */
  lemma ReducePreservesValid(state: CartState, action: Action)
    requires Valid(state.items)
    requires !action.UpdateCartItem?
    requires action.AddToCart? ==>
      OrOne(action.payload.quantity) > 0
      && (FindIndex(HasId(action.payload.id), state.items).Some? || ValidLine(NewLine(action.payload)))
    ensures Valid(Reduce(state, action).items)
  {
    var items := state.items;
    match action
    case AddToCart(p) =>
    case RemoveFromCart(id) =>
      var r := Remove(items, id);
      forall i | 0 <= i < |r| ensures ValidLine(r[i]) {
        assert r[i] in items;
      }
    case IncreaseQty(id) =>
    case DecreaseQty(id) =>
      var m := Map(DecrementLine(id), items);
      assert forall i :: 0 <= i < |m| ==> m[i].quantity <= m[i].stock;
      var r := Decrease(items, id);
      forall i | 0 <= i < |r| ensures ValidLine(r[i]) {
        assert r[i] in m;
      }
    case UpdateCartItem(_, _) =>
    case ClearCart =>
    case OtherAction =>
  }
}
