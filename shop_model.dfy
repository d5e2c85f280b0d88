/**
 * The records the storefront client keeps in its store and exchanges with the API.
 */
module ShopModel {
  import opened JsCore

  /**
   * A catalog product as the client receives it from the list and detail
   * endpoints. `stock` is `None` when a property write has left it undefined.
   */
  datatype Product = Product(
    id: string,
    name: string,
    description: string,
    price: real,
    category: string,
    brand: string,
    stock: Option<int>,
    image: string)

  /** `product.stock > 0`, which decides "In Stock" on the card and the detail page; an absent stock compares as false. */
  predicate InStock(p: Product)
  {
    p.stock.Some? && p.stock.value > 0
  }

  /** The signed-in user as the client keeps it; an empty role is an absent one. */
  datatype User = User(id: string, name: string, email: string, role: string, photo: string)

  /** One line of an order: a frozen copy of a cart line. */
  datatype OrderItem = OrderItem(productId: string, name: string, price: real, quantity: int, image: string)

  /** The seven shipping-form fields. */
  datatype Address = Address(
    fullName: string,
    email: string,
    phone: string,
    address: string,
    city: string,
    state: string,
    zipCode: string)

  /** An order; timestamps are milliseconds since the epoch, `totalAmount` may be absent. */
  datatype Order = Order(
    id: string,
    userId: string,
    status: string,
    items: seq<OrderItem>,
    totalAmount: Option<int>,
    shippingAddress: Address,
    createdAt: int,
    updatedAt: int)

  /** The `pagination` object of the product list response. */
  datatype Pagination = Pagination(
    currentPage: int,
    totalPages: nat,
    totalProducts: nat,
    hasNext: bool,
    hasPrev: bool)

  /** `o.status === status`. */
  function StatusIs(status: string): Order -> bool
  {
    (o: Order) => o.status == status
  }

  /**
   * `orders.filter(o => filter === "all" || o.status === filter)`, shared by
   * the admin and order-history views: every order for "all", otherwise
   * exactly the orders with that status, in their original order.
   */
  function FilterByStatus(orders: seq<Order>, filter: string): (r: seq<Order>)
    ensures filter == "all" ==> r == orders
    ensures filter != "all" ==> r == Filter(StatusIs(filter), orders)
    ensures filter != "all" ==> forall o :: o in r <==> o in orders && o.status == filter
  {
    var keep := (o: Order) => filter == "all" || o.status == filter;
    if filter == "all" then FilterAll(keep, orders); Filter(keep, orders)
    else FilterPointwise(keep, StatusIs(filter), orders); Filter(keep, orders)
  }

  /**
   * The status filter distributes over concatenation, and a single order
   * passes exactly when the filter is "all" or its status matches; together
   * these say the shown orders keep their relative order.
   */
  lemma StatusFilterAppend(a: seq<Order>, b: seq<Order>, o: Order, filter: string)
    ensures FilterByStatus(a + b, filter) == FilterByStatus(a, filter) + FilterByStatus(b, filter)
    ensures FilterByStatus([o], filter) == if filter == "all" || o.status == filter then [o] else []
  {
    if filter != "all" {
      FilterAppend(StatusIs(filter), a, b);
      assert [o][1..] == [];
    }
  }
}
