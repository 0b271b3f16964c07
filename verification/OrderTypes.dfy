/** The order entity of the domain: its status enum, the stored record, the
    projection returned to callers and the typed request/response shapes that
    the validated HTTP input is turned into. */
module OrderTypes {
  import opened Results

  /** The lifecycle states of an order. */
  datatype OrderStatus = Pending | Shipped | Delivered | Cancelled

  /** The string each enum member carries on the wire. */
  function StatusName(s: OrderStatus): string
  {
    match s
    case Pending => "pending"
    case Shipped => "shipped"
    case Delivered => "delivered"
    case Cancelled => "cancelled"
  }

  /** Reads a wire string back as an enum member, if it is one. */
  function ParseStatus(name: string): (r: Option<OrderStatus>)
    ensures r.Some? ==> StatusName(r.value) == name
    ensures r.None? ==> forall s: OrderStatus :: StatusName(s) != name
  {
    if name == "pending" then Some(Pending)
    else if name == "shipped" then Some(Shipped)
    else if name == "delivered" then Some(Delivered)
    else if name == "cancelled" then Some(Cancelled)
    else None
  }

  /** The enum has exactly four members, named by four distinct strings. */
  lemma ExactlyFourStatuses()
    ensures forall name: string :: ParseStatus(name).Some? <==>
      name == "pending" || name == "shipped" || name == "delivered" || name == "cancelled"
    ensures forall a: OrderStatus, b: OrderStatus :: StatusName(a) == StatusName(b) ==> a == b
  {
  }

  /** Parsing inverts naming. */
  lemma StatusNameRoundTrip(s: OrderStatus)
    ensures ParseStatus(StatusName(s)) == Some(s)
  {
  }

  /** An instant, kept opaque (milliseconds since the epoch). */
  datatype Timestamp = Timestamp(millis: int)

  /** A stored order. */
  datatype Order = Order(orderId: string, customerId: string, createdAt: Timestamp, status: OrderStatus)

  /** The order as returned by `getOrder`, `updateOrder` and in search results. */
  datatype OrderView = OrderView(orderId: string, customerId: string, status: OrderStatus, createdAt: Timestamp)

  /** Copies the four fields of an order into its response shape. */
  function Project(o: Order): (v: OrderView)
  {
    OrderView(o.orderId, o.customerId, o.status, o.createdAt)
  }

  /** Rebuilds the stored record from its response shape. */
  function Unproject(v: OrderView): (o: Order)
  {
    Order(v.orderId, v.customerId, v.createdAt, v.status)
  }

  /** The projection loses nothing: it is a bijection between records and views. */
  lemma ProjectRoundTrip(o: Order, v: OrderView)
    ensures Unproject(Project(o)) == o
    ensures Project(Unproject(v)) == v
    ensures forall a: Order, b: Order :: Project(a) == Project(b) ==> a == b
  {
    forall a: Order, b: Order | Project(a) == Project(b)
      ensures a == b
    {
      assert Unproject(Project(a)) == a;
    }
  }

  /** Body of `POST /orders` after validation. */
  datatype CreateOrderRequest = CreateOrderRequest(customerId: string)

  /** Result of `createOrder`. */
  datatype OrderCreatedResponse = OrderCreatedResponse(orderId: string)

  /** Path parameters of `GET`/`PUT /orders/:orderId` after validation. */
  datatype GetOrderRequest = GetOrderRequest(orderId: string)

  /** Body of `PUT /orders/:orderId` after validation. */
  datatype UpdateOrderRequest = UpdateOrderRequest(status: OrderStatus)

  /** Query of `GET /orders` after validation (defaults filled in). */
  datatype SearchOrderRequest = SearchOrderRequest(
    customerId: Option<string>,
    status: Option<OrderStatus>,
    offset: int,
    limit: int)

  /** Result of `searchOrders`. */
  datatype SearchOrderResults = SearchOrderResults(data: seq<OrderView>, total: nat, offset: int, limit: int)
}
