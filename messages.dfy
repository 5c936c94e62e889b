/** The socket.io messages the server emits with io.emit, to every connection. */
module Messages {
  import opened Wrappers
  import opened OrderModel

  datatype EventName = NewOrderEvent | OrderStatusUpdate | OrderAccepted

  /** A JSON payload: a whole order document, or the object { orderId }. */
  datatype Payload = OrderDoc(order: Order) | OrderIdDoc(orderId: OrderId)

  datatype Event = Emit(name: EventName, payload: Payload)

  /** What a client reads as `payload._id`: only an order document has that field. */
  function UnderscoreId(p: Payload): (r: Option<OrderId>)
    ensures p.OrderDoc? ==> r == Some(p.order.id)
    ensures p.OrderIdDoc? ==> r == None
  {
    match p
    case OrderDoc(o) => Some(o.id)
    case OrderIdDoc(_) => None
  }

  /** What a client reads as `payload.orderId`. */
  function OrderIdField(p: Payload): (r: Option<OrderId>)
    ensures p.OrderIdDoc? ==> r == Some(p.orderId)
    ensures p.OrderDoc? ==> r == None
  {
    match p
    case OrderDoc(_) => None
    case OrderIdDoc(id) => Some(id)
  }
}
