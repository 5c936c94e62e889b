/** The Order schema (enum, defaults, required fields), and the Product and User records it refers to. */
module OrderModel {
  import opened Wrappers

  /** ObjectIds are drawn from one increasing counter, so an id also tells creation order. */
  type OrderId = nat
  type ProductId = nat
  type UserId = nat

  datatype Role = Customer | DeliveryPartner | Admin

  /** The six values of the status enum. */
  datatype Status = Pending | Accepted | PickedUp | OnTheWay | Delivered | Cancelled

  /** The enum spelling of a status, as stored and as sent to clients. */
  function StatusName(st: Status): string {
    match st
    case Pending => "pending"
    case Accepted => "accepted"
    case PickedUp => "picked_up"
    case OnTheWay => "on_the_way"
    case Delivered => "delivered"
    case Cancelled => "cancelled"
  }

  /** The enum member a string names, if any. */
  function ParseStatus(s: string): (r: Option<Status>)
    ensures r.Some? ==> StatusName(r.value) == s
    ensures forall st :: StatusName(st) == s ==> r == Some(st)
  {
    if s == "pending" then Some(Pending)
    else if s == "accepted" then Some(Accepted)
    else if s == "picked_up" then Some(PickedUp)
    else if s == "on_the_way" then Some(OnTheWay)
    else if s == "delivered" then Some(Delivered)
    else if s == "cancelled" then Some(Cancelled)
    else None
  }

  /** One line of an order: a product reference and its quantity. */
  datatype Item = Item(product: ProductId, quantity: int)

  /** An item built from request data: the schema default for quantity is 1. */
  function NewItem(product: ProductId, quantity: Option<int>): (it: Item)
    ensures it.product == product
    ensures quantity.None? ==> it.quantity == 1
    ensures quantity.Some? ==> it.quantity == quantity.value
  {
    Item(product, quantity.GetOr(1))
  }

  /** A stored order. customer and totalPrice are required, so they are plain fields;
      deliveryPartner is None while nobody is assigned. Prices are integer cents. */
  datatype Order = Order(
    id: OrderId,
    customer: UserId,
    deliveryPartner: Option<UserId>,
    products: seq<Item>,
    status: Status,
    totalPrice: int,
    createdAt: nat,
    updatedAt: nat)

  /** The invariant every write path keeps: no partner exactly while pending. */
  predicate PartnerIffPending(o: Order) {
    o.deliveryPartner.None? <==> o.status == Pending
  }

  /** A document built by `new Order({customer, products, totalPrice})` and given id and
      timestamps by the store: status and deliveryPartner take their schema defaults. */
  function NewOrder(id: OrderId, customer: UserId, products: seq<Item>, totalPrice: int, now: nat): (o: Order)
    ensures o.id == id && o.customer == customer && o.products == products && o.totalPrice == totalPrice
    ensures o.status == Pending && o.deliveryPartner == None
    ensures o.createdAt == now && o.updatedAt == now
    ensures PartnerIffPending(o)
  {
    Order(id, customer, None, products, Pending, totalPrice, now, now)
  }

  datatype Product = Product(id: ProductId, name: string, description: string, price: int)

  datatype User = User(id: UserId, username: string, email: string, password: string, role: Role)

  /** A user as selected with '-password': every field but the password. */
  datatype PublicUser = PublicUser(id: UserId, username: string, email: string, role: Role)

  function WithoutPassword(u: User): (p: PublicUser)
    ensures p.id == u.id && p.username == u.username && p.email == u.email && p.role == u.role
  {
    PublicUser(u.id, u.username, u.email, u.role)
  }
}
