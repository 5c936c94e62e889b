/** The order controller: the writes as methods on the store, each proved against its step
    in OrderSpec, and the read-only queries as functions of the collections. */
module OrderController {
  import opened Wrappers
  import opened OrderModel
  import opened Messages
  import opened Database
  import opened AuthMiddleware
  import opened OrderSpec

  /** The validation and pricing loop of createOrder: Product.findById per item, stopping at
      the first unknown product, accumulating the total and the item list. */
  method PriceCart(store: Store, items: seq<RequestItem>) returns (r: Pricing)
    ensures r == Price(store.catalog, items)
  {
    var details: seq<Item> := [];
    var total: Option<int> := Some(0);
    var i := 0;
    while i < |items|
      invariant 0 <= i <= |items|
      invariant Price(store.catalog, items[..i]) == Priced(details, total)
    {
      var item := items[i];
      assert items[..i + 1][..i] == items[..i];
      if item.productId !in store.catalog {
        MissingPropagates(store.catalog, items, i + 1);
        return Missing(item.productId);
      }
      total := AddLine(total, store.catalog[item.productId].price, item.quantity);
      details := details + [NewItem(item.productId, item.quantity)];
      i := i + 1;
    }
    assert items[..i] == items;
    r := Priced(details, total);
  }

  /** createOrder: validate, price, save, then emit new_order. */
  method CreateOrder(store: Store, caller: Claims, products: Option<seq<RequestItem>>) returns (r: Result<Order>)
    requires store.Valid()
    modifies store
    ensures store.Valid()
    ensures var s := CreateStep(old(store.State()), caller, products);
      r == s.response && store.State() == s.db && store.events == old(store.events) + s.emitted
  {
    ghost var before := store.State();
    if products.None? || |products.value| == 0 {
      return Err(BadRequest);
    }
    var priced := PriceCart(store, products.value);
    match priced
    case Missing(_) =>
      return Err(NotFound);
    case Priced(details, total) =>
      if total.None? {
        return Err(ServerError);
      }
      var o := NewOrder(store.clock, caller.userId, details, total.value, store.clock);
      store.orders := store.orders[o.id := o];
      store.clock := store.clock + 1;
      store.events := store.events + [Emit(NewOrderEvent, OrderDoc(o))];
      r := Ok(o);
      StepPreservesInv(before, CreateOp(caller, products));
  }

  /** acceptOrder: one conditional update keyed on status 'pending'. */
  method AcceptOrder(store: Store, caller: Claims, id: OrderId) returns (r: Result<Order>)
    requires store.Valid()
    modifies store
    ensures store.Valid()
    ensures var s := AcceptStep(old(store.State()), caller, id);
      r == s.response && store.State() == s.db && store.events == old(store.events) + s.emitted
  {
    ghost var before := store.State();
    if id in store.orders && store.orders[id].status == Pending {
      var o := store.orders[id].(deliveryPartner := Some(caller.userId), status := Accepted, updatedAt := store.clock);
      store.orders := store.orders[id := o];
      store.clock := store.clock + 1;
      store.events := store.events + [Emit(OrderStatusUpdate, OrderDoc(o)), Emit(OrderAccepted, OrderIdDoc(id))];
      r := Ok(o);
    } else {
      r := Err(NotFound);
    }
    StepPreservesInv(before, AcceptOp(caller, id));
  }

  /** updateOrderStatus: a status check, then one conditional update keyed on the assignee. */
  method UpdateOrderStatus(store: Store, caller: Claims, id: OrderId, status: string) returns (r: Result<Order>)
    requires store.Valid()
    modifies store
    ensures store.Valid()
    ensures var s := UpdateStep(old(store.State()), caller, id, status);
      r == s.response && store.State() == s.db && store.events == old(store.events) + s.emitted
  {
    ghost var before := store.State();
    if status !in ValidStatuses {
      return Err(BadRequest);
    }
    if id in store.orders && store.orders[id].deliveryPartner == Some(caller.userId) {
      var st := ParseStatus(status);
      var o := store.orders[id].(status := st.value, updatedAt := store.clock);
      store.orders := store.orders[id := o];
      store.clock := store.clock + 1;
      store.events := store.events + [Emit(OrderStatusUpdate, OrderDoc(o))];
      r := Ok(o);
    } else {
      r := Err(NotFound);
    }
    StepPreservesInv(before, UpdateOp(caller, id, status));
  }

  /** getCustomerOrders: the caller's orders as customer, newest first. */
  function GetCustomerOrders(db: Db, caller: Claims): (r: seq<Order>)
    ensures forall o :: o in r ==> o.customer == caller.userId
    ensures forall k :: k in db.orders && k < db.clock && db.orders[k].customer == caller.userId ==> db.orders[k] in r
  {
    SelectComplete(db.orders, ByCustomer(caller.userId), db.clock, true);
    Select(db.orders, ByCustomer(caller.userId), db.clock, true)
  }

  /** getDeliveryPartnerOrders: the orders assigned to the caller, newest first. */
  function GetDeliveryPartnerOrders(db: Db, caller: Claims): (r: seq<Order>)
    ensures forall o :: o in r ==> o.deliveryPartner == Some(caller.userId)
    ensures forall k :: k in db.orders && k < db.clock && db.orders[k].deliveryPartner == Some(caller.userId) ==> db.orders[k] in r
  {
    SelectComplete(db.orders, ByPartner(caller.userId), db.clock, true);
    Select(db.orders, ByPartner(caller.userId), db.clock, true)
  }

  /** getMyOrders: by customer for customers, by partner for delivery partners, [] otherwise. */
  function GetMyOrders(db: Db, caller: Claims): (r: seq<Order>)
    ensures caller.role == Customer ==> r == GetCustomerOrders(db, caller)
    ensures caller.role == DeliveryPartner ==> r == GetDeliveryPartnerOrders(db, caller)
    ensures caller.role == Admin ==> r == []
  {
    match caller.role
    case Customer => GetCustomerOrders(db, caller)
    case DeliveryPartner => GetDeliveryPartnerOrders(db, caller)
    case Admin => []
  }

  /** getUnassignedOrders: Order.find({ status: 'pending' }), in natural order. */
  function GetUnassignedOrders(db: Db): (r: seq<Order>)
    ensures forall o :: o in r ==> o.status == Pending
    ensures forall k :: k in db.orders && k < db.clock && db.orders[k].status == Pending ==> db.orders[k] in r
  {
    SelectComplete(db.orders, ByStatus(Pending), db.clock, false);
    Select(db.orders, ByStatus(Pending), db.clock, false)
  }

  /** getOrderById: the order, or 404. */
  function GetOrderById(db: Db, id: OrderId): (r: Result<Order>)
    ensures r.Ok? <==> id in db.orders
    ensures r.Ok? ==> r.value == db.orders[id]
    ensures r.Err? ==> r.failure == NotFound
  {
    if id in db.orders then Ok(db.orders[id]) else Err(NotFound)
  }

  /** getAllOrders: every order, newest first. */
  function GetAllOrders(db: Db): (r: seq<Order>)
    ensures forall o :: o in r ==> o in db.orders.Values
    ensures forall k :: k in db.orders && k < db.clock ==> db.orders[k] in r
  {
    SelectComplete(db.orders, All, db.clock, true);
    Select(db.orders, All, db.clock, true)
  }

  /** The order stored under its id. */
  ghost predicate Stored(db: Db, o: Order) {
    o.id in db.orders && db.orders[o.id] == o
  }

  /** getMyOrders returns exactly the caller's orders (as customer or as assigned partner),
      each once, newest first. */
  lemma MyOrdersSpec(db: Db, caller: Claims)
    requires Inv(db)
    ensures var r := GetMyOrders(db, caller);
      && NewestFirst(r)
      && (caller.role == Customer ==> forall o :: o in r <==> Stored(db, o) && o.customer == caller.userId)
      && (caller.role == DeliveryPartner ==> forall o :: o in r <==> Stored(db, o) && o.deliveryPartner == Some(caller.userId))
      && (caller.role == Admin ==> r == [])
  {
    SelectSpec(db.orders, ByCustomer(caller.userId), db.clock, true);
    SelectSpec(db.orders, ByPartner(caller.userId), db.clock, true);
  }

  /** getUnassignedOrders returns exactly the pending orders, which are exactly the orders
      without a delivery partner, in creation order. */
  lemma UnassignedSpec(db: Db)
    requires Inv(db)
    ensures var r := GetUnassignedOrders(db);
      && OldestFirst(r)
      && (forall o :: o in r <==> Stored(db, o) && o.status == Pending)
      && (forall o :: o in r <==> Stored(db, o) && o.deliveryPartner == None)
  {
    SelectSpec(db.orders, ByStatus(Pending), db.clock, false);
  }

  /** getAllOrders returns every stored order, each once, newest first. */
  lemma AllOrdersSpec(db: Db)
    requires Inv(db)
    ensures var r := GetAllOrders(db);
      NewestFirst(r) && forall o :: o in r <==> Stored(db, o)
  {
    SelectSpec(db.orders, All, db.clock, true);
  }
}
