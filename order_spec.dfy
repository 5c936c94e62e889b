/** Reference semantics of the order controller's writes, as functions on a database
    snapshot: each findOneAndUpdate or save is one atomic step. */
module OrderSpec {
  import opened Wrappers
  import opened OrderModel
  import opened Messages
  import opened Database
  import opened AuthMiddleware

  /** One element of the request body's products array. */
  datatype RequestItem = RequestItem(productId: ProductId, quantity: Option<int>)

  /** The state of the pricing loop: the items pushed so far and the running total (None
      once it is NaN), or the product id the loop stopped at. */
  datatype Pricing = Priced(details: seq<Item>, total: Option<int>) | Missing(productId: ProductId)

  /** totalPrice += product.price * item.quantity: a missing quantity makes the total NaN. */
  function AddLine(total: Option<int>, price: int, quantity: Option<int>): Option<int> {
    if total.Some? && quantity.Some? then Some(total.value + price * quantity.value) else None
  }

  /** The pricing loop of createOrder over the items, in request order. */
  function Price(catalog: map<ProductId, Product>, items: seq<RequestItem>): (r: Pricing)
    ensures r.Missing? ==> r.productId !in catalog && exists i :: 0 <= i < |items| && items[i].productId == r.productId
    ensures r.Priced? ==> |r.details| == |items|
    decreases |items|
  {
    if |items| == 0 then Priced([], Some(0))
    else
      match Price(catalog, items[..|items| - 1])
      case Missing(p) => Missing(p)
      case Priced(details, total) =>
        var it := items[|items| - 1];
        if it.productId !in catalog then Missing(it.productId)
        else Priced(details + [NewItem(it.productId, it.quantity)],
                    AddLine(total, catalog[it.productId].price, it.quantity))
  }

  ghost predicate AllFound(catalog: map<ProductId, Product>, items: seq<RequestItem>) {
    forall i :: 0 <= i < |items| ==> items[i].productId in catalog
  }

  ghost predicate AllQuantified(items: seq<RequestItem>) {
    forall i :: 0 <= i < |items| ==> items[i].quantity.Some?
  }

  /** The reference total: the sum of price times quantity over the items. */
  function CartTotal(catalog: map<ProductId, Product>, items: seq<RequestItem>): int
    requires AllFound(catalog, items) && AllQuantified(items)
    decreases |items|
  {
    if |items| == 0 then 0
    else catalog[items[0].productId].price * items[0].quantity.value + CartTotal(catalog, items[1..])
  }

  lemma {:induction false} CartTotalSnoc(catalog: map<ProductId, Product>, items: seq<RequestItem>)
    requires |items| > 0 && AllFound(catalog, items) && AllQuantified(items)
    ensures var last := items[|items| - 1];
      CartTotal(catalog, items) == CartTotal(catalog, items[..|items| - 1]) + catalog[last.productId].price * last.quantity.value
    decreases |items|
  {
    if |items| > 1 {
      CartTotalSnoc(catalog, items[1..]);
      assert items[1..][..|items| - 2] == items[..|items| - 1][1..];
    }
  }

  /** Pricing stops exactly when some item's product is not in the catalog, and reports the
      first such product. */
  lemma {:induction false} PriceMissing(catalog: map<ProductId, Product>, items: seq<RequestItem>)
    ensures Price(catalog, items).Missing? <==> !AllFound(catalog, items)
    ensures Price(catalog, items).Missing? ==>
      exists i :: (0 <= i < |items| && items[i].productId == Price(catalog, items).productId &&
        items[i].productId !in catalog && forall j :: 0 <= j < i ==> items[j].productId in catalog)
    decreases |items|
  {
    if |items| > 0 {
      var init := items[..|items| - 1];
      PriceMissing(catalog, init);
      assert forall j :: 0 <= j < |init| ==> init[j] == items[j];
      if Price(catalog, init).Missing? {
        var i :| 0 <= i < |init| && init[i].productId == Price(catalog, init).productId && init[i].productId !in catalog &&
          forall j :: 0 <= j < i ==> init[j].productId in catalog;
        assert items[i] == init[i];
      } else {
        assert AllFound(catalog, init);
        if items[|items| - 1].productId !in catalog {
          assert !AllFound(catalog, items);
        } else {
          assert AllFound(catalog, items);
        }
      }
    }
  }

  /** When every product resolves, the details are the items in request order, the total is
      NaN exactly when a quantity is missing, and otherwise it is the cart total. */
  lemma {:induction false} PricePriced(catalog: map<ProductId, Product>, items: seq<RequestItem>)
    requires AllFound(catalog, items)
    ensures Price(catalog, items).Priced?
    ensures var p := Price(catalog, items);
      && |p.details| == |items|
      && (forall i :: 0 <= i < |items| ==> p.details[i] == NewItem(items[i].productId, items[i].quantity))
      && (p.total.Some? <==> AllQuantified(items))
      && (p.total.Some? ==> p.total.value == CartTotal(catalog, items))
    decreases |items|
  {
    if |items| > 0 {
      var init := items[..|items| - 1];
      assert forall j :: 0 <= j < |init| ==> init[j] == items[j];
      PricePriced(catalog, init);
      if AllQuantified(items) {
        CartTotalSnoc(catalog, items);
      } else if AllQuantified(init) {
        assert items[|items| - 1].quantity.None?;
      }
    }
  }

  /** Once the loop has stopped on a prefix, the whole cart stops at the same product. */
  lemma {:induction false} MissingPropagates(catalog: map<ProductId, Product>, items: seq<RequestItem>, k: nat)
    requires k <= |items| && Price(catalog, items[..k]).Missing?
    ensures Price(catalog, items) == Price(catalog, items[..k])
    decreases |items| - k
  {
    if k < |items| {
      assert items[..k + 1][..k] == items[..k];
      MissingPropagates(catalog, items, k + 1);
    } else {
      assert items[..k] == items;
    }
  }

  /** The outcome of one write: the new snapshot, the HTTP response, the emitted messages. */
  datatype StepResult = StepResult(db: Db, response: Result<Order>, emitted: seq<Event>)

  /** createOrder: 400 for a missing or empty cart, 404 if some product is unknown, 500 when
      save refuses a NaN total; otherwise a pending order with no partner is inserted under a
      fresh id and then announced with new_order. */
  function CreateStep(db: Db, caller: Claims, products: Option<seq<RequestItem>>): (s: StepResult)
    ensures s.response == Err(BadRequest) <==> products.None? || |products.value| == 0
    ensures s.response.Err? ==> s.response.failure in {BadRequest, NotFound, ServerError}
    ensures s.response.Err? ==> s.db == db && s.emitted == []
    ensures s.response.Ok? ==> var o := s.response.value;
      && o.id == db.clock
      && o.customer == caller.userId && o.status == Pending && o.deliveryPartner == None
      && s.db == db.(orders := db.orders[o.id := o], clock := db.clock + 1)
      && s.emitted == [Emit(NewOrderEvent, OrderDoc(o))]
    ensures Inv(db) ==> s.response.Ok? ==> s.response.value.id !in db.orders
  {
    if products.None? || |products.value| == 0 then StepResult(db, Err(BadRequest), [])
    else
      match Price(db.catalog, products.value)
      case Missing(_) => StepResult(db, Err(NotFound), [])
      case Priced(details, total) =>
        if total.None? then StepResult(db, Err(ServerError), [])
        else
          var o := NewOrder(db.clock, caller.userId, details, total.value, db.clock);
          assert Inv(db) ==> o.id !in db.orders;
          StepResult(db.(orders := db.orders[o.id := o], clock := db.clock + 1), Ok(o), [Emit(NewOrderEvent, OrderDoc(o))])
  }

  /** createOrder's outcome for a non-empty cart: 404 exactly when some product is unknown;
      otherwise the order holds the items in request order and the cart total, or the save is
      refused (500) exactly when a quantity is missing. */
  lemma CreatePricing(db: Db, caller: Claims, items: seq<RequestItem>)
    requires |items| > 0
    ensures var s := CreateStep(db, caller, Some(items));
      && (s.response == Err(NotFound) <==> !AllFound(db.catalog, items))
      && (s.response == Err(ServerError) <==> AllFound(db.catalog, items) && !AllQuantified(items))
      && (s.response.Ok? ==>
            && AllFound(db.catalog, items) && AllQuantified(items)
            && s.response.value.totalPrice == CartTotal(db.catalog, items)
            && |s.response.value.products| == |items|
            && forall i :: 0 <= i < |items| ==>
                 s.response.value.products[i] == Item(items[i].productId, items[i].quantity.value))
  {
    PriceMissing(db.catalog, items);
    if AllFound(db.catalog, items) {
      PricePriced(db.catalog, items);
    }
  }

  /** acceptOrder: findOneAndUpdate({ _id, status: 'pending' }, { deliveryPartner, status:
      'accepted' }). 404 unless the order exists and is still pending; the winner's update is
      broadcast as order_status_update and then { orderId } as order_accepted. */
  function AcceptStep(db: Db, caller: Claims, id: OrderId): (s: StepResult)
    ensures s.response.Ok? <==> id in db.orders && db.orders[id].status == Pending
    ensures s.response.Err? ==> s.response.failure == NotFound && s.db == db && s.emitted == []
    ensures s.response.Ok? ==> var o := s.response.value;
      && o == db.orders[id].(deliveryPartner := Some(caller.userId), status := Accepted, updatedAt := db.clock)
      && s.db == db.(orders := db.orders[id := o], clock := db.clock + 1)
      && s.emitted == [Emit(OrderStatusUpdate, OrderDoc(o)), Emit(OrderAccepted, OrderIdDoc(id))]
  {
    if id in db.orders && db.orders[id].status == Pending then
      var o := db.orders[id].(deliveryPartner := Some(caller.userId), status := Accepted, updatedAt := db.clock);
      StepResult(db.(orders := db.orders[id := o], clock := db.clock + 1), Ok(o),
                 [Emit(OrderStatusUpdate, OrderDoc(o)), Emit(OrderAccepted, OrderIdDoc(id))])
    else StepResult(db, Err(NotFound), [])
  }

  /** The statuses updateOrderStatus accepts from a partner. */
  const ValidStatuses: seq<string> := ["picked_up", "on_the_way", "delivered"]

  /** updateOrderStatus: 400 unless the status is one of ValidStatuses; then
      findOneAndUpdate({ _id, deliveryPartner: caller }, { status }): 404 unless the caller is
      the order's partner. The current status is not consulted. */
  function UpdateStep(db: Db, caller: Claims, id: OrderId, status: string): (s: StepResult)
    ensures s.response == Err(BadRequest) <==> status !in ValidStatuses
    ensures s.response.Ok? <==>
      status in ValidStatuses && id in db.orders && db.orders[id].deliveryPartner == Some(caller.userId)
    ensures s.response.Err? && status in ValidStatuses ==> s.response.failure == NotFound
    ensures s.response.Err? ==> s.db == db && s.emitted == []
    ensures s.response.Ok? ==> var o := s.response.value;
      && StatusName(o.status) == status && o.status != Pending
      && o == db.orders[id].(status := o.status, updatedAt := db.clock)
      && s.db == db.(orders := db.orders[id := o], clock := db.clock + 1)
      && s.emitted == [Emit(OrderStatusUpdate, OrderDoc(o))]
  {
    if status !in ValidStatuses then StepResult(db, Err(BadRequest), [])
    else if id in db.orders && db.orders[id].deliveryPartner == Some(caller.userId) then
      var st := ParseStatus(status);
      assert st.Some?;
      var o := db.orders[id].(status := st.value, updatedAt := db.clock);
      StepResult(db.(orders := db.orders[id := o], clock := db.clock + 1), Ok(o), [Emit(OrderStatusUpdate, OrderDoc(o))])
    else StepResult(db, Err(NotFound), [])
  }

  /** A call of one of the writing controller functions, with the caller's req.userData. */
  datatype Op =
    | CreateOp(caller: Claims, products: Option<seq<RequestItem>>)
    | AcceptOp(caller: Claims, id: OrderId)
    | UpdateOp(caller: Claims, id: OrderId, status: string)

  function Step(db: Db, op: Op): StepResult {
    match op
    case CreateOp(c, ps) => CreateStep(db, c, ps)
    case AcceptOp(c, id) => AcceptStep(db, c, id)
    case UpdateOp(c, id, st) => UpdateStep(db, c, id, st)
  }

  /** Every write keeps the store's invariant, in particular "no partner exactly while pending". */
  lemma StepPreservesInv(db: Db, op: Op)
    requires Inv(db)
    ensures Inv(Step(db, op).db)
  {
  }

  /** The writes applied one after the other, with their responses. */
  function Run(db: Db, ops: seq<Op>): (r: (Db, seq<Result<Order>>))
    ensures |r.1| == |ops|
    decreases |ops|
  {
    if ops == [] then (db, [])
    else
      var s := Step(db, ops[0]);
      var rest := Run(s.db, ops[1..]);
      (rest.0, [s.response] + rest.1)
  }

  /** No write ever puts an order back to pending. */
  lemma NeverPendingAgain(db: Db, op: Op, id: OrderId)
    requires Inv(db) && id in db.orders && db.orders[id].status != Pending
    ensures id in Step(db, op).db.orders && Step(db, op).db.orders[id].status != Pending
  {
  }

  /** Once an order has left pending, every later accept of it fails with 404. */
  lemma {:induction false} AcceptNeverAgain(db: Db, ops: seq<Op>, id: OrderId)
    requires Inv(db) && id in db.orders && db.orders[id].status != Pending
    ensures forall j :: 0 <= j < |ops| && ops[j].AcceptOp? && ops[j].id == id ==>
      Run(db, ops).1[j] == Err(NotFound)
    decreases |ops|
  {
    if ops != [] {
      var s := Step(db, ops[0]);
      StepPreservesInv(db, ops[0]);
      NeverPendingAgain(db, ops[0], id);
      AcceptNeverAgain(s.db, ops[1..], id);
      forall j | 0 <= j < |ops| && ops[j].AcceptOp? && ops[j].id == id
        ensures Run(db, ops).1[j] == Err(NotFound)
      {
        if j > 0 { assert ops[1..][j - 1] == ops[j]; }
      }
    }
  }

  /** Claims are race-free: of any two accepts of the same order in a run, at most one succeeds. */
  lemma {:induction false} AtMostOneAccept(db: Db, ops: seq<Op>, id: OrderId, i: nat, j: nat)
    requires Inv(db)
    requires i < j < |ops|
    requires ops[i].AcceptOp? && ops[i].id == id && ops[j].AcceptOp? && ops[j].id == id
    ensures !(Run(db, ops).1[i].Ok? && Run(db, ops).1[j].Ok?)
    decreases i
  {
    var s := Step(db, ops[0]);
    StepPreservesInv(db, ops[0]);
    assert ops[1..][j - 1] == ops[j];
    if i == 0 {
      if s.response.Ok? {
        AcceptNeverAgain(s.db, ops[1..], id);
      }
    } else {
      assert ops[1..][i - 1] == ops[i];
      AtMostOneAccept(s.db, ops[1..], id, i - 1, j - 1);
    }
  }

  /** A write that is not an accept of a pending order leaves that order as it was: a create
      uses a fresh id, and an update needs a partner, which a pending order does not have. */
  lemma OtherWriteKeepsPending(db: Db, op: Op, id: OrderId)
    requires Inv(db) && id in db.orders && db.orders[id].status == Pending
    requires !(op.AcceptOp? && op.id == id)
    ensures id in Step(db, op).db.orders && Step(db, op).db.orders[id] == db.orders[id]
  {
  }

  /** The other half of exactly-one-claim: in any run, the first accept of a pending order
      succeeds and records its caller as the partner. With AtMostOneAccept, every later accept
      of that order fails. */
  lemma {:induction false} FirstAcceptWins(db: Db, ops: seq<Op>, id: OrderId, i: nat)
    requires Inv(db) && id in db.orders && db.orders[id].status == Pending
    requires i < |ops| && ops[i].AcceptOp? && ops[i].id == id
    requires forall k :: 0 <= k < i ==> !(ops[k].AcceptOp? && ops[k].id == id)
    ensures Run(db, ops).1[i].Ok?
    ensures Run(db, ops).1[i].value.deliveryPartner == Some(ops[i].caller.userId)
    decreases i
  {
    var s := Step(db, ops[0]);
    if i > 0 {
      StepPreservesInv(db, ops[0]);
      OtherWriteKeepsPending(db, ops[0], id);
      forall k | 0 <= k < i - 1
        ensures !(ops[1..][k].AcceptOp? && ops[1..][k].id == id)
      {
        assert ops[1..][k] == ops[k + 1];
      }
      assert ops[1..][i - 1] == ops[i];
      FirstAcceptWins(s.db, ops[1..], id, i - 1);
    }
  }

  /** Exactly one claim: the first accept of a pending order wins for its caller, and every
      later accept of that order in the run fails. */
  lemma ExactlyOneAccept(db: Db, ops: seq<Op>, id: OrderId, i: nat)
    requires Inv(db) && id in db.orders && db.orders[id].status == Pending
    requires i < |ops| && ops[i].AcceptOp? && ops[i].id == id
    requires forall k :: 0 <= k < i ==> !(ops[k].AcceptOp? && ops[k].id == id)
    ensures Run(db, ops).1[i].Ok? && Run(db, ops).1[i].value.deliveryPartner == Some(ops[i].caller.userId)
    ensures forall j :: i < j < |ops| && ops[j].AcceptOp? && ops[j].id == id ==> Run(db, ops).1[j].Err?
  {
    FirstAcceptWins(db, ops, id, i);
    forall j | i < j < |ops| && ops[j].AcceptOp? && ops[j].id == id
      ensures Run(db, ops).1[j].Err?
    {
      AtMostOneAccept(db, ops, id, i, j);
    }
  }

  /** Two partners claim the same pending order one right after the other: the first gets it,
      the second gets 404, and the order names the first as its partner. */
  lemma TwoPartnersRace(db: Db, id: OrderId, p1: Claims, p2: Claims)
    requires Inv(db) && id in db.orders && db.orders[id].status == Pending
    ensures var r := Run(db, [AcceptOp(p1, id), AcceptOp(p2, id)]);
      && r.1[0].Ok? && r.1[0].value.deliveryPartner == Some(p1.userId)
      && r.1[1] == Err(NotFound)
      && id in r.0.orders && r.0.orders[id].deliveryPartner == Some(p1.userId)
  {
    var ops := [AcceptOp(p1, id), AcceptOp(p2, id)];
    var s := Step(db, ops[0]);
    assert ops[1..] == [AcceptOp(p2, id)];
    assert Run(s.db, ops[1..]).1 == [Err(NotFound)];
    assert Run(s.db, ops[1..]).0 == s.db;
  }
}
