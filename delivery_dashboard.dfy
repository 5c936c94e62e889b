/** The delivery partner dashboard: the unassigned orders and the partner's own orders. */
module DeliveryDashboard {
  import opened Wrappers
  import opened OrderModel
  import opened Messages
  import opened Database
  import opened AuthMiddleware
  import opened OrderSpec
  import opened ClientLists

  /** The order_accepted handler as written: it filters on the payload's `_id`. */
  function AcceptedFilterAsWritten(unassigned: seq<Order>, p: Payload): (r: seq<Order>)
    ensures forall o :: o in r <==> o in unassigned && Some(o.id) != UnderscoreId(p)
  {
    Without(unassigned, UnderscoreId(p))
  }

  /** The server's order_accepted payload is { orderId }, which has no `_id`: the handler as
      written removes nothing, so an order another partner claimed stays listed. */
  lemma AcceptedFilterAsWrittenRemovesNothing(db: Db, caller: Claims, id: OrderId, unassigned: seq<Order>)
    requires AcceptStep(db, caller, id).response.Ok?
    ensures var accepted := AcceptStep(db, caller, id).emitted[1];
      && accepted == Emit(OrderAccepted, OrderIdDoc(id))
      && AcceptedFilterAsWritten(unassigned, accepted.payload) == unassigned
  {
    WithoutAbsent(unassigned, None);
  }

  /** The handler reading the field the server sends: it drops exactly the claimed order. */
  function AcceptedFilter(unassigned: seq<Order>, p: Payload): (r: seq<Order>)
    ensures p.OrderIdDoc? ==> forall o :: o in r <==> o in unassigned && o.id != p.orderId
  {
    Without(unassigned, OrderIdField(p))
  }

  /** With the server's payload, the corrected handler removes the claimed order and keeps the
      others in order. */
  lemma AcceptedFilterRemovesClaimed(db: Db, caller: Claims, id: OrderId, a: seq<Order>, b: seq<Order>)
    requires AcceptStep(db, caller, id).response.Ok?
    ensures var p := AcceptStep(db, caller, id).emitted[1].payload;
      && AcceptedFilter(a + b, p) == AcceptedFilter(a, p) + AcceptedFilter(b, p)
      && forall o :: o in AcceptedFilter(a + b, p) <==> o in a + b && o.id != id
  {
    WithoutConcat(a, b, Some(id));
  }

  class Dashboard {
    var unassignedOrders: seq<Order>
    var myOrders: seq<Order>
    var error: string

    constructor ()
      ensures unassignedOrders == [] && myOrders == [] && error == ""
    {
      unassignedOrders, myOrders, error := [], [], "";
    }

    /** The fetch of GET /orders/unassigned and GET /orders/my-orders; None when either fails. */
    method Fetch(reply: Option<(seq<Order>, seq<Order>)>)
      modifies this
      ensures reply.Some? ==> unassignedOrders == reply.value.0 && myOrders == reply.value.1 && error == ""
      ensures reply.None? ==>
        unassignedOrders == old(unassignedOrders) && myOrders == old(myOrders) && error == "Failed to fetch orders."
    {
      if reply.Some? {
        unassignedOrders := reply.value.0;
        myOrders := reply.value.1;
        error := "";
      } else {
        error := "Failed to fetch orders.";
      }
    }

    /** The new_order handler. */
    method OnNewOrder(o: Order)
      modifies this`unassignedOrders
      ensures unassignedOrders == [o] + old(unassignedOrders)
    {
      unassignedOrders := [o] + unassignedOrders;
    }

    /** The order_accepted handler, reading the payload's orderId. */
    method OnOrderAccepted(p: Payload)
      modifies this`unassignedOrders
      ensures unassignedOrders == AcceptedFilter(old(unassignedOrders), p)
    {
      unassignedOrders := AcceptedFilter(unassignedOrders, p);
    }

    /** handleAcceptOrder: PATCH /orders/:orderId/accept answered with `reply`. On success the
        order leaves the unassigned list and the accepted order is appended to myOrders; on
        failure both lists stay and the error is set. */
    method HandleAcceptOrder(orderId: OrderId, reply: Result<Order>)
      modifies this
      ensures reply.Ok? ==>
        && unassignedOrders == Without(old(unassignedOrders), Some(orderId))
        && myOrders == old(myOrders) + [reply.value]
        && error == old(error)
      ensures reply.Err? ==>
        && unassignedOrders == old(unassignedOrders) && myOrders == old(myOrders)
        && error == "Failed to accept order. It might have already been taken."
    {
      if reply.Ok? {
        unassignedOrders := Without(unassignedOrders, Some(orderId));
        myOrders := myOrders + [reply.value];
      } else {
        error := "Failed to accept order. It might have already been taken.";
      }
    }
  }
}
