/** The admin dashboard: all orders and all delivery partners, kept live by the socket. */
module AdminDashboard {
  import opened Wrappers
  import opened OrderModel
  import opened AdminController
  import opened ClientLists

  class Dashboard {
    var orders: seq<Order>
    var deliveryPartners: seq<PublicUser>
    var error: string

    constructor ()
      ensures orders == [] && deliveryPartners == [] && error == ""
    {
      orders, deliveryPartners, error := [], [], "";
    }

    /** The new_order handler. */
    method OnNewOrder(o: Order)
      modifies this`orders
      ensures orders == [o] + old(orders)
    {
      orders := [o] + orders;
    }

    /** The order_status_update handler: replace by id; an unlisted order is not inserted. */
    method OnOrderStatusUpdate(u: Order)
      modifies this`orders
      ensures orders == ReplaceById(old(orders), u)
      ensures |orders| == |old(orders)| && Ids(orders) == Ids(old(orders))
    {
      ReplaceKeepsIds(orders, u);
      orders := ReplaceById(orders, u);
    }

    /** The fetch of GET /admin/stats; None when it fails. */
    method Fetch(reply: Option<Stats>)
      modifies this
      ensures reply.Some? ==> orders == reply.value.orders && deliveryPartners == reply.value.deliveryPartners && error == old(error)
      ensures reply.None? ==>
        && orders == old(orders) && deliveryPartners == old(deliveryPartners)
        && error == "Failed to fetch system stats. You may not have admin privileges."
    {
      if reply.Some? {
        orders := reply.value.orders;
        deliveryPartners := reply.value.deliveryPartners;
      } else {
        error := "Failed to fetch system stats. You may not have admin privileges.";
      }
    }
  }
}
