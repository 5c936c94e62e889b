/** getSystemStats, served by GET /admin/stats behind authMiddleware and roleMiddleware(['admin']). */
module AdminController {
  import opened OrderModel
  import opened Database
  import opened AuthMiddleware

  datatype Stats = Stats(orders: seq<Order>, deliveryPartners: seq<PublicUser>)

  /** User.find({ role: 'delivery_partner' }, '-password'): the partners, without passwords,
      in natural order. */
  function DeliveryPartners(users: seq<User>): (r: seq<PublicUser>)
    ensures |r| <= |users|
    ensures forall p :: p in r <==> exists u :: u in users && u.role == DeliveryPartner && p == WithoutPassword(u)
    decreases |users|
  {
    if users == [] then []
    else
      var rest := DeliveryPartners(users[1..]);
      assert forall u :: u in users[1..] ==> u in users;
      assert forall u :: u in users ==> u == users[0] || u in users[1..];
      if users[0].role == DeliveryPartner then [WithoutPassword(users[0])] + rest else rest
  }

  /** getSystemStats: every order newest first, and the delivery partners. A read-only query:
      it takes the database snapshot and returns a value. Only admins reach it. */
  function GetSystemStats(db: Db, caller: Claims): (r: Stats)
    requires caller.role == Admin
    ensures r.deliveryPartners == DeliveryPartners(db.users)
  {
    Stats(Select(db.orders, All, db.clock, true), DeliveryPartners(db.users))
  }

  /** The snapshot holds every stored order once, newest first. */
  lemma StatsOrders(db: Db, caller: Claims)
    requires caller.role == Admin && Inv(db)
    ensures var r := GetSystemStats(db, caller).orders;
      NewestFirst(r) && forall o :: o in r <==> o.id in db.orders && db.orders[o.id] == o
  {
    SelectSpec(db.orders, All, db.clock, true);
  }
}
