/** The MongoDB collections the controllers work on, and the find/sort semantics they rely on. */
module Database {
  import opened Wrappers
  import opened OrderModel
  import opened Messages

  /** A snapshot of the collections. `clock` is the ObjectId/timestamp counter: every id and
      every timestamp issued so far is below it. */
  datatype Db = Db(
    orders: map<OrderId, Order>,
    catalog: map<ProductId, Product>,
    users: seq<User>,
    clock: nat)

  /** What the store keeps true: records sit under their own id, ids and timestamps are issued
      by the clock, an order is created before it is updated, and every order has a delivery
      partner exactly when it is no longer pending. */
  ghost predicate Inv(db: Db) {
    && (forall k :: k in db.orders ==>
          && db.orders[k].id == k
          && db.orders[k].createdAt == k
          && k <= db.orders[k].updatedAt < db.clock
          && PartnerIffPending(db.orders[k]))
    && (forall k :: k in db.catalog ==> db.catalog[k].id == k && k < db.clock)
  }

  /** The query documents the order controller passes to Order.find. */
  datatype Query = All | ByCustomer(customer: UserId) | ByPartner(partner: UserId) | ByStatus(status: Status)

  predicate Matches(q: Query, o: Order) {
    match q
    case All => true
    case ByCustomer(c) => o.customer == c
    case ByPartner(p) => o.deliveryPartner == Some(p)
    case ByStatus(st) => o.status == st
  }

  /** Order.find(q) over the ids below n, in natural (creation) order, or newest first when
      the query is sorted by { createdAt: -1 }. */
  function Select(orders: map<OrderId, Order>, q: Query, n: nat, newestFirst: bool): (r: seq<Order>)
    ensures |r| <= n
    ensures forall o :: o in r ==> Matches(q, o) && o in orders.Values
  {
    if n == 0 then []
    else
      var hit := if n - 1 in orders && Matches(q, orders[n - 1]) then [orders[n - 1]] else [];
      var rest := Select(orders, q, n - 1, newestFirst);
      if newestFirst then hit + rest else rest + hit
  }

  /** Orders stored under their own id. */
  ghost predicate Keyed(orders: map<OrderId, Order>) {
    forall k :: k in orders ==> orders[k].id == k
  }

  /** Everything Select returns is a stored order below n that matches the query. */
  lemma {:induction false} SelectSound(orders: map<OrderId, Order>, q: Query, n: nat, newestFirst: bool)
    requires Keyed(orders)
    ensures forall o :: o in Select(orders, q, n, newestFirst) ==>
      o.id < n && o.id in orders && orders[o.id] == o && Matches(q, o)
  {
    if n > 0 { SelectSound(orders, q, n - 1, newestFirst); }
  }

  /** Every stored order below n that matches the query is returned. */
  lemma {:induction false} SelectComplete(orders: map<OrderId, Order>, q: Query, n: nat, newestFirst: bool)
    ensures forall k :: k in orders && k < n && Matches(q, orders[k]) ==> orders[k] in Select(orders, q, n, newestFirst)
  {
    if n > 0 { SelectComplete(orders, q, n - 1, newestFirst); }
  }

  /** Ids strictly increase along r: the natural (creation) order. */
  ghost predicate OldestFirst(r: seq<Order>) {
    forall i, j :: 0 <= i < j < |r| ==> r[i].id < r[j].id
  }

  /** Ids strictly decrease along r: the order of sort({ createdAt: -1 }). */
  ghost predicate NewestFirst(r: seq<Order>) {
    forall i, j :: 0 <= i < j < |r| ==> r[i].id > r[j].id
  }

  /** Select orders its result by id: ascending in natural order, descending newest first. */
  lemma {:induction false} SelectSorted(orders: map<OrderId, Order>, q: Query, n: nat, newestFirst: bool)
    requires Keyed(orders)
    ensures newestFirst ==> NewestFirst(Select(orders, q, n, newestFirst))
    ensures !newestFirst ==> OldestFirst(Select(orders, q, n, newestFirst))
  {
    if n > 0 {
      var rest := Select(orders, q, n - 1, newestFirst);
      var hit := if n - 1 in orders && Matches(q, orders[n - 1]) then [orders[n - 1]] else [];
      SelectSorted(orders, q, n - 1, newestFirst);
      SelectSound(orders, q, n - 1, newestFirst);
      assert forall o :: o in hit ==> o.id == n - 1;
      if newestFirst {
        PrependNewer(hit, rest);
      } else {
        AppendNewer(rest, hit);
      }
    }
  }

  lemma PrependNewer(hit: seq<Order>, rest: seq<Order>)
    requires |hit| <= 1 && NewestFirst(rest)
    requires forall o, p :: o in hit && p in rest ==> o.id > p.id
    ensures NewestFirst(hit + rest)
  {
    var r := hit + rest;
    forall i, j | 0 <= i < j < |r| ensures r[i].id > r[j].id {
      assert r[j] == rest[j - |hit|] && r[j] in rest;
      if i >= |hit| { assert r[i] == rest[i - |hit|]; } else { assert r[i] in hit; }
    }
  }

  lemma AppendNewer(rest: seq<Order>, hit: seq<Order>)
    requires |hit| <= 1 && OldestFirst(rest)
    requires forall o, p :: o in hit && p in rest ==> o.id > p.id
    ensures OldestFirst(rest + hit)
  {
    var r := rest + hit;
    forall i, j | 0 <= i < j < |r| ensures r[i].id < r[j].id {
      assert r[i] == rest[i] && r[i] in rest;
      if j < |rest| { assert r[j] == rest[j]; } else { assert r[j] in hit; }
    }
  }

  /** Over a store whose ids are all below n, Select returns exactly the matching orders,
      each once, ordered by id and so by createdAt. */
  lemma SelectSpec(orders: map<OrderId, Order>, q: Query, n: nat, newestFirst: bool)
    requires Keyed(orders)
    requires forall k :: k in orders ==> k < n
    ensures var r := Select(orders, q, n, newestFirst);
      && (forall o :: o in r ==> o.id in orders && orders[o.id] == o && Matches(q, o))
      && (forall k :: k in orders && Matches(q, orders[k]) ==> orders[k] in r)
      && (if newestFirst then NewestFirst(r) else OldestFirst(r))
  {
    SelectSound(orders, q, n, newestFirst);
    SelectComplete(orders, q, n, newestFirst);
    SelectSorted(orders, q, n, newestFirst);
  }

  /** Product.find({}) over the ids below n, in natural order. */
  function Listing(catalog: map<ProductId, Product>, n: nat): (r: seq<Product>)
    ensures |r| <= n
    ensures forall p :: p in r ==> p in catalog.Values
  {
    if n == 0 then []
    else Listing(catalog, n - 1) + (if n - 1 in catalog then [catalog[n - 1]] else [])
  }

  /** The listing holds exactly the catalog's products below n. */
  lemma {:induction false} ListingSpec(catalog: map<ProductId, Product>, n: nat)
    requires forall k :: k in catalog ==> catalog[k].id == k
    ensures forall p :: p in Listing(catalog, n) <==> p.id in catalog && p.id < n && catalog[p.id] == p
    ensures forall i, j :: 0 <= i < j < |Listing(catalog, n)| ==> Listing(catalog, n)[i].id < Listing(catalog, n)[j].id
  {
    if n > 0 {
      ListingSpec(catalog, n - 1);
      var rest := Listing(catalog, n - 1);
      var r := Listing(catalog, n);
      forall i, j | 0 <= i < j < |r| ensures r[i].id < r[j].id {
        assert r[i] == rest[i];
        if j < |rest| { assert r[j] == rest[j]; } else { assert r[j] == catalog[n - 1] && rest[i] in rest; }
      }
    }
  }

  /** The database: the collections, updated in place by the controllers, and a log of every
      message emitted on the socket server. */
  class Store {
    var orders: map<OrderId, Order>
    var catalog: map<ProductId, Product>
    var users: seq<User>
    var clock: nat
    ghost var events: seq<Event>

    function State(): Db
      reads this
    {
      Db(orders, catalog, users, clock)
    }

    ghost predicate Valid()
      reads this
    {
      Inv(State())
    }

    /** An empty database with the registered users. */
    constructor (users: seq<User>)
      ensures Valid()
      ensures orders == map[] && catalog == map[] && this.users == users && clock == 0 && events == []
    {
      orders := map[];
      catalog := map[];
      this.users := users;
      clock := 0;
      events := [];
    }
  }
}
