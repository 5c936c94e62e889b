/** The list updates the dashboards build with Array.prototype.map and filter over orders. */
module ClientLists {
  import opened Wrappers
  import opened OrderModel

  /** list.map(o => o._id === u._id ? u : o) */
  function ReplaceById(list: seq<Order>, u: Order): (r: seq<Order>)
    ensures |r| == |list|
    ensures forall i :: 0 <= i < |list| && list[i].id == u.id ==> r[i] == u
    ensures forall i :: 0 <= i < |list| && list[i].id != u.id ==> r[i] == list[i]
    decreases |list|
  {
    if list == [] then []
    else [if list[0].id == u.id then u else list[0]] + ReplaceById(list[1..], u)
  }

  /** The ids of a list, position by position. */
  function Ids(list: seq<Order>): (r: seq<OrderId>)
    ensures |r| == |list| && forall i :: 0 <= i < |list| ==> r[i] == list[i].id
  {
    seq(|list|, i requires 0 <= i < |list| => list[i].id)
  }

  /** Replacing keeps every position's id, and an update for an id that is not listed is
      dropped rather than inserted. */
  lemma ReplaceKeepsIds(list: seq<Order>, u: Order)
    ensures Ids(ReplaceById(list, u)) == Ids(list)
    ensures (forall o :: o in list ==> o.id != u.id) ==> ReplaceById(list, u) == list
    ensures u !in list && (forall o :: o in list ==> o.id != u.id) ==> u !in ReplaceById(list, u)
  {
    var r := ReplaceById(list, u);
    if forall o :: o in list ==> o.id != u.id {
      assert forall i :: 0 <= i < |list| ==> list[i] in list;
    }
  }

  /** Replacing twice with the same order is replacing once. */
  lemma ReplaceIdempotent(list: seq<Order>, u: Order)
    ensures ReplaceById(ReplaceById(list, u), u) == ReplaceById(list, u)
  {
  }

  /** list.filter(o => o._id !== x), where x is an order id or, for a payload without that
      field, undefined (None): nothing is then equal to it. */
  function Without(list: seq<Order>, x: Option<OrderId>): (r: seq<Order>)
    ensures |r| <= |list|
    ensures forall o :: o in r <==> o in list && Some(o.id) != x
    decreases |list|
  {
    if list == [] then []
    else
      var rest := Without(list[1..], x);
      assert forall o :: o in list <==> o == list[0] || o in list[1..];
      if Some(list[0].id) != x then [list[0]] + rest else rest
  }

  /** Filtering keeps relative order: it distributes over concatenation. */
  lemma {:induction false} WithoutConcat(a: seq<Order>, b: seq<Order>, x: Option<OrderId>)
    ensures Without(a + b, x) == Without(a, x) + Without(b, x)
    decreases |a|
  {
    if a == [] {
      assert a + b == b;
    } else {
      assert (a + b)[0] == a[0] && (a + b)[1..] == a[1..] + b;
      WithoutConcat(a[1..], b, x);
    }
  }

  /** Filtering out an id that no entry has, or undefined, changes nothing. */
  lemma {:induction false} WithoutAbsent(list: seq<Order>, x: Option<OrderId>)
    requires forall o :: o in list ==> Some(o.id) != x
    ensures Without(list, x) == list
    decreases |list|
  {
    if list != [] {
      assert forall o :: o in list[1..] ==> o in list;
      WithoutAbsent(list[1..], x);
    }
  }
}
