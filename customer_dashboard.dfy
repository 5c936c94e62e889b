/** The customer dashboard: cart, order placement, live status updates, status badges. */
module CustomerDashboard {
  import opened Wrappers
  import opened OrderModel
  import opened Database
  import opened AuthMiddleware
  import opened OrderSpec
  import opened ClientLists

  datatype CartItem = CartItem(productId: ProductId, name: string, quantity: int)

  /** cart.find(item => item.productId === id) finds something. */
  predicate InCart(cart: seq<CartItem>, id: ProductId) {
    exists i :: 0 <= i < |cart| && cart[i].productId == id
  }

  /** cart.map(item => item.productId === id ? { ...item, quantity: item.quantity + 1 } : item) */
  function Increment(cart: seq<CartItem>, id: ProductId): (r: seq<CartItem>)
    ensures |r| == |cart|
    ensures forall i :: 0 <= i < |cart| && cart[i].productId == id ==> r[i] == cart[i].(quantity := cart[i].quantity + 1)
    ensures forall i :: 0 <= i < |cart| && cart[i].productId != id ==> r[i] == cart[i]
    decreases |cart|
  {
    if cart == [] then []
    else
      [if cart[0].productId == id then cart[0].(quantity := cart[0].quantity + 1) else cart[0]]
      + Increment(cart[1..], id)
  }

  /** handleAddToCart's new cart: increment the entry for a product already there, or append
      { productId, name, quantity: 1 }. */
  function AddToCart(cart: seq<CartItem>, p: Product): (r: seq<CartItem>)
    ensures InCart(cart, p.id) ==> |r| == |cart|
    ensures InCart(cart, p.id) ==> forall i :: 0 <= i < |cart| ==>
      r[i] == if cart[i].productId == p.id then cart[i].(quantity := cart[i].quantity + 1) else cart[i]
    ensures !InCart(cart, p.id) ==> r == cart + [CartItem(p.id, p.name, 1)]
  {
    if InCart(cart, p.id) then Increment(cart, p.id) else cart + [CartItem(p.id, p.name, 1)]
  }

  ghost predicate DistinctProducts(cart: seq<CartItem>) {
    forall i, j :: 0 <= i < j < |cart| ==> cart[i].productId != cart[j].productId
  }

  function TotalQuantity(cart: seq<CartItem>): int
    decreases |cart|
  {
    if cart == [] then 0 else cart[0].quantity + TotalQuantity(cart[1..])
  }

  /** Adding keeps the cart's product ids pairwise distinct. */
  lemma AddKeepsDistinct(cart: seq<CartItem>, p: Product)
    requires DistinctProducts(cart)
    ensures DistinctProducts(AddToCart(cart, p))
  {
    var r := AddToCart(cart, p);
    if !InCart(cart, p.id) {
      forall i, j | 0 <= i < j < |r| ensures r[i].productId != r[j].productId {
        if j == |cart| { assert r[i] == cart[i]; }
      }
    }
  }

  lemma {:induction false} TotalSnoc(cart: seq<CartItem>, it: CartItem)
    ensures TotalQuantity(cart + [it]) == TotalQuantity(cart) + it.quantity
    decreases |cart|
  {
    if cart == [] {
      assert cart + [it] == [it];
      assert [it][1..] == [];
    } else {
      assert (cart + [it])[1..] == cart[1..] + [it];
      TotalSnoc(cart[1..], it);
    }
  }

  /** Incrementing the entries of a product that occurs once raises the total by one. */
  lemma {:induction false} IncrementTotal(cart: seq<CartItem>, id: ProductId)
    requires DistinctProducts(cart) && InCart(cart, id)
    ensures TotalQuantity(Increment(cart, id)) == TotalQuantity(cart) + 1
    decreases |cart|
  {
    var r := Increment(cart, id);
    assert r[1..] == Increment(cart[1..], id);
    if cart[0].productId == id {
      assert !InCart(cart[1..], id) by {
        forall i | 0 <= i < |cart[1..]| ensures cart[1..][i].productId != id {
          assert cart[1..][i] == cart[i + 1];
        }
      }
      IncrementNone(cart[1..], id);
    } else {
      var k :| 0 <= k < |cart| && cart[k].productId == id;
      assert cart[1..][k - 1].productId == id;
      IncrementTotal(cart[1..], id);
    }
  }

  lemma IncrementNone(cart: seq<CartItem>, id: ProductId)
    requires !InCart(cart, id)
    ensures Increment(cart, id) == cart
  {
  }

  /** Each add raises the cart's total quantity by exactly one. */
  lemma AddRaisesTotal(cart: seq<CartItem>, p: Product)
    requires DistinctProducts(cart)
    ensures TotalQuantity(AddToCart(cart, p)) == TotalQuantity(cart) + 1
  {
    if InCart(cart, p.id) {
      IncrementTotal(cart, p.id);
    } else {
      TotalSnoc(cart, CartItem(p.id, p.name, 1));
    }
  }

  /** The order payload: the cart projected to { productId, quantity }, in cart order. */
  function OrderPayload(cart: seq<CartItem>): (r: seq<RequestItem>)
    ensures |r| == |cart|
    ensures forall i :: 0 <= i < |cart| ==> r[i].productId == cart[i].productId && r[i].quantity == Some(cart[i].quantity)
  {
    seq(|cart|, i requires 0 <= i < |cart| => RequestItem(cart[i].productId, Some(cart[i].quantity)))
  }

  /** A payload placed from a non-empty cart is never refused as empty and never has a NaN
      total: the server either creates the order or answers 404 for an unknown product. */
  lemma PayloadIsPriceable(db: Db, caller: Claims, cart: seq<CartItem>)
    requires |cart| > 0
    ensures var s := CreateStep(db, caller, Some(OrderPayload(cart)));
      s.response.Ok? || s.response == Err(NotFound)
  {
    var items := OrderPayload(cart);
    CreatePricing(db, caller, items);
    assert AllQuantified(items);
  }

  /** A badge's inline style. */
  datatype Badge = Badge(backgroundColor: string, color: string)

  const Green := Badge("#10b981", "white")
  const Yellow := Badge("#facc15", "#1f2937")
  const Red := Badge("#ef4444", "white")
  const Grey := Badge("#6b7280", "white")

  /** String.prototype.toLowerCase on ASCII letters. */
  function LowerChar(c: char): char {
    if 'A' <= c <= 'Z' then (c as int + 32) as char else c
  }

  function Lower(s: string): (r: string)
    ensures |r| == |s| && forall i :: 0 <= i < |s| ==> r[i] == LowerChar(s[i])
  {
    seq(|s|, i requires 0 <= i < |s| => LowerChar(s[i]))
  }

  /** statusColor: a switch on the lower-cased status. */
  function StatusColor(status: string): (b: Badge)
    ensures b in {Green, Yellow, Red, Grey}
    ensures b == Green <==> Lower(status) == "delivered"
    ensures b == Yellow <==> Lower(status) == "pending"
    ensures b == Red <==> Lower(status) == "canceled"
  {
    var s := Lower(status);
    if s == "delivered" then Green
    else if s == "pending" then Yellow
    else if s == "canceled" then Red
    else Grey
  }

  /** The badge ignores letter case. */
  lemma StatusColorIgnoresCase(status: string)
    ensures StatusColor(Lower(status)) == StatusColor(status)
  {
    assert Lower(Lower(status)) == Lower(status);
  }

  /** The enum's statuses get: delivered green, pending yellow, and every other one grey,
      cancelled included, since the switch spells it "canceled". */
  lemma StatusColorOfEnum(st: Status)
    ensures StatusColor(StatusName(st)) ==
      if st == Delivered then Green else if st == Pending then Yellow else Grey
  {
    var s := StatusName(st);
    assert Lower(s) == s;
    if st == Cancelled { assert s[7] != "canceled"[7]; }
  }

  /** The dashboard's state: the fetched products, the cart, the customer's orders and the
      error message shown. */
  class Dashboard {
    var products: seq<Product>
    var cart: seq<CartItem>
    var orders: seq<Order>
    var error: string

    ghost predicate Valid()
      reads this
    {
      DistinctProducts(cart)
    }

    constructor ()
      ensures Valid()
      ensures products == [] && cart == [] && orders == [] && error == ""
    {
      products, cart, orders, error := [], [], [], "";
    }

    /** The initial fetch of GET /products and GET /orders/my-orders; None when either fails. */
    method Fetch(reply: Option<(seq<Product>, seq<Order>)>)
      requires Valid()
      modifies this`products, this`orders, this`error
      ensures Valid()
      ensures reply.Some? ==> products == reply.value.0 && orders == reply.value.1 && error == old(error)
      ensures reply.None? ==> products == old(products) && orders == old(orders) && error == "Failed to fetch data."
    {
      if reply.Some? {
        products := reply.value.0;
        orders := reply.value.1;
      } else {
        error := "Failed to fetch data.";
      }
    }

    method HandleAddToCart(p: Product)
      requires Valid()
      modifies this`cart
      ensures Valid()
      ensures cart == AddToCart(old(cart), p)
      ensures TotalQuantity(cart) == TotalQuantity(old(cart)) + 1
    {
      AddKeepsDistinct(cart, p);
      AddRaisesTotal(cart, p);
      cart := AddToCart(cart, p);
    }

    /** handlePlaceOrder: an empty cart sets the error and sends nothing; otherwise the payload
      is posted, and `reply` is the server's answer: on success the new order is prepended and
      the cart emptied, on failure the error is set. */
    method HandlePlaceOrder(reply: Option<Order>) returns (sent: Option<seq<RequestItem>>)
      requires Valid()
      modifies this`cart, this`orders, this`error
      ensures Valid()
      ensures sent.None? <==> old(cart) == []
      ensures sent.Some? ==> sent.value == OrderPayload(old(cart))
      ensures old(cart) == [] ==> cart == old(cart) && orders == old(orders) && error == "Your cart is empty."
      ensures old(cart) != [] && reply.Some? ==> orders == [reply.value] + old(orders) && cart == [] && error == ""
      ensures old(cart) != [] && reply.None? ==>
        cart == old(cart) && orders == old(orders) && error == "Failed to place order."
    {
      if |cart| == 0 {
        error := "Your cart is empty.";
        return None;
      }
      sent := Some(OrderPayload(cart));
      if reply.Some? {
        orders := [reply.value] + orders;
        cart := [];
        error := "";
      } else {
        error := "Failed to place order.";
      }
    }

    /** The order_status_update handler. */
    method OnOrderStatusUpdate(u: Order)
      requires Valid()
      modifies this`orders
      ensures Valid()
      ensures orders == ReplaceById(old(orders), u)
    {
      orders := ReplaceById(orders, u);
    }
  }
}
