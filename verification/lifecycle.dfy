/** The order record and its three-state delivery lifecycle. */
module Lifecycle {

  /** `Preparing` is initial, `Delivered` terminal. */
  datatype Status = Preparing | OutForDelivery | Delivered

  /** A stored order: its id, the menu item ids it references, its status and
      the creation time (a clock reading supplied by the caller). */
  datatype Order = Order(id: string, items: seq<string>, status: Status, createdAt: int)

  /** Position of a status along the lifecycle. */
  function Stage(s: Status): nat {
    match s
    case Preparing => 0
    case OutForDelivery => 1
    case Delivered => 2
  }

  /** One sweep step for one order. */
  function Advance(s: Status): (t: Status)
    ensures s != Delivered ==> Stage(t) == Stage(s) + 1
    ensures t == s <==> s == Delivered
  {
    if s == Preparing then OutForDelivery
    else if s == OutForDelivery then Delivered
    else s
  }

  /** The status after `n` sweeps: it moves `n` stages on, but never past
      the terminal state. */
  function AdvanceN(s: Status, n: nat): (t: Status)
    ensures Stage(t) == if Stage(s) + n < 2 then Stage(s) + n else 2
    decreases n
  {
    if n == 0 then s else AdvanceN(Advance(s), n - 1)
  }

  /** Two sweeps deliver any order, and after that nothing moves. */
  lemma DeliveredAfterTwo(s: Status, n: nat)
    requires n >= 2
    ensures AdvanceN(s, n) == Delivered
    ensures Advance(AdvanceN(s, n)) == AdvanceN(s, n)
  {
  }

  /** One sweep over the whole order table: every order advances one step;
      keys, ids, items and creation times stay as they were. */
  function SweepAll(orders: map<string, Order>): (r: map<string, Order>)
    ensures r.Keys == orders.Keys
    ensures forall k :: k in orders ==>
      && r[k].id == orders[k].id
      && r[k].items == orders[k].items
      && r[k].createdAt == orders[k].createdAt
      && r[k].status == Advance(orders[k].status)
  {
    map k | k in orders :: orders[k].(status := Advance(orders[k].status))
  }

  /** `n` consecutive sweeps. */
  function SweepN(orders: map<string, Order>, n: nat): map<string, Order>
    decreases n
  {
    if n == 0 then orders else SweepN(SweepAll(orders), n - 1)
  }

  /** After `n` sweeps every order is the same order with its status moved on
      `n` steps. */
  lemma {:induction false} SweepNEffect(orders: map<string, Order>, n: nat)
    ensures SweepN(orders, n).Keys == orders.Keys
    ensures forall k :: k in orders ==>
      SweepN(orders, n)[k] == orders[k].(status := AdvanceN(orders[k].status, n))
    decreases n
  {
    if n > 0 {
      var once := SweepAll(orders);
      SweepNEffect(once, n - 1);
      forall k | k in orders
        ensures SweepN(orders, n)[k] == orders[k].(status := AdvanceN(orders[k].status, n))
      {
        assert once[k] == orders[k].(status := Advance(orders[k].status));
      }
    }
  }

  /** A sweep changes nothing exactly when every order is already delivered. */
  lemma SweepFixpoint(orders: map<string, Order>)
    ensures SweepAll(orders) == orders <==> forall k :: k in orders ==> orders[k].status == Delivered
  {
  }

  /** After two or more sweeps every order is delivered and further sweeps
      are no-ops. */
  lemma {:induction false} SweepsSettle(orders: map<string, Order>, n: nat)
    requires n >= 2
    ensures forall k :: k in SweepN(orders, n) ==> SweepN(orders, n)[k].status == Delivered
    ensures SweepAll(SweepN(orders, n)) == SweepN(orders, n)
  {
    SweepNEffect(orders, n);
    forall k | k in SweepN(orders, n) ensures SweepN(orders, n)[k].status == Delivered {
      DeliveredAfterTwo(orders[k].status, n);
    }
    SweepFixpoint(SweepN(orders, n));
  }
}
