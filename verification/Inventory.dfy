/**
 The database half of inventory: `stock` and `reserved` of every book variant, changed
 by the guarded batch reservation, the paid decrement, the rollback increment, the
 expiry sweep and stock imports.  Every SQL statement is one atomic step; the sweep
 reads the expired orders in one step and clears them in another.
 */
module Inventory {
  import opened Common

  datatype Row = Row(stock: int, reserved: int)

  type Table = map<int, Row>

  const PAYMENT_INTENT_EXPIRES_IN_MS := 60 * 60 * 1000
  const ORDER_EXPIRED_MS := 100 * 60 * 1000

  // ---- SQL statements on values --------------------------------------------

  /** `CASE id WHEN ... THEN ...`: the first branch that names the row. */
  function CaseQuantity(items: seq<Item>, id: int): Option<int> {
    if items == [] then None
    else if items[0].variantId == id then Some(items[0].quantity)
    else CaseQuantity(items[1..], id)
  }

  /** The guard inside the CASE: all of `quantity`, or nothing. */
  function ReserveRow(row: Row, quantity: int): Row {
    if row.stock - row.reserved >= quantity then row.(reserved := row.reserved + quantity) else row
  }

  function ReserveCase(row: Row, quantity: Option<int>): Row {
    match quantity
    case None => row
    case Some(q) => ReserveRow(row, q)
  }

  /** One statement for all items. */
  function ReserveBatch(t: Table, items: seq<Item>): Table {
    map id | id in t :: ReserveCase(t[id], CaseQuantity(items, id))
  }

  /** The same request served item by item. */
  function ReserveOneByOne(t: Table, items: seq<Item>): Table
    decreases |items|
  {
    if items == [] then t
    else
      var id := items[0].variantId;
      ReserveOneByOne(if id in t then t[id := ReserveRow(t[id], items[0].quantity)] else t, items[1..])
  }

  function PaidDecrement(t: Table, quantities: map<int, int>): Table {
    map id | id in t ::
      if id in quantities then Row(t[id].stock - quantities[id], t[id].reserved - quantities[id]) else t[id]
  }

  function RollbackIncrement(t: Table, quantities: map<int, int>): Table {
    map id | id in t ::
      if id in quantities then Row(t[id].stock + quantities[id], t[id].reserved + quantities[id]) else t[id]
  }

  /** What `clearOrder` does to the variants of expired orders. */
  function Release(t: Table, totals: map<int, int>): Table {
    map id | id in t ::
      if id in totals then Row(t[id].stock + totals[id], t[id].reserved - totals[id]) else t[id]
  }

  /** One increment per imported line, repeated lines included. */
  function ImportAll(t: Table, items: seq<Item>): Table
    decreases |items|
  {
    if items == [] then t
    else
      var id := items[0].variantId;
      ImportAll(if id in t then t[id := t[id].(stock := t[id].stock + items[0].quantity)] else t, items[1..])
  }

  /** `new Map(items.map(...))`: a later line for the same variant overwrites an earlier one. */
  function ItemMap(items: seq<Item>): (r: map<int, int>)
    ensures r == map[] <==> items == []
  {
    if items == [] then map[]
    else
      var last := items[|items| - 1];
      var r := ItemMap(items[..|items| - 1])[last.variantId := last.quantity];
      assert last.variantId in r;
      r
  }

  // ---- the batch statement is the one-by-one reservation --------------------

  lemma {:induction false} CaseFindsMember(items: seq<Item>, id: int, q: int)
    requires DistinctVariants(items)
    ensures CaseQuantity(items, id) == Some(q) <==> Item(id, q) in items
  {
    if items != [] {
      CaseFindsMember(items[1..], id, q);
      assert items == [items[0]] + items[1..];
      if items[0].variantId == id {
        assert forall x :: x in items[1..] ==> x.variantId != id;
      }
    }
  }

  lemma {:induction false} CaseNone(items: seq<Item>, id: int)
    ensures CaseQuantity(items, id).None? <==> forall i :: 0 <= i < |items| ==> items[i].variantId != id
  {
    if items != [] {
      CaseNone(items[1..], id);
      assert forall i :: 1 <= i < |items| ==> items[i] == items[1..][i - 1];
    }
  }

  lemma {:induction false} CaseIsQuantity(items: seq<Item>, id: int)
    requires DistinctVariants(items)
    ensures QuantityOf(items, id) == (match CaseQuantity(items, id) case None => 0 case Some(q) => q)
  {
    if items != [] {
      if items[0].variantId == id {
        QuantityAbsent(items[1..], id);
      } else {
        CaseIsQuantity(items[1..], id);
      }
    }
  }

  lemma {:induction false} OneByOneRow(t: Table, items: seq<Item>, id: int)
    requires DistinctVariants(items)
    ensures id in ReserveOneByOne(t, items) <==> id in t
    ensures id in t ==> ReserveOneByOne(t, items)[id] == ReserveCase(t[id], CaseQuantity(items, id))
    decreases |items|
  {
    if items != [] {
      var first := items[0].variantId;
      var t' := if first in t then t[first := ReserveRow(t[first], items[0].quantity)] else t;
      OneByOneRow(t', items[1..], id);
      if first == id {
        CaseNone(items[1..], id);
      }
    }
  }

  /**
   On distinct variants the single CASE statement reserves exactly what serving the
   items one at a time would, in whatever order they are served, and it leaves every
   row that no item names as it was.
   */
  lemma BatchIsOneByOneInAnyOrder(t: Table, items: seq<Item>, order: seq<Item>)
    requires DistinctVariants(items) && DistinctVariants(order)
    requires forall x :: x in items <==> x in order
    ensures ReserveBatch(t, items) == ReserveOneByOne(t, order)
    ensures forall id :: id in t && (forall i :: 0 <= i < |items| ==> items[i].variantId != id)
                         ==> ReserveBatch(t, items)[id] == t[id]
  {
    forall id ensures id in ReserveBatch(t, items) <==> id in ReserveOneByOne(t, order)
              ensures id in t ==> ReserveBatch(t, items)[id] == ReserveOneByOne(t, order)[id] {
      OneByOneRow(t, order, id);
      var a, b := CaseQuantity(items, id), CaseQuantity(order, id);
      if a.Some? {
        CaseFindsMember(items, id, a.value);
        CaseFindsMember(order, id, a.value);
      } else if b.Some? {
        CaseFindsMember(items, id, b.value);
        CaseFindsMember(order, id, b.value);
      }
    }
    forall id | id in t && (forall i :: 0 <= i < |items| ==> items[i].variantId != id)
      ensures ReserveBatch(t, items)[id] == t[id] {
      CaseNone(items, id);
    }
  }

  /** Paying and rolling back cancel each other on every row, in both orders. */
  lemma PaidThenRolledBackIsIdentity(t: Table, quantities: map<int, int>)
    ensures RollbackIncrement(PaidDecrement(t, quantities), quantities) == t
    ensures PaidDecrement(RollbackIncrement(t, quantities), quantities) == t
  {
    var up, down := RollbackIncrement(t, quantities), PaidDecrement(t, quantities);
    assert RollbackIncrement(down, quantities).Keys == t.Keys == PaidDecrement(up, quantities).Keys;
    assert forall id :: id in t ==>
      RollbackIncrement(down, quantities)[id] == t[id] == PaidDecrement(up, quantities)[id];
  }

  lemma {:induction false} ItemMapIsQuantity(items: seq<Item>, v: int)
    requires DistinctVariants(items)
    ensures Get(ItemMap(items), v) == QuantityOf(items, v)
    ensures v in ItemMap(items) <==> exists i :: 0 <= i < |items| && items[i].variantId == v
  {
    if items != [] {
      var front, last := items[..|items| - 1], items[|items| - 1];
      ItemMapIsQuantity(front, v);
      assert items == front + [last];
      QuantityConcat(front, [last], v);
      assert QuantityOf([last], v) == if last.variantId == v then last.quantity else 0;
      if last.variantId == v {
        QuantityAbsent(front, v);
        assert items[|items| - 1].variantId == v;
      }
    }
  }

  lemma {:induction false} QuantityConcat(a: seq<Item>, b: seq<Item>, v: int)
    ensures QuantityOf(a + b, v) == QuantityOf(a, v) + QuantityOf(b, v)
  {
    if a == [] {
      assert a + b == b;
    } else {
      assert (a + b)[1..] == a[1..] + b;
      QuantityConcat(a[1..], b, v);
    }
  }

  lemma {:induction false} ImportRow(t: Table, items: seq<Item>, id: int)
    ensures id in ImportAll(t, items) <==> id in t
    ensures id in t ==> ImportAll(t, items)[id] == Row(t[id].stock + QuantityOf(items, id), t[id].reserved)
    decreases |items|
  {
    if items != [] {
      var first := items[0].variantId;
      ImportRow(if first in t then t[first := t[first].(stock := t[first].stock + items[0].quantity)] else t,
                items[1..], id);
    }
  }

  // ---- expired orders --------------------------------------------------------

  datatype Order = Order(items: seq<Item>, status: OrderStatus, paymentStatus: PaymentStatus, expiredAt: int)

  /** The filter of `findOrderIsExpire`. */
  predicate IsExpired(o: Order, now: int) {
    o.expiredAt < now + PAYMENT_INTENT_EXPIRES_IN_MS && o.status.PENDING_PAYMENT? && o.paymentStatus.PENDING?
  }

  /** The filter and the effect of the order update in `clearOrder`. */
  function CancelIfExpired(o: Order, now: int): Order {
    if o.expiredAt < now + PAYMENT_INTENT_EXPIRES_IN_MS && o.status.PENDING_PAYMENT?
    then o.(status := CANCELLED, paymentStatus := EXPIRED) else o
  }

  /** An order still waiting an hour before its expiry, or later, is cancelled as expired; others stay. */
  ghost predicate WasSwept(before: Order, after: Order, now: int) {
    if before.status.PENDING_PAYMENT? && before.expiredAt - now < 60 * 60 * 1000
    then after == Order(before.items, CANCELLED, EXPIRED, before.expiredAt)
    else after == before
  }

  function AddItems(m: map<int, int>, items: seq<Item>): map<int, int>
    decreases |items|
  {
    if items == [] then m
    else AddItems(m[items[0].variantId := Get(m, items[0].variantId) + items[0].quantity], items[1..])
  }

  /** The per-variant totals that `cleanOrder` accumulates over the orders found. */
  function AddOrders(m: map<int, int>, orders: seq<Order>): map<int, int>
    decreases |orders|
  {
    if orders == [] then m else AddOrders(AddItems(m, orders[0].items), orders[1..])
  }

  function UnitsOf(v: int): Order -> int {
    (o: Order) => QuantityOf(o.items, v)
  }

  lemma {:induction false} AddItemsTotal(m: map<int, int>, items: seq<Item>, v: int)
    ensures Get(AddItems(m, items), v) == Get(m, v) + QuantityOf(items, v)
    decreases |items|
  {
    if items != [] {
      AddItemsTotal(m[items[0].variantId := Get(m, items[0].variantId) + items[0].quantity], items[1..], v);
    }
  }

  /** The totals are the per-variant sums over all items of all orders found. */
  lemma {:induction false} AddOrdersTotal(m: map<int, int>, orders: seq<Order>, v: int)
    ensures Get(AddOrders(m, orders), v) == Get(m, v) + Sum(UnitsOf(v), orders)
    decreases |orders|
  {
    if orders != [] {
      AddItemsTotal(m, orders[0].items, v);
      AddOrdersTotal(AddItems(m, orders[0].items), orders[1..], v);
    }
  }

  /** Positions of the orders that a sweep at `now` finds, in table order. */
  function FindExpired(orders: seq<Order>, now: int): (ids: seq<nat>)
    ensures forall k :: 0 <= k < |ids| ==> ids[k] < |orders| && IsExpired(orders[ids[k]], now)
    ensures forall i :: 0 <= i < |orders| && IsExpired(orders[i], now) ==> i in ids
    ensures Distinct(ids)
  {
    if orders == [] then []
    else
      var n := |orders| - 1;
      var ids := FindExpired(orders[..n], now);
      if IsExpired(orders[n], now) then ids + [n] else ids
  }

  /** A sweep finds the unpaid orders that expire within the hour, or have expired. */
  lemma FoundOrders(orders: seq<Order>, now: int, i: nat)
    ensures i in FindExpired(orders, now) <==>
      (&& i < |orders| && orders[i].status.PENDING_PAYMENT? && orders[i].paymentStatus.PENDING?
       && orders[i].expiredAt - now < 60 * 60 * 1000)
  {
  }

  function Pick(orders: seq<Order>, ids: seq<nat>): (r: seq<Order>)
    requires forall k :: 0 <= k < |ids| ==> ids[k] < |orders|
    ensures |r| == |ids| && forall k :: 0 <= k < |ids| ==> r[k] == orders[ids[k]]
  {
    seq(|ids|, k requires 0 <= k < |ids| => orders[ids[k]])
  }

  // ---- the tables and the statements that change them ------------------------

  class Database {
    var rows: Table
    var orders: seq<Order>

    constructor (rows: Table, orders: seq<Order>)
      ensures this.rows == rows && this.orders == orders
    {
      this.rows, this.orders := rows, orders;
    }

    /** The guarded batch; an empty list is not a valid statement and changes nothing. */
    method UpdateReservedByIds(items: seq<Item>) returns (ok: bool)
      modifies this`rows
      ensures ok <==> items != []
      ensures rows == ReserveBatch(old(rows), items)
      ensures forall id :: id in rows ==> id in old(rows) && rows[id].stock == old(rows)[id].stock
    {
      ok := items != [];
      if ok {
        rows := map id | id in rows :: ReserveCase(rows[id], CaseQuantity(items, id));
      } else {
        assert rows == ReserveBatch(rows, items);
      }
    }

    /** Throws, leaving the rows alone, when some quantity is zero. */
    method DecrementVariantsStock(quantities: map<int, int>) returns (ok: bool)
      modifies this`rows
      ensures ok <==> forall v :: v in quantities ==> quantities[v] != 0
      ensures rows == if ok then PaidDecrement(old(rows), quantities) else old(rows)
      ensures rows.Keys == old(rows).Keys
      ensures ok ==> forall id :: id in rows ==>
        rows[id] == Row(old(rows)[id].stock - Get(quantities, id), old(rows)[id].reserved - Get(quantities, id))
    {
      ok := forall v :: v in quantities ==> quantities[v] != 0;
      if ok {
        rows := PaidDecrement(rows, quantities);
      }
    }

    method IncrementVariantsStock(quantities: map<int, int>) returns (ok: bool)
      modifies this`rows
      ensures ok <==> forall v :: v in quantities ==> quantities[v] != 0
      ensures rows == if ok then RollbackIncrement(old(rows), quantities) else old(rows)
      ensures rows.Keys == old(rows).Keys
      ensures ok ==> forall id :: id in rows ==>
        rows[id] == Row(old(rows)[id].stock + Get(quantities, id), old(rows)[id].reserved + Get(quantities, id))
    {
      ok := forall v :: v in quantities ==> quantities[v] != 0;
      if ok {
        rows := RollbackIncrement(rows, quantities);
      }
    }

    method IncrementStockById(items: seq<Item>)
      modifies this`rows
      ensures forall id :: id in rows <==> id in old(rows)
      ensures forall id :: id in rows ==>
        rows[id] == Row(old(rows)[id].stock + QuantityOf(items, id), old(rows)[id].reserved)
    {
      var i := 0;
      while i < |items|
        invariant 0 <= i <= |items|
        invariant ImportAll(rows, items[i..]) == ImportAll(old(rows), items)
      {
        assert items[i..][1..] == items[i + 1..];
        var id := items[i].variantId;
        if id in rows {
          rows := rows[id := rows[id].(stock := rows[id].stock + items[i].quantity)];
        }
        i := i + 1;
      }
      forall id ensures id in rows <==> id in old(rows)
                ensures id in old(rows) ==>
                  rows[id] == Row(old(rows)[id].stock + QuantityOf(items, id), old(rows)[id].reserved) {
        ImportRow(old(rows), items, id);
      }
    }

    /** One update per key of the totals, then one update of the orders. */
    method ClearOrder(totals: map<int, int>, now: int)
      modifies this
      ensures rows == Release(old(rows), totals)
      ensures rows.Keys == old(rows).Keys
      ensures forall id :: id in rows ==>
        rows[id] == Row(old(rows)[id].stock + Get(totals, id), old(rows)[id].reserved - Get(totals, id))
      ensures |orders| == |old(orders)|
      ensures forall o :: 0 <= o < |orders| ==> WasSwept(old(orders)[o], orders[o], now)
    {
      var todo := totals.Keys;
      while exists key :: key in todo
        invariant todo <= totals.Keys && orders == old(orders)
        invariant rows.Keys == old(rows).Keys
        invariant forall id :: id in rows ==>
          rows[id] == if id in todo then old(rows)[id] else Release(old(rows), totals)[id]
        decreases todo
      {
        var key :| key in todo;
        if key in rows {
          rows := rows[key := Row(rows[key].stock + totals[key], rows[key].reserved - totals[key])];
        }
        todo := todo - {key};
      }
      assert forall id :: id in rows ==> rows[id] == Release(old(rows), totals)[id];
      orders := seq(|orders|, o requires 0 <= o < |orders| reads this => CancelIfExpired(orders[o], now));
    }

    /** `cleanOrder`: nested accumulation over the orders found, then `clearOrder`. */
    method CleanOrder(readAt: int, clearAt: int) returns (cleaned: nat)
      modifies this
      ensures cleaned == |FindExpired(old(orders), readAt)|
      ensures forall id :: id in rows <==> id in old(rows)
      ensures cleaned > 0 ==> forall id :: id in rows ==>
        var released := Sum(UnitsOf(id), Pick(old(orders), FindExpired(old(orders), readAt)));
        rows[id] == Row(old(rows)[id].stock + released, old(rows)[id].reserved - released)
      ensures |orders| == |old(orders)|
      ensures cleaned > 0 ==> forall o :: 0 <= o < |orders| ==> WasSwept(old(orders)[o], orders[o], clearAt)
      ensures cleaned == 0 ==> rows == old(rows) && orders == old(orders)
    {
      var expired := Pick(orders, FindExpired(orders, readAt));
      cleaned := |expired|;
      if cleaned == 0 { return; }
      var totals: map<int, int> := map[];
      var i := 0;
      while i < |expired|
        invariant 0 <= i <= |expired|
        invariant AddOrders(totals, expired[i..]) == AddOrders(map[], expired)
      {
        assert expired[i..][1..] == expired[i + 1..];
        var items := expired[i].items;
        ghost var before := totals;
        var j := 0;
        while j < |items|
          invariant 0 <= j <= |items|
          invariant AddItems(totals, items[j..]) == AddItems(before, items)
        {
          assert items[j..][1..] == items[j + 1..];
          var key := items[j].variantId;
          totals := totals[key := (if key in totals then totals[key] else 0) + items[j].quantity];
          j := j + 1;
        }
        i := i + 1;
      }
      forall id ensures Get(totals, id) == Sum(UnitsOf(id), expired) {
        AddOrdersTotal(map[], expired, id);
      }
      ClearOrder(totals, clearAt);
    }

    /**
     The database path of checkout, entered after any Redis failure: it looks only at
     whether the rows read earlier had anything left, then runs the guarded batch.
     */
    method ReserveInDatabase(seen: Table, items: seq<Item>) returns (accepted: bool)
      requires forall i :: 0 <= i < |items| ==> items[i].variantId in seen
      modifies this`rows
      ensures accepted <==> items != [] && forall i :: 0 <= i < |items| ==>
        seen[items[i].variantId].stock - seen[items[i].variantId].reserved > 0
      ensures rows == if accepted then ReserveBatch(old(rows), items) else old(rows)
    {
      var i := 0;
      while i < |items|
        invariant 0 <= i <= |items|
        invariant forall j :: 0 <= j < i ==> seen[items[j].variantId].stock - seen[items[j].variantId].reserved > 0
      {
        if seen[items[i].variantId].stock - seen[items[i].variantId].reserved <= 0 {
          return false;
        }
        i := i + 1;
      }
      accepted := UpdateReservedByIds(items);
    }
  }

  /**
   The batch reserves the whole request if and only if every item fits; an item that
   does not fit is skipped without an error.
   */
  lemma BatchReservesAllIffAllFit(t: Table, items: seq<Item>)
    requires GoodItems(items)
    requires forall i :: 0 <= i < |items| ==> items[i].variantId in t
    ensures (forall v :: v in t ==> ReserveBatch(t, items)[v].reserved == t[v].reserved + QuantityOf(items, v))
            <==> (forall i :: 0 <= i < |items| ==>
                    items[i].quantity <= t[items[i].variantId].stock - t[items[i].variantId].reserved)
  {
    forall v ensures QuantityOf(items, v) == (match CaseQuantity(items, v) case None => 0 case Some(q) => q) {
      CaseIsQuantity(items, v);
    }
    forall i | 0 <= i < |items| ensures CaseQuantity(items, items[i].variantId) == Some(items[i].quantity) {
      CaseFindsMember(items, items[i].variantId, items[i].quantity);
    }
    forall v | CaseQuantity(items, v).Some?
      ensures exists i :: 0 <= i < |items| && items[i].variantId == v {
      CaseNone(items, v);
    }
  }

  /**
   Releasing an expired, fully granted reservation does not undo it: `reserved` is
   back, but the quantity is credited to `stock` although it was never taken from it.
   The rows are restored if and only if the order names no variant of the table.
   */
  lemma ReleaseCreditsStockAgain(t: Table, items: seq<Item>)
    requires GoodItems(items)
    requires forall i :: 0 <= i < |items| && items[i].variantId in t ==>
      items[i].quantity <= t[items[i].variantId].stock - t[items[i].variantId].reserved
    ensures var t' := Release(ReserveBatch(t, items), AddItems(map[], items));
            && t'.Keys == t.Keys
            && (forall v :: v in t ==> t'[v] == Row(t[v].stock + QuantityOf(items, v), t[v].reserved))
            && (t' == t <==> forall i :: 0 <= i < |items| ==> items[i].variantId !in t)
  {
    var t' := Release(ReserveBatch(t, items), AddItems(map[], items));
    forall v | v in t ensures t'[v] == Row(t[v].stock + QuantityOf(items, v), t[v].reserved) {
      AddItemsTotal(map[], items, v);
      CaseIsQuantity(items, v);
      CaseNone(items, v);
      if i :| 0 <= i < |items| && items[i].variantId == v {
        CaseFindsMember(items, v, items[i].quantity);
      }
    }
    if i :| 0 <= i < |items| && items[i].variantId in t {
      QuantityAt(items, i);
      assert t'[items[i].variantId].stock != t[items[i].variantId].stock;
    } else {
      forall v | v in t ensures t'[v] == t[v] {
        QuantityAbsent(items, v);
      }
    }
  }
}
