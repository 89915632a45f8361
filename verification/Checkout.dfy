/**
 The reservation section of checkout as one call: Redis first, and the database path after
 any refusal.
 */
module Checkout {
  import opened Common
  import opened Inventory
  import R = RedisReservation
  import D = DeferredReservation

  /** What the counters are seeded with, from the rows in the order they were read. */
  function SeedsOf(seen: Table, ids: seq<int>): seq<(int, int)>
    requires forall i :: 0 <= i < |ids| ==> ids[i] in seen
  {
    seq(|ids|, i requires 0 <= i < |ids| => (ids[i], D.Available(seen[ids[i]])))
  }

  /** A living counter keeps its value; a new one starts from what its row has left. */
  lemma {:induction false} SeededCounter(c: R.Counters, seen: Table, ids: seq<int>, v: int)
    requires forall i :: 0 <= i < |ids| ==> ids[i] in seen
    ensures Get(R.SeedAll(c, SeedsOf(seen, ids)), v)
         == if v in c then c[v] else if v in ids then seen[v].stock - seen[v].reserved else 0
    decreases |ids|
  {
    var seeds := SeedsOf(seen, ids);
    if ids == [] {
      assert seeds == [];
    } else {
      assert ids == [ids[0]] + ids[1..] && seeds[1..] == SeedsOf(seen, ids[1..]);
      SeededCounter(R.SetNx(c, seeds[0].0, seeds[0].1), seen, ids[1..], v);
    }
  }

  /** What Redis has for variant `v` once the checkout has seeded its counters. */
  function Offered(c: R.Counters, seen: Table, ids: seq<int>, v: int): int {
    if v in c then c[v] else if v in ids && v in seen then seen[v].stock - seen[v].reserved else 0
  }

  /** Item `k` is the first short one: its counter is as offered, all others stay lowered. */
  ghost predicate RefusedAt(before: R.Counters, seen: Table, ids: seq<int>, after: R.Counters, items: seq<Item>, k: nat)
    requires k < |items|
  {
    && Offered(before, seen, ids, items[k].variantId) < items[k].quantity
    && (forall i :: 0 <= i < k ==> Offered(before, seen, ids, items[i].variantId) >= items[i].quantity)
    && Get(after, items[k].variantId) == Offered(before, seen, ids, items[k].variantId)
    && (forall v :: v != items[k].variantId ==>
          Get(after, v) == Offered(before, seen, ids, v) - QuantityOf(items, v))
  }

  /**
   A request is accepted if and only if every item fits in Redis, or there are items and
   every row read had something left: the fallback looks at no quantity.  `isError` tells
   the worker that the database path has reserved already.  Redis keeps every decrement of a
   request it grants, and of a refused one all but that of the first short item.
   */
  method Reserve(redis: R.Redis, db: Database, seen: Table, ids: seq<int>, items: seq<Item>)
    returns (accepted: bool, isError: bool)
    requires DistinctVariants(items) && forall i :: 0 <= i < |items| ==> items[i].variantId in seen
    requires forall i :: 0 <= i < |ids| ==> ids[i] in seen
    modifies redis, db`rows
    ensures isError <==>
      exists i :: 0 <= i < |items| && Offered(old(redis.counters), seen, ids, items[i].variantId) < items[i].quantity
    ensures !isError ==> accepted
    ensures isError ==> (accepted <==> items != [] && forall i :: 0 <= i < |items| ==>
      seen[items[i].variantId].stock - seen[items[i].variantId].reserved > 0)
    ensures db.rows == if isError && accepted then ReserveBatch(old(db.rows), items) else old(db.rows)
    ensures !isError ==> forall v ::
      Get(redis.counters, v) == Offered(old(redis.counters), seen, ids, v) - QuantityOf(items, v)
    ensures isError ==>
      exists k :: 0 <= k < |items| && RefusedAt(old(redis.counters), seen, ids, redis.counters, items, k)
  {
    var available := SeedsOf(seen, ids);
    ghost var before := redis.counters;
    forall v ensures Get(R.SeedAll(before, SeedsOf(seen, ids)), v) == Offered(before, seen, ids, v) {
      SeededCounter(before, seen, ids, v);
    }
    var granted := R.ReserveInRedis(redis, available, items);
    if granted { return true, false; }
    ghost var k :| 0 <= k < |items| && R.KeptAllBut(R.SeedAll(before, SeedsOf(seen, ids)), redis.counters, items, k);
    assert RefusedAt(before, seen, ids, redis.counters, items, k);
    accepted := db.ReserveInDatabase(seen, items);
    isError := true;
  }

  /**
   A single unit left lets a request for any quantity through: it is accepted although the
   batch reserves nothing of the variant that is short.
   */
  lemma OneUnitLeftAcceptsAnyQuantity(rows: Table, v: int, quantity: int)
    requires v in rows && D.Available(rows[v]) == 1 && quantity > 1
    ensures D.SomethingLeft(rows, [Item(v, quantity)]) && ReserveBatch(rows, [Item(v, quantity)]) == rows
  {
    var items := [Item(v, quantity)];
    assert items[1..] == [];
    forall id | id in rows ensures ReserveBatch(rows, items)[id] == rows[id] {
      assert CaseQuantity(items, id) == if id == v then Some(quantity) else CaseQuantity(items[1..], id);
    }
    assert ReserveBatch(rows, [Item(v, quantity)]) == rows;
  }
}
