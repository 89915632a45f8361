/**
 Redis and the database together.  A checkout is granted its units by the counters, and a
 worker reserves them later with the guarded batch, which skips what does not fit without
 an error.  A checkout that Redis refuses, or that fails there in any other way, falls
 through to the database, where it runs the same batch at once.

 Requests, workers and all other statements interleave freely.
 */
module DeferredReservation {
  import opened Common
  import opened Inventory
  import L = InventoryLedger
  import R = RedisReservation

  /** A batch of the database path, with the rows as it found them. */
  datatype Batch = Batch(rows: Table, items: seq<Item>)

  /**
   `answers` are what checkouts got when they looked up their variants;
   `served[k]` says that the worker has reserved for request `k`, and `fallen[k]` that the
   request was refused by Redis and then accepted by the database path.
   */
  datatype State = State(
    redis: R.State,
    base: L.State,
    answers: seq<Table>,
    served: seq<bool>,
    fallen: seq<bool>,
    batches: seq<Batch>)

  datatype Event =
    | Read
    | Seed(read: nat, variantId: int)
    | Decrement(items: seq<Item>)
    | Settle(request: nat)
    | FallThrough(request: nat, read: nat)
    | Fallback(items: seq<Item>, read: nat)
    | Serve(request: nat)
    | Database(step: L.Event)

  function Available(row: Row): int {
    row.stock - row.reserved
  }

  /** The only test of the database path: every row read has something left. */
  predicate SomethingLeft(seen: Table, items: seq<Item>) {
    && items != []
    && forall i :: 0 <= i < |items| ==> items[i].variantId in seen && Available(seen[items[i].variantId]) > 0
  }

  predicate CanServe(s: State, k: nat) {
    k < |s.served| <= |s.redis.requests| && !s.served[k] && s.redis.requests[k].phase.Granted?
  }

  predicate CanFallThrough(s: State, k: nat, read: nat) {
    && k < |s.fallen| <= |s.redis.requests| && !s.fallen[k] && s.redis.requests[k].phase.Restored?
    && read < |s.answers| && SomethingLeft(s.answers[read], s.redis.requests[k].items)
  }

  predicate CanFallBack(s: State, items: seq<Item>, read: nat) {
    read < |s.answers| && SomethingLeft(s.answers[read], items)
  }

  function RunBatch(s: State, items: seq<Item>): State {
    s.(base := L.Next(s.base, L.Reserve(items)), batches := s.batches + [Batch(s.base.rows, items)])
  }

  function Next(s: State, e: Event): State {
    match e
    case Read => s.(answers := s.answers + [s.base.rows])
    case Seed(read, v) =>
      if read < |s.answers| && v in s.answers[read]
      then s.(redis := R.Next(s.redis, R.Seed(v, Available(s.answers[read][v])))) else s
    case Decrement(items) =>
      s.(redis := R.Next(s.redis, R.Decrement(items)), served := s.served + [false], fallen := s.fallen + [false])
    case Settle(k) => s.(redis := R.Next(s.redis, R.Settle(k)))
    case FallThrough(k, read) =>
      if CanFallThrough(s, k, read)
      then RunBatch(s, s.redis.requests[k].items).(fallen := s.fallen[k := true]) else s
    case Fallback(items, read) => if CanFallBack(s, items, read) then RunBatch(s, items) else s
    case Serve(k) =>
      if CanServe(s, k)
      then s.(base := L.Next(s.base, L.Reserve(s.redis.requests[k].items)), served := s.served[k := true]) else s
    case Database(step) => if step.Reserve? then s else s.(base := L.Next(s.base, step))
  }

  function Run(s: State, events: seq<Event>): State
    decreases |events|
  {
    if events == [] then s else Run(Next(s, events[0]), events[1..])
  }

  function Start(rows: Table): State {
    State(R.INIT, L.INIT.(rows := rows), [], [], [], [])
  }

  ghost predicate Admissible(e: Event) {
    match e
    case Decrement(items) => GoodItems(items)
    case Fallback(items, _) => GoodItems(items)
    case Database(step) => L.Admissible(step)
    case _ => true
  }

  ghost predicate AllAdmissible(events: seq<Event>) {
    forall i :: 0 <= i < |events| ==> Admissible(events[i])
  }

  // ---- units reserved so far ------------------------------------------------------

  /** Units of `v` asked for by the requests that the worker has got to. */
  function ServedUnits(requests: seq<R.Request>, served: seq<bool>, v: int): int
    requires |requests| == |served|
  {
    if requests == [] then 0
    else (if served[0] then QuantityOf(requests[0].items, v) else 0) + ServedUnits(requests[1..], served[1..], v)
  }

  /** Units of `v` that a batch of the database path reserved. */
  function BatchUnits(v: int): Batch -> int {
    (b: Batch) => if v in b.rows && QuantityOf(b.items, v) <= Available(b.rows[v]) then QuantityOf(b.items, v) else 0
  }

  function FallbackUnits(s: State, v: int): int {
    Sum(BatchUnits(v), s.batches)
  }

  lemma {:induction false} ServedAppend(requests: seq<R.Request>, served: seq<bool>, r: R.Request, v: int)
    requires |requests| == |served|
    ensures ServedUnits(requests + [r], served + [false], v) == ServedUnits(requests, served, v)
  {
    if requests == [] {
      assert (requests + [r])[1..] == [] && (served + [false])[1..] == [];
    } else {
      assert (requests + [r])[1..] == requests[1..] + [r] && (served + [false])[1..] == served[1..] + [false];
      ServedAppend(requests[1..], served[1..], r, v);
    }
  }

  lemma {:induction false} ServedSameItems(a: seq<R.Request>, b: seq<R.Request>, served: seq<bool>, v: int)
    requires |a| == |b| == |served| && forall i :: 0 <= i < |a| ==> a[i].items == b[i].items
    ensures ServedUnits(a, served, v) == ServedUnits(b, served, v)
  {
    if a != [] { ServedSameItems(a[1..], b[1..], served[1..], v); }
  }

  lemma {:induction false} ServedOneMore(requests: seq<R.Request>, served: seq<bool>, k: nat, v: int)
    requires |requests| == |served| && k < |served| && !served[k]
    ensures ServedUnits(requests, served[k := true], v)
         == ServedUnits(requests, served, v) + QuantityOf(requests[k].items, v)
  {
    if k == 0 {
      assert served[k := true][1..] == served[1..];
    } else {
      assert served[k := true][1..] == served[1..][k - 1 := true];
      ServedOneMore(requests[1..], served[1..], k - 1, v);
    }
  }

  lemma {:induction false} ServedNonNegative(requests: seq<R.Request>, served: seq<bool>, v: int)
    requires |requests| == |served| && forall r :: r in requests ==> R.WellFormed(r)
    ensures ServedUnits(requests, served, v) >= 0
  {
    if requests != [] {
      assert requests[0] in requests;
      QuantityNonNegative(requests[0].items, v);
      ServedNonNegative(requests[1..], served[1..], v);
    }
  }

  ghost predicate OnlyGrantedServed(requests: seq<R.Request>, served: seq<bool>) {
    |requests| == |served| && forall i :: 0 <= i < |served| && served[i] ==> requests[i].phase.Granted?
  }

  lemma {:induction false} ServedWithinGranted(requests: seq<R.Request>, served: seq<bool>, v: int)
    requires OnlyGrantedServed(requests, served) && forall r :: r in requests ==> R.WellFormed(r)
    ensures ServedUnits(requests, served, v) <= Sum(R.GrantedOf(v), requests)
  {
    if requests != [] {
      assert requests[0] in requests;
      R.HeldCoversWon(requests[0], v);
      ServedWithinGranted(requests[1..], served[1..], v);
    }
  }

  ghost predicate GoodBatches(batches: seq<Batch>) {
    forall i :: 0 <= i < |batches| ==> GoodItems(batches[i].items)
  }

  lemma {:induction false} FallbackNonNegative(batches: seq<Batch>, v: int)
    requires GoodBatches(batches)
    ensures Sum(BatchUnits(v), batches) >= 0
  {
    if batches != [] {
      QuantityNonNegative(batches[0].items, v);
      FallbackNonNegative(batches[1..], v);
    }
  }

  // ---- the invariant -----------------------------------------------------------------

  /** What a row has left, and what was taken from it since the start; no step lowers it. */
  function Slack(s: State, v: int): int
    requires v in s.base.rows && |s.redis.requests| == |s.served|
  {
    Available(s.base.rows[v]) + ServedUnits(s.redis.requests, s.served, v) + FallbackUnits(s, v)
  }

  /** Whatever a checkout has read of a row, and whatever its counter started with, is still there. */
  ghost predicate Covered(s: State, v: int)
    requires |s.redis.requests| == |s.served|
  {
    && (Get(s.redis.seeds, v) > 0 ==> v in s.base.rows && Slack(s, v) >= Get(s.redis.seeds, v))
    && forall i :: 0 <= i < |s.answers| && v in s.answers[i] ==>
         v in s.base.rows && Slack(s, v) >= Available(s.answers[i][v])
  }

  ghost predicate Shape(s: State) {
    && R.Inv(s.redis) && L.GoodOrders(s.base) && GoodBatches(s.batches)
    && OnlyGrantedServed(s.redis.requests, s.served) && |s.fallen| == |s.served|
  }

  ghost predicate Inv(s: State) {
    Shape(s) && forall v :: Covered(s, v)
  }

  lemma RequestIsGood(s: State, k: nat)
    requires Shape(s) && k < |s.redis.requests|
    ensures GoodItems(s.redis.requests[k].items)
  {
    assert s.redis.requests[k] in s.redis.requests;
  }

  lemma NextKeepsShape(s: State, e: Event)
    requires Shape(s) && Admissible(e)
    ensures Shape(Next(s, e))
  {
    match e
    case Read =>
    case Seed(read, v) =>
      if read < |s.answers| && v in s.answers[read] {
        R.NextKeepsInv(s.redis, R.Seed(v, Available(s.answers[read][v])));
      }
    case Decrement(items) => R.NextKeepsInv(s.redis, R.Decrement(items));
    case Settle(k) => R.NextKeepsInv(s.redis, R.Settle(k));
    case FallThrough(k, read) =>
      if CanFallThrough(s, k, read) {
        RequestIsGood(s, k);
        L.StepKeepsGoodOrders(s.base, L.Reserve(s.redis.requests[k].items));
      }
    case Fallback(items, _) => L.StepKeepsGoodOrders(s.base, L.Reserve(items));
    case Serve(k) =>
      if CanServe(s, k) {
        RequestIsGood(s, k);
        L.StepKeepsGoodOrders(s.base, L.Reserve(s.redis.requests[k].items));
      }
    case Database(step) => L.StepKeepsGoodOrders(s.base, step);
  }

  lemma BatchKeepsSlack(s: State, items: seq<Item>, v: int)
    requires Shape(s) && GoodItems(items) && v in s.base.rows
    ensures v in RunBatch(s, items).base.rows && Slack(RunBatch(s, items), v) == Slack(s, v)
  {
    L.StepBalances(s.base, L.Reserve(items), v);
    SumAppend(BatchUnits(v), s.batches, Batch(s.base.rows, items));
  }

  lemma ServeKeepsSlack(s: State, k: nat, v: int)
    requires Shape(s) && CanServe(s, k) && v in s.base.rows
    ensures v in Next(s, Serve(k)).base.rows && Slack(Next(s, Serve(k)), v) >= Slack(s, v)
  {
    var items := s.redis.requests[k].items;
    RequestIsGood(s, k);
    QuantityNonNegative(items, v);
    L.StepBalances(s.base, L.Reserve(items), v);
    ServedOneMore(s.redis.requests, s.served, k, v);
  }

  /** Payments, rollbacks, sweeps and imports never lower what a row has left. */
  lemma OthersNeverShrink(b: L.State, l: L.Event, v: int)
    requires L.GoodOrders(b) && L.Admissible(l) && !l.Reserve? && v in b.rows
    ensures v in L.Next(b, l).rows && Available(L.Next(b, l).rows[v]) >= Available(b.rows[v])
  {
    L.StepBalances(b, l, v);
    match l
    case Clear(k, _) =>
      if L.CanClear(b, k) {
        assert L.GoodRead(b.sweeps[k]);
        L.UnitsNonNegative(b.sweeps[k].read, v);
      }
    case Import(items) => QuantityNonNegative(items, v);
    case _ =>
  }

  lemma SlackNeverShrinks(s: State, e: Event, v: int)
    requires Shape(s) && Shape(Next(s, e)) && Admissible(e) && v in s.base.rows
    ensures v in Next(s, e).base.rows && Slack(Next(s, e), v) >= Slack(s, v)
  {
    match e
    case Read =>
    case Seed(_, _) =>
    case Decrement(items) =>
      ServedAppend(s.redis.requests, s.served,
                   R.Request(items, R.DecrResults(s.redis.counters, items), R.Decremented), v);
    case Settle(k) => ServedSameItems(s.redis.requests, Next(s, e).redis.requests, s.served, v);
    case FallThrough(k, read) =>
      if CanFallThrough(s, k, read) {
        RequestIsGood(s, k);
        BatchKeepsSlack(s, s.redis.requests[k].items, v);
      }
    case Fallback(items, read) => BatchKeepsSlack(s, items, v);
    case Serve(k) => if CanServe(s, k) { ServeKeepsSlack(s, k, v); }
    case Database(step) => if !step.Reserve? { OthersNeverShrink(s.base, step, v); }
  }

  predicate WasRead(rows: Table, v: int, available: int) {
    v in rows && Available(rows[v]) == available
  }

  /** What a step adds to the readings and the counters' first values. */
  lemma NewValuesAreCovered(s: State, e: Event, v: int)
    requires Inv(s)
    ensures Get(Next(s, e).redis.seeds, v) > 0 ==>
      || Get(Next(s, e).redis.seeds, v) == Get(s.redis.seeds, v)
      || exists i :: 0 <= i < |s.answers| && WasRead(s.answers[i], v, Get(Next(s, e).redis.seeds, v))
    ensures forall i :: 0 <= i < |Next(s, e).answers| ==>
      if i < |s.answers| then Next(s, e).answers[i] == s.answers[i] else Next(s, e).answers[i] == s.base.rows
  {
  }

  lemma NextKeepsCovered(s: State, e: Event, v: int)
    requires Inv(s) && Admissible(e) && Shape(Next(s, e))
    ensures Covered(Next(s, e), v)
  {
    assert Covered(s, v);
    NewValuesAreCovered(s, e, v);
    if v in s.base.rows {
      SlackNeverShrinks(s, e, v);
      ServedNonNegative(s.redis.requests, s.served, v);
      FallbackNonNegative(s.batches, v);
    }
  }

  lemma NextKeepsInv(s: State, e: Event)
    requires Inv(s) && Admissible(e)
    ensures Inv(Next(s, e))
  {
    NextKeepsShape(s, e);
    forall v ensures Covered(Next(s, e), v) { NextKeepsCovered(s, e, v); }
  }

  lemma {:induction false} RunKeepsInv(s: State, events: seq<Event>)
    requires Inv(s) && AllAdmissible(events)
    ensures Inv(Run(s, events))
    decreases |events|
  {
    if events != [] {
      NextKeepsInv(s, events[0]);
      RunKeepsInv(Next(s, events[0]), events[1..]);
    }
  }

  // ---- what the worker finds ---------------------------------------------------------

  /**
   An item that Redis granted is short, when the worker gets to it, by no more than the
   database path has reserved of it.
   */
  lemma GrantedShortByFallbackAtMost(s: State, k: nat, i: nat)
    requires Inv(s) && CanServe(s, k) && i < |s.redis.requests[k].items|
    ensures var item := s.redis.requests[k].items[i];
            && item.variantId in s.base.rows
            && item.quantity <= Available(s.base.rows[item.variantId]) + FallbackUnits(s, item.variantId)
  {
    var r, item := s.redis.requests[k], s.redis.requests[k].items[i];
    var v := item.variantId;
    assert r in s.redis.requests && R.WellFormed(r) && Covered(s, v);
    QuantityAt(r.items, i);
    ServedOneMore(s.redis.requests, s.served, k, v);
    ServedWithinGranted(s.redis.requests, s.served[k := true], v);
    ServedNonNegative(s.redis.requests, s.served, v);
    R.GrantedWithinSeed(s.redis, v);
  }

  /** The worker's batch reserves the whole request. */
  ghost predicate ReservesWhole(s: State, k: nat)
    requires k < |s.redis.requests|
  {
    forall v :: v in s.base.rows ==>
      ReserveBatch(s.base.rows, s.redis.requests[k].items)[v].reserved
      == s.base.rows[v].reserved + QuantityOf(s.redis.requests[k].items, v)
  }

  // ---- the inventory part of a run -----------------------------------------------------

  function BaseEvents(s: State, e: Event): seq<L.Event> {
    match e
    case FallThrough(k, read) => if CanFallThrough(s, k, read) then [L.Reserve(s.redis.requests[k].items)] else []
    case Fallback(items, read) => if CanFallBack(s, items, read) then [L.Reserve(items)] else []
    case Serve(k) => if CanServe(s, k) then [L.Reserve(s.redis.requests[k].items)] else []
    case Database(step) => if step.Reserve? then [] else [step]
    case _ => []
  }

  function AllBaseEvents(s: State, events: seq<Event>): seq<L.Event>
    decreases |events|
  {
    if events == [] then [] else BaseEvents(s, events[0]) + AllBaseEvents(Next(s, events[0]), events[1..])
  }

  lemma OneBaseStep(s: State, e: Event, rest: seq<L.Event>)
    requires Shape(s) && Admissible(e)
    ensures L.Run(s.base, BaseEvents(s, e) + rest) == L.Run(Next(s, e).base, rest)
    ensures forall i :: 0 <= i < |BaseEvents(s, e)| ==> L.Admissible(BaseEvents(s, e)[i])
  {
    var bes := BaseEvents(s, e);
    if bes == [] {
      assert bes + rest == rest;
    } else {
      assert (bes + rest)[1..] == rest;
    }
    match e
    case FallThrough(k, read) => if CanFallThrough(s, k, read) { RequestIsGood(s, k); }
    case Serve(k) => if CanServe(s, k) { RequestIsGood(s, k); }
    case _ =>
  }

  lemma {:induction false} BaseRun(s: State, events: seq<Event>)
    requires Inv(s) && AllAdmissible(events)
    ensures L.Run(s.base, AllBaseEvents(s, events)) == Run(s, events).base
    ensures forall i :: 0 <= i < |AllBaseEvents(s, events)| ==> L.Admissible(AllBaseEvents(s, events)[i])
    decreases |events|
  {
    if events != [] {
      var next := Next(s, events[0]);
      NextKeepsInv(s, events[0]);
      OneBaseStep(s, events[0], AllBaseEvents(next, events[1..]));
      BaseRun(next, events[1..]);
    }
  }

  /** The units of `v` that a run has granted, paid, rolled back, released and imported so far. */
  ghost function LedgerSoFar(rows: Table, events: seq<Event>, v: int): L.Ledger
    requires v in rows
  {
    L.LedgerOf(Start(rows).base, AllBaseEvents(Start(rows), events), v)
  }

  lemma StartIsInv(rows: Table)
    ensures Inv(Start(rows))
  {
  }

  lemma AvailableByLedger(rows: Table, events: seq<Event>, v: int)
    requires AllAdmissible(events) && v in Run(Start(rows), events).base.rows
    ensures v in rows
    ensures var l := LedgerSoFar(rows, events, v);
            Available(Run(Start(rows), events).base.rows[v])
            == Available(rows[v]) + 2 * l.released + l.imported - l.granted
  {
    var s, bes := Start(rows), AllBaseEvents(Start(rows), events);
    StartIsInv(rows);
    BaseRun(s, events);
    L.RunKeepsRows(s.base, bes, v);
    L.ColumnsAreLedgerBalance(s.base, bes, v);
  }

  /** The ledger still has room for an item. */
  ghost predicate Allows(rows: Table, events: seq<Event>, item: Item) {
    && item.variantId in rows
    && var l := LedgerSoFar(rows, events, item.variantId);
       item.quantity + l.granted <= Available(rows[item.variantId]) + 2 * l.released + l.imported
  }

  /**
   Over every run, with requests falling through or not, the worker's batch reserves a
   granted request whole if and only if, for each of its items, the units granted so far
   and the item's own are no more than what the row started with, what was imported and
   twice what sweeps released.
   */
  lemma WorkerReservesWholeIff(rows: Table, events: seq<Event>, k: nat)
    requires AllAdmissible(events) && CanServe(Run(Start(rows), events), k)
    ensures var s := Run(Start(rows), events);
            var items := s.redis.requests[k].items;
            ReservesWhole(s, k) <==> forall i :: 0 <= i < |items| ==> Allows(rows, events, items[i])
  {
    StartIsInv(rows);
    RunKeepsInv(Start(rows), events);
    var s := Run(Start(rows), events);
    var items := s.redis.requests[k].items;
    RequestIsGood(s, k);
    forall i | 0 <= i < |items|
      ensures items[i].variantId in s.base.rows
      ensures Allows(rows, events, items[i]) <==> items[i].quantity <= Available(s.base.rows[items[i].variantId])
    {
      GrantedShortByFallbackAtMost(s, k, i);
      AvailableByLedger(rows, events, items[i].variantId);
    }
    BatchReservesAllIffAllFit(s.base.rows, items);
  }

  /**
   While nobody has taken the database path, the worker's batch reserves every granted
   request whole, in whatever order the worker gets to them and whatever payments,
   rollbacks, sweeps and imports come in between.
   */
  lemma DeferredBatchReservesAll(rows: Table, events: seq<Event>, k: nat)
    requires AllAdmissible(events) && CanServe(Run(Start(rows), events), k)
    requires Run(Start(rows), events).batches == []
    ensures ReservesWhole(Run(Start(rows), events), k)
  {
    WorkerReservesWholeIff(rows, events, k);
    StartIsInv(rows);
    RunKeepsInv(Start(rows), events);
    var s := Run(Start(rows), events);
    forall i | 0 <= i < |s.redis.requests[k].items| ensures Allows(rows, events, s.redis.requests[k].items[i]) {
      GrantedShortByFallbackAtMost(s, k, i);
      AvailableByLedger(rows, events, s.redis.requests[k].items[i].variantId);
    }
  }

  // ---- a granted order that is skipped -------------------------------------------------

  /** Units of `v` that customers were told they have. */
  function AcceptedUnits(requests: seq<R.Request>, fallen: seq<bool>, v: int): int
    requires |requests| == |fallen|
  {
    if requests == [] then 0
    else
      (if requests[0].phase.Granted? || fallen[0] then QuantityOf(requests[0].items, v) else 0)
      + AcceptedUnits(requests[1..], fallen[1..], v)
  }

  /** A request for `q` units of variant 7, and the reply of the script. */
  function Asks(q: int, left: int, phase: R.Phase): R.Request {
    R.Request([Item(7, q)], [left], phase)
  }

  lemma DecrementOne(left: int, requests: seq<R.Request>, q: int)
    ensures R.Next(R.State(map[7 := left], map[7 := 5], requests), R.Decrement([Item(7, q)]))
         == R.State(map[7 := left - q], map[7 := 5], requests + [Asks(q, left - q, R.Decremented)])
  {
    var items := [Item(7, q)];
    assert items[1..] == [];
    assert R.DecrAll(map[7 := left], items) == map[7 := left - q];
    assert R.DecrResults(map[7 := left], items) == [left - q];
  }

  /** Redis after three of five units were granted and four more refused. */
  function GrantedThenRefused(): R.State {
    R.State(map[7 := 2], map[7 := 5], [Asks(3, 2, R.Granted), Asks(4, -2, R.Restored(0))])
  }

  lemma RedisGrantsThenRefuses()
    ensures var r := R.State(map[7 := 5], map[7 := 5], []);
            var granted := R.Next(R.Next(r, R.Decrement([Item(7, 3)])), R.Settle(0));
            R.Next(R.Next(granted, R.Decrement([Item(7, 4)])), R.Settle(1)) == GrantedThenRefused()
  {
    DecrementOne(5, [], 3);
    assert [] + [Asks(3, 2, R.Decremented)] == [Asks(3, 2, R.Decremented)];
    SettleGrants();
    DecrementOne(2, [Asks(3, 2, R.Granted)], 4);
    assert [Asks(3, 2, R.Granted)] + [Asks(4, -2, R.Decremented)]
        == [Asks(3, 2, R.Granted), Asks(4, -2, R.Decremented)];
    SettleRefuses();
  }

  lemma SettleGrants()
    ensures R.Next(R.State(map[7 := 2], map[7 := 5], [Asks(3, 2, R.Decremented)]), R.Settle(0))
         == R.State(map[7 := 2], map[7 := 5], [Asks(3, 2, R.Granted)])
  {
    assert R.FirstShortage([2], 0).None?;
  }

  lemma SettleRefuses()
    ensures R.Next(R.State(map[7 := -2], map[7 := 5], [Asks(3, 2, R.Granted), Asks(4, -2, R.Decremented)]), R.Settle(1))
         == GrantedThenRefused()
  {
    assert R.FirstShortage([-2], 0) == Some(0);
  }

  /** One reading of five free units, and the two requests that follow it. */
  function TwoRequests(): seq<Event> {
    [Read, Seed(0, 7), Decrement([Item(7, 3)]), Settle(0), Decrement([Item(7, 4)]), Settle(1)]
  }

  function AfterTwoRequests(): State {
    State(GrantedThenRefused(), L.INIT.(rows := map[7 := Row(5, 0)]), [map[7 := Row(5, 0)]],
          [false, false], [false, false], [])
  }

  lemma RunSix(s: State, a: Event, b: Event, c: Event, d: Event, e: Event, f: Event)
    ensures Run(s, [a, b, c, d, e, f]) == Next(Next(Next(Next(Next(Next(s, a), b), c), d), e), f)
  {
    assert [a, b, c, d, e, f][1..] == [b, c, d, e, f] && [b, c, d, e, f][1..] == [c, d, e, f];
    assert [c, d, e, f][1..] == [d, e, f] && [d, e, f][1..] == [e, f] && [e, f][1..] == [f] && [f][1..] == [];
    RunFour(Next(Next(s, a), b), c, d, e, f);
  }

  lemma RunFour(s: State, c: Event, d: Event, e: Event, f: Event)
    ensures Run(s, [c, d, e, f]) == Next(Next(Next(Next(s, c), d), e), f)
  {
    assert [c, d, e, f][1..] == [d, e, f] && [d, e, f][1..] == [e, f] && [e, f][1..] == [f] && [f][1..] == [];
    assert Run(Next(Next(Next(s, c), d), e), [f]) == Next(Next(Next(Next(s, c), d), e), f);
    assert Run(Next(Next(s, c), d), [e, f]) == Run(Next(Next(Next(s, c), d), e), [f]);
  }

  /** The counter has its five units, and nobody has asked yet. */
  function Seeded(): State {
    Start(map[7 := Row(5, 0)]).(redis := R.State(map[7 := 5], map[7 := 5], []), answers := [map[7 := Row(5, 0)]])
  }

  lemma ReadAndSeed()
    ensures Next(Next(Start(map[7 := Row(5, 0)]), Read), Seed(0, 7)) == Seeded()
  {
  }

  lemma TwoRequestsAfterSeed()
    ensures Next(Next(Next(Next(Seeded(), Decrement([Item(7, 3)])), Settle(0)), Decrement([Item(7, 4)])), Settle(1))
            == AfterTwoRequests()
  {
    OneRequest(Seeded(), [Item(7, 3)], 0);
    OneRequest(Next(Next(Seeded(), Decrement([Item(7, 3)])), Settle(0)), [Item(7, 4)], 1);
    RedisGrantsThenRefuses();
  }

  lemma TwoRequestsRun()
    ensures Run(Start(map[7 := Row(5, 0)]), TwoRequests()) == AfterTwoRequests()
  {
    RunSix(Start(map[7 := Row(5, 0)]), Read, Seed(0, 7),
           Decrement([Item(7, 3)]), Settle(0), Decrement([Item(7, 4)]), Settle(1));
    ReadAndSeed();
    TwoRequestsAfterSeed();
  }

  lemma OneRequest(s: State, items: seq<Item>, k: nat)
    ensures Next(Next(s, Decrement(items)), Settle(k))
         == s.(redis := R.Next(R.Next(s.redis, R.Decrement(items)), R.Settle(k)),
               served := s.served + [false], fallen := s.fallen + [false])
  {
  }

  /**
   Of five free units Redis grants three; a request for four is refused there, passes the
   database path's test and reserves four.  The worker then skips the granted order
   without an error: seven units are accepted, and four reserved.
   */
  lemma FallThroughSkipsGranted()
    ensures var s := Next(Run(Start(map[7 := Row(5, 0)]), TwoRequests()), FallThrough(1, 0));
            && CanServe(s, 0) && !ReservesWhole(s, 0)
            && Next(s, Serve(0)).base.rows == s.base.rows == map[7 := Row(5, 4)]
            && |s.redis.requests| == |s.fallen| && AcceptedUnits(s.redis.requests, s.fallen, 7) == 7
  {
    TwoRequestsRun();
    FallThroughReservesFour();
    FourLeaveNoRoomForThree();
    SevenAreAccepted();
  }

  /** The same after the database path has reserved the four units. */
  function AfterFallThrough(): State {
    AfterTwoRequests().(
      base := L.INIT.(rows := map[7 := Row(5, 4)]),
      fallen := [false, true],
      batches := [Batch(map[7 := Row(5, 0)], [Item(7, 4)])])
  }

  lemma BatchOfOne(row: Row, q: int)
    ensures ReserveBatch(map[7 := row], [Item(7, q)]) == map[7 := ReserveRow(row, q)]
  {
    assert CaseQuantity([Item(7, q)], 7) == Some(q);
  }

  lemma FallThroughReservesFour()
    ensures Next(AfterTwoRequests(), FallThrough(1, 0)) == AfterFallThrough()
  {
    BatchOfOne(Row(5, 0), 4);
    assert CanFallThrough(AfterTwoRequests(), 1, 0);
  }

  lemma FourLeaveNoRoomForThree()
    ensures var s := AfterFallThrough();
            CanServe(s, 0) && !ReservesWhole(s, 0) && Next(s, Serve(0)).base.rows == s.base.rows
  {
    var s := AfterFallThrough();
    BatchOfOne(Row(5, 4), 3);
    assert s.redis.requests[0].items == [Item(7, 3)] && [Item(7, 3)][1..] == [];
    assert QuantityOf([Item(7, 3)], 7) == 3;
    assert 7 in s.base.rows && ReserveBatch(s.base.rows, s.redis.requests[0].items)[7].reserved == 4;
  }

  lemma SevenAreAccepted()
    ensures var s := AfterFallThrough();
            |s.redis.requests| == |s.fallen| && AcceptedUnits(s.redis.requests, s.fallen, 7) == 7
  {
    var s := AfterFallThrough();
    assert [Item(7, 3)][1..] == [] && [Item(7, 4)][1..] == [];
    assert QuantityOf([Item(7, 3)], 7) == 3 && QuantityOf([Item(7, 4)], 7) == 4;
    var requests, fallen := s.redis.requests, s.fallen;
    assert requests[1..] == [Asks(4, -2, R.Restored(0))] && fallen[1..] == [true];
    assert requests[1..][1..] == [];
  }
}
