/**
 How many units a run takes for one order.  An order's course - where its intent stands and
 which items are written - is followed from the events alone; it gives the exact units for
 any clock, and with a clock that never goes back one delivery decides them.
 */
module WebhookUnits {
  import opened Common
  import opened Inventory
  import opened Webhook
  import opened WebhookRuns

  // ---- what is taken, whatever the clock does ----------------------------------------

  /** Where the intent of an order stands. */
  datatype Stage = Waiting | Closed | Late | Gone

  /** What decides an order's stock, followed from the events alone. */
  datatype Course = Course(stage: Stage, items: seq<Item>, expiredAt: int, total: int)

  predicate IsFor(e: Event, code: string) {
    e.Delivered? && e.delivery.id != 0 && e.delivery.content == code
  }

  function Follow(o: Course, code: string, e: Event): Course {
    match e
    case ItemsWritten(c, items) => if c == code && o.items == [] then o.(items := items) else o
    case Delivered(d) =>
      if !IsFor(e, code) || o.stage.Gone? then o
      else if o.expiredAt < d.now then o.(stage := Late)
      else if d.amount >= o.total then o.(stage := Closed)
      else o
    case Purged(cutoff) => if o.stage.Waiting? && o.expiredAt < cutoff then o.(stage := Gone) else o
    case _ => o
  }

  function FollowAll(o: Course, code: string, events: seq<Event>): Course
    decreases |events|
  {
    if events == [] then o else FollowAll(Follow(o, code, events[0]), code, events[1..])
  }

  /** In time and exact, with the intent open. */
  predicate Settles(o: Course, code: string, e: Event) {
    && IsFor(e, code) && (o.stage.Waiting? || o.stage.Late?)
    && e.delivery.now <= o.expiredAt && e.delivery.amount == o.total
  }

  function FaultCharge(fault: Fault, quantity: int): int {
    match fault
    case NoFault => quantity
    case StatusFails => 0
    case DecrementFails => -quantity
  }

  /** Net units of `v` that one event takes for the order. */
  function Charge(o: Course, code: string, e: Event, v: int): int {
    if Settles(o, code, e) then FaultCharge(e.delivery.fault, QuantityOf(o.items, v)) else 0
  }

  function Charges(o: Course, code: string, events: seq<Event>, v: int): int
    decreases |events|
  {
    if events == [] then 0
    else Charge(o, code, events[0], v) + Charges(Follow(o, code, events[0]), code, events[1..], v)
  }

  function Reduced(row: Row, quantity: int): Row {
    Row(row.stock - quantity, row.reserved - quantity)
  }

  /** How often the stock statement runs for the order. */
  function Takings(o: Course, code: string, events: seq<Event>): nat
    decreases |events|
  {
    if events == [] then 0
    else
      (if Settles(o, code, events[0]) && !events[0].delivery.fault.DecrementFails? && o.items != [] then 1 else 0)
      + Takings(Follow(o, code, events[0]), code, events[1..])
  }

  function UnitsFor(code: string, v: int): Movement -> int {
    (m: Movement) => if m.order == code then Get(m.quantities, v) else 0
  }

  function OneFor(code: string): Movement -> int {
    (m: Movement) => if m.order == code then 1 else 0
  }

  /** Units of `v` taken for the order less those restored. */
  function Net(s: State, code: string, v: int): int {
    Sum(UnitsFor(code, v), s.taken) - Sum(UnitsFor(code, v), s.restored)
  }

  function TimesTaken(s: State, code: string): int {
    Sum(OneFor(code), s.taken)
  }

  ghost predicate Stands(s: State, code: string, o: Course) {
    && code != "" && code in s.orders && s.orders[code].total == o.total && s.orders[code].items == o.items
    && (code in s.intents <==> !o.stage.Gone?)
    && (code in s.intents ==> s.intents[code].expiredAt == o.expiredAt && HasStage(s.intents[code].status, o.stage))
    && (o.stage.Waiting? ==> s.orders[code].status.PENDING_PAYMENT?)
  }

  predicate HasStage(status: PaymentStatus, stage: Stage) {
    match stage
    case Waiting => status.PENDING?
    case Closed => status.SUCCESS?
    case Late => status.EXPIRED?
    case Gone => false
  }

  ghost predicate AllGood(events: seq<Event>) {
    forall i :: 0 <= i < |events| && events[i].ItemsWritten? ==> GoodItems(events[i].items)
  }

  lemma MovesNet(s: State, s': State, m: Movement, fault: Fault, code: string, v: int)
    requires Moves(s, s', m, fault)
    ensures v in s.rows ==> v in s'.rows && s'.rows[v] == Reduced(s.rows[v], FaultCharge(fault, Get(m.quantities, v)))
    ensures Net(s', code, v)
         == Net(s, code, v) + if m.order == code then FaultCharge(fault, Get(m.quantities, v)) else 0
    ensures TimesTaken(s', code)
         == TimesTaken(s, code) + if m.order == code && !fault.DecrementFails? && m.quantities != map[] then 1 else 0
  {
    SumAppend(UnitsFor(code, v), s.taken, m);
    SumAppend(UnitsFor(code, v), s.restored, m);
    SumAppend(OneFor(code), s.taken, m);
  }

  lemma OtherOrderStands(s: State, d: Delivery, code: string, o: Course)
    requires Stands(s, code, o) && d.content != code
    ensures Stands(Deliver(s, d).0, code, o)
  {
  }

  lemma OwnOrderStands(s: State, d: Delivery, code: string, o: Course)
    requires Stands(s, code, o) && d.content == code
    ensures Stands(Deliver(s, d).0, code, Follow(o, code, Delivered(d)))
  {
  }

  lemma DeliverStands(s: State, d: Delivery, code: string, o: Course)
    requires Stands(s, code, o)
    ensures Stands(Deliver(s, d).0, code, Follow(o, code, Delivered(d)))
    ensures d.content == code ==> (Full(s, d) <==> Settles(o, code, Delivered(d)))
  {
    if d.content == code {
      OwnOrderStands(s, d, code, o);
    } else {
      OtherOrderStands(s, d, code, o);
    }
  }

  /** One event: the course is kept, and the logs move by its charge. */
  lemma FollowStep(s: State, e: Event, code: string, o: Course, v: int)
    requires Stands(s, code, o) && DistinctVariants(o.items)
    ensures Stands(Step(s, e), code, Follow(o, code, e))
    ensures Net(Step(s, e), code, v) == Net(s, code, v) + Charge(o, code, e, v)
    ensures TimesTaken(Step(s, e), code) == TimesTaken(s, code) + Takings(o, code, [e])
  {
    assert [e][1..] == [];
    match e
    case Delivered(d) =>
      DeliverStands(s, d, code, o);
      DeliverMoves(s, d);
      if Full(s, d) {
        MovesNet(s, Deliver(s, d).0, MovementOf(s, d), d.fault, code, v);
        if d.content == code { ItemMapIsQuantity(o.items, v); }
      }
    case _ =>
  }

  lemma {:induction false} FollowRun(s: State, events: seq<Event>, code: string, o: Course, v: int)
    requires Stands(s, code, o) && DistinctVariants(o.items) && AllGood(events)
    ensures Stands(Run(s, events), code, FollowAll(o, code, events))
    ensures Net(Run(s, events), code, v) == Net(s, code, v) + Charges(o, code, events, v)
    ensures TimesTaken(Run(s, events), code) == TimesTaken(s, code) + Takings(o, code, events)
    decreases |events|
  {
    if events != [] {
      FollowStep(s, events[0], code, o, v);
      assert [events[0]][1..] == [];
      FollowRun(Step(s, events[0]), events[1..], code, Follow(o, code, events[0]), v);
    }
  }

  /** A run whose deliveries are all for one order moves the columns by that order's charges. */
  lemma {:induction false} ColumnsFollowCharges(s: State, events: seq<Event>, code: string, o: Course, v: int)
    requires Stands(s, code, o) && DistinctVariants(o.items) && AllGood(events) && v in s.rows
    requires forall i :: 0 <= i < |events| && events[i].Delivered? ==> events[i].delivery.content == code
    ensures v in Run(s, events).rows && Run(s, events).rows[v] == Reduced(s.rows[v], Charges(o, code, events, v))
    decreases |events|
  {
    if events != [] {
      FollowStep(s, events[0], code, o, v);
      RowStep(s, events[0], code, o, v);
      ColumnsFollowCharges(Step(s, events[0]), events[1..], code, Follow(o, code, events[0]), v);
    }
  }

  lemma RowStep(s: State, e: Event, code: string, o: Course, v: int)
    requires Stands(s, code, o) && DistinctVariants(o.items) && v in s.rows
    requires e.Delivered? ==> e.delivery.content == code
    ensures v in Step(s, e).rows && Step(s, e).rows[v] == Reduced(s.rows[v], Charge(o, code, e, v))
  {
    if e.Delivered? {
      var d := e.delivery;
      DeliverStands(s, d, code, o);
      DeliverMoves(s, d);
      if Full(s, d) {
        MovesNet(s, Deliver(s, d).0, MovementOf(s, d), d.fault, code, v);
        ItemMapIsQuantity(o.items, v);
      }
    }
  }

  /** An order's stock is taken a second time only after a delivery stamped past its expiry. */
  lemma {:induction false} SecondTakingNeedsLate(o: Course, code: string, events: seq<Event>)
    requires Takings(o, code, events) >= if o.stage.Closed? then 1 else 2
    ensures exists j, k :: 0 <= j < k < |events| && IsLate(events[j], code, o.expiredAt) && IsExact(events[k], code, o)
    decreases |events|
  {
    var e, rest, next := events[0], events[1..], Follow(o, code, events[0]);
    if o.stage.Closed? && IsLate(e, code, o.expiredAt) {
      var k := TakingIsExact(next, code, rest);
      assert IsExact(events[k + 1], code, o);
    } else {
      SecondTakingNeedsLate(next, code, rest);
      var j, k :| 0 <= j < k < |rest| && IsLate(rest[j], code, o.expiredAt) && IsExact(rest[k], code, next);
      assert IsLate(events[j + 1], code, o.expiredAt) && IsExact(events[k + 1], code, o);
    }
  }

  predicate IsLate(e: Event, code: string, expiredAt: int) {
    IsFor(e, code) && expiredAt < e.delivery.now
  }

  predicate IsExact(e: Event, code: string, o: Course) {
    IsFor(e, code) && e.delivery.now <= o.expiredAt && e.delivery.amount == o.total
  }

  lemma {:induction false} TakingIsExact(o: Course, code: string, events: seq<Event>) returns (k: nat)
    requires Takings(o, code, events) >= 1
    ensures k < |events| && IsExact(events[k], code, o)
    decreases |events|
  {
    if Settles(o, code, events[0]) {
      k := 0;
    } else {
      var i := TakingIsExact(Follow(o, code, events[0]), code, events[1..]);
      k := i + 1;
    }
  }

  // ---- what is taken with a clock that never goes back ---------------------------------

  predicate IsEnough(e: Event, code: string, o: Course) {
    IsFor(e, code) && e.delivery.now <= o.expiredAt && e.delivery.amount >= o.total
  }

  /** A delivery, and the items that were written before it. */
  datatype Decision = Decision(delivery: Delivery, items: seq<Item>)

  /** The first delivery for the order that is in time and not short. */
  function FirstEnough(o: Course, code: string, events: seq<Event>): Option<Decision>
    decreases |events|
  {
    if events == [] then None
    else if IsEnough(events[0], code, o) then Some(Decision(events[0].delivery, o.items))
    else FirstEnough(Follow(o, code, events[0]), code, events[1..])
  }

  lemma {:induction false} NothingMoreIsTaken(o: Course, code: string, events: seq<Event>, last: int, v: int)
    requires MonotoneClock(last, events) && (o.stage.Closed? || o.expiredAt < last)
    ensures Charges(o, code, events, v) == 0 && Takings(o, code, events) == 0
    decreases |events|
  {
    if events != [] {
      NothingMoreIsTaken(Follow(o, code, events[0]), code, events[1..], Clock(events[0], last), v);
    }
  }

  lemma {:induction false} NothingEnoughAfterExpiry(o: Course, code: string, events: seq<Event>, last: int)
    requires MonotoneClock(last, events) && o.expiredAt < last
    ensures FirstEnough(o, code, events).None?
    decreases |events|
  {
    if events != [] {
      NothingEnoughAfterExpiry(Follow(o, code, events[0]), code, events[1..], Clock(events[0], last));
    }
  }

  function DecidedCharge(f: Option<Decision>, total: int, v: int): int {
    if f.Some? && f.value.delivery.amount == total
    then FaultCharge(f.value.delivery.fault, QuantityOf(f.value.items, v)) else 0
  }

  lemma {:induction false} FirstEnoughDecides(o: Course, code: string, events: seq<Event>, last: int, v: int)
    requires MonotoneClock(last, events) && (o.stage.Waiting? || o.stage.Late?)
    ensures Charges(o, code, events, v) == DecidedCharge(FirstEnough(o, code, events), o.total, v)
    decreases |events|
  {
    if events != [] {
      var e, now := events[0], Clock(events[0], last);
      var next := Follow(o, code, e);
      if IsEnough(e, code, o) {
        NothingMoreIsTaken(next, code, events[1..], now, v);
      } else if next.stage.Gone? {
        NothingMoreIsTaken(next, code, events[1..], now, v);
        NothingEnoughAfterExpiry(next, code, events[1..], now);
      } else {
        FirstEnoughDecides(next, code, events[1..], now, v);
      }
    }
  }

  /**
   Exactly what a run takes for an order, per variant: nothing if no in-time delivery is
   enough or the first enough one overpays; else the items written before it, once, or
   nothing, or minus once, as its stock writes succeed, fail after the decrement, or fail
   at the decrement.  Shortfalls never add up.
   */
  lemma {:induction false} UnitsTakenByFirstEnough(s: State, events: seq<Event>, last: int,
          code: string, o: Course, v: int)
    requires Stands(s, code, o) && (o.stage.Waiting? || o.stage.Late?) && DistinctVariants(o.items)
    requires AllGood(events) && MonotoneClock(last, events)
    ensures Net(Run(s, events), code, v) == Net(s, code, v) + DecidedCharge(FirstEnough(o, code, events), o.total, v)
  {
    FollowRun(s, events, code, o, v);
    FirstEnoughDecides(o, code, events, last, v);
  }

  lemma {:induction false} ItemsAreWrittenOnce(o: Course, code: string, events: seq<Event>)
    requires GoodItems(o.items) && AllGood(events)
    ensures GoodItems(FollowAll(o, code, events).items)
    ensures o.items != [] ==> FollowAll(o, code, events).items == o.items
    ensures var f := FirstEnough(o, code, events);
            f.Some? && f.value.items != [] ==> f.value.items == FollowAll(o, code, events).items
    decreases |events|
  {
    if events != [] {
      ItemsAreWrittenOnce(Follow(o, code, events[0]), code, events[1..]);
    }
  }

  /**
   In the end exactly the order's items have been taken if and only if the first in-time
   delivery that is not short carries exactly the total, comes after the items were
   written, and meets no fault; or the order never gets items at all.
   */
  lemma {:induction false} TakenIffFirstEnoughIsExact(s: State, events: seq<Event>, last: int, code: string, o: Course)
    requires Stands(s, code, o) && (o.stage.Waiting? || o.stage.Late?) && GoodItems(o.items)
    requires forall v :: Net(s, code, v) == 0
    requires AllGood(events) && MonotoneClock(last, events)
    ensures code in Run(s, events).orders
    ensures var f, items := FirstEnough(o, code, events), Run(s, events).orders[code].items;
            (forall v :: Net(Run(s, events), code, v) == QuantityOf(items, v))
            <==> items == [] || (&& f.Some? && f.value.delivery.amount == o.total
                                 && f.value.items != [] && f.value.delivery.fault.NoFault?)
  {
    var f, final := FirstEnough(o, code, events), FollowAll(o, code, events).items;
    FollowRun(s, events, code, o, 0);
    ItemsAreWrittenOnce(o, code, events);
    forall v ensures Net(Run(s, events), code, v) == DecidedCharge(f, o.total, v) {
      UnitsTakenByFirstEnough(s, events, last, code, o, v);
    }
    if final == [] {
      assert f.Some? ==> f.value.items == [];
    } else {
      var v := final[0].variantId;
      QuantityAt(final, 0);
      assert Net(Run(s, events), code, v) == DecidedCharge(f, o.total, v);
    }
  }

  // ---- new orders -------------------------------------------------------------------------

  ghost predicate KnownOrders(s: State) {
    && (forall i :: 0 <= i < |s.taken| ==> s.taken[i].order in s.orders)
    && (forall i :: 0 <= i < |s.restored| ==> s.restored[i].order in s.orders)
  }

  lemma StepKeepsKnown(s: State, e: Event)
    requires KnownOrders(s)
    ensures KnownOrders(Step(s, e))
  {
    StepExtends(s, e);
    if e.Delivered? { DeliverMoves(s, e.delivery); }
  }

  lemma {:induction false} RunKeepsKnown(s: State, events: seq<Event>)
    requires KnownOrders(s)
    ensures KnownOrders(Run(s, events))
    decreases |events|
  {
    if events != [] {
      StepKeepsKnown(s, events[0]);
      RunKeepsKnown(Step(s, events[0]), events[1..]);
    }
  }

  lemma {:induction false} UnknownHasNoUnits(ms: seq<Movement>, code: string, v: int)
    requires forall i :: 0 <= i < |ms| ==> ms[i].order != code
    ensures Sum(UnitsFor(code, v), ms) == 0
  {
    if ms != [] { UnknownHasNoUnits(ms[1..], code, v); }
  }

  /** Whatever happened before, a new order waits for its payment with nothing taken. */
  lemma NewOrderStands(events: seq<Event>, code: string, total: int, now: int)
    requires code != "" && code !in Run(INIT, events).orders && code !in Run(INIT, events).intents
    ensures var s := Step(Run(INIT, events), Checkout(code, total, now));
            && Stands(s, code, Course(Waiting, [], now + 60 * 60 * 1000, total))
            && forall v :: Net(s, code, v) == 0
  {
    RunKeepsKnown(INIT, events);
    var s := Step(Run(INIT, events), Checkout(code, total, now));
    forall v ensures Net(s, code, v) == 0 {
      UnknownHasNoUnits(s.taken, code, v);
      UnknownHasNoUnits(s.restored, code, v);
    }
  }

  /**
   A payment that arrives before the worker has written the items marks the order PAID and
   takes nothing, then or later: the quantity map is empty.
   */
  lemma EarlyPaymentTakesNothing(s: State, code: string, now: int, d: Delivery, items: seq<Item>)
    requires code != "" && code !in s.orders && code !in s.intents
    requires d.id != 0 && d.content == code && d.now <= now + PAYMENT_INTENT_EXPIRES_IN_MS && !d.fault.StatusFails?
    ensures var s1 := Step(s, Checkout(code, d.amount, now));
            var s3 := Step(Deliver(s1, d).0, ItemsWritten(code, items));
            && code in s3.orders && s3.orders[code].status.PAID? && s3.orders[code].items == items
            && SameStock(s, s3)
  {
    DeliverMoves(Step(s, Checkout(code, d.amount, now)), d);
  }
}
