/**
 Whole runs of the inventory statements, in any order and interleaving.  The ledger of a
 run adds up what each step was asked to move - a reservation only if its guard let it -
 and the columns are shown to be the ledger's balance.
 */
module InventoryLedger {
  import opened Common
  import opened Inventory

  /** The expired orders one sweep read, and when; closed once it has cleared them. */
  datatype Sweep = Sweep(found: seq<nat>, read: seq<Order>, readAt: int, open: bool)

  /**
   `settling` holds the items that were read last for a paid order; `released` counts, per
   order, how often a sweep gave its items back.
   */
  datatype State = State(
    rows: Table,
    orders: seq<Order>,
    sweeps: seq<Sweep>,
    settling: map<nat, seq<Item>>,
    released: multiset<nat>)

  datatype Event =
    | Reserve(items: seq<Item>)
    | Place(now: int)
    | WriteItems(order: nat, items: seq<Item>)
    | MarkPaid(order: nat)
    | ReadItems(order: nat)
    | Pay(order: nat)
    | Rollback(order: nat)
    | Find(now: int)
    | Clear(sweep: nat, now: int)
    | Import(items: seq<Item>)

  predicate CanSettle(s: State, o: nat) {
    o < |s.orders| && o in s.settling
  }

  predicate CanClear(s: State, k: nat) {
    k < |s.sweeps| && s.sweeps[k].open
  }

  function CancelExpired(orders: seq<Order>, now: int): (r: seq<Order>)
    ensures |r| == |orders| && forall o :: 0 <= o < |r| ==> r[o] == CancelIfExpired(orders[o], now)
  {
    seq(|orders|, o requires 0 <= o < |orders| => CancelIfExpired(orders[o], now))
  }

  function Next(s: State, e: Event): State {
    match e
    case Reserve(items) => s.(rows := ReserveBatch(s.rows, items))
    case Place(now) =>
      s.(orders := s.orders + [Order([], PENDING_PAYMENT, PENDING, now + ORDER_EXPIRED_MS)])
    case WriteItems(o, items) =>
      if o < |s.orders| && s.orders[o].items == []
      then s.(orders := s.orders[o := s.orders[o].(items := items)]) else s
    case MarkPaid(o) =>
      if o < |s.orders|
      then s.(orders := s.orders[o := s.orders[o].(status := PAID, paymentStatus := SUCCESS)]) else s
    case ReadItems(o) =>
      if o < |s.orders| && s.orders[o].paymentStatus.SUCCESS?
      then s.(settling := s.settling[o := s.orders[o].items]) else s
    case Pay(o) =>
      if CanSettle(s, o)
      then s.(rows := PaidDecrement(s.rows, ItemMap(s.settling[o])),
              orders := s.orders[o := s.orders[o].(status := PAID)]) else s
    case Rollback(o) =>
      if CanSettle(s, o)
      then s.(rows := RollbackIncrement(s.rows, ItemMap(s.settling[o])),
              orders := s.orders[o := s.orders[o].(status := PENDING_PAYMENT)]) else s
    case Find(now) =>
      var found := FindExpired(s.orders, now);
      s.(sweeps := s.sweeps + [Sweep(found, Pick(s.orders, found), now, true)])
    case Clear(k, now) =>
      if !CanClear(s, k) then s
      else
        var found := s.sweeps[k].found;
        var closed := s.(sweeps := s.sweeps[k := s.sweeps[k].(open := false)]);
        if found == [] then closed
        else closed.(rows := Release(s.rows, AddOrders(map[], s.sweeps[k].read)),
                     orders := CancelExpired(s.orders, now),
                     released := s.released + multiset(found))
    case Import(items) => s.(rows := ImportAll(s.rows, items))
  }

  function Run(s: State, events: seq<Event>): State
    decreases |events|
  {
    if events == [] then s else Run(Next(s, events[0]), events[1..])
  }

  // ---- what a step leaves of orders, readings and sweeps -------------------------

  lemma ItemsAfter(s: State, e: Event, o: nat)
    requires o < |Next(s, e).orders|
    ensures Next(s, e).orders[o].items
         == if o >= |s.orders| then []
            else if e.WriteItems? && e.order == o && s.orders[o].items == [] then e.items
            else s.orders[o].items
  {
  }

  lemma SettlingAfter(s: State, e: Event, o: nat)
    requires o in Next(s, e).settling
    ensures o in s.settling || o < |s.orders|
    ensures |s.orders| <= |Next(s, e).orders|
    ensures Next(s, e).settling[o]
         == if e.ReadItems? && e.order == o && o < |s.orders| && s.orders[o].paymentStatus.SUCCESS?
            then s.orders[o].items
            else if o in s.settling then s.settling[o] else []
  {
  }

  lemma SweepAfter(s: State, e: Event, k: nat)
    requires k < |Next(s, e).sweeps|
    ensures var w := Next(s, e).sweeps[k];
            if k < |s.sweeps| then w.found == s.sweeps[k].found && w.read == s.sweeps[k].read
            else e.Find? && w.found == FindExpired(s.orders, e.now) && w.read == Pick(s.orders, w.found)
  {
  }

  /** What one step does to an order's status, payment status and expiry. */
  lemma OrderAfter(s: State, e: Event, o: nat)
    requires o < |s.orders|
    ensures o < |Next(s, e).orders|
    ensures var before, after := s.orders[o], Next(s, e).orders[o];
            && after.expiredAt == before.expiredAt
            && after.status == (match e
                 case MarkPaid(p) => if p == o then PAID else before.status
                 case Pay(p) => if p == o && p in s.settling then PAID else before.status
                 case Rollback(p) => if p == o && p in s.settling then PENDING_PAYMENT else before.status
                 case Clear(k, now) => if Sweeps(s, k, now, before) then CANCELLED else before.status
                 case _ => before.status)
            && after.paymentStatus == (match e
                 case MarkPaid(p) => if p == o then SUCCESS else before.paymentStatus
                 case Clear(k, now) => if Sweeps(s, k, now, before) then EXPIRED else before.paymentStatus
                 case _ => before.paymentStatus)
  {
  }

  /** The clear of a sweep that had found something reaches an order still waiting. */
  predicate Sweeps(s: State, k: nat, now: int, o: Order) {
    && k < |s.sweeps| && s.sweeps[k].open && s.sweeps[k].found != []
    && o.status.PENDING_PAYMENT? && o.expiredAt - now < 60 * 60 * 1000
  }

  /** An order waits for its payment, unpaid, for 100 minutes from its placing. */
  lemma PlacedOrder(s: State, now: int)
    ensures Next(s, Place(now)).orders == s.orders + [Order([], PENDING_PAYMENT, PENDING, now + 100 * 60 * 1000)]
  {
  }

  /** Over any run an order has payment SUCCESS only if it had it before or was marked paid. */
  lemma {:induction false} SuccessOnlyByMarkPaid(s: State, events: seq<Event>, o: nat)
    requires o < |s.orders| ==> !s.orders[o].paymentStatus.SUCCESS?
    requires forall i :: 0 <= i < |events| ==> events[i] != MarkPaid(o)
    ensures o < |Run(s, events).orders| ==> !Run(s, events).orders[o].paymentStatus.SUCCESS?
    decreases |events|
  {
    if events != [] {
      if o < |s.orders| { OrderAfter(s, events[0], o); }
      SuccessOnlyByMarkPaid(Next(s, events[0]), events[1..], o);
    }
  }

  lemma StepKeepsRows(s: State, e: Event, v: int)
    ensures v in Next(s, e).rows <==> v in s.rows
  {
    if e.Import? { ImportRow(s.rows, e.items, v); }
  }

  /** Variants are neither added nor removed. */
  lemma {:induction false} RunKeepsRows(s: State, events: seq<Event>, v: int)
    ensures v in Run(s, events).rows <==> v in s.rows
    decreases |events|
  {
    if events != [] {
      StepKeepsRows(s, events[0], v);
      RunKeepsRows(Next(s, events[0]), events[1..], v);
    }
  }

  // ---- the ledger ------------------------------------------------------------

  datatype Ledger = Ledger(granted: int, paid: int, rolledBack: int, released: int, imported: int)

  const ZERO := Ledger(0, 0, 0, 0, 0)

  /** What one step moves for variant `v`. */
  function Entry(s: State, e: Event, v: int): Ledger
    requires v in s.rows
  {
    match e
    case Reserve(items) =>
      var q := QuantityOf(items, v);
      ZERO.(granted := if q <= s.rows[v].stock - s.rows[v].reserved then q else 0)
    case Pay(o) => if CanSettle(s, o) then ZERO.(paid := QuantityOf(s.settling[o], v)) else ZERO
    case Rollback(o) => if CanSettle(s, o) then ZERO.(rolledBack := QuantityOf(s.settling[o], v)) else ZERO
    case Clear(k, _) => if CanClear(s, k) then ZERO.(released := Sum(UnitsOf(v), s.sweeps[k].read)) else ZERO
    case Import(items) => ZERO.(imported := QuantityOf(items, v))
    case _ => ZERO
  }

  function Add(a: Ledger, b: Ledger): Ledger {
    Ledger(a.granted + b.granted, a.paid + b.paid, a.rolledBack + b.rolledBack,
           a.released + b.released, a.imported + b.imported)
  }

  /** The columns that a ledger predicts from the columns it started from. */
  function Balance(row: Row, l: Ledger): Row {
    Row(row.stock - l.paid + l.rolledBack + l.released + l.imported,
        row.reserved + l.granted - l.paid + l.rolledBack - l.released)
  }

  ghost predicate Admissible(e: Event) {
    match e
    case Reserve(items) => GoodItems(items)
    case WriteItems(_, items) => GoodItems(items)
    case Import(items) => PositiveQuantities(items)
    case _ => true
  }

  ghost predicate GoodOrder(o: Order) {
    GoodItems(o.items)
  }

  ghost predicate GoodOrders(s: State) {
    && (forall o :: 0 <= o < |s.orders| ==> GoodOrder(s.orders[o]))
    && (forall o :: o in s.settling ==> DistinctVariants(s.settling[o]))
    && (forall k :: 0 <= k < |s.sweeps| ==> GoodRead(s.sweeps[k]))
  }

  ghost predicate GoodRead(w: Sweep) {
    && |w.read| == |w.found| && Distinct(w.found)
    && forall i :: 0 <= i < |w.read| ==> GoodOrder(w.read[i])
  }

  ghost function LedgerOf(s: State, events: seq<Event>, v: int): Ledger
    requires v in s.rows
    decreases |events|
  {
    if events == [] then ZERO
    else
      var s' := Next(s, events[0]);
      Add(Entry(s, events[0], v), if v in s'.rows then LedgerOf(s', events[1..], v) else ZERO)
  }

  lemma {:induction false} UnitsNonNegative(orders: seq<Order>, v: int)
    requires forall o :: 0 <= o < |orders| ==> GoodOrder(orders[o])
    ensures Sum(UnitsOf(v), orders) >= 0
  {
    if orders != [] {
      assert GoodOrder(orders[0]);
      QuantityNonNegative(orders[0].items, v);
      UnitsNonNegative(orders[1..], v);
    }
  }

  lemma StepBalances(s: State, e: Event, v: int)
    requires v in s.rows && GoodOrders(s) && Admissible(e)
    ensures v in Next(s, e).rows && Next(s, e).rows[v] == Balance(s.rows[v], Entry(s, e, v))
    ensures s.rows[v].reserved <= s.rows[v].stock ==> Next(s, e).rows[v].reserved <= Next(s, e).rows[v].stock
  {
    match e
    case Reserve(items) =>
      CaseIsQuantity(items, v);
    case Pay(o) =>
      if CanSettle(s, o) { ItemMapIsQuantity(s.settling[o], v); }
    case Rollback(o) =>
      if CanSettle(s, o) { ItemMapIsQuantity(s.settling[o], v); }
    case Clear(k, now) =>
      if CanClear(s, k) {
        assert GoodRead(s.sweeps[k]);
        AddOrdersTotal(map[], s.sweeps[k].read, v);
        UnitsNonNegative(s.sweeps[k].read, v);
      }
    case Import(items) =>
      ImportRow(s.rows, items, v);
      QuantityNonNegative(items, v);
    case _ =>
  }

  lemma OrderStaysGood(s: State, e: Event, o: nat)
    requires GoodOrders(s) && Admissible(e) && o < |Next(s, e).orders|
    ensures GoodOrder(Next(s, e).orders[o])
  {
    assert o < |s.orders| ==> GoodOrder(s.orders[o]);
  }

  lemma ReadStaysGood(s: State, e: Event, k: nat)
    requires GoodOrders(s) && k < |Next(s, e).sweeps|
    ensures GoodRead(Next(s, e).sweeps[k])
  {
    assert k < |s.sweeps| ==> GoodRead(s.sweeps[k]);
  }

  lemma SettlingStaysGood(s: State, e: Event, o: nat)
    requires GoodOrders(s) && o in Next(s, e).settling
    ensures DistinctVariants(Next(s, e).settling[o])
  {
    assert o < |s.orders| ==> GoodOrder(s.orders[o]);
  }

  lemma StepKeepsGoodOrders(s: State, e: Event)
    requires GoodOrders(s) && Admissible(e)
    ensures GoodOrders(Next(s, e))
  {
    forall o | 0 <= o < |Next(s, e).orders| ensures GoodOrder(Next(s, e).orders[o]) { OrderStaysGood(s, e, o); }
    forall o | o in Next(s, e).settling ensures DistinctVariants(Next(s, e).settling[o]) { SettlingStaysGood(s, e, o); }
    forall k | 0 <= k < |Next(s, e).sweeps| ensures GoodRead(Next(s, e).sweeps[k]) { ReadStaysGood(s, e, k); }
  }

  lemma Unfold(s: State, events: seq<Event>, v: int)
    requires events != [] && v in s.rows && v in Next(s, events[0]).rows
    ensures Run(s, events) == Run(Next(s, events[0]), events[1..])
    ensures LedgerOf(s, events, v) == Add(Entry(s, events[0], v), LedgerOf(Next(s, events[0]), events[1..], v))
  {
  }

  /** The facts of one step, with the step itself out of sight. */
  lemma FirstStep(s: State, events: seq<Event>, v: int) returns (s': State, l: Ledger)
    requires events != [] && v in s.rows && GoodOrders(s) && Admissible(events[0])
    ensures v in s'.rows && GoodOrders(s') && s'.rows[v] == Balance(s.rows[v], l)
    ensures s.rows[v].reserved <= s.rows[v].stock ==> s'.rows[v].reserved <= s'.rows[v].stock
    ensures Run(s, events) == Run(s', events[1..])
    ensures LedgerOf(s, events, v) == Add(l, LedgerOf(s', events[1..], v))
  {
    s', l := Next(s, events[0]), Entry(s, events[0], v);
    StepBalances(s, events[0], v);
    StepKeepsGoodOrders(s, events[0]);
    Unfold(s, events, v);
  }

  /**
   Conservation over whole runs: both columns of every variant equal their first values
   plus the exact ledger of granted, paid, rolled back, released and imported units, and
   a variant never has more reserved than it has in stock.
   */
  lemma {:induction false} ColumnsAreLedgerBalance(s: State, events: seq<Event>, v: int)
    requires v in s.rows && GoodOrders(s)
    requires forall i :: 0 <= i < |events| ==> Admissible(events[i])
    ensures v in Run(s, events).rows
    ensures Run(s, events).rows[v] == Balance(s.rows[v], LedgerOf(s, events, v))
    ensures s.rows[v].reserved <= s.rows[v].stock
            ==> Run(s, events).rows[v].reserved <= Run(s, events).rows[v].stock
    decreases |events|
  {
    if events != [] {
      var s', l := FirstStep(s, events, v);
      var rest := events[1..];
      assert forall i :: 0 <= i < |rest| ==> rest[i] == events[i + 1];
      ColumnsAreLedgerBalance(s', rest, v);
      BalanceAdds(s.rows[v], l, LedgerOf(s', rest, v));
    }
  }

  lemma BalanceAdds(row: Row, a: Ledger, b: Ledger)
    ensures Balance(Balance(row, a), b) == Balance(row, Add(a, b))
  {
  }

  // ---- each order is released at most once -------------------------------------

  /** A sweep starts only when no other is open, and it clears no earlier than it read. */
  ghost predicate Serial(s: State, e: Event) {
    && (e.Find? ==> forall k :: 0 <= k < |s.sweeps| ==> !s.sweeps[k].open)
    && (e.Clear? && e.sweep < |s.sweeps| ==> s.sweeps[e.sweep].readAt <= e.now)
  }

  ghost predicate SerialRun(s: State, events: seq<Event>)
    decreases |events|
  {
    events == [] || (Serial(s, events[0]) && SerialRun(Next(s, events[0]), events[1..]))
  }

  ghost predicate OpenSweepOk(s: State, w: Sweep) {
    && Distinct(w.found)
    && forall i :: 0 <= i < |w.found| ==>
         && w.found[i] < |s.orders| && s.released[w.found[i]] == 0
         && s.orders[w.found[i]].expiredAt < w.readAt + PAYMENT_INTENT_EXPIRES_IN_MS
  }

  ghost predicate OnceInv(s: State) {
    && (forall o :: 0 <= o < |s.orders| && s.orders[o].paymentStatus.PENDING? ==>
          s.orders[o].status.PENDING_PAYMENT?)
    && (forall o :: o in s.released ==> s.released[o] == 1 && o < |s.orders| && !s.orders[o].paymentStatus.PENDING?)
    && (forall o :: o in s.settling ==> o < |s.orders| && !s.orders[o].paymentStatus.PENDING?)
    && (forall k :: 0 <= k < |s.sweeps| && s.sweeps[k].open ==> OpenSweepOk(s, s.sweeps[k]))
    && (forall i, j :: 0 <= i < j < |s.sweeps| ==> !(s.sweeps[i].open && s.sweeps[j].open))
  }

  lemma ClearKeepsOnce(s: State, k: nat, now: int)
    requires OnceInv(s) && Serial(s, Clear(k, now)) && CanClear(s, k)
    ensures OnceInv(Next(s, Clear(k, now)))
  {
    var s' := Next(s, Clear(k, now));
    var found := s.sweeps[k].found;
    assert OpenSweepOk(s, s.sweeps[k]);
    if found != [] {
      forall o | o in s'.released
        ensures s'.released[o] == 1 && o < |s'.orders| && !s'.orders[o].paymentStatus.PENDING? {
        CountDistinct(found, o);
      }
    }
  }

  /** What every step other than a sweep's does to the order table. */
  ghost predicate OrdersAdvance(a: seq<Order>, b: seq<Order>) {
    && |a| <= |b|
    && (forall o :: 0 <= o < |a| ==>
          && b[o].expiredAt == a[o].expiredAt
          && (b[o].paymentStatus.PENDING? ==> a[o].paymentStatus.PENDING? && b[o].status == a[o].status))
    && (forall o :: |a| <= o < |b| ==> b[o].status.PENDING_PAYMENT?)
  }

  lemma AdvanceKeepsOnce(s: State, s': State)
    requires OnceInv(s) && OrdersAdvance(s.orders, s'.orders)
    requires s'.sweeps == s.sweeps && s'.released == s.released
    requires forall o :: o in s'.settling && o !in s.settling ==> o < |s.orders| && !s'.orders[o].paymentStatus.PENDING?
    ensures OnceInv(s')
  {
    forall i | 0 <= i < |s'.sweeps| && s'.sweeps[i].open ensures OpenSweepOk(s', s'.sweeps[i]) {
      assert OpenSweepOk(s, s.sweeps[i]);
    }
  }

  lemma FindKeepsOnce(s: State, now: int)
    requires OnceInv(s) && Serial(s, Find(now))
    ensures OnceInv(Next(s, Find(now)))
  {
    var s' := Next(s, Find(now));
    forall i | 0 <= i < |s'.sweeps| && s'.sweeps[i].open ensures OpenSweepOk(s', s'.sweeps[i]) {
      assert i == |s.sweeps|;
    }
  }

  lemma StepKeepsOnce(s: State, e: Event)
    requires OnceInv(s) && Serial(s, e)
    ensures OnceInv(Next(s, e))
  {
    match e
    case Clear(k, now) =>
      if CanClear(s, k) { ClearKeepsOnce(s, k, now); }
    case Find(now) => FindKeepsOnce(s, now);
    case _ =>
      OthersAdvance(s, e);
      AdvanceKeepsOnce(s, Next(s, e));
  }

  lemma OthersAdvance(s: State, e: Event)
    requires OnceInv(s) && !e.Clear? && !e.Find?
    ensures OrdersAdvance(s.orders, Next(s, e).orders)
    ensures Next(s, e).sweeps == s.sweeps && Next(s, e).released == s.released
    ensures forall o :: o in Next(s, e).settling && o !in s.settling ==>
      o < |s.orders| && !Next(s, e).orders[o].paymentStatus.PENDING?
  {
    match e
    case Reserve(_) =>
    case Place(_) =>
    case WriteItems(_, _) =>
    case MarkPaid(_) =>
    case ReadItems(_) =>
    case Pay(_) =>
    case Rollback(_) =>
    case Import(_) =>
  }

  /**
   When sweeps do not overlap, no order's items are released twice, whatever payments,
   rollbacks and new orders fall between the read and the clear of a sweep.
   */
  lemma {:induction false} ReleasedAtMostOnce(s: State, events: seq<Event>, o: nat)
    requires OnceInv(s) && SerialRun(s, events)
    ensures Run(s, events).released[o] <= 1
    ensures OnceInv(Run(s, events))
    decreases |events|
  {
    if events == [] {
      assert o in s.released <==> s.released[o] > 0;
    } else {
      StepKeepsOnce(s, events[0]);
      ReleasedAtMostOnce(Next(s, events[0]), events[1..], o);
    }
  }

  // ---- how often an order is released ------------------------------------------

  /** Counts a closed sweep that had found the order. */
  function ClosedFind(o: nat): Sweep -> int {
    (w: Sweep) => if !w.open && o in w.found then 1 else 0
  }

  lemma StepReleases(s: State, e: Event, o: nat)
    requires GoodOrders(s)
    ensures Next(s, e).released[o] + Sum(ClosedFind(o), s.sweeps)
         == s.released[o] + Sum(ClosedFind(o), Next(s, e).sweeps)
  {
    match e
    case Find(now) =>
      var found := FindExpired(s.orders, now);
      SumAppend(ClosedFind(o), s.sweeps, Sweep(found, Pick(s.orders, found), now, true));
    case Clear(k, now) =>
      if CanClear(s, k) {
        assert GoodRead(s.sweeps[k]);
        CountDistinct(s.sweeps[k].found, o);
        SumUpdate(ClosedFind(o), s.sweeps, k, s.sweeps[k].(open := false));
      }
    case _ =>
  }

  /** Over any run, however sweeps overlap, an order is released once for each cleared sweep that had found it. */
  lemma {:induction false} ReleasedOncePerClearedFind(s: State, events: seq<Event>, o: nat)
    requires GoodOrders(s) && forall i :: 0 <= i < |events| ==> Admissible(events[i])
    ensures Run(s, events).released[o] + Sum(ClosedFind(o), s.sweeps)
         == s.released[o] + Sum(ClosedFind(o), Run(s, events).sweeps)
    decreases |events|
  {
    if events != [] {
      StepReleases(s, events[0], o);
      StepKeepsGoodOrders(s, events[0]);
      ReleasedOncePerClearedFind(Next(s, events[0]), events[1..], o);
    }
  }

  lemma {:induction false} OneOrTwoFinds(sweeps: seq<Sweep>, o: nat)
    ensures Sum(ClosedFind(o), sweeps) >= 0
    ensures Sum(ClosedFind(o), sweeps) >= 1 <==> exists i :: 0 <= i < |sweeps| && ClosedFind(o)(sweeps[i]) == 1
    ensures Sum(ClosedFind(o), sweeps) >= 2 <==>
      exists i, j :: 0 <= i < j < |sweeps| && ClosedFind(o)(sweeps[i]) == 1 && ClosedFind(o)(sweeps[j]) == 1
  {
    if sweeps != [] {
      var rest := sweeps[1..];
      OneOrTwoFinds(rest, o);
      assert forall i :: 1 <= i < |sweeps| ==> sweeps[i] == rest[i - 1];
      assert forall i :: 0 <= i < |rest| ==> rest[i] == sweeps[i + 1];
    }
  }

  const INIT: State := State(map[], [], [], map[], multiset{})

  /** From the start, an order is released twice if and only if two cleared sweeps had found it. */
  lemma ReleasedTwiceIffFoundTwice(rows: Table, events: seq<Event>, o: nat)
    requires forall i :: 0 <= i < |events| ==> Admissible(events[i])
    ensures var t := Run(INIT.(rows := rows), events);
            t.released[o] >= 2 <==>
            exists i, j :: 0 <= i < j < |t.sweeps| && ClosedFind(o)(t.sweeps[i]) == 1 && ClosedFind(o)(t.sweeps[j]) == 1
  {
    ReleasedOncePerClearedFind(INIT.(rows := rows), events, o);
    OneOrTwoFinds(Run(INIT.(rows := rows), events).sweeps, o);
  }

  lemma FindAdds(s: State, now: int)
    ensures var found := FindExpired(s.orders, now);
            Next(s, Find(now)) == s.(sweeps := s.sweeps + [Sweep(found, Pick(s.orders, found), now, true)])
  {
  }

  lemma ClearReleases(s: State, k: nat, now: int, o: nat)
    requires CanClear(s, k) && Distinct(s.sweeps[k].found)
    ensures var t := Next(s, Clear(k, now));
            && t.released[o] == s.released[o] + (if o in s.sweeps[k].found then 1 else 0)
            && t.sweeps == s.sweeps[k := s.sweeps[k].(open := false)]
  {
    CountDistinct(s.sweeps[k].found, o);
  }

  /**
   Two sweeps that both read before either clears release an order twice if and only if it
   was expired and unpaid at both reads; what happens in between plays no part.
   */
  lemma {:induction false} OverlapReleasesTwiceIffExpiredAtBothReads(s: State,
          t1: int, t2: int, c1: int, c2: int, o: nat)
    ensures var n := |s.sweeps|;
            var t := Next(Next(Next(Next(s, Find(t1)), Find(t2)), Clear(n, c1)), Clear(n + 1, c2));
            var first := o < |s.orders| && IsExpired(s.orders[o], t1);
            var second := o < |s.orders| && IsExpired(s.orders[o], t2);
            && t.released[o] == s.released[o] + (if first then 1 else 0) + (if second then 1 else 0)
            && (t.released[o] == s.released[o] + 2 <==> first && second)
  {
    var n := |s.sweeps|;
    FindAdds(s, t1);
    var s1 := Next(s, Find(t1));
    FindAdds(s1, t2);
    var s2 := Next(s1, Find(t2));
    ClearReleases(s2, n, c1, o);
    ClearReleases(Next(s2, Clear(n, c1)), n + 1, c2, o);
  }

  lemma ClearOfOne(s: State, k: nat, o: Order, row: Row)
    requires k < |s.sweeps| && s.sweeps[k].open && s.sweeps[k].found == [0] && s.sweeps[k].read == [o]
    requires s.rows == map[7 := row] && o.items == [Item(7, 2)]
    ensures Next(s, Clear(k, 0)).rows == map[7 := Row(row.stock + 2, row.reserved - 2)]
    ensures Next(s, Clear(k, 0)).sweeps == s.sweeps[k := s.sweeps[k].(open := false)]
    ensures Next(s, Clear(k, 0)).released[0] == s.released[0] + 1
  {
    assert [o][1..] == [] && o.items[1..] == [];
    assert AddItems(map[], o.items) == map[7 := 2];
    assert AddOrders(map[], [o]) == map[7 := 2];
  }

  lemma TwoReads(o: Order, row: Row)
    requires IsExpired(o, 0)
    ensures var s := State(map[7 := row], [o], [], map[], multiset{});
            var w := Sweep([0], [o], 0, true);
            Next(Next(s, Find(0)), Find(0)) == s.(sweeps := [w, w])
  {
    var s := State(map[7 := row], [o], [], map[], multiset{});
    FindOfOne(s, o);
    FindOfOne(Next(s, Find(0)), o);
  }

  lemma TwoClears(o: Order, s: State)
    requires o.items == [Item(7, 2)] && s.rows == map[7 := Row(5, 2)]
    requires s.sweeps == [Sweep([0], [o], 0, true), Sweep([0], [o], 0, true)]
    ensures Next(Next(s, Clear(0, 0)), Clear(1, 0)).rows == map[7 := Row(9, -2)]
    ensures Next(Next(s, Clear(0, 0)), Clear(1, 0)).released[0] == s.released[0] + 2
  {
    ClearOfOne(s, 0, o, Row(5, 2));
    ClearOfOne(Next(s, Clear(0, 0)), 1, o, Row(7, 0));
  }

  /** A witness: two units reserved become four units of new stock. */
  lemma OverlappingSweepsReleaseTwice(order: Order, s: State, read: State, cleared: State)
    requires order == Order([Item(7, 2)], PENDING_PAYMENT, PENDING, 0)
    requires s == State(map[7 := Row(5, 2)], [order], [], map[], multiset{})
    requires read == Next(Next(s, Find(0)), Find(0))
    requires cleared == Next(Next(read, Clear(0, 0)), Clear(1, 0))
    ensures cleared.released[0] == 2 && cleared.rows == map[7 := Row(9, -2)]
  {
    TwoReads(order, Row(5, 2));
    TwoClears(order, read);
  }

  lemma FindOfOne(s: State, o: Order)
    requires s.orders == [o] && IsExpired(o, 0)
    ensures Next(s, Find(0)) == s.(sweeps := s.sweeps + [Sweep([0], [o], 0, true)])
  {
    var found := FindExpired(s.orders, 0);
    FoundAlone(found);
    assert Pick(s.orders, found) == [o];
  }

  lemma FoundAlone(found: seq<nat>)
    requires Distinct(found) && 0 in found && forall k :: 0 <= k < |found| ==> found[k] < 1
    ensures found == [0]
  {
    CountDistinct(found, 0);
    ZerosCount(found);
  }

  lemma {:induction false} ZerosCount(found: seq<nat>)
    requires forall k :: 0 <= k < |found| ==> found[k] == 0
    ensures multiset(found)[0] == |found|
  {
    if found != [] {
      assert found == [found[0]] + found[1..];
      ZerosCount(found[1..]);
    }
  }

  /**
   A sweep cancels orders that it did not find: one that still waits for payment is
   cancelled without being counted as released if and only if it is past its expiry when the
   sweep clears, but was not yet when the sweep read, or had a payment status other than
   PENDING.
   */
  lemma CancelledUnreleasedIffMissedByTheRead(s: State, readAt: int, clearAt: int, o: nat)
    requires o < |s.orders| && s.orders[o].status.PENDING_PAYMENT? && FindExpired(s.orders, readAt) != []
    ensures var t := Next(Next(s, Find(readAt)), Clear(|s.sweeps|, clearAt));
            && |t.orders| == |s.orders|
            && (t.orders[o].status.CANCELLED? && t.released[o] == s.released[o]
                <==> && s.orders[o].expiredAt < clearAt + PAYMENT_INTENT_EXPIRES_IN_MS
                     && !IsExpired(s.orders[o], readAt))
  {
    var found := FindExpired(s.orders, readAt);
    CountDistinct(found, o);
    assert o in found <==> IsExpired(s.orders[o], readAt);
  }
}
