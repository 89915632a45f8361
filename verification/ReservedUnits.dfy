/**
 Whose units the `reserved` column holds.  Every order remembers whether it was granted its
 units of one variant and has not given them up; the column is the sum of what orders and
 checkouts hold if and only if every step that takes an order's units out finds them there.

 Everything here follows one variant `v` through runs of `InventoryLedger`.
 */
module ReservedUnits {
  import opened Common
  import opened Inventory
  import L = InventoryLedger

  /**
   An order, or a checkout whose order is not created yet: what was asked for, whether it
   holds its units of the variant, and whether its last payment took them from it.
   */
  datatype Holder = Holder(asked: seq<Item>, holds: bool, paid: bool)

  /** `claims` are the checkouts that reserved on the database path. */
  datatype State = State(base: L.State, orders: seq<Holder>, claims: seq<Holder>)

  datatype Event =
    | Ahead(items: seq<Item>)
    | Place(items: seq<Item>, now: int, claim: Option<nat>)
    | WriteItems(order: nat)
    | ReserveFor(order: nat)
    | MarkPaid(order: nat)
    | ReadItems(order: nat)
    | Pay(order: nat)
    | Rollback(order: nat)
    | Find(now: int)
    | Clear(sweep: nat, now: int)
    | Import(items: seq<Item>)

  /** The guarded batch grants the units asked of `v`. */
  predicate Grants(t: Table, items: seq<Item>, v: int) {
    v in t && QuantityOf(items, v) <= t[v].stock - t[v].reserved
  }

  function BaseEvent(t: State, e: Event): L.Event {
    match e
    case Ahead(items) => L.Reserve(items)
    case Place(_, now, _) => L.Place(now)
    case WriteItems(o) => L.WriteItems(o, if o < |t.orders| then t.orders[o].asked else [])
    case ReserveFor(o) => L.Reserve(if o < |t.orders| then t.orders[o].asked else [])
    case MarkPaid(o) => L.MarkPaid(o)
    case ReadItems(o) => L.ReadItems(o)
    case Pay(o) => L.Pay(o)
    case Rollback(o) => L.Rollback(o)
    case Find(now) => L.Find(now)
    case Clear(k, now) => L.Clear(k, now)
    case Import(items) => L.Import(items)
  }

  /** The claim that a new order takes over. */
  predicate TakesOver(t: State, items: seq<Item>, claim: Option<nat>) {
    claim.Some? && claim.value < |t.claims| && t.claims[claim.value].asked == items
  }

  /** The order's payment touches the columns: its items were read, and there were some. */
  predicate Touches(t: State, o: nat) {
    o < |t.orders| && L.CanSettle(t.base, o) && t.base.settling[o] != []
  }

  /** Orders found by a sweep, whose items it had read, give up their units. */
  function Drop(orders: seq<Holder>, found: seq<nat>, read: seq<Order>): (r: seq<Holder>)
    requires |read| == |found| && forall i :: 0 <= i < |found| ==> found[i] < |orders|
    ensures |r| == |orders| && forall o :: 0 <= o < |r| ==> r[o].asked == orders[o].asked
    decreases |found|
  {
    if found == [] then orders
    else
      Drop(if read[0].items != [] then orders[found[0] := orders[found[0]].(holds := false)] else orders,
           found[1..], read[1..])
  }

  predicate CanDrop(t: State, k: nat) {
    && L.CanClear(t.base, k) && |t.base.sweeps[k].read| == |t.base.sweeps[k].found|
    && forall i :: 0 <= i < |t.base.sweeps[k].found| ==> t.base.sweeps[k].found[i] < |t.orders|
  }

  function Next(t: State, e: Event, v: int): State {
    var base := L.Next(t.base, BaseEvent(t, e));
    match e
    case Ahead(items) => State(base, t.orders, t.claims + [Holder(items, Grants(t.base.rows, items, v), false)])
    case Place(items, _, claim) =>
      if TakesOver(t, items, claim)
      then State(base, t.orders + [t.claims[claim.value]],
                 t.claims[claim.value := t.claims[claim.value].(holds := false)])
      else State(base, t.orders + [Holder(items, false, false)], t.claims)
    case ReserveFor(o) =>
      if o < |t.orders| && Grants(t.base.rows, t.orders[o].asked, v)
      then State(base, t.orders[o := t.orders[o].(holds := true)], t.claims) else t.(base := base)
    case Pay(o) =>
      if Touches(t, o)
      then State(base, t.orders[o := t.orders[o].(holds := false, paid := t.orders[o].holds)], t.claims)
      else t.(base := base)
    case Rollback(o) =>
      if Touches(t, o)
      then
        var h := t.orders[o];
        State(base, t.orders[o := h.(holds := h.holds || h.paid, paid := false)], t.claims)
      else t.(base := base)
    case Clear(k, _) =>
      if CanDrop(t, k)
      then State(base, Drop(t.orders, t.base.sweeps[k].found, t.base.sweeps[k].read), t.claims) else t.(base := base)
    case _ => t.(base := base)
  }

  function Run(t: State, events: seq<Event>, v: int): State
    decreases |events|
  {
    if events == [] then t else Run(Next(t, events[0], v), events[1..], v)
  }

  // ---- what is held -------------------------------------------------------------

  function HeldOf(v: int): Holder -> int {
    (h: Holder) => if h.holds then QuantityOf(h.asked, v) else 0
  }

  /** Units of `v` granted to orders and checkouts and not given up. */
  function Held(t: State, v: int): int {
    Sum(HeldOf(v), t.orders) + Sum(HeldOf(v), t.claims)
  }

  ghost predicate Admissible(e: Event) {
    match e
    case Ahead(items) => GoodItems(items)
    case Place(items, _, _) => GoodItems(items)
    case Import(items) => PositiveQuantities(items)
    case _ => true
  }

  /** Items on record are the ones asked for, or not written yet. */
  predicate Written(items: seq<Item>, asked: seq<Item>) {
    items == [] || items == asked
  }

  ghost predicate GoodSweep(t: State, w: L.Sweep) {
    && |w.read| == |w.found| && Distinct(w.found)
    && forall i :: 0 <= i < |w.found| ==>
         w.found[i] < |t.orders| && Written(w.read[i].items, t.orders[w.found[i]].asked)
  }

  ghost predicate Good(t: State) {
    && |t.orders| == |t.base.orders|
    && (forall o :: 0 <= o < |t.orders| ==> GoodItems(t.orders[o].asked))
    && (forall c :: 0 <= c < |t.claims| ==> GoodItems(t.claims[c].asked))
    && (forall o :: 0 <= o < |t.orders| ==> Written(t.base.orders[o].items, t.orders[o].asked))
    && (forall o :: o in t.base.settling ==> o < |t.orders| && Written(t.base.settling[o], t.orders[o].asked))
    && (forall k :: 0 <= k < |t.base.sweeps| ==> GoodSweep(t, t.base.sweeps[k]))
  }

  /** No order's request changes, and no order goes away. */
  ghost predicate KeepsAsked(t: State, t': State) {
    |t.orders| <= |t'.orders| && forall o :: 0 <= o < |t.orders| ==> t'.orders[o].asked == t.orders[o].asked
  }

  /** What a step does to the database and to requests, with the holders out of sight. */
  ghost predicate Advances(t: State, e: Event, t': State) {
    t'.base == L.Next(t.base, BaseEvent(t, e)) && KeepsAsked(t, t') && |t'.orders| == |t'.base.orders|
  }

  lemma NextAdvances(t: State, e: Event, v: int)
    requires Good(t)
    ensures Advances(t, e, Next(t, e, v))
  {
  }

  lemma NextKeepsRequests(t: State, e: Event, v: int)
    requires Good(t) && Admissible(e)
    ensures forall o :: 0 <= o < |Next(t, e, v).orders| ==> GoodItems(Next(t, e, v).orders[o].asked)
    ensures forall c :: 0 <= c < |Next(t, e, v).claims| ==> GoodItems(Next(t, e, v).claims[c].asked)
  {
  }

  lemma OrderStaysWritten(t: State, e: Event, t': State, o: nat)
    requires Good(t) && Advances(t, e, t') && o < |t'.orders|
    ensures Written(t'.base.orders[o].items, t'.orders[o].asked)
  {
    L.ItemsAfter(t.base, BaseEvent(t, e), o);
  }

  lemma SettlingStaysWritten(t: State, e: Event, t': State, o: nat)
    requires Good(t) && Advances(t, e, t') && o in t'.base.settling
    ensures o < |t'.orders| && Written(t'.base.settling[o], t'.orders[o].asked)
  {
    L.SettlingAfter(t.base, BaseEvent(t, e), o);
  }

  lemma SweepStaysGood(t: State, e: Event, t': State, k: nat)
    requires Good(t) && Advances(t, e, t') && k < |t'.base.sweeps|
    ensures GoodSweep(t', t'.base.sweeps[k])
  {
    L.SweepAfter(t.base, BaseEvent(t, e), k);
    assert k < |t.base.sweeps| ==> GoodSweep(t, t.base.sweeps[k]);
  }

  lemma NextKeepsGood(t: State, e: Event, v: int)
    requires Good(t) && Admissible(e)
    ensures Good(Next(t, e, v))
  {
    NextAdvances(t, e, v);
    NextKeepsRequests(t, e, v);
    AdvancingKeepsGood(t, e, Next(t, e, v));
  }

  lemma AdvancingKeepsGood(t: State, e: Event, t': State)
    requires Good(t) && Advances(t, e, t')
    requires forall o :: 0 <= o < |t'.orders| ==> GoodItems(t'.orders[o].asked)
    requires forall c :: 0 <= c < |t'.claims| ==> GoodItems(t'.claims[c].asked)
    ensures Good(t')
  {
    forall o | 0 <= o < |t'.orders| ensures Written(t'.base.orders[o].items, t'.orders[o].asked) {
      OrderStaysWritten(t, e, t', o);
    }
    forall o | o in t'.base.settling ensures o < |t'.orders| && Written(t'.base.settling[o], t'.orders[o].asked) {
      SettlingStaysWritten(t, e, t', o);
    }
    forall k | 0 <= k < |t'.base.sweeps| ensures GoodSweep(t', t'.base.sweeps[k]) {
      SweepStaysGood(t, e, t', k);
    }
  }

  // ---- steps in turn --------------------------------------------------------------

  /** Units that a sweep's clear takes out although the order it found does not hold them. */
  function Missing(orders: seq<Holder>, found: seq<nat>, read: seq<Order>, v: int): int
    requires |read| == |found| && forall i :: 0 <= i < |found| ==> found[i] < |orders|
    decreases |found|
  {
    if found == [] then 0
    else
      (if read[0].items != [] && !orders[found[0]].holds then QuantityOf(orders[found[0]].asked, v) else 0)
      + Missing(orders, found[1..], read[1..], v)
  }

  /** By how much one step moves `reserved` past what is held. */
  function Drift(t: State, e: Event, v: int): int {
    match e
    case ReserveFor(o) =>
      if o < |t.orders| && Grants(t.base.rows, t.orders[o].asked, v) && t.orders[o].holds
      then QuantityOf(t.orders[o].asked, v) else 0
    case Pay(o) => if Touches(t, o) && !t.orders[o].holds then -QuantityOf(t.orders[o].asked, v) else 0
    case Rollback(o) =>
      if Touches(t, o) && (t.orders[o].holds || !t.orders[o].paid) then QuantityOf(t.orders[o].asked, v) else 0
    case Clear(k, _) =>
      if CanDrop(t, k) then -Missing(t.orders, t.base.sweeps[k].found, t.base.sweeps[k].read, v) else 0
    case _ => 0
  }

  /**
   What a caller can check before a step: an order that is paid or swept was granted its
   units and still holds them; one that is rolled back had them taken by its payment; one
   that is reserved for does not hold them already.
   */
  ghost predicate InTurn(t: State, e: Event, v: int) {
    match e
    case ReserveFor(o) =>
      o < |t.orders| && Grants(t.base.rows, t.orders[o].asked, v) && QuantityOf(t.orders[o].asked, v) > 0
      ==> !t.orders[o].holds
    case Pay(o) => Touches(t, o) && QuantityOf(t.orders[o].asked, v) > 0 ==> t.orders[o].holds
    case Rollback(o) =>
      Touches(t, o) && QuantityOf(t.orders[o].asked, v) > 0 ==> t.orders[o].paid && !t.orders[o].holds
    case Clear(k, _) =>
      CanDrop(t, k) ==>
        forall i :: 0 <= i < |t.base.sweeps[k].found| ==>
          HoldsWhatItGives(t.orders, t.base.sweeps[k].found[i], t.base.sweeps[k].read[i], v)
    case _ => true
  }

  predicate HoldsWhatItGives(orders: seq<Holder>, o: nat, read: Order, v: int) {
    o < |orders| && (read.items != [] && QuantityOf(orders[o].asked, v) > 0 ==> orders[o].holds)
  }

  lemma {:induction false} NothingMissingIff(orders: seq<Holder>, found: seq<nat>, read: seq<Order>, v: int)
    requires |read| == |found| && forall i :: 0 <= i < |found| ==> found[i] < |orders|
    requires forall o :: 0 <= o < |orders| ==> GoodItems(orders[o].asked)
    ensures Missing(orders, found, read, v) >= 0
    ensures Missing(orders, found, read, v) == 0 <==>
      forall i :: 0 <= i < |found| ==> HoldsWhatItGives(orders, found[i], read[i], v)
    decreases |found|
  {
    if found != [] {
      QuantityNonNegative(orders[found[0]].asked, v);
      NothingMissingIff(orders, found[1..], read[1..], v);
      assert forall i :: 1 <= i < |found| ==> found[i] == found[1..][i - 1] && read[i] == read[1..][i - 1];
      assert forall i :: 0 <= i < |found| - 1 ==> found[1..][i] == found[i + 1] && read[1..][i] == read[i + 1];
    }
  }

  lemma InTurnIffNoDrift(t: State, e: Event, v: int)
    requires Good(t)
    ensures InTurn(t, e, v) <==> Drift(t, e, v) == 0
  {
    match e
    case ReserveFor(o) => if o < |t.orders| { QuantityNonNegative(t.orders[o].asked, v); }
    case Pay(o) => if o < |t.orders| { QuantityNonNegative(t.orders[o].asked, v); }
    case Rollback(o) => if o < |t.orders| { QuantityNonNegative(t.orders[o].asked, v); }
    case Clear(k, _) =>
      if CanDrop(t, k) { NothingMissingIff(t.orders, t.base.sweeps[k].found, t.base.sweeps[k].read, v); }
    case _ =>
  }

  // ---- the column and what is held ----------------------------------------------------

  lemma {:induction false} MissingIgnoresOthers(orders: seq<Holder>, o: nat, h: Holder,
          found: seq<nat>, read: seq<Order>, v: int)
    requires |read| == |found| && forall i :: 0 <= i < |found| ==> found[i] < |orders| && found[i] != o
    requires o < |orders|
    ensures Missing(orders[o := h], found, read, v) == Missing(orders, found, read, v)
    decreases |found|
  {
    if found != [] { MissingIgnoresOthers(orders, o, h, found[1..], read[1..], v); }
  }

  /** Dropping gives up what the found orders hold, which is what was read less what is missing. */
  lemma {:induction false} DropGivesUp(orders: seq<Holder>, found: seq<nat>, read: seq<Order>, v: int)
    requires |read| == |found| && Distinct(found)
    requires forall i :: 0 <= i < |found| ==> found[i] < |orders| && Written(read[i].items, orders[found[i]].asked)
    ensures Sum(HeldOf(v), Drop(orders, found, read))
         == Sum(HeldOf(v), orders) - Sum(UnitsOf(v), read) + Missing(orders, found, read, v)
    decreases |found|
  {
    if found != [] {
      var o := found[0];
      var next := if read[0].items != [] then orders[o := orders[o].(holds := false)] else orders;
      SumUpdate(HeldOf(v), orders, o, orders[o].(holds := false));
      MissingIgnoresOthers(orders, o, orders[o].(holds := false), found[1..], read[1..], v);
      DropGivesUp(next, found[1..], read[1..], v);
      assert QuantityOf([], v) == 0;
    }
  }

  /** Units that a step moves into `reserved`. */
  function Moved(t: State, e: Event, v: int): int {
    match e
    case Ahead(items) => if Grants(t.base.rows, items, v) then QuantityOf(items, v) else 0
    case ReserveFor(o) =>
      if o < |t.orders| && Grants(t.base.rows, t.orders[o].asked, v) then QuantityOf(t.orders[o].asked, v) else 0
    case Pay(o) => if Touches(t, o) then -QuantityOf(t.orders[o].asked, v) else 0
    case Rollback(o) => if Touches(t, o) then QuantityOf(t.orders[o].asked, v) else 0
    case Clear(k, _) => if CanDrop(t, k) then -Sum(UnitsOf(v), t.base.sweeps[k].read) else 0
    case _ => 0
  }

  lemma HoldersMove(t: State, e: Event, v: int)
    requires Good(t) && v in t.base.rows
    ensures Held(Next(t, e, v), v) + Drift(t, e, v) - Held(t, v)
         == Moved(t, e, v)
  {
    match e
    case Ahead(items) => SumAppend(HeldOf(v), t.claims, Holder(items, Grants(t.base.rows, items, v), false));
    case Place(items, _, claim) =>
      if TakesOver(t, items, claim) {
        SumAppend(HeldOf(v), t.orders, t.claims[claim.value]);
        SumUpdate(HeldOf(v), t.claims, claim.value, t.claims[claim.value].(holds := false));
      } else {
        SumAppend(HeldOf(v), t.orders, Holder(items, false, false));
      }
    case ReserveFor(o) => if o < |t.orders| { SumUpdate(HeldOf(v), t.orders, o, t.orders[o].(holds := true)); }
    case Pay(o) =>
      if Touches(t, o) {
        SumUpdate(HeldOf(v), t.orders, o, t.orders[o].(holds := false, paid := t.orders[o].holds));
      }
    case Rollback(o) =>
      if Touches(t, o) {
        SumUpdate(HeldOf(v), t.orders, o, t.orders[o].(holds := t.orders[o].holds || t.orders[o].paid, paid := false));
      }
    case Clear(k, _) =>
      if CanDrop(t, k) {
        assert GoodSweep(t, t.base.sweeps[k]);
        DropGivesUp(t.orders, t.base.sweeps[k].found, t.base.sweeps[k].read, v);
      }
    case _ =>
  }

  /** The column moves by the ledger entry of the step. */
  lemma ColumnMoves(t: State, e: Event, v: int)
    requires Good(t) && Admissible(e) && v in t.base.rows && L.GoodOrders(t.base)
    ensures L.Admissible(BaseEvent(t, e)) && v in Next(t, e, v).base.rows && L.GoodOrders(Next(t, e, v).base)
    ensures var l := L.Entry(t.base, BaseEvent(t, e), v);
            Next(t, e, v).base.rows[v].reserved
            == t.base.rows[v].reserved + l.granted - l.paid + l.rolledBack - l.released
  {
    L.StepBalances(t.base, BaseEvent(t, e), v);
    L.StepKeepsGoodOrders(t.base, BaseEvent(t, e));
  }

  lemma StepDrifts(t: State, e: Event, v: int)
    requires Good(t) && Admissible(e) && v in t.base.rows && L.GoodOrders(t.base)
    ensures v in Next(t, e, v).base.rows
    ensures Next(t, e, v).base.rows[v].reserved - Held(Next(t, e, v), v)
         == t.base.rows[v].reserved - Held(t, v) + Drift(t, e, v)
  {
    ColumnMoves(t, e, v);
    HoldersMove(t, e, v);
    match e
    case Clear(k, _) => if L.CanClear(t.base, k) { assert GoodSweep(t, t.base.sweeps[k]); }
    case _ =>
  }

  ghost predicate Ready(t: State, v: int) {
    Good(t) && L.GoodOrders(t.base) && v in t.base.rows
  }

  lemma StepKeepsReady(t: State, e: Event, v: int)
    requires Ready(t, v) && Admissible(e)
    ensures Ready(Next(t, e, v), v)
  {
    NextKeepsGood(t, e, v);
    ColumnMoves(t, e, v);
  }

  /** `reserved` is exactly what orders and checkouts hold. */
  ghost predicate Matches(t: State, v: int) {
    v in t.base.rows && t.base.rows[v].reserved == Held(t, v)
  }

  function Drifts(t: State, events: seq<Event>, v: int): int
    decreases |events|
  {
    if events == [] then 0 else Drift(t, events[0], v) + Drifts(Next(t, events[0], v), events[1..], v)
  }

  ghost predicate AlwaysMatches(t: State, events: seq<Event>, v: int)
    decreases |events|
  {
    Matches(t, v) && (events == [] || AlwaysMatches(Next(t, events[0], v), events[1..], v))
  }

  ghost predicate AllInTurn(t: State, events: seq<Event>, v: int)
    decreases |events|
  {
    events == [] || (InTurn(t, events[0], v) && AllInTurn(Next(t, events[0], v), events[1..], v))
  }

  /** Over any run, `reserved` is what is held plus what the steps out of turn moved. */
  lemma {:induction false} ReservedIsHeldPlusDrift(t: State, events: seq<Event>, v: int)
    requires Ready(t, v) && forall i :: 0 <= i < |events| ==> Admissible(events[i])
    ensures Ready(Run(t, events, v), v)
    ensures Run(t, events, v).base.rows[v].reserved - Held(Run(t, events, v), v)
         == t.base.rows[v].reserved - Held(t, v) + Drifts(t, events, v)
    decreases |events|
  {
    if events != [] {
      StepDrifts(t, events[0], v);
      StepKeepsReady(t, events[0], v);
      ReservedIsHeldPlusDrift(Next(t, events[0], v), events[1..], v);
    }
  }

  lemma {:induction false} HeldNonNegative(hs: seq<Holder>, v: int)
    requires forall i :: 0 <= i < |hs| ==> GoodItems(hs[i].asked)
    ensures Sum(HeldOf(v), hs) >= 0
  {
    if hs != [] {
      QuantityNonNegative(hs[0].asked, v);
      HeldNonNegative(hs[1..], v);
    }
  }

  /**
   `reserved` is the sum of what orders hold throughout a run if and only if every step of
   the run is in turn: whatever is paid or swept was granted and leaves `reserved` once.
   */
  lemma {:induction false} ReservedIsHeldIffAllInTurn(t: State, events: seq<Event>, v: int)
    requires Ready(t, v) && Matches(t, v) && forall i :: 0 <= i < |events| ==> Admissible(events[i])
    ensures AlwaysMatches(t, events, v) <==> AllInTurn(t, events, v)
    decreases |events|
  {
    if events != [] {
      var next := Next(t, events[0], v);
      StepDrifts(t, events[0], v);
      StepKeepsReady(t, events[0], v);
      InTurnIffNoDrift(t, events[0], v);
      if InTurn(t, events[0], v) {
        ReservedIsHeldIffAllInTurn(next, events[1..], v);
      } else {
        assert !Matches(next, v);
      }
    }
  }

  /**
   The column ends non-negative if and only if the units that left it out of turn, net of
   those that entered it out of turn, are no more than what is still held; in a run with
   every step in turn it is what is held.
   */
  lemma {:induction false} ReservedNonNegativeIff(t: State, events: seq<Event>, v: int)
    requires Ready(t, v) && Matches(t, v) && forall i :: 0 <= i < |events| ==> Admissible(events[i])
    ensures var t' := Run(t, events, v);
            && v in t'.base.rows
            && (t'.base.rows[v].reserved >= 0 <==> -Drifts(t, events, v) <= Held(t', v))
            && (AllInTurn(t, events, v) ==> t'.base.rows[v].reserved == Held(t', v) >= 0)
  {
    ReservedIsHeldPlusDrift(t, events, v);
    var t' := Run(t, events, v);
    HeldNonNegative(t'.orders, v);
    HeldNonNegative(t'.claims, v);
    if AllInTurn(t, events, v) { InTurnHasNoDrift(t, events, v); }
  }

  lemma {:induction false} InTurnHasNoDrift(t: State, events: seq<Event>, v: int)
    requires Ready(t, v) && AllInTurn(t, events, v) && forall i :: 0 <= i < |events| ==> Admissible(events[i])
    ensures Drifts(t, events, v) == 0
    decreases |events|
  {
    if events != [] {
      InTurnIffNoDrift(t, events[0], v);
      StepKeepsReady(t, events[0], v);
      InTurnHasNoDrift(Next(t, events[0], v), events[1..], v);
    }
  }

  // ---- the two ways out of turn ----------------------------------------------------------

  /** A delivery settles the order: it is marked, its items are read, and its stock is taken. */
  function Settle(t: State, o: nat, v: int): State {
    Next(Next(Next(t, MarkPaid(o), v), ReadItems(o), v), Pay(o), v)
  }

  lemma SettleReads(t: State, o: nat, v: int)
    requires Good(t) && o < |t.orders|
    ensures var t' := Next(Next(t, MarkPaid(o), v), ReadItems(o), v);
            && t'.orders == t.orders && t'.claims == t.claims && t'.base.rows == t.base.rows
            && o < |t'.base.orders| && o in t'.base.settling && t'.base.settling[o] == t.base.orders[o].items
  {
  }

  /**
   Paying an order that holds nothing leaves everybody's holdings alone and still takes its
   units: `reserved` stays non-negative if and only if the others hold at least as much.
   */
  lemma PaymentWithoutHolding(t: State, o: nat, v: int)
    requires Ready(t, v) && Matches(t, v)
    requires o < |t.orders| && !t.orders[o].holds && t.base.orders[o].items == t.orders[o].asked
    ensures var t', q := Settle(t, o, v), QuantityOf(t.orders[o].asked, v);
            && v in t'.base.rows && Held(t', v) == Held(t, v)
            && t'.base.rows[v].reserved == Held(t, v) - q
            && (t'.base.rows[v].reserved >= 0 <==> q <= Held(t, v))
  {
    var t1 := Next(t, MarkPaid(o), v);
    var t2 := Next(t1, ReadItems(o), v);
    StepKeepsReady(t, MarkPaid(o), v);
    StepKeepsReady(t1, ReadItems(o), v);
    SettleReads(t, o, v);
    StepDrifts(t2, Pay(o), v);
    SumUpdate(HeldOf(v), t2.orders, o, t2.orders[o].(holds := false, paid := false));
    assert QuantityOf([], v) == 0;
  }

  /**
   First way: the worker reserves nothing for a guest who pays by transfer, so the payment
   takes units out that the order never put in.
   */
  lemma UnreservedPaymentKeepsReservedIffOthersHoldEnough(t: State, items: seq<Item>, now: int, v: int)
    requires Ready(t, v) && Matches(t, v) && GoodItems(items)
    ensures var n, q := |t.orders|, QuantityOf(items, v);
            var placed := Next(Next(t, Place(items, now, None), v), WriteItems(n), v);
            var t' := Settle(placed, n, v);
            && v in t'.base.rows && Held(t', v) == Held(t, v)
            && (t'.base.rows[v].reserved >= 0 <==> q <= Held(t, v))
  {
    var n := |t.orders|;
    var t1 := Next(t, Place(items, now, None), v);
    var t2 := Next(t1, WriteItems(n), v);
    StepKeepsReady(t, Place(items, now, None), v);
    StepKeepsReady(t1, WriteItems(n), v);
    StepDrifts(t, Place(items, now, None), v);
    StepDrifts(t1, WriteItems(n), v);
    SumAppend(HeldOf(v), t.orders, Holder(items, false, false));
    PaymentWithoutHolding(t2, n, v);
  }

  /** An order paid before its items are written keeps its units in `reserved`: nothing is taken out. */
  lemma EarlyPaymentKeepsUnitsReserved(t: State, o: nat, v: int)
    requires Ready(t, v) && o < |t.orders| && t.base.orders[o].items == []
    ensures var t' := Settle(t, o, v);
            && t'.orders == t.orders && t'.base.orders[o].status.PAID?
            && v in t'.base.rows && t'.base.rows[v] == t.base.rows[v]
  {
    SettleReads(t, o, v);
  }

  lemma {:induction false} DropTakesAway(orders: seq<Holder>, found: seq<nat>, read: seq<Order>, o: nat)
    requires |read| == |found| && forall i :: 0 <= i < |found| ==> found[i] < |orders|
    requires o < |orders|
    requires !orders[o].holds || exists i :: 0 <= i < |found| && found[i] == o && read[i].items != []
    ensures !Drop(orders, found, read)[o].holds
    decreases |found|
  {
    if found != [] {
      var next := if read[0].items != [] then orders[found[0] := orders[found[0]].(holds := false)] else orders;
      if orders[o].holds && !(found[0] == o && read[0].items != []) {
        var i :| 0 <= i < |found| && found[i] == o && read[i].items != [];
        assert found[1..][i - 1] == o && read[1..][i - 1].items != [];
      }
      DropTakesAway(next, found[1..], read[1..], o);
    }
  }

  // ---- units that a cancelled order keeps -------------------------------------------------

  /** The sweep found the order and had read items of it. */
  predicate GivesBack(w: L.Sweep, o: nat)
    requires |w.read| == |w.found|
  {
    exists i :: 0 <= i < |w.found| && w.found[i] == o && w.read[i].items != []
  }

  lemma {:induction false} DropKeepsOthers(orders: seq<Holder>, found: seq<nat>, read: seq<Order>, o: nat)
    requires |read| == |found| && forall i :: 0 <= i < |found| ==> found[i] < |orders|
    requires o < |orders| && forall i :: 0 <= i < |found| && found[i] == o ==> read[i].items == []
    ensures Drop(orders, found, read)[o] == orders[o]
    decreases |found|
  {
    if found != [] {
      DropKeepsOthers(if read[0].items != [] then orders[found[0] := orders[found[0]].(holds := false)] else orders,
                      found[1..], read[1..], o);
    }
  }

  /**
   A clear cancels an order that waits for payment and leaves its units reserved if and only
   if the order is past its expiry by then and the sweep had not read items of it: it was
   not found, or it was found before its items were written.  What else happened since the
   sweep read plays no part.
   */
  lemma CancelledStillHoldingIffNothingWasRead(t: State, k: nat, now: int, o: nat, v: int)
    requires Good(t) && CanDrop(t, k) && t.base.sweeps[k].found != []
    requires o < |t.orders| && t.orders[o].holds && t.base.orders[o].status.PENDING_PAYMENT?
    ensures var t' := Next(t, Clear(k, now), v);
            && o < |t'.orders| == |t'.base.orders|
            && (t'.base.orders[o].status.CANCELLED? && t'.orders[o].holds
                <==> && t.base.orders[o].expiredAt < now + PAYMENT_INTENT_EXPIRES_IN_MS
                     && !GivesBack(t.base.sweeps[k], o))
  {
    var w := t.base.sweeps[k];
    if GivesBack(w, o) {
      DropTakesAway(t.orders, w.found, w.read, o);
    } else {
      DropKeepsOthers(t.orders, w.found, w.read, o);
    }
  }

  /**
   An order that reserved ahead of its items and is swept before they are written counts as
   found, and is cancelled with its units still reserved.
   */
  lemma SweptBeforeItemsKeepsUnits(t: State, o: nat, at: int, now: int, v: int)
    requires Good(t) && o < |t.orders| && t.orders[o].holds && t.base.orders[o].items == []
    requires IsExpired(t.base.orders[o], at) && at <= now
    ensures var t' := Next(Next(Next(t, Find(at), v), WriteItems(o), v), Clear(|t.base.sweeps|, now), v);
            && o < |t'.orders| == |t'.base.orders|
            && t'.base.orders[o].status.CANCELLED? && t'.orders[o].holds
  {
    var found := FindExpired(t.base.orders, at);
    var k := |t.base.sweeps|;
    L.FindAdds(t.base, at);
    NextKeepsGood(t, Find(at), v);
    var t1 := Next(t, Find(at), v);
    NextKeepsGood(t1, WriteItems(o), v);
    var t2 := Next(t1, WriteItems(o), v);
    assert t2.base.sweeps[k] == L.Sweep(found, Pick(t.base.orders, found), at, true);
    assert GoodSweep(t2, t2.base.sweeps[k]);
    CancelledStillHoldingIffNothingWasRead(t2, k, now, o, v);
  }

  // ---- the second way ------------------------------------------------------------------

  /**
   Second way: a sweep takes an order's units although its intent can still be paid, and
   the payment takes them a second time.
   */
  lemma {:induction false} SweptThenPaidKeepsReservedIffOthersHoldEnough(t: State, k: nat, now: int, i: nat, v: int)
    requires Ready(t, v) && Matches(t, v) && CanDrop(t, k) && InTurn(t, Clear(k, now), v)
    requires i < |t.base.sweeps[k].found| && t.base.sweeps[k].read[i].items != []
    requires t.base.orders[t.base.sweeps[k].found[i]].items != []
    ensures var o := t.base.sweeps[k].found[i];
            var cleared := Next(t, Clear(k, now), v);
            var t' := Settle(cleared, o, v);
            && v in t'.base.rows && Held(t', v) == Held(cleared, v)
            && (t'.base.rows[v].reserved >= 0 <==> QuantityOf(t.orders[o].asked, v) <= Held(cleared, v))
  {
    var o := t.base.sweeps[k].found[i];
    var cleared := Next(t, Clear(k, now), v);
    StepKeepsReady(t, Clear(k, now), v);
    StepDrifts(t, Clear(k, now), v);
    InTurnIffNoDrift(t, Clear(k, now), v);
    NextAdvances(t, Clear(k, now), v);
    L.ItemsAfter(t.base, L.Clear(k, now), o);
    DropTakesAway(t.orders, t.base.sweeps[k].found, t.base.sweeps[k].read, o);
    PaymentWithoutHolding(cleared, o, v);
  }

  /** One order for two of five units, reserved by the worker at time zero. */
  function OneOrder(reserved: int, o: Order, sweeps: seq<L.Sweep>, holds: bool): State {
    State(L.INIT.(rows := map[7 := Row(5, reserved)], orders := [o], sweeps := sweeps),
          [Holder([Item(7, 2)], holds, false)], [])
  }

  lemma OneOrderIsPlaced()
    ensures var start := State(L.INIT.(rows := map[7 := Row(5, 0)]), [], []);
            var items := [Item(7, 2)];
            Next(Next(Next(start, Place(items, 0, None), 7), WriteItems(0), 7), ReserveFor(0), 7)
            == OneOrder(2, Order(items, PENDING_PAYMENT, PENDING, ORDER_EXPIRED_MS), [], true)
  {
    var items := [Item(7, 2)];
    assert items[1..] == [];
    assert QuantityOf(items, 7) == 2;
    assert ReserveBatch(map[7 := Row(5, 0)], items) == map[7 := Row(5, 2)];
  }

  lemma OneOrderIsReady(o: Order, sweeps: seq<L.Sweep>)
    requires o.items == [Item(7, 2)]
    requires forall k :: 0 <= k < |sweeps| ==> sweeps[k].found == [0] && sweeps[k].read == [o]
    ensures Ready(OneOrder(2, o, sweeps, true), 7) && Matches(OneOrder(2, o, sweeps, true), 7)
  {
    var t := OneOrder(2, o, sweeps, true);
    assert o.items[1..] == [] && t.orders[1..] == [];
    assert HeldOf(7)(t.orders[0]) == 2;
  }

  lemma OneOrderIsFound(o: Order, at: int)
    requires o.items == [Item(7, 2)] && IsExpired(o, at)
    ensures Next(OneOrder(2, o, [], true), Find(at), 7) == OneOrder(2, o, [L.Sweep([0], [o], at, true)], true)
  {
    var found := FindExpired([o], at);
    L.FoundAlone(found);
    assert Pick([o], found) == [o];
  }

  lemma OneOrderIsCleared(o: Order, at: int)
    requires o.items == [Item(7, 2)]
    ensures var t := OneOrder(2, o, [L.Sweep([0], [o], at, true)], true);
            CanDrop(t, 0) && InTurn(t, Clear(0, at), 7) && Held(Next(t, Clear(0, at), 7), 7) == 0
  {
    var t := OneOrder(2, o, [L.Sweep([0], [o], at, true)], true);
    var found, read := [0], [o];
    assert found[0] == 0 && read[0].items != [];
    DropTakesAway(t.orders, found, read, 0);
    var t' := Next(t, Clear(0, at), 7);
    assert t'.orders[1..] == [] && HeldOf(7)(t'.orders[0]) == 0;
  }

  /**
   A sweep takes an order 40 minutes after it was placed, and its intent lasts 60: an order
   swept in between and paid in time leaves `reserved` below zero.
   */
  lemma SweptAndPaidWithinTheHour(at: int)
    requires 40 * 60 * 1000 < at <= 60 * 60 * 1000
    ensures var start := State(L.INIT.(rows := map[7 := Row(5, 0)]), [], []);
            var placed := Next(Next(Next(start, Place([Item(7, 2)], 0, None), 7), WriteItems(0), 7), ReserveFor(0), 7);
            var t' := Settle(Next(Next(placed, Find(at), 7), Clear(0, at), 7), 0, 7);
            7 in t'.base.rows && t'.base.rows[7].reserved < 0
  {
    OneOrderIsPlaced();
    SweptAndPaid(at);
  }

  lemma SweptAndPaid(at: int)
    requires ORDER_EXPIRED_MS - PAYMENT_INTENT_EXPIRES_IN_MS < at
    ensures var t := OneOrder(2, Order([Item(7, 2)], PENDING_PAYMENT, PENDING, ORDER_EXPIRED_MS), [], true);
            var t' := Settle(Next(Next(t, Find(at), 7), Clear(0, at), 7), 0, 7);
            7 in t'.base.rows && t'.base.rows[7].reserved < 0
  {
    var o := Order([Item(7, 2)], PENDING_PAYMENT, PENDING, ORDER_EXPIRED_MS);
    var t1 := OneOrder(2, o, [L.Sweep([0], [o], at, true)], true);
    OneOrderIsFound(o, at);
    OneOrderIsReady(o, [L.Sweep([0], [o], at, true)]);
    OneOrderIsCleared(o, at);
    SweptThenPaidKeepsReservedIffOthersHoldEnough(t1, 0, at, 0, 7);
    assert o.items[1..] == [] && QuantityOf(o.items, 7) == 2;
  }
}
