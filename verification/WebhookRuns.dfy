/**
 Runs of checkouts, deliveries, polls, worker writes and intent purges.  The inbox does
 not stop a repeated delivery; what does is the intent's status, the order of the checks
 and a clock that never goes back.
 */
module WebhookRuns {
  import opened Common
  import opened Inventory
  import opened Webhook

  datatype Event =
    | Checkout(code: string, total: int, now: int)
    | ItemsWritten(code: string, items: seq<Item>)
    | Delivered(delivery: Delivery)
    | Polled(code: string)
    | Purged(cutoff: int)

  /** The filter of `deleteExpiredPending`. */
  predicate IsStale(s: State, code: string, cutoff: int)
    requires code in s.intents
  {
    && s.intents[code].expiredAt < cutoff && s.intents[code].status.PENDING?
    && code in s.orders && s.orders[code].status.PENDING_PAYMENT?
  }

  function Step(s: State, e: Event): State {
    match e
    case Checkout(code, total, now) =>
      if code in s.orders || code in s.intents then s
      else s.(orders := s.orders[code := PayableOrder(total, PENDING_PAYMENT, PENDING, [])],
              intents := s.intents[code := Intent(PENDING, now + PAYMENT_INTENT_EXPIRES_IN_MS)])
    case ItemsWritten(code, items) =>
      if code in s.orders && s.orders[code].items == []
      then s.(orders := s.orders[code := s.orders[code].(items := items)]) else s
    case Delivered(d) => Deliver(s, d).0
    case Polled(code) => Poll(s, code).0
    case Purged(cutoff) => s.(intents := map c | c in s.intents && !IsStale(s, c, cutoff) :: s.intents[c])
  }

  function Run(s: State, events: seq<Event>): State
    decreases |events|
  {
    if events == [] then s else Run(Step(s, events[0]), events[1..])
  }

  const INIT := State(map[], map[], map[], [], map[], [], [])

  /** The clock after `e`, or `last` when `e` does not read it. */
  function Clock(e: Event, last: int): int {
    match e
    case Checkout(_, _, now) => now
    case Delivered(d) => d.now
    case Purged(cutoff) => cutoff
    case _ => last
  }

  ghost predicate MonotoneClock(last: int, events: seq<Event>)
    decreases |events|
  {
    events == [] || (last <= Clock(events[0], last) && MonotoneClock(Clock(events[0], last), events[1..]))
  }

  // ---- what a step can do ----------------------------------------------------------

  /** A full payment: in time, exact, with the intent open. */
  predicate Full(s: State, d: Delivery) {
    && d.id != 0 && d.content != "" && d.content in s.intents && d.content in s.orders
    && s.intents[d.content].expiredAt >= d.now && !s.intents[d.content].status.SUCCESS?
    && d.amount == s.orders[d.content].total
  }

  /** The delivery whose stock statement will run: a full payment of an order with items. */
  predicate Takes(s: State, d: Delivery) {
    Full(s, d) && !d.fault.DecrementFails? && s.orders[d.content].items != []
  }

  predicate TakesStock(s: State, e: Event) {
    e.Delivered? && Takes(s, e.delivery)
  }

  ghost predicate TakenEffect(s: State, e: Event, s': State) {
    if TakesStock(s, e)
    then |s'.taken| == |s.taken| + 1 && s'.taken[..|s.taken|] == s.taken
         && s'.taken[|s.taken|].order == e.delivery.content
    else s'.taken == s.taken
  }

  /** How the intent of an order that exists may change; it is never created anew. */
  ghost predicate IntentEffect(s: State, e: Event, s': State, code: string)
    requires code in s.orders
  {
    && (code in s'.intents ==> code in s.intents && s'.intents[code].expiredAt == s.intents[code].expiredAt)
    && (code in s.intents && code !in s'.intents ==> e.Purged? && s.intents[code].expiredAt < e.cutoff)
    && (code in s'.intents && s'.intents[code].status != s.intents[code].status ==>
          && e.Delivered? && e.delivery.id != 0 && e.delivery.content == code && code != ""
          && if s.intents[code].expiredAt < e.delivery.now then s'.intents[code].status.EXPIRED?
             else s'.intents[code].status.SUCCESS? && e.delivery.amount >= s.orders[code].total)
  }

  /** Transactions are only appended or restated with a new status; orders keep their totals. */
  ghost predicate Extends(s: State, s': State) {
    && |s.transactions| <= |s'.transactions|
    && (forall i :: 0 <= i < |s.transactions| ==>
          s'.transactions[i].order == s.transactions[i].order && s'.transactions[i].amount == s.transactions[i].amount)
    && (forall code :: code in s.orders ==> code in s'.orders && s'.orders[code].total == s.orders[code].total)
  }

  // ---- what a delivery does to the stock ---------------------------------------------

  ghost predicate SameStock(s: State, s': State) {
    s'.taken == s.taken && s'.restored == s.restored && s'.rows == s.rows
  }

  /** What a full payment does to the logs and the columns. */
  ghost predicate Moves(s: State, s': State, m: Movement, fault: Fault) {
    match Occurring(fault, m.quantities)
    case NoFault => SameStock(WithTaken(s, m), s')
    case StatusFails => SameStock(WithRestored(WithTaken(s, m), m), s')
    case DecrementFails => SameStock(WithRestored(s, m), s')
  }

  function MovementOf(s: State, d: Delivery): Movement
    requires d.content in s.orders
  {
    Movement(d.content, ItemMap(s.orders[d.content].items))
  }

  lemma FullDelivery(s: State, d: Delivery)
    requires Full(s, d)
    ensures Deliver(s, d).0 == FinishOrder(RecordPayment(s, d), d.content, d.fault)
  {
  }

  lemma FinishMoves(s: State, code: string, fault: Fault)
    requires code in s.orders
    ensures Moves(s, FinishOrder(s, code, fault), Movement(code, ItemMap(s.orders[code].items)), fault)
  {
  }

  lemma MovesFrom(s: State, p: State, s': State, m: Movement, fault: Fault)
    requires SameStock(s, p) && Moves(p, s', m, fault)
    ensures Moves(s, s', m, fault)
  {
  }

  lemma OtherDelivery(s: State, d: Delivery)
    requires !Full(s, d)
    ensures SameStock(s, Deliver(s, d).0)
  {
  }

  /** Only a full payment touches the stock, and it moves the order's quantities. */
  lemma DeliverMoves(s: State, d: Delivery)
    ensures !Full(s, d) ==> SameStock(s, Deliver(s, d).0)
    ensures Full(s, d) ==> Moves(s, Deliver(s, d).0, MovementOf(s, d), d.fault)
  {
    if Full(s, d) {
      FullDelivery(s, d);
      var p := RecordPayment(s, d);
      FinishMoves(p, d.content, d.fault);
      MovesFrom(s, p, Deliver(s, d).0, MovementOf(s, d), d.fault);
    } else {
      OtherDelivery(s, d);
    }
  }

  /** A checkout opens an unpaid order and its intent, good for an hour; a known code changes nothing. */
  lemma CheckoutOpens(s: State, code: string, total: int, now: int)
    ensures var t := Step(s, Checkout(code, total, now));
            if code in s.orders || code in s.intents then t == s
            else && t.orders == s.orders[code := PayableOrder(total, PENDING_PAYMENT, PENDING, [])]
                 && t.intents == s.intents[code := Intent(PENDING, now + 60 * 60 * 1000)]
                 && t.transactions == s.transactions && t.inbox == s.inbox && SameStock(s, t)
  {
  }

  /** A purge removes exactly the pending intents past the cutoff whose order still waits, and nothing else. */
  lemma PurgeRemovesStale(s: State, cutoff: int)
    ensures var t := Step(s, Purged(cutoff));
            && t == s.(intents := t.intents)
            && (forall c :: c in t.intents ==> c in s.intents && t.intents[c] == s.intents[c])
            && forall c :: c in s.intents && c !in t.intents <==>
                 c in s.intents && s.intents[c].expiredAt < cutoff && s.intents[c].status.PENDING?
                 && c in s.orders && s.orders[c].status.PENDING_PAYMENT?
  {
  }

  // ---- what a delivery does, table by table --------------------------------------------

  /** A delivery that is not a full payment leaves every order alone. */
  lemma OnlyFullPaymentsTouchOrders(s: State, d: Delivery)
    requires !Full(s, d)
    ensures Deliver(s, d).0.orders == s.orders
  {
  }

  /** A full payment settles its own order, by whether its later writes succeed, and no other. */
  lemma FullPaymentSettlesItsOrder(s: State, d: Delivery)
    requires Full(s, d)
    ensures var t, o := Deliver(s, d).0, s.orders[d.content];
            && t.orders.Keys == s.orders.Keys
            && (forall code :: code in s.orders && code != d.content ==> t.orders[code] == s.orders[code])
            && t.orders[d.content] == PayableOrder(
                 o.total, if Succeeds(d.fault, o.items) then PAID else PENDING_PAYMENT, SUCCESS, o.items)
  {
    FullDelivery(s, d);
  }

  /** The writes after a payment succeed, or the one that fails is a decrement that is never run. */
  predicate Succeeds(fault: Fault, items: seq<Item>) {
    fault.NoFault? || (fault.DecrementFails? && items == [])
  }

  ghost predicate KnowsOrder(s: State, d: Delivery) {
    d.content != "" && d.content in s.intents && d.content in s.orders
  }

  /**
   What is written on the new transaction: its order if the transfer names one, else none;
   and why it was or was not taken as payment.
   */
  ghost function Verdict(s: State, d: Delivery): PaymentStatus {
    if !KnowsOrder(s, d) then NOT_FOUND_ORDER_CODE
    else if d.now > s.intents[d.content].expiredAt then EXPIRED
    else if s.intents[d.content].status.SUCCESS? || d.amount == s.orders[d.content].total then SUCCESS
    else if d.amount < s.orders[d.content].total then PAYMENT_SHORTFALL
    else PAYMENT_OVERAGE
  }

  /** One transaction is added; a full payment also settles the earlier ones of its order. */
  lemma DeliveryIsRecorded(s: State, d: Delivery)
    requires d.id != 0
    ensures var ts, n := Deliver(s, d).0.transactions, |s.transactions|;
            && |ts| == n + 1
            && ts[n] == Transaction(if KnowsOrder(s, d) then Some(d.content) else None, d.amount, Verdict(s, d))
            && forall i :: 0 <= i < n ==>
                 ts[i] == if Full(s, d) && s.transactions[i].order == Some(d.content)
                          then Transaction(Some(d.content), s.transactions[i].amount, SUCCESS) else s.transactions[i]
  {
  }

  /** Only the intent of the order paid for changes: to EXPIRED when late, to SUCCESS when enough. */
  lemma DeliveryMarksIntent(s: State, d: Delivery)
    ensures var t := Deliver(s, d).0;
            && t.intents.Keys == s.intents.Keys
            && forall code :: code in s.intents ==>
                 t.intents[code] == Intent(
                   if d.id == 0 || code != d.content || !KnowsOrder(s, d) then s.intents[code].status
                   else if d.now > s.intents[code].expiredAt then EXPIRED
                   else if d.amount >= s.orders[code].total then SUCCESS
                   else s.intents[code].status,
                   s.intents[code].expiredAt)
  {
  }

  /**
   The inbox row of the delivery is done when its content is missing or its intent is then
   settled, and failed otherwise.
   */
  lemma DeliveryClosesInbox(s: State, d: Delivery)
    requires d.id != 0
    ensures var t := Deliver(s, d).0;
            && d.id in t.inbox
            && t.inbox[d.id].status == if d.content == "" || (KnowsOrder(s, d) && t.intents[d.content].status.SUCCESS?)
                                       then JobDone else JobFailed
  {
  }

  /** The inbox row of the delivery has one more attempt, and no other row changes. */
  lemma DeliveryCountsItsAttempt(s: State, d: Delivery)
    requires d.id != 0
    ensures var t := Deliver(s, d).0;
            && t.inbox.Keys == s.inbox.Keys + {d.id}
            && (forall id :: id in s.inbox && id != d.id ==> t.inbox[id] == s.inbox[id])
            && t.inbox[d.id].attempts == (if d.id in s.inbox then s.inbox[d.id].attempts else 0) + 1
  {
  }

  /** The reply says which case it was; without an event id nothing is written at all. */
  lemma DeliveryReplies(s: State, d: Delivery)
    ensures d.id == 0 ==> Deliver(s, d) == (s, MissingEventId)
    ensures d.id != 0 && d.content == "" ==> Deliver(s, d).1.MissingContent?
    ensures d.id != 0 && d.content != "" && d.content !in s.intents ==> Deliver(s, d).1.IntentNotFound?
    ensures d.id != 0 && d.content != "" && d.content in s.intents && d.content !in s.orders ==>
      Deliver(s, d).1.OrderNotFound?
    ensures d.id != 0 && KnowsOrder(s, d) ==>
      Deliver(s, d).1 == (match Verdict(s, d)
        case EXPIRED => IntentExpired
        case PAYMENT_SHORTFALL => Shortfall
        case PAYMENT_OVERAGE => Overage
        case _ =>
          if s.intents[d.content].status.SUCCESS? then AlreadySuccess
          else if Succeeds(d.fault, s.orders[d.content].items) then Paid else RolledBack)
  {
  }

  lemma DeliverTakes(s: State, d: Delivery)
    ensures TakenEffect(s, Delivered(d), Deliver(s, d).0)
  {
    DeliverMoves(s, d);
  }

  lemma StepTakes(s: State, e: Event)
    ensures TakenEffect(s, e, Step(s, e))
  {
    if e.Delivered? { DeliverTakes(s, e.delivery); }
  }

  lemma DeliverMovesIntent(s: State, d: Delivery, code: string)
    requires code in s.orders
    ensures IntentEffect(s, Delivered(d), Deliver(s, d).0, code)
  {
  }

  lemma StepMovesIntent(s: State, e: Event, code: string)
    requires code in s.orders
    ensures IntentEffect(s, e, Step(s, e), code)
  {
    if e.Delivered? { DeliverMovesIntent(s, e.delivery, code); }
  }

  lemma DeliverExtends(s: State, d: Delivery)
    ensures Extends(s, Deliver(s, d).0)
  {
    DeliverKeepsTotals(s, d);
  }

  lemma DeliverKeepsTotals(s: State, d: Delivery)
    ensures forall code :: code in s.orders ==>
      code in Deliver(s, d).0.orders && Deliver(s, d).0.orders[code].total == s.orders[code].total
  {
  }

  lemma StepExtends(s: State, e: Event)
    ensures Extends(s, Step(s, e))
  {
    if e.Delivered? { DeliverExtends(s, e.delivery); }
  }

  // ---- stock is taken at most once -----------------------------------------------

  /** No later delivery can take stock for `code`. */
  ghost predicate Settled(s: State, last: int, code: string) {
    && code in s.orders
    && (code in s.intents && !s.intents[code].status.SUCCESS? ==> s.intents[code].expiredAt < last)
  }

  ghost predicate Taken(s: State, code: string) {
    exists i :: 0 <= i < |s.taken| && s.taken[i].order == code
  }

  ghost predicate TakenOnce(s: State) {
    forall i, j :: 0 <= i < j < |s.taken| ==> s.taken[i].order != s.taken[j].order
  }

  lemma TakenAfter(s: State, e: Event, s': State, code: string)
    requires TakenEffect(s, e, s')
    ensures Taken(s', code) <==> Taken(s, code) || (TakesStock(s, e) && e.delivery.content == code)
  {
    if TakesStock(s, e) {
      assert forall i :: 0 <= i < |s.taken| ==> s'.taken[i] == s.taken[i];
      if e.delivery.content == code {
        assert s'.taken[|s.taken|].order == code;
      }
    }
  }

  lemma SettledAfter(s: State, e: Event, s': State, last: int, code: string)
    requires Settled(s, last, code) && last <= Clock(e, last)
    requires TakenEffect(s, e, s') && Extends(s, s') && IntentEffect(s, e, s', code)
    ensures Settled(s', Clock(e, last), code)
    ensures Taken(s', code) <==> Taken(s, code)
  {
    TakenAfter(s, e, s', code);
  }

  ghost predicate OnceInv(s: State, last: int) {
    && TakenOnce(s)
    && forall i :: 0 <= i < |s.taken| ==> Settled(s, last, s.taken[i].order)
  }

  lemma OnceAfter(s: State, e: Event, s': State, last: int)
    requires OnceInv(s, last) && last <= Clock(e, last)
    requires TakenEffect(s, e, s') && Extends(s, s')
    requires forall code :: code in s.orders ==> IntentEffect(s, e, s', code)
    requires TakesStock(s, e) ==> e.delivery.content in s'.intents && s'.intents[e.delivery.content].status.SUCCESS?
    ensures OnceInv(s', Clock(e, last))
  {
    forall i | 0 <= i < |s.taken|
      ensures s'.taken[i] == s.taken[i] && Settled(s', Clock(e, last), s.taken[i].order) {
      SettledAfter(s, e, s', last, s.taken[i].order);
    }
  }

  lemma TakingSettles(s: State, d: Delivery)
    requires Takes(s, d)
    ensures d.content in Deliver(s, d).0.intents && Deliver(s, d).0.intents[d.content].status.SUCCESS?
  {
  }

  lemma StepKeepsOnce(s: State, e: Event, last: int)
    requires OnceInv(s, last) && last <= Clock(e, last)
    ensures OnceInv(Step(s, e), Clock(e, last))
  {
    StepTakes(s, e);
    StepExtends(s, e);
    forall code | code in s.orders ensures IntentEffect(s, e, Step(s, e), code) {
      StepMovesIntent(s, e, code);
    }
    if TakesStock(s, e) { TakingSettles(s, e.delivery); }
    OnceAfter(s, e, Step(s, e), last);
  }

  lemma {:induction false} RunKeepsOnce(s: State, events: seq<Event>, last: int)
    requires OnceInv(s, last) && MonotoneClock(last, events)
    ensures TakenOnce(Run(s, events))
    decreases |events|
  {
    if events != [] {
      StepKeepsOnce(s, events[0], last);
      RunKeepsOnce(Step(s, events[0]), events[1..], Clock(events[0], last));
    }
  }

  /**
   With a clock that never goes back, no order's stock is taken twice, however often,
   late or with whatever amounts and event ids its transfers are delivered.
   */
  lemma StockTakenAtMostOnce(events: seq<Event>, start: int)
    requires MonotoneClock(start, events)
    ensures TakenOnce(Run(INIT, events))
  {
    RunKeepsOnce(INIT, events, start);
  }

  /** Once settled, an order that is PAID stays PAID, whatever is delivered, polled or purged later. */
  lemma {:induction false} PaidStaysPaid(s: State, events: seq<Event>, last: int, code: string)
    requires Settled(s, last, code) && s.orders[code].status.PAID? && MonotoneClock(last, events)
    ensures code in Run(s, events).orders && Run(s, events).orders[code].status.PAID?
    decreases |events|
  {
    if events != [] {
      var e := events[0];
      StepTakes(s, e);
      StepExtends(s, e);
      StepMovesIntent(s, e, code);
      SettledAfter(s, e, Step(s, e), last, code);
      StepKeepsPaid(s, e, last, code);
      PaidStaysPaid(Step(s, e), events[1..], Clock(e, last), code);
    }
  }

  lemma StepKeepsPaid(s: State, e: Event, last: int, code: string)
    requires Settled(s, last, code) && s.orders[code].status.PAID? && last <= Clock(e, last)
    ensures code in Step(s, e).orders && Step(s, e).orders[code].status.PAID?
  {
    match e
    case Delivered(d) =>
      if Full(s, d) { FullPaymentSettlesItsOrder(s, d); } else { OnlyFullPaymentsTouchOrders(s, d); }
    case _ =>
  }

  lemma ExactDelivery(s: State, d: Delivery)
    requires Takes(s, d) && d.fault.NoFault?
    ensures var s' := Deliver(s, d).0;
            && s'.intents == s.intents[d.content := s.intents[d.content].(status := SUCCESS)]
            && s'.taken == s.taken + [Movement(d.content, ItemMap(s.orders[d.content].items))]
            && s'.rows == PaidDecrement(s.rows, ItemMap(s.orders[d.content].items))
            && s'.orders[d.content] == s.orders[d.content].(status := PAID, paymentStatus := SUCCESS)
  {
  }

  lemma LateDelivery(s: State, d: Delivery)
    requires d.id != 0 && d.content != "" && d.content in s.intents && d.content in s.orders
    requires s.intents[d.content].expiredAt < d.now
    ensures var s' := Deliver(s, d).0;
            && s'.intents == s.intents[d.content := s.intents[d.content].(status := EXPIRED)]
            && s'.taken == s.taken && s'.rows == s.rows && s'.orders == s.orders
  {
  }

  /** A delivery stamped after expiry followed by one stamped before it takes the stock again. */
  lemma ClockGoingBackTakesTwice(code: string, s: State)
    requires code != ""
    requires s == INIT.(rows := map[7 := Row(9, 4)],
                        intents := map[code := Intent(PENDING, 10)],
                        orders := map[code := PayableOrder(100, PENDING_PAYMENT, PENDING, [Item(7, 2)])])
    ensures var s1 := Deliver(s, Delivery(1, code, 100, 5, NoFault)).0;
            var s2 := Deliver(s1, Delivery(1, code, 100, 20, NoFault)).0;
            var s3 := Deliver(s2, Delivery(1, code, 100, 5, NoFault)).0;
            OnceInv(s, 0) && !TakenOnce(s3) && s3.rows == map[7 := Row(5, 0)]
  {
    var items, m := [Item(7, 2)], map[7 := 2];
    assert items[..0] == [];
    assert ItemMap(items) == m;
    assert PaidDecrement(map[7 := Row(9, 4)], m) == map[7 := Row(7, 2)];
    assert PaidDecrement(map[7 := Row(7, 2)], m) == map[7 := Row(5, 0)];
    ExactDelivery(s, Delivery(1, code, 100, 5, NoFault));
    var s1 := Deliver(s, Delivery(1, code, 100, 5, NoFault)).0;
    LateDelivery(s1, Delivery(1, code, 100, 20, NoFault));
    var s2 := Deliver(s1, Delivery(1, code, 100, 20, NoFault)).0;
    ExactDelivery(s2, Delivery(1, code, 100, 5, NoFault));
    var s3 := Deliver(s2, Delivery(1, code, 100, 5, NoFault)).0;
    assert s3.taken == [Movement(code, m), Movement(code, m)];
    assert s3.taken[0].order == s3.taken[1].order;
  }

  // ---- paid without stock ------------------------------------------------------------

  /** The order can still be paid: open intent, nothing taken yet. */
  ghost predicate Payable(s: State, code: string) {
    && code != "" && code in s.intents && code in s.orders
    && !s.intents[code].status.SUCCESS? && !Taken(s, code)
  }

  /** An overpaid order is shown as paid by the next poll, with its stock untouched. */
  lemma OverageThenPollPaysWithoutStock(s: State, d: Delivery)
    requires Payable(s, d.content) && d.id != 0 && d.now <= s.intents[d.content].expiredAt
    requires d.amount > s.orders[d.content].total
    ensures var s' := Poll(Deliver(s, d).0, d.content).0;
            s'.orders[d.content].status.PAID? && s'.rows == s.rows && !Taken(s', d.content)
  {
  }

  /**
   A full payment whose stock statements failed leaves the intent in SUCCESS, so the next
   poll shows the order as paid all the same: with its stock untouched if the order update
   failed, and with the order's quantities added to it if the decrement itself did.
   */
  lemma RollbackThenPollPaysWithoutStock(s: State, d: Delivery)
    requires Payable(s, d.content) && d.id != 0 && d.now <= s.intents[d.content].expiredAt
    requires d.amount == s.orders[d.content].total && !Occurring(d.fault, ItemMap(s.orders[d.content].items)).NoFault?
    ensures var s' := Poll(Deliver(s, d).0, d.content).0;
            && Deliver(s, d).0.orders[d.content].status.PENDING_PAYMENT?
            && s'.orders[d.content].status.PAID?
            && s'.rows == if d.fault.StatusFails? then s.rows
                          else RollbackIncrement(s.rows, ItemMap(s.orders[d.content].items))
  {
    PaidThenRolledBackIsIdentity(s.rows, ItemMap(s.orders[d.content].items));
  }

  /** After a delivery for a known order, its inbox row is done if and only if the intent is settled. */
  lemma InboxDoneIffIntentSuccess(s: State, d: Delivery)
    requires d.id != 0 && d.content != "" && d.content in s.intents && d.content in s.orders
    ensures var s' := Deliver(s, d).0;
            && d.id in s'.inbox && d.content in s'.intents
            && (s'.inbox[d.id].status.JobDone? <==> s'.intents[d.content].status.SUCCESS?)
  {
  }

  // ---- every success is backed by money ----------------------------------------------

  ghost predicate HasPayment(s: State, code: string)
    requires code in s.orders
  {
    exists i :: 0 <= i < |s.transactions|
      && s.transactions[i].order == Some(code) && s.transactions[i].amount >= s.orders[code].total
  }

  ghost predicate Backed(s: State) {
    && (forall code :: code in s.intents && s.intents[code].status.SUCCESS? ==>
          code in s.orders && HasPayment(s, code))
    && (forall code :: code in s.orders && s.orders[code].status.PAID? ==> HasPayment(s, code))
  }

  lemma PaymentStays(s: State, s': State, code: string)
    requires Extends(s, s') && code in s.orders && HasPayment(s, code)
    ensures HasPayment(s', code)
  {
    var i :| 0 <= i < |s.transactions|
      && s.transactions[i].order == Some(code) && s.transactions[i].amount >= s.orders[code].total;
    assert s'.transactions[i].order == Some(code);
  }

  /** Newly paid, or newly successful: the delivery just recorded enough money. */
  lemma DeliveryRecordsPayment(s: State, d: Delivery, code: string)
    requires code in s.orders && d.id != 0 && d.content == code && d.amount >= s.orders[code].total
    requires code in s.intents && code != ""
    ensures HasPayment(Deliver(s, d).0, code)
  {
    var s', k := Deliver(s, d).0, |s.transactions|;
    assert |s'.transactions| == k + 1;
    assert s'.transactions[k].order == Some(code) && s'.transactions[k].amount >= s'.orders[code].total;
  }

  lemma DeliverPays(s: State, d: Delivery, code: string)
    requires code in Deliver(s, d).0.orders && Deliver(s, d).0.orders[code].status.PAID?
    ensures code in s.orders
    ensures || s.orders[code].status.PAID?
            || (d.id != 0 && d.content == code && code != "" && code in s.intents && d.amount == s.orders[code].total)
  {
  }

  /** An order becomes PAID through an exact delivery or through a poll of a successful intent. */
  lemma WhoPays(s: State, e: Event, code: string)
    requires code in Step(s, e).orders && Step(s, e).orders[code].status.PAID?
    ensures code in s.orders
    ensures || s.orders[code].status.PAID?
            || (e.Polled? && e.code == code && code in s.intents && s.intents[code].status.SUCCESS?)
            || (&& e.Delivered? && e.delivery.id != 0 && e.delivery.content == code && code != ""
                && code in s.intents && e.delivery.amount == s.orders[code].total)
  {
    if e.Delivered? { DeliverPays(s, e.delivery, code); }
  }

  lemma DeliverNewSuccess(s: State, d: Delivery, code: string)
    requires code in Deliver(s, d).0.intents && Deliver(s, d).0.intents[code].status.SUCCESS?
    ensures code in s.intents && (s.intents[code].status.SUCCESS? || code in s.orders)
  {
  }

  lemma NewSuccessIsDelivered(s: State, e: Event, code: string)
    requires code in Step(s, e).intents && Step(s, e).intents[code].status.SUCCESS?
    ensures code in s.intents
    ensures s.intents[code].status.SUCCESS? || (e.Delivered? && code in s.orders)
  {
    if e.Delivered? { DeliverNewSuccess(s, e.delivery, code); }
  }

  lemma StepKeepsBacked(s: State, e: Event)
    requires Backed(s)
    ensures Backed(Step(s, e)) && Extends(s, Step(s, e))
  {
    StepExtends(s, e);
    var s' := Step(s, e);
    forall code | code in s'.intents && s'.intents[code].status.SUCCESS?
      ensures code in s'.orders && HasPayment(s', code) {
      NewSuccessIsDelivered(s, e, code);
      if s.intents[code].status.SUCCESS? {
        PaymentStays(s, s', code);
      } else {
        StepMovesIntent(s, e, code);
        DeliveryRecordsPayment(s, e.delivery, code);
      }
    }
    forall code | code in s'.orders && s'.orders[code].status.PAID? ensures HasPayment(s', code) {
      WhoPays(s, e, code);
      if s.orders[code].status.PAID? || e.Polled? {
        PaymentStays(s, s', code);
      } else {
        DeliveryRecordsPayment(s, e.delivery, code);
      }
    }
  }

  /**
   In every reachable state an intent in SUCCESS, and an order marked PAID, has a
   recorded transaction for that order of at least the order's total.  The clock plays
   no part in this.
   */
  lemma {:induction false} SuccessIsBackedByMoney(s: State, events: seq<Event>)
    requires Backed(s)
    ensures Backed(Run(s, events)) && Extends(s, Run(s, events))
    decreases |events|
  {
    if events != [] {
      StepKeepsBacked(s, events[0]);
      SuccessIsBackedByMoney(Step(s, events[0]), events[1..]);
    }
  }

  // ---- ledgers: stock, money, attempts -------------------------------------------------

  function UnitsMoved(v: int): Movement -> int {
    (m: Movement) => Get(m.quantities, v)
  }

  const AMOUNT: Transaction -> int := (t: Transaction) => t.amount

  ghost predicate StockBalanced(s: State, s': State, v: int)
    requires v in s.rows
  {
    var out := Sum(UnitsMoved(v), s'.taken) - Sum(UnitsMoved(v), s.taken);
    var back := Sum(UnitsMoved(v), s'.restored) - Sum(UnitsMoved(v), s.restored);
    v in s'.rows && s'.rows[v] == Row(s.rows[v].stock - out + back, s.rows[v].reserved - out + back)
  }

  lemma MovesBalance(s: State, s': State, m: Movement, fault: Fault, v: int)
    requires v in s.rows && Moves(s, s', m, fault)
    ensures StockBalanced(s, s', v)
  {
    SumAppend(UnitsMoved(v), s.taken, m);
    SumAppend(UnitsMoved(v), s.restored, m);
  }

  lemma DeliverBalances(s: State, d: Delivery, v: int)
    requires v in s.rows
    ensures StockBalanced(s, Deliver(s, d).0, v)
  {
    DeliverMoves(s, d);
    if Full(s, d) { MovesBalance(s, Deliver(s, d).0, MovementOf(s, d), d.fault, v); }
  }

  lemma StepBalances(s: State, e: Event, v: int)
    requires v in s.rows
    ensures StockBalanced(s, Step(s, e), v)
  {
    if e.Delivered? { DeliverBalances(s, e.delivery, v); }
  }

  /** Both columns of a variant move by exactly the quantities taken and restored. */
  lemma {:induction false} ColumnsFollowMovements(s: State, events: seq<Event>, v: int)
    requires v in s.rows
    ensures StockBalanced(s, Run(s, events), v)
    decreases |events|
  {
    if events != [] {
      StepBalances(s, events[0], v);
      ColumnsFollowMovements(Step(s, events[0]), events[1..], v);
    }
  }

  function DeliveredAmount(events: seq<Event>): int {
    if events == [] then 0
    else (if events[0].Delivered? && events[0].delivery.id != 0 then events[0].delivery.amount else 0)
         + DeliveredAmount(events[1..])
  }

  function CountDelivered(events: seq<Event>): nat {
    if events == [] then 0
    else (if events[0].Delivered? && events[0].delivery.id != 0 then 1 else 0) + CountDelivered(events[1..])
  }

  function TimesDelivered(events: seq<Event>, id: int): nat {
    if events == [] then 0
    else (if events[0].Delivered? && events[0].delivery.id == id then 1 else 0) + TimesDelivered(events[1..], id)
  }

  function Attempts(s: State, id: int): nat {
    if id in s.inbox then s.inbox[id].attempts else 0
  }

  lemma {:induction false} SumSettled(ts: seq<Transaction>, code: string)
    ensures Sum(AMOUNT, SettleTransactions(ts, code)) == Sum(AMOUNT, ts)
  {
    if ts != [] {
      SumSettled(ts[1..], code);
      assert SettleTransactions(ts, code)[1..] == SettleTransactions(ts[1..], code);
    }
  }

  lemma DeliverRecords(s: State, d: Delivery)
    requires d.id != 0
    ensures |Deliver(s, d).0.transactions| == |s.transactions| + 1
    ensures Sum(AMOUNT, Deliver(s, d).0.transactions) == Sum(AMOUNT, s.transactions) + d.amount
  {
    var t := Deliver(s, d).0.transactions;
    var last := t[|s.transactions|];
    SumAppend(AMOUNT, s.transactions, last);
    if t != s.transactions + [last] {
      var appended := s.transactions + [Transaction(Some(d.content), d.amount, SUCCESS)];
      assert t == SettleTransactions(appended, d.content);
      SumSettled(appended, d.content);
      SumAppend(AMOUNT, s.transactions, Transaction(Some(d.content), d.amount, SUCCESS));
    }
  }

  lemma DeliverCounts(s: State, d: Delivery, id: int)
    requires id != 0
    ensures Attempts(Deliver(s, d).0, id) == Attempts(s, id) + if d.id == id then 1 else 0
  {
  }

  lemma StepRecords(s: State, e: Event, id: int)
    requires id != 0
    ensures |Step(s, e).transactions| == |s.transactions| + CountDelivered([e])
    ensures Sum(AMOUNT, Step(s, e).transactions) == Sum(AMOUNT, s.transactions) + DeliveredAmount([e])
    ensures Attempts(Step(s, e), id) == Attempts(s, id) + TimesDelivered([e], id)
  {
    assert [e][1..] == [];
    match e
    case Delivered(d) =>
      if d.id != 0 { DeliverRecords(s, d); }
      DeliverCounts(s, d, id);
    case Polled(code) => SumSettled(s.transactions, code);
    case _ =>
  }

  /**
   Every delivery that carries an event id adds one transaction with its full amount, repeats
   included, and the inbox row of an id counts its deliveries.
   */
  lemma {:induction false} DeliveriesAreAllRecorded(s: State, events: seq<Event>, id: int)
    requires id != 0
    ensures |Run(s, events).transactions| == |s.transactions| + CountDelivered(events)
    ensures Sum(AMOUNT, Run(s, events).transactions) == Sum(AMOUNT, s.transactions) + DeliveredAmount(events)
    ensures Attempts(Run(s, events), id) == Attempts(s, id) + TimesDelivered(events, id)
    decreases |events|
  {
    if events != [] {
      StepRecords(s, events[0], id);
      assert [events[0]][1..] == [];
      DeliveriesAreAllRecorded(Step(s, events[0]), events[1..], id);
    }
  }
}
