/**
 SePay webhook deliveries, the status poll and the payment intents they move.

 An order, its intent and the transfer content share one key, the order code: intents
 are unique per order code and per content, and checkout sets the content to the code.
 Each delivery is handled to its end before the next; deliveries may be repeated, late,
 short or over, and the last write of a payment may fail and be rolled back.
 */
module Webhook {
  import opened Common
  import opened Inventory

  datatype JobStatus = JobPending | JobDone | JobFailed

  datatype Inbox = Inbox(status: JobStatus, attempts: nat)

  datatype Intent = Intent(status: PaymentStatus, expiredAt: int)

  datatype PayableOrder = PayableOrder(total: int, status: OrderStatus, paymentStatus: PaymentStatus, items: seq<Item>)

  datatype Transaction = Transaction(order: Option<string>, amount: int, status: PaymentStatus)

  /** One statement that took an order's quantities out of the variants, or put them back. */
  datatype Movement = Movement(order: string, quantities: map<int, int>)

  /** `taken` and `restored` record the stock statements executed so far. */
  datatype State = State(
    inbox: map<int, Inbox>,
    intents: map<string, Intent>,
    orders: map<string, PayableOrder>,
    transactions: seq<Transaction>,
    rows: Table,
    taken: seq<Movement>,
    restored: seq<Movement>)

  /** Which of the two writes of `updateOrderDone` fails, if any. */
  datatype Fault = NoFault | DecrementFails | StatusFails

  /** `content` is trimmed, and empty when the bank sent none. */
  datatype Delivery = Delivery(id: int, content: string, amount: int, now: int, fault: Fault)

  datatype Outcome =
    | MissingEventId | AlreadyProcessed | MissingContent | IntentNotFound | OrderNotFound
    | IntentExpired | AlreadySuccess | Shortfall | Overage | Paid | RolledBack

  // ---- single writes -----------------------------------------------------------

  /** The upsert: every delivery, new or repeated, leaves its row pending. */
  function SavedInbox(inbox: map<int, Inbox>, id: int): Inbox {
    if id in inbox then inbox[id].(status := JobPending) else Inbox(JobPending, 0)
  }

  function WithInbox(s: State, id: int, status: JobStatus): State {
    s.(inbox := s.inbox[id := Inbox(status, SavedInbox(s.inbox, id).attempts + 1)])
  }

  function WithTransaction(s: State, order: Option<string>, amount: int, status: PaymentStatus): State {
    s.(transactions := s.transactions + [Transaction(order, amount, status)])
  }

  function WithIntent(s: State, code: string, status: PaymentStatus): State {
    if code in s.intents then s.(intents := s.intents[code := s.intents[code].(status := status)]) else s
  }

  function SettleTransactions(ts: seq<Transaction>, code: string): (r: seq<Transaction>)
    ensures |r| == |ts|
    ensures forall i :: 0 <= i < |ts| ==> r[i].order == ts[i].order && r[i].amount == ts[i].amount
    ensures forall i :: 0 <= i < |ts| ==> r[i].status == if ts[i].order == Some(code) then SUCCESS else ts[i].status
  {
    seq(|ts|, i requires 0 <= i < |ts| => if ts[i].order == Some(code) then ts[i].(status := SUCCESS) else ts[i])
  }

  function WithOrderPaid(s: State, code: string): State {
    if code in s.orders
    then s.(orders := s.orders[code := s.orders[code].(status := PAID, paymentStatus := SUCCESS)],
            transactions := SettleTransactions(s.transactions, code))
    else s
  }

  function WithStatus(s: State, code: string, status: OrderStatus): State {
    if code in s.orders then s.(orders := s.orders[code := s.orders[code].(status := status)]) else s
  }

  /** Without quantities the stock functions return before they run a statement. */
  function WithTaken(s: State, m: Movement): State {
    if m.quantities == map[] then s
    else s.(rows := PaidDecrement(s.rows, m.quantities), taken := s.taken + [m])
  }

  function WithRestored(s: State, m: Movement): State {
    if m.quantities == map[] then s
    else s.(rows := RollbackIncrement(s.rows, m.quantities), restored := s.restored + [m])
  }

  /** A decrement that is never run cannot fail. */
  function Occurring(fault: Fault, quantities: map<int, int>): Fault {
    if fault.DecrementFails? && quantities == map[] then NoFault else fault
  }

  /** The stock and status writes that follow a payment, with their rollback. */
  function FinishOrder(s: State, code: string, fault: Fault): State {
    var m := Movement(code, if code in s.orders then ItemMap(s.orders[code].items) else map[]);
    match Occurring(fault, m.quantities)
    case NoFault => WithStatus(WithTaken(s, m), code, PAID)
    case StatusFails => WithStatus(WithRestored(WithTaken(s, m), m), code, PENDING_PAYMENT)
    case DecrementFails => WithStatus(WithRestored(s, m), code, PENDING_PAYMENT)
  }

  /** A full payment, up to the stock: transaction, order, inbox, intent. */
  function RecordPayment(s: State, d: Delivery): State {
    var paid := WithOrderPaid(WithTransaction(s, Some(d.content), d.amount, SUCCESS), d.content);
    WithInbox(WithIntent(paid, d.content, SUCCESS), d.id, JobDone)
  }

  // ---- one delivery, one poll ----------------------------------------------------

  function Deliver(s: State, d: Delivery): (r: (State, Outcome))
    ensures r.1 != AlreadyProcessed
  {
    if d.id == 0 then (s, MissingEventId)
    else if SavedInbox(s.inbox, d.id).status.JobDone? then (s, AlreadyProcessed)
    else if d.content == "" then
      (WithInbox(WithTransaction(s, None, d.amount, NOT_FOUND_ORDER_CODE), d.id, JobDone), MissingContent)
    else if d.content !in s.intents then
      (WithInbox(WithTransaction(s, None, d.amount, NOT_FOUND_ORDER_CODE), d.id, JobFailed), IntentNotFound)
    else if d.content !in s.orders then
      (WithInbox(WithTransaction(s, None, d.amount, NOT_FOUND_ORDER_CODE), d.id, JobFailed), OrderNotFound)
    else if s.intents[d.content].expiredAt < d.now then
      (WithInbox(WithIntent(WithTransaction(s, Some(d.content), d.amount, EXPIRED), d.content, EXPIRED),
                 d.id, JobFailed), IntentExpired)
    else if s.intents[d.content].status.SUCCESS? then
      (WithInbox(WithIntent(WithTransaction(s, Some(d.content), d.amount, SUCCESS), d.content, SUCCESS),
                 d.id, JobDone), AlreadySuccess)
    else if d.amount < s.orders[d.content].total then
      (WithInbox(WithTransaction(s, Some(d.content), d.amount, PAYMENT_SHORTFALL), d.id, JobFailed), Shortfall)
    else if d.amount > s.orders[d.content].total then
      (WithInbox(WithIntent(WithTransaction(s, Some(d.content), d.amount, PAYMENT_OVERAGE), d.content, SUCCESS),
                 d.id, JobDone), Overage)
    else
      (FinishOrder(RecordPayment(s, d), d.content, d.fault),
       if Occurring(d.fault, ItemMap(s.orders[d.content].items)).NoFault? then Paid else RolledBack)
  }

  /** The healing poll; `None` stands for the not-found reply. */
  function Poll(s: State, code: string): (r: (State, Option<PaymentStatus>))
    ensures r.1 == Some(SUCCESS) ==>
      && code in r.0.orders && r.0.orders[code].status.PAID? && r.0.orders[code].paymentStatus.SUCCESS?
    ensures r.0.rows == s.rows && r.0.taken == s.taken && r.0.restored == s.restored
    ensures r.1.None? <==> code !in s.intents || (s.intents[code].status.SUCCESS? && code !in s.orders)
    ensures r.1.Some? ==> r.1.value == s.intents[code].status
    ensures r.0.intents == s.intents && r.0.inbox == s.inbox && r.0.orders.Keys == s.orders.Keys
    ensures r.1 != Some(SUCCESS) ==> r.0 == s
    ensures forall c :: c in s.orders && c != code ==> r.0.orders[c] == s.orders[c]
  {
    if code !in s.intents then (s, None)
    else if !s.intents[code].status.SUCCESS? then (s, Some(s.intents[code].status))
    else if code !in s.orders then (s, None)
    else if s.orders[code].status.PAID? && s.orders[code].paymentStatus.SUCCESS? then (s, Some(SUCCESS))
    else (WithOrderPaid(s, code), Some(SUCCESS))
  }

  // ---- the service, write by write -------------------------------------------------

  class HooksService {
    var inbox: map<int, Inbox>
    var intents: map<string, Intent>
    var orders: map<string, PayableOrder>
    var transactions: seq<Transaction>
    var rows: Table
    var taken: seq<Movement>
    var restored: seq<Movement>

    ghost function Snapshot(): State
      reads this
    {
      State(inbox, intents, orders, transactions, rows, taken, restored)
    }

    constructor (s: State)
      ensures Snapshot() == s
    {
      inbox, intents, orders, transactions := s.inbox, s.intents, s.orders, s.transactions;
      rows, taken, restored := s.rows, s.taken, s.restored;
    }

    method SaveSepayWebhook(id: int) returns (row: Inbox)
      modifies this`inbox
      ensures row == SavedInbox(old(inbox), id) && inbox == old(inbox)[id := row]
    {
      if id in inbox {
        row := inbox[id].(status := JobPending);
      } else {
        row := Inbox(JobPending, 0);
      }
      inbox := inbox[id := row];
    }

    /** `others` is any table that agrees with the inbox outside this row. */
    method UpdateWebhookStatus(id: int, status: JobStatus, attempts: nat, ghost others: map<int, Inbox>)
      requires id in inbox && inbox == others[id := inbox[id]]
      modifies this`inbox
      ensures inbox == others[id := Inbox(status, attempts)]
    {
      assert inbox[id := Inbox(status, attempts)] == others[id := Inbox(status, attempts)];
      inbox := inbox[id := Inbox(status, attempts)];
    }

    method SavePaymentTransaction(order: Option<string>, amount: int, status: PaymentStatus)
      modifies this`transactions
      ensures Snapshot() == WithTransaction(old(Snapshot()), order, amount, status)
    {
      transactions := transactions + [Transaction(order, amount, status)];
    }

    method MarkPaymentIntent(code: string, status: PaymentStatus)
      modifies this`intents
      ensures Snapshot() == WithIntent(old(Snapshot()), code, status)
    {
      if code in intents {
        intents := intents[code := intents[code].(status := status)];
      }
    }

    method MarkOrderAndPaymentSuccess(code: string)
      modifies this`orders, this`transactions
      ensures Snapshot() == WithOrderPaid(old(Snapshot()), code)
    {
      if code in orders {
        orders := orders[code := orders[code].(status := PAID, paymentStatus := SUCCESS)];
        var i := 0;
        ghost var before, marked := transactions, orders;
        while i < |transactions|
          invariant 0 <= i <= |transactions| == |before| && orders == marked
          invariant forall j :: 0 <= j < i ==> transactions[j] == SettleTransactions(before, code)[j]
          invariant forall j :: i <= j < |before| ==> transactions[j] == before[j]
        {
          if transactions[i].order == Some(code) {
            transactions := transactions[i := transactions[i].(status := SUCCESS)];
          }
          i := i + 1;
        }
        assert transactions == SettleTransactions(before, code);
      }
    }

    /**
     `handleSepayWebhookMarkDone` after its first writes: take the stock, or roll back.  An
     order whose items are not written yet has no quantities, and nothing is taken for it.
     */
    method FinishPaidOrder(code: string, fault: Fault) returns (done: bool)
      requires code in orders
      modifies this`rows, this`orders, this`taken, this`restored
      ensures Snapshot() == FinishOrder(old(Snapshot()), code, fault)
      ensures done <==> Occurring(fault, ItemMap(old(orders)[code].items)).NoFault?
    {
      var quantities := ItemMap(orders[code].items);
      done := fault.NoFault? || (fault.DecrementFails? && |quantities| == 0);
      if |quantities| != 0 && !fault.DecrementFails? {
        rows := PaidDecrement(rows, quantities);
        taken := taken + [Movement(code, quantities)];
      }
      if done {
        orders := orders[code := orders[code].(status := PAID)];
      } else {
        if |quantities| != 0 {
          rows := RollbackIncrement(rows, quantities);
          restored := restored + [Movement(code, quantities)];
        }
        orders := orders[code := orders[code].(status := PENDING_PAYMENT)];
      }
    }

    method HandleSepayWebhook(d: Delivery) returns (outcome: Outcome)
      modifies this
      ensures (Snapshot(), outcome) == Deliver(old(Snapshot()), d)
    {
      if d.id == 0 { return MissingEventId; }
      ghost var others := inbox;
      var row := SaveSepayWebhook(d.id);
      // the row was just written as pending, so this early return never fires
      if row.status.JobDone? { return AlreadyProcessed; }
      var attempts := row.attempts + 1;
      if d.content == "" {
        SavePaymentTransaction(None, d.amount, NOT_FOUND_ORDER_CODE);
        UpdateWebhookStatus(d.id, JobDone, attempts, others);
        return MissingContent;
      }
      if d.content !in intents {
        SavePaymentTransaction(None, d.amount, NOT_FOUND_ORDER_CODE);
        UpdateWebhookStatus(d.id, JobFailed, attempts, others);
        return IntentNotFound;
      }
      if d.content !in orders {
        SavePaymentTransaction(None, d.amount, NOT_FOUND_ORDER_CODE);
        UpdateWebhookStatus(d.id, JobFailed, attempts, others);
        return OrderNotFound;
      }
      if intents[d.content].expiredAt < d.now {
        SavePaymentTransaction(Some(d.content), d.amount, EXPIRED);
        MarkPaymentIntent(d.content, EXPIRED);
        UpdateWebhookStatus(d.id, JobFailed, attempts, others);
        return IntentExpired;
      }
      if intents[d.content].status.SUCCESS? {
        SavePaymentTransaction(Some(d.content), d.amount, SUCCESS);
        MarkPaymentIntent(d.content, SUCCESS);
        UpdateWebhookStatus(d.id, JobDone, attempts, others);
        return AlreadySuccess;
      }
      if d.amount != orders[d.content].total {
        var mismatch := if d.amount < orders[d.content].total then PAYMENT_SHORTFALL else PAYMENT_OVERAGE;
        SavePaymentTransaction(Some(d.content), d.amount, mismatch);
        UpdateWebhookStatus(d.id, JobFailed, attempts, others);
        if mismatch.PAYMENT_OVERAGE? {
          MarkPaymentIntent(d.content, SUCCESS);
          UpdateWebhookStatus(d.id, JobDone, attempts, others);
          return Overage;
        }
        return Shortfall;
      }
      SavePaymentTransaction(Some(d.content), d.amount, SUCCESS);
      MarkOrderAndPaymentSuccess(d.content);
      UpdateWebhookStatus(d.id, JobDone, attempts, others);
      MarkPaymentIntent(d.content, SUCCESS);
      var done := FinishPaidOrder(d.content, d.fault);
      return if done then Paid else RolledBack;
    }

    method GetPaymentStatus(code: string) returns (status: Option<PaymentStatus>)
      modifies this
      ensures (Snapshot(), status) == Poll(old(Snapshot()), code)
    {
      if code !in intents { return None; }
      if intents[code].status.SUCCESS? {
        if code !in orders { return None; }
        if !orders[code].status.PAID? || !orders[code].paymentStatus.SUCCESS? {
          MarkOrderAndPaymentSuccess(code);
        }
      }
      return Some(intents[code].status);
    }
  }
}
