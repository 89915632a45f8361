/**
 The throttle on register emails: the first is sent at registration, later ones on
 request, unless five were recorded in the last day and the latest is less than five
 hours old.  All times are for one email address, in milliseconds.
 */
module ResendThrottle {
  import opened Common

  const HOUR := 60 * 60 * 1000
  const ONE_DAY := 24 * HOUR
  const RESEND_BLOCK_WINDOW := 5 * HOUR
  const RESEND_MAX_ATTEMPTS_PER_DAY := 5

  /** How many rows of the outbox were created at `since` or later. */
  function CountSince(outbox: seq<int>, since: int): (count: nat)
    ensures count <= |outbox|
  {
    if outbox == [] then 0
    else (if outbox[0] >= since then 1 else 0) + CountSince(outbox[1..], since)
  }

  /** The newest of those rows. */
  function LatestSince(outbox: seq<int>, since: int): (r: Option<int>)
    ensures r.None? ==> forall i :: 0 <= i < |outbox| ==> outbox[i] < since
    ensures r.Some? ==> r.value >= since && r.value in outbox && forall i :: 0 <= i < |outbox| ==> outbox[i] <= r.value
  {
    if outbox == [] then None
    else
      assert outbox == [outbox[0]] + outbox[1..];
      var rest := LatestSince(outbox[1..], since);
      if outbox[0] < since then rest
      else if rest.Some? && rest.value >= outbox[0] then rest
      else Some(outbox[0])
  }

  /**
   The request is refused.  `asked` and `checked` are the two readings of the clock: one
   for the start of the day, one for the age of the latest email.
   */
  predicate Blocked(outbox: seq<int>, asked: int, checked: int) {
    var since := asked - ONE_DAY;
    CountSince(outbox, since) >= RESEND_MAX_ATTEMPTS_PER_DAY
    && LatestSince(outbox, since).Some?
    && LatestSince(outbox, since).value + RESEND_BLOCK_WINDOW > checked
  }

  datatype Account = NoUser | Unverified | Verified

  datatype Event =
    | Register(created: int)
    | Resend(asked: int, checked: int, created: int)
    | Verify

  /** `outbox` holds the creation times of the register emails, oldest first. */
  datatype State = State(account: Account, outbox: seq<int>)

  function Next(s: State, e: Event): State {
    match e
    case Register(created) =>
      if s.account.NoUser? then State(Unverified, s.outbox + [created]) else s
    case Resend(asked, checked, created) =>
      if !s.account.Unverified? || Blocked(s.outbox, asked, checked) then s
      else s.(outbox := s.outbox + [created])
    case Verify => if s.account.Unverified? then s.(account := Verified) else s
  }

  function Run(s: State, events: seq<Event>): State
    decreases |events|
  {
    if events == [] then s else Run(Next(s, events[0]), events[1..])
  }

  const INIT := State(NoUser, [])

  class RegisterMails {
    var account: Account
    var outbox: seq<int>

    constructor ()
      ensures State(account, outbox) == INIT
    {
      account, outbox := NoUser, [];
    }

    method CountOtpRegisterByEmailSince(since: int) returns (count: nat)
      ensures count == CountSince(outbox, since)
    {
      count := 0;
      var i := |outbox|;
      while i > 0
        invariant 0 <= i <= |outbox| && count == CountSince(outbox[i..], since)
      {
        i := i - 1;
        assert outbox[i..][1..] == outbox[i + 1..];
        if outbox[i] >= since { count := count + 1; }
      }
      assert outbox[0..] == outbox;
    }

    method RegisterAccount(created: int) returns (sent: bool)
      modifies this
      ensures State(account, outbox) == Next(old(State(account, outbox)), Register(created))
      ensures sent <==> old(account).NoUser?
      ensures outbox == if sent then old(outbox) + [created] else old(outbox)
      ensures account == if sent then Unverified else old(account)
    {
      sent := account.NoUser?;
      if sent {
        account, outbox := Unverified, outbox + [created];
      }
    }

    /** `ok` is false for the refusal; a missing or verified account gets a plain success. */
    method ResendEmail(asked: int, checked: int, created: int) returns (ok: bool)
      modifies this
      ensures State(account, outbox) == Next(old(State(account, outbox)), Resend(asked, checked, created))
      ensures !ok <==> old(account).Unverified? && Blocked(old(outbox), asked, checked)
      ensures outbox == if ok && old(account).Unverified? then old(outbox) + [created] else old(outbox)
      ensures account == old(account)
    {
      if account.NoUser? || account.Verified? { return true; }
      var since := asked - ONE_DAY;
      var count := CountOtpRegisterByEmailSince(since);
      var latest := LatestSince(outbox, since);
      if count >= RESEND_MAX_ATTEMPTS_PER_DAY && latest.Some? && latest.value + RESEND_BLOCK_WINDOW > checked {
        return false;
      }
      outbox := outbox + [created];
      return true;
    }
  }

  // ---- the bound ------------------------------------------------------------------

  /** Events carry clock readings that never go back, within an event and between events. */
  ghost predicate InOrder(last: int, e: Event) {
    match e
    case Register(created) => last <= created
    case Resend(asked, checked, created) => last <= asked <= checked <= created
    case Verify => true
  }

  function ClockAfter(last: int, e: Event): int {
    match e
    case Register(created) => created
    case Resend(_, _, created) => created
    case Verify => last
  }

  ghost predicate InOrderRun(last: int, events: seq<Event>)
    decreases |events|
  {
    events == [] || (InOrder(last, events[0]) && InOrderRun(ClockAfter(last, events[0]), events[1..]))
  }

  ghost predicate NonDecreasing(s: seq<int>) {
    forall i, j :: 0 <= i < j < |s| ==> s[i] <= s[j]
  }

  /** An email with five others in the day before it comes five hours after the last of them. */
  ghost predicate SpacedAt(s: seq<int>, i: nat)
    requires RESEND_MAX_ATTEMPTS_PER_DAY <= i < |s|
  {
    s[i - RESEND_MAX_ATTEMPTS_PER_DAY] >= s[i] - ONE_DAY ==> s[i] >= s[i - 1] + RESEND_BLOCK_WINDOW
  }

  ghost predicate Spaced(s: seq<int>) {
    forall i :: RESEND_MAX_ATTEMPTS_PER_DAY <= i < |s| ==> SpacedAt(s, i)
  }

  ghost predicate Inv(s: State, last: int) {
    && NonDecreasing(s.outbox) && Spaced(s.outbox)
    && (forall i :: 0 <= i < |s.outbox| ==> s.outbox[i] <= last)
    && (s.account.NoUser? ==> s.outbox == [])
  }

  lemma {:induction false} CountOfTail(s: seq<int>, k: nat, since: int)
    requires k <= |s| && forall i :: k <= i < |s| ==> s[i] >= since
    ensures CountSince(s, since) >= |s| - k
  {
    if k < |s| {
      CountOfTail(s[1..], if k == 0 then 0 else k - 1, since);
    } else if s != [] {
      CountOfTail(s[1..], |s| - 1, since);
    }
  }

  /** With emails in order, the refusal looks at the fifth from the end and at the last. */
  lemma {:induction false} BlockedIff(outbox: seq<int>, asked: int, checked: int)
    requires NonDecreasing(outbox)
    ensures Blocked(outbox, asked, checked) <==>
      (&& |outbox| >= 5 && outbox[|outbox| - 5] >= asked - 24 * 60 * 60 * 1000
       && outbox[|outbox| - 1] + 5 * 60 * 60 * 1000 > checked)
  {
    var n, since := |outbox|, asked - ONE_DAY;
    if n >= 5 {
      if outbox[n - 5] >= since {
        CountOfTail(outbox, n - 5, since);
        assert outbox[n - 1] >= since;
      } else {
        CountOfLateHead(outbox, n - 4, since);
      }
      var last := LatestSince(outbox, since);
      if last.Some? {
        var i :| 0 <= i < n && outbox[i] == last.value;
        assert outbox[n - 1] == last.value;
      }
    }
  }

  lemma {:induction false} CountOfLateHead(s: seq<int>, k: nat, since: int)
    requires k <= |s| && forall i :: 0 <= i < k ==> s[i] < since
    ensures CountSince(s, since) <= |s| - k
  {
    if s != [] { CountOfLateHead(s[1..], if k == 0 then 0 else k - 1, since); }
  }

  lemma SentIsSpaced(outbox: seq<int>, asked: int, checked: int, created: int)
    requires NonDecreasing(outbox) && |outbox| >= RESEND_MAX_ATTEMPTS_PER_DAY
    requires asked <= checked <= created && !Blocked(outbox, asked, checked)
    ensures SpacedAt(outbox + [created], |outbox|)
  {
    var n, since := |outbox|, asked - ONE_DAY;
    if outbox[n - RESEND_MAX_ATTEMPTS_PER_DAY] >= created - ONE_DAY {
      CountOfTail(outbox, n - RESEND_MAX_ATTEMPTS_PER_DAY, since);
      assert outbox[n - 1] >= since;
    }
  }

  lemma AppendKeepsInv(outbox: seq<int>, created: int)
    requires NonDecreasing(outbox) && Spaced(outbox)
    requires forall i :: 0 <= i < |outbox| ==> outbox[i] <= created
    requires |outbox| >= RESEND_MAX_ATTEMPTS_PER_DAY ==> SpacedAt(outbox + [created], |outbox|)
    ensures NonDecreasing(outbox + [created]) && Spaced(outbox + [created])
  {
    var s := outbox + [created];
    forall i | RESEND_MAX_ATTEMPTS_PER_DAY <= i < |s| ensures SpacedAt(s, i) {
      assert i < |outbox| ==> SpacedAt(outbox, i);
    }
  }

  lemma StepKeepsInv(s: State, e: Event, last: int)
    requires Inv(s, last) && InOrder(last, e)
    ensures Inv(Next(s, e), ClockAfter(last, e))
  {
    match e
    case Register(created) =>
      if s.account.NoUser? { AppendKeepsInv(s.outbox, created); }
    case Resend(asked, checked, created) =>
      if s.account.Unverified? && !Blocked(s.outbox, asked, checked) {
        if |s.outbox| >= RESEND_MAX_ATTEMPTS_PER_DAY { SentIsSpaced(s.outbox, asked, checked, created); }
        AppendKeepsInv(s.outbox, created);
      }
    case Verify =>
  }

  lemma {:induction false} RunKeepsInv(s: State, events: seq<Event>, last: int)
    requires Inv(s, last) && InOrderRun(last, events)
    ensures NonDecreasing(Run(s, events).outbox) && Spaced(Run(s, events).outbox)
    decreases |events|
  {
    if events != [] {
      StepKeepsInv(s, events[0], last);
      RunKeepsInv(Next(s, events[0]), events[1..], ClockAfter(last, events[0]));
    }
  }

  /** Ten emails in a row span more than a day: the last five gaps cannot all be short. */
  lemma TenSpanMoreThanADay(s: seq<int>, i: nat)
    requires NonDecreasing(s) && Spaced(s) && i + 9 < |s|
    ensures s[i + 9] > s[i] + ONE_DAY
  {
    assert SpacedAt(s, i + 5) && SpacedAt(s, i + 6) && SpacedAt(s, i + 7) && SpacedAt(s, i + 8) && SpacedAt(s, i + 9);
    assert s[i] <= s[i + 1] <= s[i + 2] <= s[i + 3] <= s[i + 4];
  }

  function CountWithin(s: seq<int>, from: int, to: int): nat {
    if s == [] then 0 else (if from <= s[0] <= to then 1 else 0) + CountWithin(s[1..], from, to)
  }

  lemma {:induction false} CountOfHead(s: seq<int>, from: int, to: int, k: nat)
    requires forall i :: k <= i < |s| ==> s[i] > to
    ensures CountWithin(s, from, to) <= k
  {
    if s != [] {
      CountOfHead(s[1..], from, to, if k == 0 then 0 else k - 1);
    }
  }

  lemma {:induction false} NineWithin(s: seq<int>, from: int)
    requires NonDecreasing(s) && forall i :: 0 <= i < |s| - 9 ==> s[i + 9] > s[i] + ONE_DAY
    ensures CountWithin(s, from, from + ONE_DAY) <= 9
  {
    if s != [] {
      if s[0] < from {
        NineWithin(s[1..], from);
      } else {
        forall i | 9 <= i < |s| ensures s[i] > from + ONE_DAY {
          assert s[0 + 9] > s[0] + ONE_DAY && (i == 9 || s[9] <= s[i]);
        }
        CountOfHead(s, from, from + ONE_DAY, 9);
      }
    }
  }

  /**
   At most nine register emails fall into any closed window of 24 hours, for every run of
   registrations, resend requests and verifications.
   */
  lemma AtMostNinePerDay(events: seq<Event>, start: int, from: int)
    requires InOrderRun(start, events)
    ensures CountWithin(Run(INIT, events).outbox, from, from + 24 * 60 * 60 * 1000) <= 9
  {
    RunKeepsInv(INIT, events, start);
    var s := Run(INIT, events).outbox;
    forall i | 0 <= i < |s| - 9 ensures s[i + 9] > s[i] + ONE_DAY {
      TenSpanMoreThanADay(s, i);
    }
    NineWithin(s, from);
  }

  lemma RunCons(s: State, e: Event, rest: seq<Event>, last: int)
    ensures Run(s, [e] + rest) == Run(Next(s, e), rest)
    ensures InOrderRun(last, [e] + rest) <==> InOrder(last, e) && InOrderRun(ClockAfter(last, e), rest)
  {
    assert ([e] + rest)[1..] == rest;
  }

  /** `n` further emails, five hours apart, the first of them at `at`. */
  function Spread(n: nat, at: int): seq<Event> {
    if n == 0 then [] else [Resend(at, at, at)] + Spread(n - 1, at + RESEND_BLOCK_WINDOW)
  }

  function SpreadTimes(n: nat, at: int): seq<int> {
    if n == 0 then [] else [at] + SpreadTimes(n - 1, at + RESEND_BLOCK_WINDOW)
  }

  lemma {:induction false} SpreadIsSent(n: nat, at: int, outbox: seq<int>)
    requires forall i :: 0 <= i < |outbox| ==> outbox[i] + RESEND_BLOCK_WINDOW <= at
    ensures Run(State(Unverified, outbox), Spread(n, at)).outbox == outbox + SpreadTimes(n, at)
    ensures forall last :: last <= at ==> InOrderRun(last, Spread(n, at))
    decreases n
  {
    if n > 0 {
      var s, e, rest := State(Unverified, outbox), Resend(at, at, at), Spread(n - 1, at + RESEND_BLOCK_WINDOW);
      SpreadIsSent(n - 1, at + RESEND_BLOCK_WINDOW, outbox + [at]);
      forall last | last <= at ensures InOrderRun(last, Spread(n, at)) {
        RunCons(s, e, rest, last);
      }
      RunCons(s, e, rest, at);
      assert Next(s, e) == State(Unverified, outbox + [at]);
    }
  }

  /** Registration and four requests at time zero, then four more, five hours apart. */
  function NineMails(): seq<Event> {
    var now := Resend(0, 0, 0);
    [Register(0)] + ([now] + ([now] + ([now] + ([now] + Spread(4, RESEND_BLOCK_WINDOW)))))
  }

  lemma FirstFive(rest: seq<Event>)
    requires InOrderRun(0, rest)
    ensures var now := Resend(0, 0, 0);
            var events := [Register(0)] + ([now] + ([now] + ([now] + ([now] + rest))));
            InOrderRun(0, events) && Run(INIT, events) == Run(State(Unverified, [0, 0, 0, 0, 0]), rest)
  {
    var now := Resend(0, 0, 0);
    assert Next(INIT, Register(0)) == State(Unverified, [0]);
    assert Next(State(Unverified, [0]), now) == State(Unverified, [0, 0]);
    assert Next(State(Unverified, [0, 0]), now) == State(Unverified, [0, 0, 0]);
    assert Next(State(Unverified, [0, 0, 0]), now) == State(Unverified, [0, 0, 0, 0]);
    assert Next(State(Unverified, [0, 0, 0, 0]), now) == State(Unverified, [0, 0, 0, 0, 0]);
    RunCons(State(Unverified, [0, 0, 0, 0]), now, rest, 0);
    RunCons(State(Unverified, [0, 0, 0]), now, [now] + rest, 0);
    RunCons(State(Unverified, [0, 0]), now, [now] + ([now] + rest), 0);
    RunCons(State(Unverified, [0]), now, [now] + ([now] + ([now] + rest)), 0);
    RunCons(INIT, Register(0), [now] + ([now] + ([now] + ([now] + rest))), 0);
  }

  /** The bound is reached: all nine of these emails are sent, within one day. */
  lemma NineIsReached()
    ensures InOrderRun(0, NineMails()) && CountWithin(Run(INIT, NineMails()).outbox, 0, 24 * 60 * 60 * 1000) == 9
  {
    var h, five := HOUR, [0, 0, 0, 0, 0];
    SpreadIsSent(4, 5 * h, five);
    FirstFive(Spread(4, 5 * h));
    assert SpreadTimes(1, 20 * h) == [20 * h];
    assert SpreadTimes(2, 15 * h) == [15 * h, 20 * h];
    assert SpreadTimes(3, 10 * h) == [10 * h, 15 * h, 20 * h];
    AllWithin(five + SpreadTimes(4, 5 * h), 0, ONE_DAY);
  }

  lemma {:induction false} AllWithin(s: seq<int>, from: int, to: int)
    requires forall i :: 0 <= i < |s| ==> from <= s[i] <= to
    ensures CountWithin(s, from, to) == |s|
  {
    if s != [] { AllWithin(s[1..], from, to); }
  }
}
