/**
 Recommendation scores: events are weighted, decayed by age and summed per object, the
 best objects are kept, and order scores are spread over the variants bought.  A
 JavaScript map is the sequence of its entries in insertion order, one entry per object.
 */
module Scores {
  import opened Common

  datatype EventType =
    | VIEW_BOOK | SEARCH | ADD_TO_CART | REMOVE_FROM_CART | CHECKOUT_START
    | PLACE_ORDER | PAYMENT_SUCCESS | PAYMENT_FAILED | LOGIN | LOGOUT

  datatype ObjectType = BookVariant | BookOrder | OtherObject

  datatype Event = Event(kind: EventType, objectType: ObjectType, objectId: Option<int>, createdAt: int)

  /** A score kept for an object, or a score to be added to it. */
  datatype Scored = Scored(objectId: int, createdAt: int, score: real)

  const DAY_MS := 1000 * 60 * 60 * 24
  const TOP := 20
  const VARIANT_EVENT_TYPES := {VIEW_BOOK, ADD_TO_CART, REMOVE_FROM_CART}
  const ORDER_EVENT_TYPES := {CHECKOUT_START, PLACE_ORDER, PAYMENT_SUCCESS, PAYMENT_FAILED}

  function EventWeight(kind: EventType): real {
    match kind
    case VIEW_BOOK => 1.0
    case SEARCH => 0.2
    case ADD_TO_CART => 4.0
    case REMOVE_FROM_CART => -2.0
    case CHECKOUT_START => 6.0
    case PLACE_ORDER => 8.0
    case PAYMENT_SUCCESS => 12.0
    case PAYMENT_FAILED => -1.0
    case LOGIN => 0.0
    case LOGOUT => 0.0
  }

  function TimeDecay(daysAgo: int): real {
    if daysAgo <= 3 then 1.0
    else if daysAgo <= 14 then 0.7
    else if daysAgo <= 30 then 0.4
    else 0.2
  }

  function Max(a: int, b: int): int {
    if a > b then a else b
  }

  function ScoreEvent(kind: EventType, createdAt: int, now: int): real {
    EventWeight(kind) * TimeDecay(Max(0, (now - createdAt) / DAY_MS))
  }

  /** Age only fades an event: its score moves towards zero, keeps its sign and a fifth of its weight. */
  lemma AgeFadesScores(kind: EventType, createdAt: int, now: int, later: int)
    requires now <= later
    ensures var w, a, b := EventWeight(kind), ScoreEvent(kind, createdAt, now), ScoreEvent(kind, createdAt, later);
            if w >= 0.0 then w * 0.2 <= b <= a <= w else w <= a <= b <= w * 0.2
  {
    var young, aged := Max(0, (now - createdAt) / DAY_MS), Max(0, (later - createdAt) / DAY_MS);
    assert (now - createdAt) / DAY_MS <= (later - createdAt) / DAY_MS;
    assert 0.2 <= TimeDecay(aged) <= TimeDecay(young) <= 1.0;
  }

  // ---- upserting scores ------------------------------------------------------

  ghost predicate OnePerObject(s: seq<Scored>) {
    forall i, j :: 0 <= i < j < |s| ==> s[i].objectId != s[j].objectId
  }

  /** The position of an object's entry, or the length of the map. */
  function Find(s: seq<Scored>, id: int): (k: nat)
    ensures k <= |s|
    ensures k < |s| ==> s[k].objectId == id
    ensures forall i :: 0 <= i < k ==> s[i].objectId != id
  {
    if s == [] || s[0].objectId == id then 0 else 1 + Find(s[1..], id)
  }

  function Entry(s: seq<Scored>, id: int): Option<Scored> {
    var k := Find(s, id);
    if k < |s| then Some(s[k]) else None
  }

  function Added(prev: Option<Scored>, d: Scored): Scored {
    match prev
    case None => d
    case Some(p) => Scored(d.objectId, Max(p.createdAt, d.createdAt), p.score + d.score)
  }

  method UpsertScore(s: seq<Scored>, d: Scored) returns (r: seq<Scored>)
    requires OnePerObject(s)
    ensures r == Upsert(s, d)
    ensures OnePerObject(r)
    ensures Entry(r, d.objectId) == Some(Added(Entry(s, d.objectId), d))
    ensures forall id :: id != d.objectId ==> Entry(r, id) == Entry(s, id)
  {
    var k := Find(s, d.objectId);
    if k < |s| {
      var prev := s[k];
      var createdAt := if prev.createdAt > d.createdAt then prev.createdAt else d.createdAt;
      r := s[k := Scored(d.objectId, createdAt, prev.score + d.score)];
    } else {
      r := s + [d];
    }
    forall id ensures Entry(r, id) == if id == d.objectId then Some(Added(Entry(s, id), d)) else Entry(s, id) {
      UpsertEntry(s, d, id);
    }
  }

  function Upsert(s: seq<Scored>, d: Scored): seq<Scored> {
    var k := Find(s, d.objectId);
    if k < |s| then s[k := Added(Some(s[k]), d)] else s + [d]
  }

  function UpsertAll(s: seq<Scored>, ds: seq<Scored>): seq<Scored>
    decreases |ds|
  {
    if ds == [] then s else UpsertAll(Upsert(s, ds[0]), ds[1..])
  }

  lemma FindIs(s: seq<Scored>, id: int, k: nat)
    requires OnePerObject(s) && k <= |s|
    requires k < |s| ==> s[k].objectId == id
    requires k == |s| ==> forall i :: 0 <= i < |s| ==> s[i].objectId != id
    ensures Find(s, id) == k
  {
    assert Find(s, id) <= |s|;
  }

  lemma UpsertEntry(s: seq<Scored>, d: Scored, id: int)
    requires OnePerObject(s)
    ensures OnePerObject(Upsert(s, d))
    ensures Entry(Upsert(s, d), id) == if id == d.objectId then Some(Added(Entry(s, id), d)) else Entry(s, id)
  {
    var k := Find(s, d.objectId);
    var r := Upsert(s, d);
    if id == d.objectId {
      FindIs(r, id, k);
    } else if Find(s, id) < |s| {
      FindIs(r, id, Find(s, id));
    } else {
      FindIs(r, id, |r|);
    }
  }

  /** One object's share of the upserts. */
  function EntryAfter(e: Option<Scored>, ds: seq<Scored>, id: int): Option<Scored>
    decreases |ds|
  {
    if ds == [] then e
    else EntryAfter(if ds[0].objectId == id then Some(Added(e, ds[0])) else e, ds[1..], id)
  }

  lemma {:induction false} UpsertAllEntry(s: seq<Scored>, ds: seq<Scored>, id: int)
    requires OnePerObject(s)
    ensures OnePerObject(UpsertAll(s, ds))
    ensures Entry(UpsertAll(s, ds), id) == EntryAfter(Entry(s, id), ds, id)
    decreases |ds|
  {
    if ds != [] {
      UpsertEntry(s, ds[0], id);
      UpsertAllEntry(Upsert(s, ds[0]), ds[1..], id);
    }
  }

  function TotalOf(ds: seq<Scored>, id: int): real {
    if ds == [] then 0.0 else (if ds[0].objectId == id then ds[0].score else 0.0) + TotalOf(ds[1..], id)
  }

  ghost predicate Names(ds: seq<Scored>, id: int) {
    exists i :: 0 <= i < |ds| && ds[i].objectId == id
  }

  /** An object's entry is the plain sum of everything scored for it, dated by the latest of it. */
  ghost predicate IsSumOf(e: Scored, before: Option<Scored>, ds: seq<Scored>, id: int) {
    && e.score == (if before.Some? then before.value.score else 0.0) + TotalOf(ds, id)
    && (before.Some? ==> before.value.createdAt <= e.createdAt)
    && (forall i :: 0 <= i < |ds| && ds[i].objectId == id ==> ds[i].createdAt <= e.createdAt)
    && ((before.Some? && before.value.createdAt == e.createdAt)
        || exists i :: 0 <= i < |ds| && ds[i].objectId == id && ds[i].createdAt == e.createdAt)
  }

  lemma {:induction false} EntryAfterIsSum(e: Option<Scored>, ds: seq<Scored>, id: int)
    ensures EntryAfter(e, ds, id).Some? <==> e.Some? || Names(ds, id)
    ensures EntryAfter(e, ds, id).Some? ==> IsSumOf(EntryAfter(e, ds, id).value, e, ds, id)
    decreases |ds|
  {
    if ds == [] {
      assert TotalOf(ds, id) == 0.0;
    } else {
      var next := if ds[0].objectId == id then Some(Added(e, ds[0])) else e;
      var rest := ds[1..];
      EntryAfterIsSum(next, rest, id);
      assert forall i :: 1 <= i < |ds| ==> ds[i] == rest[i - 1];
      assert Names(ds, id) <==> ds[0].objectId == id || Names(rest, id) by {
        if i :| 0 <= i < |rest| && rest[i].objectId == id {
          assert ds[i + 1].objectId == id;
        }
      }
      if EntryAfter(e, ds, id).Some? {
        var r := EntryAfter(e, ds, id).value;
        assert IsSumOf(r, next, rest, id);
        if i :| 0 <= i < |rest| && rest[i].objectId == id && rest[i].createdAt == r.createdAt {
          assert ds[i + 1].createdAt == r.createdAt;
        }
      }
    }
  }

  lemma {:induction false} EntryIsOrderFree(e: Option<Scored>, a: seq<Scored>, b: seq<Scored>, id: int)
    requires multiset(a) == multiset(b)
    ensures EntryAfter(e, a, id) == EntryAfter(e, b, id)
    decreases |a|
  {
    if a == [] {
      assert |multiset(b)| == |b|;
    } else {
      var x := a[0];
      assert x in multiset(b);
      var k :| 0 <= k < |b| && b[k] == x;
      var rest := b[..k] + b[k + 1..];
      BringToFront(e, b, k, id);
      TakeOut(a, 0);
      TakeOut(b, k);
      assert a[..0] + a[1..] == a[1..] && ([x] + rest)[1..] == rest;
      EntryIsOrderFree(if x.objectId == id then Some(Added(e, x)) else e, a[1..], rest, id);
    }
  }

  lemma {:induction false} BringToFront(e: Option<Scored>, b: seq<Scored>, k: nat, id: int)
    requires k < |b|
    ensures EntryAfter(e, b, id) == EntryAfter(e, [b[k]] + (b[..k] + b[k + 1..]), id)
    decreases |b|
  {
    var rest := b[..k] + b[k + 1..];
    if k == 0 {
      assert b == [b[0]] + rest;
    } else {
      var first, x := b[0], b[k];
      var tail := b[1..];
      var shorter := tail[..k - 1] + tail[k..];
      var e1 := if first.objectId == id then Some(Added(e, first)) else e;
      BringToFront(e1, tail, k - 1, id);
      assert rest[0] == first && rest[1..] == shorter;
      var e2 := if x.objectId == id then Some(Added(e, x)) else e;
      assert ([x] + shorter)[1..] == shorter && ([x] + rest)[1..] == rest;
      assert EntryAfter(e, [x] + rest, id) == EntryAfter(e2, rest, id);
    }
  }

  // ---- the builders ----------------------------------------------------------

  predicate Counts(ev: Event, objectType: ObjectType, allowed: set<EventType>) {
    ev.objectId.Some? && ev.objectType == objectType && ev.kind in allowed
  }

  function ScoreOf(ev: Event, now: int): Scored
    requires ev.objectId.Some?
  {
    Scored(ev.objectId.value, ev.createdAt, ScoreEvent(ev.kind, ev.createdAt, now))
  }

  /** The scores that a list of events contributes. */
  function Contributions(events: seq<Event>, objectType: ObjectType, allowed: set<EventType>, now: int): seq<Scored> {
    if events == [] then []
    else
      (if Counts(events[0], objectType, allowed) then [ScoreOf(events[0], now)] else [])
      + Contributions(events[1..], objectType, allowed, now)
  }

  lemma {:induction false} UpsertAllAppend(s: seq<Scored>, a: seq<Scored>, b: seq<Scored>)
    ensures UpsertAll(s, a + b) == UpsertAll(UpsertAll(s, a), b)
    decreases |a|
  {
    if a == [] {
      assert a + b == b;
    } else {
      assert (a + b)[1..] == a[1..] + b;
      UpsertAllAppend(Upsert(s, a[0]), a[1..], b);
    }
  }

  // ---- what the builders promise, on the events themselves --------------------------

  /** The points of an event, by its kind and its age in milliseconds. */
  function Points(kind: EventType, age: int): real {
    var weight :=
      if kind.VIEW_BOOK? then 1.0 else if kind.SEARCH? then 0.2 else if kind.ADD_TO_CART? then 4.0
      else if kind.REMOVE_FROM_CART? then -2.0 else if kind.CHECKOUT_START? then 6.0
      else if kind.PLACE_ORDER? then 8.0 else if kind.PAYMENT_SUCCESS? then 12.0
      else if kind.PAYMENT_FAILED? then -1.0 else 0.0;
    var decay :=
      if age < 4 * 86400000 then 1.0 else if age < 15 * 86400000 then 0.7
      else if age < 31 * 86400000 then 0.4 else 0.2;
    weight * decay
  }

  lemma ScoreIsPoints(kind: EventType, createdAt: int, now: int)
    ensures ScoreEvent(kind, createdAt, now) == Points(kind, now - createdAt)
  {
    var age := now - createdAt;
    assert age == (age / DAY_MS) * DAY_MS + age % DAY_MS;
  }

  /** The event is about the object, and its kind is one of those that are scored. */
  predicate IsAbout(ev: Event, objectType: ObjectType, kinds: set<EventType>, id: int) {
    ev.objectId == Some(id) && ev.objectType == objectType && ev.kind in kinds
  }

  /** The points of all events about an object. */
  function PointsOf(events: seq<Event>, objectType: ObjectType, kinds: set<EventType>, now: int, id: int): real {
    if events == [] then 0.0
    else
      (if IsAbout(events[0], objectType, kinds, id) then Points(events[0].kind, now - events[0].createdAt) else 0.0)
      + PointsOf(events[1..], objectType, kinds, now, id)
  }

  lemma {:induction false} ContributionsTotal(events: seq<Event>,
          objectType: ObjectType, kinds: set<EventType>, now: int, id: int)
    ensures TotalOf(Contributions(events, objectType, kinds, now), id) == PointsOf(events, objectType, kinds, now, id)
  {
    if events != [] {
      var first := if Counts(events[0], objectType, kinds) then [ScoreOf(events[0], now)] else [];
      TotalFirst(first, Contributions(events[1..], objectType, kinds, now), id);
      ContributionsTotal(events[1..], objectType, kinds, now, id);
      ScoreIsPoints(events[0].kind, events[0].createdAt, now);
      assert first != [] ==> first[1..] == [];
    }
  }

  /** Every event that counts is scored, and nothing else: an object's score is its events' points. */
  lemma EveryEventCounts(events: seq<Event>, objectType: ObjectType, kinds: set<EventType>, now: int, id: int)
    ensures ScoreIn(UpsertAll([], Contributions(events, objectType, kinds, now)), id)
         == PointsOf(events, objectType, kinds, now, id)
  {
    ScoreAfterMerge([], Contributions(events, objectType, kinds, now), id);
    ContributionsTotal(events, objectType, kinds, now, id);
  }

  /** A contribution is dated as one of the object's events, and every event has its contribution. */
  lemma {:induction false} ContributionsAreDated(events: seq<Event>,
          objectType: ObjectType, kinds: set<EventType>, now: int, id: int, at: int)
    ensures DatedIn(Contributions(events, objectType, kinds, now), id, at)
       <==> exists ev :: ev in events && IsAbout(ev, objectType, kinds, id) && ev.createdAt == at
  {
    if events != [] {
      var rest := Contributions(events[1..], objectType, kinds, now);
      var first := if Counts(events[0], objectType, kinds) then [ScoreOf(events[0], now)] else [];
      ContributionsAreDated(events[1..], objectType, kinds, now, id, at);
      assert events == [events[0]] + events[1..];
      assert forall d :: d in first + rest <==> d in first || d in rest;
      if DatedIn(rest, id, at) {
        var d :| d in rest && d.objectId == id && d.createdAt == at;
        assert d in first + rest;
      }
    }
  }

  ghost predicate DatedIn(ds: seq<Scored>, id: int, at: int) {
    exists d :: d in ds && d.objectId == id && d.createdAt == at
  }

  /** An entry carries the points of the object's events and the date of the latest. */
  ghost predicate IsScoreOf(x: Scored, events: seq<Event>, objectType: ObjectType, kinds: set<EventType>, now: int) {
    && x.score == PointsOf(events, objectType, kinds, now, x.objectId)
    && (exists ev :: ev in events && IsAbout(ev, objectType, kinds, x.objectId) && ev.createdAt == x.createdAt)
    && (forall ev :: ev in events && IsAbout(ev, objectType, kinds, x.objectId) ==> ev.createdAt <= x.createdAt)
  }

  ghost predicate IsKept(top: seq<Scored>, id: int) {
    exists x :: x in top && x.objectId == id
  }

  /** The best 20 objects by their events: every one positive, in order, none left out that beats one kept. */
  ghost predicate AreBest(top: seq<Scored>, events: seq<Event>,
          objectType: ObjectType, kinds: set<EventType>, now: int)
  {
    && |top| <= 20 && OnePerObject(top)
    && (forall x :: x in top ==> x.score > 0.0 && IsScoreOf(x, events, objectType, kinds, now))
    && (forall i, j :: 0 <= i < j < |top| ==>
          top[i].score > top[j].score || (top[i].score == top[j].score && top[i].createdAt >= top[j].createdAt))
    && (forall id :: PointsOf(events, objectType, kinds, now, id) > 0.0 && !IsKept(top, id) ==>
          |top| == 20 && forall y :: y in top ==> y.score >= PointsOf(events, objectType, kinds, now, id))
  }

  lemma EntryIsScore(events: seq<Event>, objectType: ObjectType, kinds: set<EventType>, now: int, x: Scored)
    requires x in UpsertAll([], Contributions(events, objectType, kinds, now))
    ensures IsScoreOf(x, events, objectType, kinds, now)
  {
    var ds := Contributions(events, objectType, kinds, now);
    UpsertAllEntry([], ds, x.objectId);
    EntryOfMember(UpsertAll([], ds), x);
    EntryAfterIsSum(None, ds, x.objectId);
    ContributionsTotal(events, objectType, kinds, now, x.objectId);
    var i :| 0 <= i < |ds| && ds[i].objectId == x.objectId && ds[i].createdAt == x.createdAt;
    assert DatedIn(ds, x.objectId, x.createdAt);
    ContributionsAreDated(events, objectType, kinds, now, x.objectId, x.createdAt);
    forall ev | ev in events && IsAbout(ev, objectType, kinds, x.objectId) ensures ev.createdAt <= x.createdAt {
      ContributionsAreDated(events, objectType, kinds, now, x.objectId, ev.createdAt);
      var d :| d in ds && d.objectId == x.objectId && d.createdAt == ev.createdAt;
      var k :| 0 <= k < |ds| && ds[k] == d;
    }
  }

  lemma PositiveHasEntry(events: seq<Event>, objectType: ObjectType, kinds: set<EventType>, now: int, id: int)
    returns (x: Scored)
    requires PointsOf(events, objectType, kinds, now, id) > 0.0
    ensures x in UpsertAll([], Contributions(events, objectType, kinds, now)) && x.objectId == id
    ensures x.score == PointsOf(events, objectType, kinds, now, id)
  {
    EveryEventCounts(events, objectType, kinds, now, id);
    var all := UpsertAll([], Contributions(events, objectType, kinds, now));
    x := all[Find(all, id)];
  }

  /** A top of entries that are the objects' scores, with everything positive in it or beaten. */
  lemma BestOfEntries(events: seq<Event>, objectType: ObjectType, kinds: set<EventType>, now: int,
          all: seq<Scored>, top: seq<Scored>)
    requires |top| <= 20 && OnePerObject(top) && Descending(top)
    requires forall x :: x in top ==> x.score > 0.0 && IsScoreOf(x, events, objectType, kinds, now)
    requires forall x :: x in all && x.score > 0.0 && x !in top ==> |top| == 20 && BeatenByAll(x, top)
    requires forall id :: PointsOf(events, objectType, kinds, now, id) > 0.0 ==>
      exists x :: x in all && x.objectId == id && x.score == PointsOf(events, objectType, kinds, now, id)
    ensures AreBest(top, events, objectType, kinds, now)
  {
    forall id | PointsOf(events, objectType, kinds, now, id) > 0.0 && !IsKept(top, id)
      ensures |top| == 20 && forall y :: y in top ==> y.score >= PointsOf(events, objectType, kinds, now, id)
    {
      var x :| x in all && x.objectId == id && x.score == PointsOf(events, objectType, kinds, now, id);
      assert x !in top && BeatenByAll(x, top);
    }
  }

  ghost predicate BeatenByAll(x: Scored, top: seq<Scored>) {
    forall y :: y in top ==> NoWorse(y, x)
  }

  lemma TopBeats(s: seq<Scored>)
    requires OnePerObject(s)
    ensures forall x :: x in s && x.score > 0.0 && x !in TopK(s, 20) ==>
      |TopK(s, 20)| == 20 && BeatenByAll(x, TopK(s, 20))
    ensures forall x :: x in TopK(s, 20) ==> x in s && x.score > 0.0
    ensures |TopK(s, 20)| <= 20 && OnePerObject(TopK(s, 20)) && Descending(TopK(s, 20))
  {
    TopKKeepsTheBest(s, 20);
  }

  lemma TopIsBest(events: seq<Event>, objectType: ObjectType, kinds: set<EventType>, now: int,
          all: seq<Scored>, top: seq<Scored>)
    requires all == UpsertAll([], Contributions(events, objectType, kinds, now)) && top == TopK(all, 20)
    ensures AreBest(top, events, objectType, kinds, now)
  {
    UpsertAllEntry([], Contributions(events, objectType, kinds, now), 0);
    TopBeats(all);
    forall x | x in top ensures IsScoreOf(x, events, objectType, kinds, now) {
      EntryIsScore(events, objectType, kinds, now, x);
    }
    forall id | PointsOf(events, objectType, kinds, now, id) > 0.0
      ensures exists x :: x in all && x.objectId == id && x.score == PointsOf(events, objectType, kinds, now, id)
    {
      var x := PositiveHasEntry(events, objectType, kinds, now, id);
    }
    BestOfEntries(events, objectType, kinds, now, all, top);
  }

  method BuildVariantScores(events: seq<Event>, now: int) returns (top: seq<Scored>)
    ensures AreBest(top, events, BookVariant, {VIEW_BOOK, ADD_TO_CART, REMOVE_FROM_CART}, now)
  {
    top := BuildScores(events, BookVariant, VARIANT_EVENT_TYPES, now);
  }

  method BuildOrderScores(events: seq<Event>, now: int) returns (top: seq<Scored>)
    ensures AreBest(top, events, BookOrder, {CHECKOUT_START, PLACE_ORDER, PAYMENT_SUCCESS, PAYMENT_FAILED}, now)
  {
    top := BuildScores(events, BookOrder, ORDER_EVENT_TYPES, now);
  }

  /** The two score builders, which differ only in the object type and the event types they count. */
  method BuildScores(events: seq<Event>, objectType: ObjectType, allowed: set<EventType>, now: int)
    returns (top: seq<Scored>)
    ensures top == TopK(UpsertAll([], Contributions(events, objectType, allowed, now)), TOP)
    ensures AreBest(top, events, objectType, allowed, now)
  {
    var scores := AddScores(events, objectType, allowed, now);
    top := TopK(scores, TOP);
    TopIsBest(events, objectType, allowed, now, scores, top);
  }

  method AddScores(events: seq<Event>, objectType: ObjectType, allowed: set<EventType>, now: int)
    returns (scores: seq<Scored>)
    ensures scores == UpsertAll([], Contributions(events, objectType, allowed, now))
  {
    scores := [];
    ghost var all := UpsertAll([], Contributions(events, objectType, allowed, now));
    for k := 0 to |events|
      invariant OnePerObject(scores)
      invariant UpsertAll(scores, Contributions(events[k..], objectType, allowed, now)) == all
    {
      var ev := events[k];
      ghost var rest := Contributions(events[k + 1..], objectType, allowed, now);
      assert events[k..][0] == ev && events[k..][1..] == events[k + 1..];
      if ev.objectId.Some? && ev.objectType == objectType && ev.kind in allowed {
        UpsertAllAppend(scores, [ScoreOf(ev, now)], rest);
        scores := UpsertScore(scores, Scored(ev.objectId.value, ev.createdAt, ScoreEvent(ev.kind, ev.createdAt, now)));
      } else {
        assert [] + rest == rest;
      }
    }
  }

  lemma {:induction false} ContributionsAppend(a: seq<Event>, b: seq<Event>,
          objectType: ObjectType, allowed: set<EventType>, now: int)
    ensures Contributions(a + b, objectType, allowed, now)
         == Contributions(a, objectType, allowed, now) + Contributions(b, objectType, allowed, now)
  {
    if a == [] {
      assert a + b == b;
    } else {
      assert (a + b)[1..] == a[1..] + b;
      ContributionsAppend(a[1..], b, objectType, allowed, now);
      var first := if Counts(a[0], objectType, allowed) then [ScoreOf(a[0], now)] else [];
      var x, y := Contributions(a[1..], objectType, allowed, now), Contributions(b, objectType, allowed, now);
      assert first + (x + y) == first + x + y;
    }
  }

  lemma ContributionsTakeOut(s: seq<Event>, k: nat, objectType: ObjectType, allowed: set<EventType>, now: int)
    returns (rest: seq<Event>)
    requires k < |s|
    ensures |rest| < |s| && multiset(rest) == multiset(s) - multiset{s[k]}
    ensures multiset(Contributions(s, objectType, allowed, now))
         == multiset(Contributions([s[k]], objectType, allowed, now))
            + multiset(Contributions(rest, objectType, allowed, now))
  {
    rest := s[..k] + s[k + 1..];
    TakeOut(s, k);
    assert s == s[..k] + ([s[k]] + s[k + 1..]);
    ContributionsAppend(s[..k], [s[k]] + s[k + 1..], objectType, allowed, now);
    ContributionsAppend([s[k]], s[k + 1..], objectType, allowed, now);
    ContributionsAppend(s[..k], s[k + 1..], objectType, allowed, now);
  }

  lemma {:induction false} ContributionsPermute(a: seq<Event>, b: seq<Event>,
          objectType: ObjectType, allowed: set<EventType>, now: int)
    requires multiset(a) == multiset(b)
    ensures multiset(Contributions(a, objectType, allowed, now)) == multiset(Contributions(b, objectType, allowed, now))
    decreases |a|
  {
    if a == [] {
      assert |multiset(b)| == |b|;
    } else {
      assert a[0] in multiset(b);
      var k :| 0 <= k < |b| && b[k] == a[0];
      var a' := ContributionsTakeOut(a, 0, objectType, allowed, now);
      var b' := ContributionsTakeOut(b, k, objectType, allowed, now);
      ContributionsPermute(a', b', objectType, allowed, now);
    }
  }

  /** The builders' scores are order-independent: any arrangement of the events gives the same entries. */
  lemma OrderOfEventsDoesNotMatter(a: seq<Event>, b: seq<Event>,
          objectType: ObjectType, allowed: set<EventType>, now: int, id: int)
    requires multiset(a) == multiset(b)
    ensures Entry(UpsertAll([], Contributions(a, objectType, allowed, now)), id)
         == Entry(UpsertAll([], Contributions(b, objectType, allowed, now)), id)
  {
    var x, y := Contributions(a, objectType, allowed, now), Contributions(b, objectType, allowed, now);
    ContributionsPermute(a, b, objectType, allowed, now);
    UpsertAllEntry([], x, id);
    UpsertAllEntry([], y, id);
    EntryIsOrderFree(None, x, y, id);
  }

  // ---- the best entries --------------------------------------------------------

  /** The comparison of the sort: higher score first, then the later date. */
  predicate NoWorse(a: Scored, b: Scored) {
    a.score > b.score || (a.score == b.score && a.createdAt >= b.createdAt)
  }

  /** One entry goes before another by a higher score, or an equal one and a date no earlier. */
  lemma OrderIsByScoreThenDate(a: Scored, b: Scored)
    ensures NoWorse(a, b) <==> b.score < a.score || (b.score == a.score && b.createdAt <= a.createdAt)
  {
  }

  function Positive(s: seq<Scored>): (r: seq<Scored>)
    ensures forall x :: x in r <==> x in s && x.score > 0.0
  {
    if s == [] then [] else (if s[0].score > 0.0 then [s[0]] else []) + Positive(s[1..])
  }

  /** Places `x` before everything it is no worse than, so equal entries keep their order. */
  function Insert(x: Scored, s: seq<Scored>): (r: seq<Scored>)
    ensures multiset(r) == multiset(s) + multiset{x}
  {
    if s == [] || NoWorse(x, s[0]) then [x] + s
    else
      assert s == [s[0]] + s[1..];
      [s[0]] + Insert(x, s[1..])
  }

  function Sorted(s: seq<Scored>): (r: seq<Scored>)
    ensures multiset(r) == multiset(s)
  {
    if s == [] then []
    else
      assert s == [s[0]] + s[1..];
      Insert(s[0], Sorted(s[1..]))
  }

  function TopK(s: seq<Scored>, k: int): seq<Scored> {
    var sorted := Sorted(Positive(s));
    sorted[..if |sorted| <= Max(1, k) then |sorted| else Max(1, k)]
  }

  ghost predicate Descending(s: seq<Scored>) {
    forall i, j :: 0 <= i < j < |s| ==> NoWorse(s[i], s[j])
  }

  lemma {:induction false} InsertKeepsDescending(x: Scored, s: seq<Scored>)
    requires Descending(s)
    ensures Descending(Insert(x, s))
  {
    if s != [] && !NoWorse(x, s[0]) {
      InsertKeepsDescending(x, s[1..]);
      var r := Insert(x, s[1..]);
      forall j | 0 <= j < |r| ensures NoWorse(s[0], r[j]) {
        assert r[j] in multiset(s[1..]) + multiset{x};
      }
    }
  }

  lemma {:induction false} SortedDescends(s: seq<Scored>)
    ensures Descending(Sorted(s))
  {
    if s != [] {
      SortedDescends(s[1..]);
      InsertKeepsDescending(s[0], Sorted(s[1..]));
    }
  }

  lemma {:induction false} SortedStays(s: seq<Scored>)
    requires Descending(s)
    ensures Sorted(s) == s
  {
    if s != [] {
      SortedStays(s[1..]);
      assert s == [s[0]] + s[1..];
    }
  }

  lemma {:induction false} PositiveStays(s: seq<Scored>)
    requires forall i :: 0 <= i < |s| ==> s[i].score > 0.0
    ensures Positive(s) == s
  {
    if s != [] {
      PositiveStays(s[1..]);
      assert s == [s[0]] + s[1..];
    }
  }

  lemma {:induction false} PositiveKeepsOnePerObject(s: seq<Scored>)
    requires OnePerObject(s)
    ensures OnePerObject(Positive(s))
  {
    if s != [] {
      PositiveKeepsOnePerObject(s[1..]);
      assert forall x :: x in Positive(s[1..]) ==> x in s[1..];
    }
  }

  lemma OnePerObjectByContents(a: seq<Scored>, b: seq<Scored>)
    requires OnePerObject(a) && multiset(a) == multiset(b)
    ensures OnePerObject(b)
  {
    forall i, j | 0 <= i < j < |b| ensures b[i].objectId != b[j].objectId {
      assert b == b[..i] + [b[i]] + b[i + 1..j] + [b[j]] + b[j + 1..];
      assert b[i] in multiset(a) && b[j] in multiset(a);
      var m, n :| 0 <= m < |a| && 0 <= n < |a| && a[m] == b[i] && a[n] == b[j];
      if b[i] == b[j] {
        assert multiset(b)[b[i]] >= 2;
        NoDuplicates(a, m);
      }
    }
  }

  lemma NoDuplicates(a: seq<Scored>, m: nat)
    requires OnePerObject(a) && m < |a|
    ensures multiset(a)[a[m]] == 1
  {
    assert a == a[..m] + [a[m]] + a[m + 1..];
    assert a[m] !in a[..m] && a[m] !in a[m + 1..];
  }

  lemma RankedIsPositiveSorted(s: seq<Scored>)
    requires OnePerObject(s)
    ensures var sorted := Sorted(Positive(s));
            && OnePerObject(sorted) && Descending(sorted)
            && forall x :: x in sorted <==> x in s && x.score > 0.0
  {
    var kept := Positive(s);
    SortedDescends(kept);
    PositiveKeepsOnePerObject(s);
    OnePerObjectByContents(kept, Sorted(kept));
    forall x ensures x in Sorted(kept) <==> x in kept {
      assert x in multiset(Sorted(kept)) <==> x in multiset(kept);
    }
  }

  lemma PrefixKeepsTheBest(sorted: seq<Scored>, n: nat)
    requires Descending(sorted) && n <= |sorted|
    ensures forall x :: x in sorted[..n] ==> x in sorted
    ensures forall x, y :: x in sorted && x !in sorted[..n] && y in sorted[..n] ==> NoWorse(y, x)
    ensures n == |sorted| ==> forall x :: x in sorted ==> x in sorted[..n]
  {
    forall x, y | x in sorted && x !in sorted[..n] && y in sorted[..n] ensures NoWorse(y, x) {
      var j :| 0 <= j < |sorted| && sorted[j] == x;
      var i :| 0 <= i < n && sorted[i] == y;
      assert n <= j;
    }
    assert n == |sorted| ==> sorted[..n] == sorted;
  }

  /**
   The kept entries are at most `max(1, k)` positive ones in descending order, and no
   positive entry left out beats any entry kept.  Nothing positive is left out unless the
   limit is reached.
   */
  lemma TopKKeepsTheBest(s: seq<Scored>, k: int)
    requires OnePerObject(s)
    ensures var top := TopK(s, k);
            && |top| <= (if k < 1 then 1 else k) && OnePerObject(top) && Descending(top)
            && (forall x :: x in top ==> x in s && x.score > 0.0)
            && (forall x, y :: x in s && x.score > 0.0 && x !in top && y in top ==> NoWorse(y, x))
            && ((exists x :: x in s && x.score > 0.0 && x !in top) ==> |top| == if k < 1 then 1 else k)
  {
    var sorted := Sorted(Positive(s));
    RankedIsPositiveSorted(s);
    PrefixKeepsTheBest(sorted, if |sorted| <= Max(1, k) then |sorted| else Max(1, k));
  }

  /** Keeping the best twice changes nothing. */
  lemma TopKIsIdempotent(s: seq<Scored>, k: int)
    requires OnePerObject(s)
    ensures TopK(TopK(s, k), k) == TopK(s, k)
  {
    TopKKeepsTheBest(s, k);
    PositiveStays(TopK(s, k));
    SortedStays(TopK(s, k));
  }

  // ---- order signals -----------------------------------------------------------

  datatype OrderItem = OrderItem(snapshotId: Option<int>, quantity: Option<int>, createdAt: int)

  datatype OrderRow = OrderRow(id: int, items: seq<OrderItem>)

  /** An item of a scored order, scored by its quantity; its object is still the snapshot. */
  function Signal(order: Scored, item: OrderItem): Scored
    requires item.snapshotId.Some?
  {
    Scored(item.snapshotId.value, Max(order.createdAt, item.createdAt),
           order.score * Max(1, if item.quantity.Some? then item.quantity.value else 1) as real)
  }

  function ItemSignals(order: Scored, items: seq<OrderItem>): seq<Scored> {
    if items == [] then []
    else (if HasSnapshot(items[0]) then [Signal(order, items[0])] else []) + ItemSignals(order, items[1..])
  }

  predicate HasSnapshot(item: OrderItem) {
    item.snapshotId.Some? && item.snapshotId.value != 0
  }

  function OrderSignals(orders: seq<Scored>, rows: seq<OrderRow>): seq<Scored> {
    if rows == [] then []
    else
      var order := Entry(orders, rows[0].id);
      (if order.Some? then ItemSignals(order.value, rows[0].items) else []) + OrderSignals(orders, rows[1..])
  }

  /** What a line of an order signals: its snapshot and the later of the two dates. */
  ghost predicate SignalsLine(x: Scored, order: Scored, item: OrderItem) {
    && item.snapshotId == Some(x.objectId) && x.objectId != 0
    && x.createdAt == if order.createdAt > item.createdAt then order.createdAt else item.createdAt
  }

  lemma DatedInEither(a: seq<Scored>, b: seq<Scored>, id: int, at: int)
    ensures DatedIn(a + b, id, at) <==> DatedIn(a, id, at) || DatedIn(b, id, at)
  {
    assert forall d :: d in a + b <==> d in a || d in b;
    if d :| d in a && d.objectId == id && d.createdAt == at { assert d in a + b; }
    if d :| d in b && d.objectId == id && d.createdAt == at { assert d in a + b; }
  }

  lemma OneSignalIsDated(order: Scored, item: OrderItem, id: int, at: int)
    ensures DatedIn(if HasSnapshot(item) then [Signal(order, item)] else [], id, at)
       <==> SignalsLine(Scored(id, at, 0.0), order, item)
  {
    if HasSnapshot(item) { assert Signal(order, item) in [Signal(order, item)]; }
  }

  /** An order's lines signal their own snapshots at their own dates, each of them and no others. */
  lemma {:induction false} ItemSignalsAreDated(order: Scored, items: seq<OrderItem>, id: int, at: int)
    ensures DatedIn(ItemSignals(order, items), id, at)
       <==> exists i :: 0 <= i < |items| && SignalsLine(Scored(id, at, 0.0), order, items[i])
  {
    if items != [] {
      var first := if HasSnapshot(items[0]) then [Signal(order, items[0])] else [];
      ItemSignalsAreDated(order, items[1..], id, at);
      DatedInEither(first, ItemSignals(order, items[1..]), id, at);
      OneSignalIsDated(order, items[0], id, at);
      assert forall i :: 1 <= i < |items| ==> items[i] == items[1..][i - 1];
      assert forall i :: 0 <= i < |items| - 1 ==> items[1..][i] == items[i + 1];
    }
  }

  /** Signals whose snapshot is still known, moved to its variant. */
  function VariantSignals(signals: seq<Scored>, variantOf: map<int, int>): seq<Scored> {
    if signals == [] then []
    else
      (if signals[0].objectId in variantOf then [signals[0].(objectId := variantOf[signals[0].objectId])] else [])
      + VariantSignals(signals[1..], variantOf)
  }

  /** A moved signal keeps its date, and every signal with a known snapshot is moved. */
  lemma {:induction false} VariantSignalsAreDated(signals: seq<Scored>, variantOf: map<int, int>, v: int, at: int)
    ensures DatedIn(VariantSignals(signals, variantOf), v, at)
       <==> exists i :: 0 <= i < |signals| && MovesTo(signals[i], variantOf, v) && signals[i].createdAt == at
  {
    if signals != [] {
      var id := if signals[0].objectId in variantOf then variantOf[signals[0].objectId] else 0;
      var moved := signals[0].(objectId := id);
      var first := if signals[0].objectId in variantOf then [moved] else [];
      VariantSignalsAreDated(signals[1..], variantOf, v, at);
      DatedInEither(first, VariantSignals(signals[1..], variantOf), v, at);
      if first != [] { assert moved in first; }
      assert DatedIn(first, v, at) <==> MovesTo(signals[0], variantOf, v) && signals[0].createdAt == at;
      assert forall i :: 1 <= i < |signals| ==> signals[i] == signals[1..][i - 1];
      assert forall i :: 0 <= i < |signals| - 1 ==> signals[1..][i] == signals[i + 1];
    }
  }

  predicate MovesTo(signal: Scored, variantOf: map<int, int>, v: int) {
    signal.objectId in variantOf && variantOf[signal.objectId] == v
  }

  /** What an order's items add to variant `v`: the order's score for each unit bought, at least once. */
  function Share(order: Scored, items: seq<OrderItem>, variantOf: map<int, int>, v: int): real {
    if items == [] then 0.0
    else
      var units := if items[0].quantity.Some? && items[0].quantity.value > 1 then items[0].quantity.value else 1;
      (if HasSnapshot(items[0]) && items[0].snapshotId.value in variantOf && variantOf[items[0].snapshotId.value] == v
       then order.score * units as real else 0.0)
      + Share(order, items[1..], variantOf, v)
  }

  function Shares(orders: seq<Scored>, rows: seq<OrderRow>, variantOf: map<int, int>, v: int): real {
    if rows == [] then 0.0
    else
      (match Entry(orders, rows[0].id) case None => 0.0 case Some(o) => Share(o, rows[0].items, variantOf, v))
      + Shares(orders, rows[1..], variantOf, v)
  }

  lemma {:induction false} TotalAppend(a: seq<Scored>, b: seq<Scored>, variantOf: map<int, int>, v: int)
    ensures TotalOf(VariantSignals(a + b, variantOf), v)
         == TotalOf(VariantSignals(a, variantOf), v) + TotalOf(VariantSignals(b, variantOf), v)
  {
    if a == [] {
      assert a + b == b;
    } else {
      assert (a + b)[1..] == a[1..] + b;
      TotalAppend(a[1..], b, variantOf, v);
      var first := if a[0].objectId in variantOf then [a[0].(objectId := variantOf[a[0].objectId])] else [];
      TotalFirst(first, VariantSignals(a[1..] + b, variantOf), v);
      TotalFirst(first, VariantSignals(a[1..], variantOf), v);
    }
  }

  lemma TotalFirst(first: seq<Scored>, rest: seq<Scored>, v: int)
    requires |first| <= 1
    ensures TotalOf(first + rest, v) == TotalOf(first, v) + TotalOf(rest, v)
  {
    if first == [] {
      assert first + rest == rest;
    } else {
      assert (first + rest)[1..] == rest && first[1..] == [];
    }
  }

  lemma {:induction false} ItemSignalsTotal(order: Scored, items: seq<OrderItem>, variantOf: map<int, int>, v: int)
    ensures TotalOf(VariantSignals(ItemSignals(order, items), variantOf), v) == Share(order, items, variantOf, v)
  {
    if items != [] {
      var first := if HasSnapshot(items[0]) then [Signal(order, items[0])] else [];
      TotalAppend(first, ItemSignals(order, items[1..]), variantOf, v);
      ItemSignalsTotal(order, items[1..], variantOf, v);
      assert first != [] ==> first[1..] == [];
    }
  }

  /** The signals of a variant add up to what the orders' items owe it, over all rows and items. */
  lemma {:induction false} SignalsAddUpToShares(orders: seq<Scored>, rows: seq<OrderRow>,
          variantOf: map<int, int>, v: int)
    ensures TotalOf(VariantSignals(OrderSignals(orders, rows), variantOf), v) == Shares(orders, rows, variantOf, v)
  {
    if rows != [] {
      var order := Entry(orders, rows[0].id);
      var first := if order.Some? then ItemSignals(order.value, rows[0].items) else [];
      TotalAppend(first, OrderSignals(orders, rows[1..]), variantOf, v);
      SignalsAddUpToShares(orders, rows[1..], variantOf, v);
      if order.Some? { ItemSignalsTotal(order.value, rows[0].items, variantOf, v); }
    }
  }

  lemma {:induction false} NoVariantNoSignal(signals: seq<Scored>)
    ensures VariantSignals(signals, map[]) == []
  {
    if signals != [] {
      NoVariantNoSignal(signals[1..]);
    }
  }

  lemma {:induction false} NoOrderNoSignal(rows: seq<OrderRow>)
    ensures OrderSignals([], rows) == []
  {
    if rows != [] {
      NoOrderNoSignal(rows[1..]);
    }
  }

  /** `mergerRecommendVariantAndOrder`; `rows` and `variantOf` are the answers to its two queries. */
  method MergeOrders(variants: seq<Scored>, orders: seq<Scored>, rows: seq<OrderRow>, variantOf: map<int, int>)
    returns (merged: seq<Scored>)
    requires OnePerObject(variants)
    ensures var signals := OrderSignals(orders, rows);
            merged == if signals == [] || variantOf == map[] then variants
                      else TopK(UpsertAll(variants, VariantSignals(signals, variantOf)), TOP)
  {
    if |orders| == 0 {
      NoOrderNoSignal(rows);
      return variants;
    }
    if |rows| == 0 { return variants; }
    var signals := OrderSignals(orders, rows);
    if |signals| == 0 || |variantOf| == 0 { return variants; }
    var scores := variants;
    for k := 0 to |signals|
      invariant OnePerObject(scores)
      invariant UpsertAll(scores, VariantSignals(signals[k..], variantOf))
             == UpsertAll(variants, VariantSignals(signals, variantOf))
    {
      var signal := signals[k];
      ghost var rest := VariantSignals(signals[k + 1..], variantOf);
      assert signals[k..][0] == signal && signals[k..][1..] == signals[k + 1..];
      if signal.objectId in variantOf {
        var moved := Scored(variantOf[signal.objectId], signal.createdAt, signal.score);
        UpsertAllAppend(scores, [moved], rest);
        scores := UpsertScore(scores, moved);
      } else {
        assert [] + rest == rest;
      }
    }
    merged := TopK(scores, TOP);
  }

  /**
   Event scores arrive already cut to the top, so each early return is what the full path
   would have given.
   */
  lemma EarlyReturnsAgree(scores: seq<Scored>, orders: seq<Scored>, rows: seq<OrderRow>, variantOf: map<int, int>)
    requires OnePerObject(scores) && (OrderSignals(orders, rows) == [] || variantOf == map[])
    ensures var variants := TopK(scores, TOP);
            TopK(UpsertAll(variants, VariantSignals(OrderSignals(orders, rows), variantOf)), TOP) == variants
  {
    NoVariantNoSignal(OrderSignals(orders, rows));
    TopKIsIdempotent(scores, TOP);
  }

  /**
   After order signals are merged in, every kept variant carries its event score plus the
   sum of its signals, and no positive total left out beats a kept one.
   */
  lemma {:induction false} MergedTopIsBest(variants: seq<Scored>, signals: seq<Scored>)
    requires OnePerObject(variants)
    ensures var all, top := UpsertAll(variants, signals), TopK(UpsertAll(variants, signals), TOP);
            && OnePerObject(all) && |top| <= 20 && Descending(top)
            && (forall id :: Entry(all, id).Some? <==> Entry(variants, id).Some? || Names(signals, id))
            && (forall id :: Entry(all, id).Some? ==> IsSumOf(Entry(all, id).value, Entry(variants, id), signals, id))
            && (forall x :: x in top ==> x in all && x.score > 0.0)
            && (forall x, y :: x in all && x.score > 0.0 && x !in top && y in top ==> NoWorse(y, x))
  {
    var all := UpsertAll(variants, signals);
    UpsertAllEntry(variants, signals, 0);
    forall id ensures Entry(all, id).Some? <==> Entry(variants, id).Some? || Names(signals, id)
              ensures Entry(all, id).Some? ==> IsSumOf(Entry(all, id).value, Entry(variants, id), signals, id) {
      UpsertAllEntry(variants, signals, id);
      EntryAfterIsSum(Entry(variants, id), signals, id);
    }
    TopKKeepsTheBest(all, TOP);
  }

  // ---- what the cut before the merge changes ------------------------------------------

  function ScoreIn(s: seq<Scored>, id: int): real {
    match Entry(s, id) case None => 0.0 case Some(e) => e.score
  }

  lemma ScoreAfterMerge(s: seq<Scored>, signals: seq<Scored>, id: int)
    requires OnePerObject(s)
    ensures ScoreIn(UpsertAll(s, signals), id) == ScoreIn(s, id) + TotalOf(signals, id)
  {
    UpsertAllEntry(s, signals, id);
    EntryAfterIsSum(Entry(s, id), signals, id);
    if !Names(signals, id) { UnnamedTotal(signals, id); }
  }

  lemma {:induction false} UnnamedTotal(ds: seq<Scored>, id: int)
    requires !Names(ds, id)
    ensures TotalOf(ds, id) == 0.0
  {
    if ds != [] {
      assert ds[0].objectId != id;
      assert forall i :: 0 <= i < |ds[1..]| ==> ds[1..][i] == ds[i + 1];
      UnnamedTotal(ds[1..], id);
    }
  }

  lemma EntryOfMember(s: seq<Scored>, x: Scored)
    requires OnePerObject(s) && x in s
    ensures Entry(s, x.objectId) == Some(x)
  {
    var k :| 0 <= k < |s| && s[k] == x;
    FindIs(s, x.objectId, k);
  }

  /** A kept object has its entry, a dropped one none. */
  lemma KeptEntry(s: seq<Scored>, id: int)
    requires OnePerObject(s)
    ensures Entry(TopK(s, TOP), id).Some? ==> Entry(TopK(s, TOP), id) == Entry(s, id)
  {
    TopKKeepsTheBest(s, TOP);
    if Entry(TopK(s, TOP), id).Some? { EntryOfMember(s, Entry(TopK(s, TOP), id).value); }
  }

  /**
   Cutting the event scores before the merge takes a dropped object's whole event score out
   of its merged score.  The merged score is right if and only if the object had none, a
   score of zero, or was kept.
   */
  lemma {:induction false} CutAgreesIffKept(s: seq<Scored>, signals: seq<Scored>, id: int)
    requires OnePerObject(s)
    ensures var whole, cut := ScoreIn(UpsertAll(s, signals), id), ScoreIn(UpsertAll(TopK(s, TOP), signals), id);
            && cut == whole - (if Entry(TopK(s, TOP), id).Some? then 0.0 else ScoreIn(s, id))
            && (cut == whole <==>
                  Entry(s, id).None? || Entry(s, id).value.score == 0.0 || Entry(TopK(s, TOP), id).Some?)
  {
    TopKKeepsTheBest(s, TOP);
    KeptEntry(s, id);
    ScoreAfterMerge(s, signals, id);
    ScoreAfterMerge(TopK(s, TOP), signals, id);
  }

  lemma SortedLength(s: seq<Scored>)
    ensures |Sorted(s)| == |s|
  {
    assert |multiset(Sorted(s))| == |Sorted(s)| && |multiset(s)| == |s|;
  }

  lemma MoreThanTopDropsOne(s: seq<Scored>)
    requires OnePerObject(s) && |Positive(s)| > TOP
    ensures exists y :: y in s && y.score > 0.0 && y !in TopK(s, TOP)
  {
    var sorted := Sorted(Positive(s));
    SortedLength(Positive(s));
    RankedIsPositiveSorted(s);
    assert sorted[TOP] in sorted;
    assert forall i :: 0 <= i < TOP ==> sorted[i].objectId != sorted[TOP].objectId;
  }

  lemma UpToTopKeepsAll(s: seq<Scored>, x: Scored)
    requires OnePerObject(s) && |Positive(s)| <= TOP && x in s && x.score > 0.0
    ensures x in TopK(s, TOP)
  {
    RankedIsPositiveSorted(s);
    TopOfFew(s);
  }

  lemma TopOfFew(s: seq<Scored>)
    requires |Positive(s)| <= TOP
    ensures TopK(s, TOP) == Sorted(Positive(s))
  {
    SortedLength(Positive(s));
  }

  lemma NothingDroppedIff(s: seq<Scored>)
    requires OnePerObject(s)
    ensures (forall x :: x in s ==> x.score == 0.0 || x in TopK(s, TOP))
            <==> (forall x :: x in s ==> x.score >= 0.0) && |Positive(s)| <= TOP
  {
    TopKKeepsTheBest(s, TOP);
    if |Positive(s)| > TOP {
      MoreThanTopDropsOne(s);
    } else {
      forall x | x in s && x.score > 0.0 ensures x in TopK(s, TOP) {
        UpToTopKeepsAll(s, x);
      }
    }
  }

  ghost predicate Agrees(s: seq<Scored>, signals: seq<Scored>, id: int) {
    ScoreIn(UpsertAll(TopK(s, TOP), signals), id) == ScoreIn(UpsertAll(s, signals), id)
  }

  lemma MemberAgreesIff(s: seq<Scored>, signals: seq<Scored>, x: Scored)
    requires OnePerObject(s) && x in s
    ensures Agrees(s, signals, x.objectId) <==> x.score == 0.0 || x in TopK(s, TOP)
  {
    TopKKeepsTheBest(s, TOP);
    CutAgreesIffKept(s, signals, x.objectId);
    EntryOfMember(s, x);
    KeptEntry(s, x.objectId);
    if x in TopK(s, TOP) { EntryOfMember(TopK(s, TOP), x); }
  }

  /** The cut changes no merged score if and only if no event score is negative and at most 20 are positive. */
  lemma {:induction false} CutIsHarmlessIff(s: seq<Scored>, signals: seq<Scored>)
    requires OnePerObject(s)
    ensures (forall id :: Agrees(s, signals, id))
            <==> (forall x :: x in s ==> x.score >= 0.0) && |Positive(s)| <= TOP
  {
    NothingDroppedIff(s);
    forall x | x in s ensures Agrees(s, signals, x.objectId) <==> x.score == 0.0 || x in TopK(s, TOP) {
      MemberAgreesIff(s, signals, x);
    }
    forall id | Entry(s, id).None? || Agrees(s, signals, id) ensures Agrees(s, signals, id) {
      CutAgreesIffKept(s, signals, id);
    }
    assert forall id :: Entry(s, id).Some? ==> Entry(s, id).value in s && Entry(s, id).value.objectId == id;
  }

  /** In a ranking of positive scores, whatever stands beyond the top loses its event score. */
  lemma {:induction false} BeyondTopIsForgotten(s: seq<Scored>, signals: seq<Scored>, k: nat)
    requires OnePerObject(s) && Descending(s) && TOP <= k < |s|
    requires forall i :: 0 <= i < |s| ==> s[i].score > 0.0
    ensures ScoreIn(UpsertAll(TopK(s, TOP), signals), s[k].objectId) == TotalOf(signals, s[k].objectId)
    ensures ScoreIn(UpsertAll(s, signals), s[k].objectId) == s[k].score + TotalOf(signals, s[k].objectId)
  {
    var id := s[k].objectId;
    TopOfRanking(s);
    EntryOfMember(s, s[k]);
    EntryOfNone(TopK(s, TOP), id);
    TopKKeepsTheBest(s, TOP);
    ScoreAfterMerge(s, signals, id);
    ScoreAfterMerge(TopK(s, TOP), signals, id);
  }

  lemma EntryOfNone(s: seq<Scored>, id: int)
    requires forall i :: 0 <= i < |s| ==> s[i].objectId != id
    ensures Entry(s, id).None?
  {
  }

  lemma TopOfRanking(s: seq<Scored>)
    requires Descending(s) && |s| >= TOP && forall i :: 0 <= i < |s| ==> s[i].score > 0.0
    ensures TopK(s, TOP) == s[..TOP]
  {
    PositiveStays(s);
    SortedStays(s);
  }

  /** Twenty-one objects with scores 21 down to 1. */
  function TwentyOne(): (s: seq<Scored>)
    ensures |s| == TOP + 1 && OnePerObject(s) && Descending(s)
    ensures forall i :: 0 <= i < |s| ==> s[i] == Scored(i, 0, (TOP + 1 - i) as real) && s[i].score > 0.0
  {
    seq(TOP + 1, i requires 0 <= i < TOP + 1 => Scored(i, 0, (TOP + 1 - i) as real))
  }

  /** The last of them comes back with its signal alone. */
  lemma CutForgetsRank21(signal: real)
    ensures var signals := [Scored(TOP, 0, signal)];
            && ScoreIn(UpsertAll(TwentyOne(), signals), TOP) == 1.0 + signal
            && ScoreIn(UpsertAll(TopK(TwentyOne(), TOP), signals), TOP) == signal
  {
    var signals := [Scored(TOP, 0, signal)];
    BeyondTopIsForgotten(TwentyOne(), signals, TOP);
    assert signals[1..] == [] && TotalOf(signals, TOP) == signal;
  }

  /**
   The penalty instance of that: a variant removed from the cart is dropped
   with its negative score, so any positive order signal brings it back although the
   two together are negative.
   */
  lemma CutBeforeMergeForgetsPenalties(id: int, at: int, penalty: real, signal: real)
    requires penalty <= 0.0 < signal
    ensures var events, signals := [Scored(id, at, penalty)], [Scored(id, at, signal)];
            && TopK(UpsertAll(TopK(UpsertAll([], events), TOP), signals), TOP) == signals
            && (TopK(UpsertAll([], events + signals), TOP) == [] <==> penalty + signal <= 0.0)
  {
    var events, signals := [Scored(id, at, penalty)], [Scored(id, at, signal)];
    UpsertAllAppend([], events, signals);
    assert events[1..] == [] && signals[1..] == [];
    assert UpsertAll([], events) == events && UpsertAll([], signals) == signals;
    assert Positive(events) == [] && Positive(signals) == signals;
    assert Sorted(signals) == signals;
    var both := UpsertAll(events, signals);
    assert both == [Scored(id, at, penalty + signal)] && both[1..] == [];
    assert Positive(both) == if penalty + signal > 0.0 then both else [];
  }
}
