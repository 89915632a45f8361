/**
 The Redis half of checkout: counters `available:<variant>` are seeded with SET NX,
 decremented for all items of a request by one atomic Lua script, and only
 afterwards checked.  On a shortage the request puts back the first failing key,
 and nothing else, before it leaves for the database path.

 Requests interleave freely: a run is any list of seed, decrement and settle steps.
 */
module RedisReservation {
  import opened Common

  type Counters = map<int, int>

  function SetNx(c: Counters, key: int, value: int): Counters {
    if key in c then c else c[key := value]
  }

  /** INCRBY and DECRBY treat a missing counter as zero. */
  function IncrBy(c: Counters, key: int, quantity: int): Counters {
    c[key := Get(c, key) + quantity]
  }

  /** The Lua script: one DECRBY after the other. */
  function DecrAll(c: Counters, items: seq<Item>): Counters
    decreases |items|
  {
    if items == [] then c
    else DecrAll(IncrBy(c, items[0].variantId, -items[0].quantity), items[1..])
  }

  function DecrResults(c: Counters, items: seq<Item>): seq<int>
    decreases |items|
  {
    if items == [] then []
    else
      var c' := IncrBy(c, items[0].variantId, -items[0].quantity);
      [Get(c', items[0].variantId)] + DecrResults(c', items[1..])
  }

  /** The first key that the script drove below zero. */
  function FirstShortage(results: seq<int>, from: nat): (r: Option<nat>)
    requires from <= |results|
    ensures r.None? ==> forall i :: from <= i < |results| ==> results[i] >= 0
    ensures r.Some? ==> from <= r.value < |results| && results[r.value] < 0
    ensures r.Some? ==> forall i :: from <= i < r.value ==> results[i] >= 0
    decreases |results| - from
  {
    if from == |results| then None
    else if results[from] < 0 then Some(from)
    else FirstShortage(results, from + 1)
  }

  lemma {:induction false} DecrAllPointwise(c: Counters, items: seq<Item>, v: int)
    ensures Get(DecrAll(c, items), v) == Get(c, v) - QuantityOf(items, v)
    ensures v in DecrAll(c, items) <==> v in c || exists i :: 0 <= i < |items| && items[i].variantId == v
    decreases |items|
  {
    if items != [] {
      DecrAllPointwise(IncrBy(c, items[0].variantId, -items[0].quantity), items[1..], v);
      assert forall i :: 1 <= i < |items| ==> items[i] == items[1..][i - 1];
    }
  }

  lemma {:induction false} DecrResultsPointwise(c: Counters, items: seq<Item>, k: nat)
    requires DistinctVariants(items) && k < |items|
    ensures |DecrResults(c, items)| == |items|
    ensures DecrResults(c, items)[k] == Get(c, items[k].variantId) - items[k].quantity
    decreases |items|
  {
    var c' := IncrBy(c, items[0].variantId, -items[0].quantity);
    if |items| > 1 {
      DecrResultsPointwise(c', items[1..], if k == 0 then 0 else k - 1);
    }
  }

  // ---- the client and the uninterrupted checkout ---------------------------

  class Redis {
    var counters: Counters

    constructor ()
      ensures counters == map[]
    {
      counters := map[];
    }

    method SetNX(key: int, value: int)
      modifies this
      ensures counters == SetNx(old(counters), key, value)
      ensures counters == if key in old(counters) then old(counters) else old(counters)[key := value]
    {
      if key !in counters {
        counters := counters[key := value];
      }
    }

    method IncrementBy(key: int, quantity: int)
      modifies this
      ensures counters == IncrBy(old(counters), key, quantity)
      ensures counters == old(counters)[key := (if key in old(counters) then old(counters)[key] else 0) + quantity]
    {
      var current := if key in counters then counters[key] else 0;
      counters := counters[key := current + quantity];
    }

    method EvalDecrBy(items: seq<Item>) returns (result: seq<int>)
      modifies this
      ensures counters == DecrAll(old(counters), items)
      ensures result == DecrResults(old(counters), items)
    {
      result := [];
      var i := 0;
      while i < |items|
        invariant 0 <= i <= |items|
        invariant DecrAll(counters, items[i..]) == DecrAll(old(counters), items)
        invariant result + DecrResults(counters, items[i..]) == DecrResults(old(counters), items)
      {
        assert items[i..][1..] == items[i + 1..];
        IncrementBy(items[i].variantId, -items[i].quantity);
        result := result + [counters[items[i].variantId]];
        i := i + 1;
      }
    }
  }

  function SeedAll(c: Counters, available: seq<(int, int)>): Counters
    decreases |available|
  {
    if available == [] then c
    else SeedAll(SetNx(c, available[0].0, available[0].1), available[1..])
  }

  /** Item `k` is the first that does not fit; its counter is back, the others stay decremented. */
  ghost predicate KeptAllBut(before: Counters, after: Counters, items: seq<Item>, k: nat)
    requires k < |items|
  {
    && Get(before, items[k].variantId) < items[k].quantity
    && (forall i :: 0 <= i < k ==> Get(before, items[i].variantId) >= items[i].quantity)
    && Get(after, items[k].variantId) == Get(before, items[k].variantId)
    && (forall v :: v != items[k].variantId ==> Get(after, v) == Get(before, v) - QuantityOf(items, v))
  }

  /**
   The Redis section of `createCheckout` when nothing else runs in between.
   A grant happens exactly when every item fits; a refusal keeps every decrement
   except the one on the first short key.
   */
  method ReserveInRedis(redis: Redis, available: seq<(int, int)>, items: seq<Item>)
    returns (granted: bool)
    requires DistinctVariants(items)
    modifies redis
    ensures var c := SeedAll(old(redis.counters), available);
            granted <==> forall i :: 0 <= i < |items| ==> Get(c, items[i].variantId) >= items[i].quantity
    ensures var c := SeedAll(old(redis.counters), available);
            granted ==> forall v :: Get(redis.counters, v) == Get(c, v) - QuantityOf(items, v)
    ensures var c := SeedAll(old(redis.counters), available);
            !granted ==> (exists k :: 0 <= k < |items| && KeptAllBut(c, redis.counters, items, k))
  {
    var i := 0;
    while i < |available|
      invariant 0 <= i <= |available|
      invariant SeedAll(redis.counters, available[i..]) == SeedAll(old(redis.counters), available)
    {
      assert available[i..][1..] == available[i + 1..];
      redis.SetNX(available[i].0, available[i].1);
      i := i + 1;
    }
    ghost var c := redis.counters;
    assert available[i..] == [];
    var result := redis.EvalDecrBy(items);
    forall k | 0 <= k < |items|
      ensures |result| == |items| && result[k] == Get(c, items[k].variantId) - items[k].quantity
    {
      DecrResultsPointwise(c, items, k);
    }
    forall v ensures Get(redis.counters, v) == Get(c, v) - QuantityOf(items, v) {
      DecrAllPointwise(c, items, v);
    }
    assert items == [] ==> result == [];
    var count := 0;
    while count < |items|
      invariant 0 <= count <= |items|
      invariant redis.counters == DecrAll(c, items)
      invariant forall j :: 0 <= j < count ==> result[j] >= 0
    {
      if result[count] < 0 {
        redis.IncrementBy(items[count].variantId, items[count].quantity);
        QuantityAt(items, count);
        assert KeptAllBut(c, redis.counters, items, count);
        return false;
      }
      count := count + 1;
    }
    return true;
  }

  // ---- interleaved requests ------------------------------------------------

  datatype Phase = Decremented | Granted | Restored(key: nat)

  /** A request after its Lua script ran; `results` are the script's replies. */
  datatype Request = Request(items: seq<Item>, results: seq<int>, phase: Phase)

  /** `seeds` remembers the value each counter started its life with. */
  datatype State = State(counters: Counters, seeds: Counters, requests: seq<Request>)

  datatype Event =
    | Seed(variantId: int, available: int)
    | Decrement(items: seq<Item>)
    | Settle(request: nat)

  const INIT := State(map[], map[], [])

  /** What the length check of checkout lets through, with positive quantities. */
  ghost predicate Admissible(e: Event) {
    e.Decrement? ==> GoodItems(e.items)
  }

  function SettleRequest(s: State, k: nat): State
    requires k < |s.requests| && |s.requests[k].results| == |s.requests[k].items|
  {
    var r := s.requests[k];
    match FirstShortage(r.results, 0)
    case None => s.(requests := s.requests[k := r.(phase := Granted)])
    case Some(j) =>
      s.(counters := IncrBy(s.counters, r.items[j].variantId, r.items[j].quantity),
         requests := s.requests[k := r.(phase := Restored(j))])
  }

  function Next(s: State, e: Event): State {
    match e
    case Seed(v, a) =>
      State(SetNx(s.counters, v, a), if v in s.counters then s.seeds else s.seeds[v := a], s.requests)
    case Decrement(items) =>
      var c := DecrAll(s.counters, items);
      State(c,
            map v | v in c :: if v in s.counters then Get(s.seeds, v) else 0,
            s.requests + [Request(items, DecrResults(s.counters, items), Decremented)])
    case Settle(k) =>
      if k < |s.requests| && s.requests[k].phase.Decremented?
         && |s.requests[k].results| == |s.requests[k].items|
      then SettleRequest(s, k) else s
  }

  function Run(s: State, events: seq<Event>): State
    decreases |events|
  {
    if events == [] then s else Run(Next(s, events[0]), events[1..])
  }

  // ---- what a request holds, won and was granted ---------------------------

  /** Units of `v` granted to the caller. */
  function GrantedOf(v: int): Request -> int {
    (r: Request) => if r.phase.Granted? then QuantityOf(r.items, v) else 0
  }

  /** Units of `v` whose decrement left the counter at zero or above. */
  function WonOf(v: int): Request -> int {
    (r: Request) => WonUnits(r.items, r.results, v)
  }

  function WonUnits(items: seq<Item>, results: seq<int>, v: int): int {
    if items == [] || results == [] then 0
    else (if items[0].variantId == v && results[0] >= 0 then items[0].quantity else 0)
         + WonUnits(items[1..], results[1..], v)
  }

  /** Units of `v` that the request has taken out of the counter and not put back. */
  function HeldOf(v: int): Request -> int {
    (r: Request) =>
      QuantityOf(r.items, v)
      - (if r.phase.Restored? && r.phase.key < |r.items| && r.items[r.phase.key].variantId == v
         then r.items[r.phase.key].quantity else 0)
  }

  /** Units of `v` held by a request that was refused: nothing will return them. */
  function LeakedOf(v: int): Request -> int {
    (r: Request) => if r.phase.Restored? then HeldOf(v)(r) else 0
  }

  /** Units of `v` held by a request that has not been checked yet. */
  function InFlightOf(v: int): Request -> int {
    (r: Request) => if r.phase.Decremented? then QuantityOf(r.items, v) else 0
  }

  ghost predicate WellFormed(r: Request) {
    && GoodItems(r.items) && |r.results| == |r.items|
    && (r.phase.Granted? ==> forall i :: 0 <= i < |r.results| ==> r.results[i] >= 0)
    && (r.phase.Restored? ==> r.phase.key < |r.items| && r.results[r.phase.key] < 0)
  }

  lemma {:induction false} WonAt(items: seq<Item>, results: seq<int>, v: int)
    requires GoodItems(items) && |results| == |items|
    ensures 0 <= WonUnits(items, results, v) <= QuantityOf(items, v)
    ensures WonUnits(items, results, v) == 0 || WonUnits(items, results, v) == QuantityOf(items, v)
    ensures (forall i :: 0 <= i < |items| && items[i].variantId == v ==> results[i] >= 0)
            ==> WonUnits(items, results, v) == QuantityOf(items, v)
    ensures (exists i :: 0 <= i < |items| && items[i].variantId == v && results[i] < 0)
            ==> WonUnits(items, results, v) == 0
  {
    if items != [] {
      WonAt(items[1..], results[1..], v);
      assert forall i :: 1 <= i < |items| ==> items[i] == items[1..][i - 1] && results[i] == results[1..][i - 1];
      if items[0].variantId == v {
        QuantityAbsent(items[1..], v);
      }
    }
  }

  /** A request never holds fewer units than it won. */
  lemma HeldCoversWon(r: Request, v: int)
    requires WellFormed(r)
    ensures 0 <= GrantedOf(v)(r) <= WonOf(v)(r) <= HeldOf(v)(r)
  {
    WonAt(r.items, r.results, v);
    if r.phase.Restored? && r.items[r.phase.key].variantId == v {
      QuantityAt(r.items, r.phase.key);
    }
  }

  function Max0(x: int): int { if x < 0 then 0 else x }

  ghost predicate Inv(s: State) {
    && s.counters.Keys == s.seeds.Keys
    && (forall r :: r in s.requests ==> WellFormed(r))
    && (forall r, i :: r in s.requests && 0 <= i < |r.items| ==> r.items[i].variantId in s.counters)
    && (forall v :: Balanced(s, v))
  }

  /** The counter is its seed less what requests hold, and wins never exceed the seed. */
  ghost predicate Balanced(s: State, v: int) {
    && Get(s.counters, v) == Get(s.seeds, v) - Sum(HeldOf(v), s.requests)
    && Sum(WonOf(v), s.requests) <= Max0(Get(s.seeds, v))
  }

  lemma {:induction false} UntouchedHoldsNothing(requests: seq<Request>, v: int)
    requires forall r, i :: r in requests && 0 <= i < |r.items| ==> r.items[i].variantId != v
    requires forall r :: r in requests ==> WellFormed(r)
    ensures Sum(HeldOf(v), requests) == 0 && Sum(WonOf(v), requests) == 0
  {
    if requests != [] {
      assert requests[0] in requests;
      forall r, i | r in requests[1..] && 0 <= i < |r.items| ensures r.items[i].variantId != v {
        assert r in requests;
      }
      UntouchedHoldsNothing(requests[1..], v);
      QuantityAbsent(requests[0].items, v);
      HeldCoversWon(requests[0], v);
    }
  }

  lemma SeedKeepsInv(s: State, v: int, a: int)
    requires Inv(s)
    ensures Inv(Next(s, Seed(v, a)))
  {
    var s' := Next(s, Seed(v, a));
    forall u ensures Balanced(s', u) {
      assert Balanced(s, u);
      if v !in s.counters && u == v {
        UntouchedHoldsNothing(s.requests, v);
      }
    }
  }

  lemma DecrementKeepsBalance(s: State, items: seq<Item>, v: int)
    requires Inv(s) && Admissible(Decrement(items))
    ensures Balanced(Next(s, Decrement(items)), v)
    ensures WellFormed(Request(items, DecrResults(s.counters, items), Decremented))
  {
    var s' := Next(s, Decrement(items));
    var r := Request(items, DecrResults(s.counters, items), Decremented);
    assert Balanced(s, v);
    SumAppend(HeldOf(v), s.requests, r);
    SumAppend(WonOf(v), s.requests, r);
    DecrAllPointwise(s.counters, items, v);
    forall k | 0 <= k < |items|
      ensures |r.results| == |items| && r.results[k] == Get(s.counters, items[k].variantId) - items[k].quantity
    {
      DecrResultsPointwise(s.counters, items, k);
    }
    WonAt(items, r.results, v);
    if WonOf(v)(r) != 0 {
      // the script left the counter of v at zero or above
      if k :| 0 <= k < |items| && items[k].variantId == v {
        QuantityAt(items, k);
        assert Get(s'.counters, v) == r.results[k] >= 0;
      } else {
        QuantityAbsent(items, v);
      }
      forall q | q in s'.requests ensures WonOf(v)(q) <= HeldOf(v)(q) {
        HeldCoversWon(q, v);
      }
      SumLeq(WonOf(v), HeldOf(v), s'.requests);
    }
  }

  lemma DecrementKeepsInv(s: State, items: seq<Item>)
    requires Inv(s) && Admissible(Decrement(items))
    ensures Inv(Next(s, Decrement(items)))
  {
    var s' := Next(s, Decrement(items));
    forall v ensures Balanced(s', v) {
      DecrementKeepsBalance(s, items, v);
    }
    DecrementKeepsBalance(s, items, 0);
    forall v
      ensures v in s.counters || (exists i :: 0 <= i < |items| && items[i].variantId == v) <==> v in s'.counters
    {
      DecrAllPointwise(s.counters, items, v);
    }
  }

  lemma SettleKeepsInv(s: State, k: nat)
    requires Inv(s)
    ensures Inv(Next(s, Settle(k)))
  {
    var s' := Next(s, Settle(k));
    if k < |s.requests| && s.requests[k].phase.Decremented? {
      var r, r' := s.requests[k], s'.requests[k];
      assert r in s.requests && WellFormed(r) && WellFormed(r');
      forall q, i | q in s'.requests && 0 <= i < |q.items| ensures q.items[i].variantId in s'.counters {
        assert q in s.requests || q == r';
      }
      assert s'.counters.Keys == s.counters.Keys;
      forall v ensures Balanced(s', v) {
        assert Balanced(s, v);
        SumUpdate(HeldOf(v), s.requests, k, r');
        SumUpdate(WonOf(v), s.requests, k, r');
      }
    }
  }

  lemma NextKeepsInv(s: State, e: Event)
    requires Inv(s) && Admissible(e)
    ensures Inv(Next(s, e))
  {
    match e
    case Seed(v, a) => SeedKeepsInv(s, v, a);
    case Decrement(items) => DecrementKeepsInv(s, items);
    case Settle(k) => SettleKeepsInv(s, k);
  }

  lemma {:induction false} RunKeepsInv(s: State, events: seq<Event>)
    requires Inv(s) && forall i :: 0 <= i < |events| ==> Admissible(events[i])
    ensures Inv(Run(s, events))
    decreases |events|
  {
    if events != [] {
      NextKeepsInv(s, events[0]);
      RunKeepsInv(Next(s, events[0]), events[1..]);
    }
  }

  lemma {:induction false} GrantedWithinSeed(s: State, v: int)
    requires Inv(s)
    ensures Sum(GrantedOf(v), s.requests) <= Max0(Get(s.seeds, v))
  {
    assert Balanced(s, v);
    forall r | r in s.requests ensures GrantedOf(v)(r) <= WonOf(v)(r) {
      HeldCoversWon(r, v);
    }
    SumLeq(GrantedOf(v), WonOf(v), s.requests);
  }

  /**
   No oversell: in every interleaving of any number of multi-item checkouts, the
   units of a variant granted through Redis never exceed the value its counter was
   seeded with (nothing at all is granted from a negative seed).
   */
  lemma {:induction false} NoOversell(events: seq<Event>, v: int)
    requires forall i :: 0 <= i < |events| ==> Admissible(events[i])
    ensures var s := Run(INIT, events);
            Sum(GrantedOf(v), s.requests) <= Max0(Get(s.seeds, v))
  {
    RunKeepsInv(INIT, events);
    GrantedWithinSeed(Run(INIT, events), v);
  }

  lemma {:induction false} HeldSplits(requests: seq<Request>, v: int)
    ensures Sum(HeldOf(v), requests)
            == Sum(GrantedOf(v), requests) + Sum(InFlightOf(v), requests) + Sum(LeakedOf(v), requests)
  {
    if requests != [] {
      HeldSplits(requests[1..], v);
    }
  }

  /** Where every seeded unit is: in the counter, granted, in flight, or leaked by a refusal. */
  lemma {:induction false} CounterLedger(events: seq<Event>, v: int)
    requires forall i :: 0 <= i < |events| ==> Admissible(events[i])
    ensures var s := Run(INIT, events);
            Get(s.seeds, v) == Get(s.counters, v) + Sum(GrantedOf(v), s.requests)
                               + Sum(InFlightOf(v), s.requests) + Sum(LeakedOf(v), s.requests)
  {
    RunKeepsInv(INIT, events);
    assert Balanced(Run(INIT, events), v);
    HeldSplits(Run(INIT, events).requests, v);
  }

  // ---- a refused checkout is not neutral -----------------------------------

  /**
   A refused request leaves the counters as it found them if and only if it asked
   for a single variant; every further item stays decremented.
   */
  lemma RefusalIsNeutralIffSingleItem(s: State, items: seq<Item>)
    requires Inv(s) && Admissible(Decrement(items))
    requires forall i :: 0 <= i < |items| ==> items[i].variantId in s.counters
    requires exists i :: 0 <= i < |items| && Get(s.counters, items[i].variantId) < items[i].quantity
    ensures var s' := Run(s, [Decrement(items), Settle(|s.requests|)]);
            |s'.requests| == |s.requests| + 1
            && s'.requests[|s.requests|].phase.Restored? && (s'.counters == s.counters <==> |items| == 1)
  {
    var s1 := Next(s, Decrement(items));
    var s2 := Next(s1, Settle(|s.requests|));
    assert [Decrement(items), Settle(|s.requests|)][1..] == [Settle(|s.requests|)];
    assert Run(s, [Decrement(items), Settle(|s.requests|)]) == Run(s1, [Settle(|s.requests|)]) == s2;
    forall k | 0 <= k < |items|
      ensures |DecrResults(s.counters, items)| == |items|
      ensures DecrResults(s.counters, items)[k] == Get(s.counters, items[k].variantId) - items[k].quantity
    {
      DecrResultsPointwise(s.counters, items, k);
    }
    var j := FirstShortage(DecrResults(s.counters, items), 0).value;
    forall v ensures Get(s1.counters, v) == Get(s.counters, v) - QuantityOf(items, v)
             ensures v in s1.counters <==> v in s.counters {
      DecrAllPointwise(s.counters, items, v);
    }
    QuantityAt(items, j);
    if |items| == 1 {
      assert items[0].variantId in s1.counters;
      forall v | v in s.counters ensures s2.counters[v] == s.counters[v] {
        if v != items[0].variantId {
          QuantityAbsent(items, v);
        }
        assert Get(s1.counters, v) == s1.counters[v];
      }
      forall v ensures v in s2.counters <==> v in s.counters {
        assert v in s1.counters <==> v in s.counters;
      }
    } else {
      var i := if j == 0 then 1 else 0;
      QuantityAt(items, i);
      assert items[i].variantId != items[j].variantId;
      assert Get(s2.counters, items[i].variantId) < Get(s.counters, items[i].variantId);
    }
  }
}
