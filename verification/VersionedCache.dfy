/**
 The versioned cache: values live under a key that carries a version number, writers
 increment the version after they commit, and nothing is ever deleted except by its
 time to live.
 */
module VersionedCache {
  import opened Common
  import opened Decimal

  const PREFIX := "cache:version"

  function VersionKey(namespace: string): string {
    PREFIX + ":" + namespace + ":version"
  }

  function DataKey(namespace: string, version: nat): string {
    PREFIX + ":data:" + namespace + ":v:" + Print(version)
  }

  /** The two keys of a namespace, letter by letter. */
  lemma KeyTexts()
    ensures VersionKey("book:7") == "cache:version:book:7:version"
    ensures DataKey("book:7", 3) == "cache:version:data:book:7:v:3"
  {
    assert Print(3) == "3";
  }

  /** What a Redis key can hold here: a version number or a serialized value. */
  datatype Cell<V> = Version(number: nat) | Data(value: V)

  // ---- keys do not collide ---------------------------------------------------

  /** Namespace and version can be read back from a data key, whatever the namespace is. */
  lemma DataKeyInjective(ns1: string, v1: nat, ns2: string, v2: nat)
    requires DataKey(ns1, v1) == DataKey(ns2, v2)
    ensures ns1 == ns2 && v1 == v2
  {
    var a, b := PREFIX + ":data:" + ns1 + ":v", PREFIX + ":data:" + ns2 + ":v";
    assert DataKey(ns1, v1) == a + [':'] + Print(v1);
    assert DataKey(ns2, v2) == b + [':'] + Print(v2);
    SplitAtLast(a, Print(v1), b, Print(v2), ':');
    PrintInjective(v1, v2);
    assert ns1 == a[|PREFIX + ":data:"|..|a| - 2];
    assert ns2 == b[|PREFIX + ":data:"|..|b| - 2];
  }

  lemma VersionKeyInjective(ns1: string, ns2: string)
    requires VersionKey(ns1) == VersionKey(ns2)
    ensures ns1 == ns2
  {
    var k1, k2 := VersionKey(ns1), VersionKey(ns2);
    assert ns1 == k1[|PREFIX| + 1..|k1| - 8];
    assert ns2 == k2[|PREFIX| + 1..|k2| - 8];
  }

  lemma VersionKeyIsNoDataKey(ns1: string, ns2: string, v: nat)
    ensures VersionKey(ns1) != DataKey(ns2, v)
  {
    var k, d := VersionKey(ns1), DataKey(ns2, v);
    assert k[|k| - 1] == 'n';
    assert d[|d| - 1] == Print(v)[|Print(v)| - 1];
  }

  // ---- the service, uninterrupted -----------------------------------------------

  /** The version a reader sees; a missing key counts as, and becomes, version 1. */
  function VersionIn<V>(store: map<string, Cell<V>>, ns: string): nat {
    if VersionKey(ns) in store && store[VersionKey(ns)].Version? then store[VersionKey(ns)].number else 1
  }

  function Cached<V>(store: map<string, Cell<V>>, ns: string): Option<V> {
    var key := DataKey(ns, VersionIn(store, ns));
    if key in store && store[key].Data? then Some(store[key].value) else None
  }

  /** Version keys hold numbers. */
  ghost predicate Typed<V>(store: map<string, Cell<V>>) {
    forall ns :: VersionKey(ns) in store ==> store[VersionKey(ns)].Version?
  }

  class CacheVersionService<V(==)> {
    var store: map<string, Cell<V>>

    constructor ()
      ensures store == map[]
    {
      store := map[];
    }

    method GetVersionKey(ns: string) returns (version: nat)
      requires Typed(store)
      modifies this
      ensures Typed(store) && version == VersionIn(old(store), ns)
      ensures store == old(store)[VersionKey(ns) := Version(version)]
      ensures VersionKey(ns) !in old(store) ==> version == 1
      ensures VersionKey(ns) in old(store) ==> store == old(store) && old(store)[VersionKey(ns)] == Version(version)
    {
      var key := VersionKey(ns);
      if key !in store {
        store := store[key := Version(1)];
        return 1;
      }
      version := store[key].number;
      assert store == store[key := Version(version)];
    }

    /**
     A hit returns the cached value; a miss returns what the factory made and caches
     it.  Either way the namespace then has that value, and no other namespace changes.
     */
    method WithCache(ns: string, made: V) returns (value: V)
      requires Typed(store)
      modifies this
      ensures value == (match Cached(old(store), ns) case Some(v) => v case None => made)
      ensures store == old(store)[VersionKey(ns) := Version(VersionIn(old(store), ns))]
                                 [DataKey(ns, VersionIn(old(store), ns)) := Data(value)]
      ensures Typed(store) && Cached(store, ns) == Some(value)
      ensures VersionIn(store, ns) == VersionIn(old(store), ns)
      ensures forall other :: other != ns ==>
        VersionIn(store, other) == VersionIn(old(store), other) && Cached(store, other) == Cached(old(store), other)
    {
      var version := GetVersionKey(ns);
      var key := DataKey(ns, version);
      forall other ensures VersionKey(other) != key {
        VersionKeyIsNoDataKey(other, ns, version);
      }
      forall other, v | other != ns
        ensures DataKey(other, v) != VersionKey(ns) && DataKey(other, v) != key
        ensures VersionKey(other) != VersionKey(ns) {
        VersionKeyIsNoDataKey(ns, other, v);
        if DataKey(other, v) == key { DataKeyInjective(other, v, ns, version); }
        if VersionKey(other) == VersionKey(ns) { VersionKeyInjective(other, ns); }
      }
      if key in store && store[key].Data? {
        assert store == store[key := Data(store[key].value)];
        return store[key].value;
      }
      value := made;
      store := store[key := Data(value)];
    }

    /** INCR: a missing version key becomes 1. */
    method BumpVersion(ns: string)
      requires Typed(store)
      modifies this
      ensures Typed(store)
      ensures store == old(store)[VersionKey(ns) :=
        Version(if VersionKey(ns) in old(store) then VersionIn(old(store), ns) + 1 else 1)]
      ensures forall other :: other != ns ==>
        VersionIn(store, other) == VersionIn(old(store), other) && Cached(store, other) == Cached(old(store), other)
    {
      forall other, v ensures DataKey(other, v) != VersionKey(ns) {
        VersionKeyIsNoDataKey(ns, other, v);
      }
      forall other | other != ns ensures VersionKey(other) != VersionKey(ns) {
        if VersionKey(other) == VersionKey(ns) { VersionKeyInjective(other, ns); }
      }
      var key := VersionKey(ns);
      store := store[key := Version(if key in store then store[key].number + 1 else 1)];
    }
  }

  // ---- interleaved readers and writers of one namespace --------------------------

  /** A cached value, stamped with the database state it was computed from. */
  datatype Entry<V> = Entry(value: V, stamp: nat)

  /**
   A `withCache` call between its awaits.  `seen` counts the writers (by commit order)
   and `bumps` the increments that had happened when the call read its version.
   */
  datatype Call<V> =
    | Begun(version: nat, seen: set<nat>, bumps: nat)
    | Missed(version: nat, seen: set<nat>, bumps: nat)
    | Fetched(version: nat, seen: set<nat>, bumps: nat, entry: Entry<V>)
    | Returned(version: nat, seen: set<nat>, bumps: nat, entry: Entry<V>)

  /**
   `history` lists the committed database states; writer `u` made `history[u + 1]` and
   `bumpedTo[u]` is the version its increment produced, once it has run.
   */
  datatype State<V> = State(
    history: seq<V>,
    bumpedTo: seq<Option<nat>>,
    version: nat,
    store: map<nat, Entry<V>>,
    calls: seq<Call<V>>)

  datatype Event<V> =
    | Commit(value: V)
    | Bump(writer: nat)
    | Begin
    | Lookup(call: nat)
    | Fetch(call: nat)
    | Store(call: nat)
    | Expire(version: nat)

  function Bumped<V>(s: State<V>): set<nat> {
    set u: nat | u < |s.bumpedTo| && s.bumpedTo[u].Some?
  }

  function Next<V>(s: State<V>, e: Event<V>): State<V>
    requires s.history != []
  {
    match e
    case Commit(value) => s.(history := s.history + [value], bumpedTo := s.bumpedTo + [None])
    case Bump(u) =>
      if u < |s.bumpedTo| && s.bumpedTo[u].None?
      then s.(version := s.version + 1, bumpedTo := s.bumpedTo[u := Some(s.version + 1)]) else s
    case Begin => s.(calls := s.calls + [Begun(s.version, Bumped(s), |Bumped(s)|)])
    case Lookup(c) =>
      if c < |s.calls| && s.calls[c].Begun?
      then
        var call := s.calls[c];
        s.(calls := s.calls[c :=
          if call.version in s.store then Returned(call.version, call.seen, call.bumps, s.store[call.version])
          else Missed(call.version, call.seen, call.bumps)])
      else s
    case Fetch(c) =>
      if c < |s.calls| && s.calls[c].Missed?
      then
        var call, now := s.calls[c], |s.history| - 1;
        s.(calls := s.calls[c := Fetched(call.version, call.seen, call.bumps, Entry(s.history[now], now))])
      else s
    case Store(c) =>
      if c < |s.calls| && s.calls[c].Fetched?
      then
        var call := s.calls[c];
        s.(store := s.store[call.version := call.entry],
           calls := s.calls[c := Returned(call.version, call.seen, call.bumps, call.entry)])
      else s
    case Expire(v) => s.(store := s.store - {v})
  }

  /** An entry for `version` is a genuine database state that every bump up to it precedes. */
  ghost predicate Fresh<V>(s: State<V>, first: nat, version: nat, entry: Entry<V>) {
    && entry.stamp < |s.history| && entry.value == s.history[entry.stamp]
    && version - first <= entry.stamp
    && forall u :: 0 <= u < |s.bumpedTo| && s.bumpedTo[u].Some? && s.bumpedTo[u].value <= version ==> u < entry.stamp
  }

  ghost predicate CallOk<V>(s: State<V>, first: nat, c: Call<V>) {
    && c.version <= s.version && c.bumps == c.version - first
    && (forall u :: u in c.seen ==> u < |s.bumpedTo| && s.bumpedTo[u].Some? && s.bumpedTo[u].value <= c.version)
    && (c.Fetched? || c.Returned? ==> Fresh(s, first, c.version, c.entry))
  }

  /** `first` is the version the key was initialised with. */
  ghost predicate Inv<V>(s: State<V>, first: nat) {
    && |s.history| == |s.bumpedTo| + 1
    && s.version == first + |Bumped(s)|
    && (forall u :: 0 <= u < |s.bumpedTo| && s.bumpedTo[u].Some? ==> s.bumpedTo[u].value <= s.version)
    && (forall v :: v in s.store ==> v <= s.version && Fresh(s, first, v, s.store[v]))
    && (forall i :: 0 <= i < |s.calls| ==> CallOk(s, first, s.calls[i]))
  }

  lemma {:induction false} SubsetOfRange(t: set<nat>, n: nat)
    requires forall u :: u in t ==> u < n
    ensures |t| <= n
  {
    if n > 0 {
      SubsetOfRange(t - {n - 1}, n - 1);
      if n - 1 in t {
        assert t == (t - {n - 1}) + {n - 1};
      } else {
        assert t == t - {n - 1};
      }
    } else {
      assert t == {};
    }
  }

  /** What is fresh stays fresh: later bumps produce later versions. */
  lemma FreshStays<V>(s: State<V>, s': State<V>, first: nat, version: nat, entry: Entry<V>)
    requires Fresh(s, first, version, entry) && version <= s.version
    requires s.history <= s'.history && |s.bumpedTo| <= |s'.bumpedTo|
    requires forall u :: 0 <= u < |s'.bumpedTo| && s'.bumpedTo[u].Some? ==>
      (u < |s.bumpedTo| && s'.bumpedTo[u] == s.bumpedTo[u]) || s'.bumpedTo[u].value > s.version
    ensures Fresh(s', first, version, entry)
  {
  }

  lemma BumpKeepsInv<V>(s: State<V>, first: nat, u: nat)
    requires Inv(s, first)
    ensures Inv(Next(s, Bump(u)), first)
  {
    var s' := Next(s, Bump(u));
    if u < |s.bumpedTo| && s.bumpedTo[u].None? {
      assert Bumped(s') == Bumped(s) + {u};
      forall v | v in s'.store ensures Fresh(s', first, v, s'.store[v]) {
        FreshStays(s, s', first, v, s.store[v]);
      }
      forall i | 0 <= i < |s'.calls| ensures CallOk(s', first, s'.calls[i]) {
        assert CallOk(s, first, s.calls[i]);
        if s.calls[i].Fetched? || s.calls[i].Returned? {
          FreshStays(s, s', first, s.calls[i].version, s.calls[i].entry);
        }
      }
    }
  }

  lemma CommitKeepsInv<V>(s: State<V>, first: nat, value: V)
    requires Inv(s, first)
    ensures Inv(Next(s, Commit(value)), first)
  {
    var s' := Next(s, Commit(value));
    assert Bumped(s') == Bumped(s);
    forall v | v in s'.store ensures Fresh(s', first, v, s'.store[v]) {
      FreshStays(s, s', first, v, s.store[v]);
    }
    forall i | 0 <= i < |s'.calls| ensures CallOk(s', first, s'.calls[i]) {
      assert CallOk(s, first, s.calls[i]);
      if s.calls[i].Fetched? || s.calls[i].Returned? {
        FreshStays(s, s', first, s.calls[i].version, s.calls[i].entry);
      }
    }
  }

  lemma CallChangeKeepsInv<V>(s: State<V>, s': State<V>, first: nat)
    requires Inv(s, first)
    requires s'.history == s.history && s'.bumpedTo == s.bumpedTo && s'.version == s.version
    requires forall v :: v in s'.store ==> v <= s.version && Fresh(s, first, v, s'.store[v])
    requires forall i :: 0 <= i < |s'.calls| ==> CallOk(s, first, s'.calls[i])
    ensures Inv(s', first)
  {
    assert Bumped(s') == Bumped(s);
    forall i | 0 <= i < |s'.calls| ensures CallOk(s', first, s'.calls[i]) {
      assert CallOk(s, first, s'.calls[i]);
    }
  }

  lemma CallStepKeepsInv<V>(s: State<V>, first: nat, e: Event<V>)
    requires Inv(s, first) && !e.Bump? && !e.Commit?
    ensures Inv(Next(s, e), first)
  {
    var s' := Next(s, e);
    SubsetOfRange(Bumped(s), |s.bumpedTo|);
    forall v | v in s'.store ensures v <= s.version && Fresh(s, first, v, s'.store[v]) {
      assert e.Store? && e.call < |s.calls| ==> CallOk(s, first, s.calls[e.call]);
    }
    forall i | 0 <= i < |s'.calls| ensures CallOk(s, first, s'.calls[i]) {
      assert i < |s.calls| ==> CallOk(s, first, s.calls[i]);
    }
    CallChangeKeepsInv(s, s', first);
  }

  function Run<V>(s: State<V>, events: seq<Event<V>>): (r: State<V>)
    requires s.history != []
    decreases |events|
  {
    if events == [] then s else Run(Next(s, events[0]), events[1..])
  }

  lemma {:induction false} RunKeepsInv<V>(s: State<V>, events: seq<Event<V>>, first: nat)
    requires Inv(s, first)
    ensures Inv(Run(s, events), first)
    decreases |events|
  {
    if events != [] {
      match events[0] {
        case Commit(value) => CommitKeepsInv(s, first, value);
        case Bump(u) => BumpKeepsInv(s, first, u);
        case _ => CallStepKeepsInv(s, first, events[0]);
      }
      RunKeepsInv(Next(s, events[0]), events[1..], first);
    }
  }

  /**
   Freshness over every interleaving: a call returns a database state at least as new as
   the k-th commit if it read its version after k bumps, and one that includes the commit
   of every writer whose own bump had happened by then, even with slow factories, late
   stores and expiring entries.
   */
  lemma ReadsSeeBumpedWrites<V>(initial: V, first: nat, events: seq<Event<V>>, c: nat)
    requires c < |Run(State([initial], [], first, map[], []), events).calls|
    requires Run(State([initial], [], first, map[], []), events).calls[c].Returned?
    ensures var s := Run(State([initial], [], first, map[], []), events);
            var call := s.calls[c];
            && call.entry.stamp < |s.history| && call.entry.value == s.history[call.entry.stamp]
            && call.bumps <= call.entry.stamp
            && forall u :: u in call.seen ==> u + 1 <= call.entry.stamp
  {
    var start := State([initial], [], first, map[], []);
    assert Bumped(start) == {};
    RunKeepsInv(start, events, first);
    var s := Run(start, events);
    assert CallOk(s, first, s.calls[c]);
  }

  /** A commit whose bump has not run is not seen while its predecessor stays cached. */
  lemma CommitWithoutBumpIsNotSeen<V>(s: State<V>, first: nat, value: V)
    requires Inv(s, first) && s.version in s.store
    ensures var s' := Run(s, [Commit(value), Begin, Lookup(|s.calls|)]);
            |s'.calls| == |s.calls| + 1 && s'.calls[|s.calls|].Returned?
            && s'.calls[|s.calls|].entry.stamp < |s'.history| - 1
  {
    var last: Event<V> := Lookup(|s.calls|);
    var es := [Commit(value), Begin, last];
    assert es[1..][0] == Begin && es[1..][1..] == [last] && [last][1..] == [];
    var s1 := Next(s, Commit(value));
    var s2 := Next(s1, Begin);
    assert Run(s, es) == Run(s2, [last]) == Next(s2, last);
    assert Fresh(s, first, s.version, s.store[s.version]);
  }
}
