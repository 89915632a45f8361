/**
 Device slots: at most four active devices per user, kept by counting, revoking the one
 seen longest ago, and re-activating or creating the one that logs in.
 */
module DeviceSlots {
  import opened Common

  const MAX_DEVICES := 4

  /** The random string a browser sends for itself; only its identity matters. */
  datatype Fingerprint = Fingerprint(token: string)

  datatype Device = Device(firstSeen: int, lastSeen: int, revoked: bool)

  /** The rows of one user, unique per fingerprint. */
  type Devices = map<Fingerprint, Device>

  datatype Login = Login(fingerprint: Fingerprint, at: int)

  function Active(t: Devices): set<Fingerprint> {
    set f | f in t && !t[f].revoked
  }

  predicate IsOldest(t: Devices, f: Fingerprint) {
    f in Active(t) && forall g :: g in Active(t) ==> t[f].lastSeen <= t[g].lastSeen
  }

  /** `revokeOldestActiveDevice`, when all slots are taken. */
  ghost predicate Evicted(t: Devices, t': Devices) {
    if |Active(t)| >= MAX_DEVICES
    then exists f :: IsOldest(t, f) && t' == t[f := t[f].(revoked := true)]
    else t' == t
  }

  function Admitted(t: Devices, l: Login): Devices {
    t[l.fingerprint := Device(if l.fingerprint in t then t[l.fingerprint].firstSeen else l.at, l.at, false)]
  }

  /** One login, up to the choice among equally old devices. */
  ghost predicate Next(t: Devices, l: Login, t': Devices) {
    if l.fingerprint in Active(t) then t' == Admitted(t, l)
    else exists mid :: Evicted(t, mid) && t' == Admitted(mid, l)
  }

  /** A device that did not log in keeps its times, and is not re-activated. */
  predicate SameButRevoked(before: Device, after: Device) {
    after.firstSeen == before.firstSeen && after.lastSeen == before.lastSeen && (before.revoked ==> after.revoked)
  }

  class UserDevices {
    var rows: map<int, Devices>

    constructor ()
      ensures rows == map[]
    {
      rows := map[];
    }

    function RowsOf(user: int): Devices
      reads this
    {
      if user in rows then rows[user] else map[]
    }

    method RevokeOldestActiveDevice(user: int) returns (revoked: Fingerprint)
      requires Active(RowsOf(user)) != {}
      modifies this
      ensures IsOldest(old(RowsOf(user)), revoked)
      ensures rows == old(rows)[user := old(RowsOf(user))[revoked := old(RowsOf(user))[revoked].(revoked := true)]]
    {
      var mine := RowsOf(user);
      var todo := Active(mine);
      revoked :| revoked in todo;
      todo := todo - {revoked};
      while exists f :: f in todo
        invariant revoked in Active(mine) && todo <= Active(mine)
        invariant forall g :: g in Active(mine) && g !in todo ==> mine[revoked].lastSeen <= mine[g].lastSeen
        decreases todo
      {
        var f :| f in todo;
        if mine[f].lastSeen < mine[revoked].lastSeen { revoked := f; }
        todo := todo - {f};
      }
      rows := rows[user := mine[revoked := mine[revoked].(revoked := true)]];
    }

    /** The login of one user; no other user's devices change. */
    method UpsertDeviceOnLogin(user: int, fingerprint: Fingerprint, now: int)
      modifies this
      ensures Next(old(RowsOf(user)), Login(fingerprint, now), RowsOf(user))
      ensures forall other :: other != user ==> RowsOf(other) == old(RowsOf(other))
      ensures RowsOf(user).Keys == old(RowsOf(user)).Keys + {fingerprint}
      ensures RowsOf(user)[fingerprint] ==
        Device(if fingerprint in old(RowsOf(user)) then old(RowsOf(user))[fingerprint].firstSeen else now, now, false)
      ensures forall f :: f in old(RowsOf(user)) && f != fingerprint ==>
        SameButRevoked(old(RowsOf(user))[f], RowsOf(user)[f])
    {
      var mine := RowsOf(user);
      ghost var before := mine;
      if fingerprint in mine && !mine[fingerprint].revoked {
        rows := rows[user := mine[fingerprint := mine[fingerprint].(lastSeen := now)]];
        return;
      }
      if |Active(mine)| >= MAX_DEVICES {
        var revoked := RevokeOldestActiveDevice(user);
        mine := RowsOf(user);
      }
      assert Evicted(before, mine);
      if fingerprint in mine {
        rows := rows[user := mine[fingerprint := mine[fingerprint].(revoked := false, lastSeen := now)]];
      } else {
        rows := rows[user := mine[fingerprint := Device(now, now, false)]];
      }
      assert RowsOf(user) == Admitted(mine, Login(fingerprint, now));
    }
  }

  // ---- the pure specification: most recently used first -------------------------

  function Remove(list: seq<Fingerprint>, x: Fingerprint): seq<Fingerprint> {
    if list == [] then []
    else if list[0] == x then list[1..]
    else [list[0]] + Remove(list[1..], x)
  }

  /** Distinct fingerprints of a history, latest first. */
  function Recent(history: seq<Fingerprint>): seq<Fingerprint> {
    if history == [] then []
    else
      var last := history[|history| - 1];
      [last] + Remove(Recent(history[..|history| - 1]), last)
  }

  function FingerprintsOf(h: seq<Login>): seq<Fingerprint> {
    seq(|h|, i requires 0 <= i < |h| => h[i].fingerprint)
  }

  function Slots(list: seq<Fingerprint>): seq<Fingerprint> {
    if |list| <= MAX_DEVICES then list else list[..MAX_DEVICES]
  }

  lemma {:induction false} RemoveAbsent(list: seq<Fingerprint>, x: Fingerprint)
    requires x !in list
    ensures Remove(list, x) == list
  {
    if list != [] {
      RemoveAbsent(list[1..], x);
    }
  }

  lemma {:induction false} RemoveAt(list: seq<Fingerprint>, k: nat)
    requires Distinct(list) && k < |list|
    ensures Remove(list, list[k]) == list[..k] + list[k + 1..]
  {
    if k > 0 {
      RemoveAt(list[1..], k - 1);
      assert list[..k] == [list[0]] + list[1..][..k - 1];
    }
  }

  lemma {:induction false} RecentSound(h: seq<Fingerprint>)
    ensures Distinct(Recent(h)) && forall x :: x in Recent(h) <==> x in h
  {
    if h != [] {
      var front, last := h[..|h| - 1], h[|h| - 1];
      RecentSound(front);
      assert h == front + [last];
      RemoveDistinct(Recent(front), last);
      assert last !in Remove(Recent(front), last);
    }
  }

  lemma RemoveDistinct(list: seq<Fingerprint>, x: Fingerprint)
    requires Distinct(list)
    ensures Distinct(Remove(list, x)) && forall y :: y in Remove(list, x) <==> y in list && y != x
  {
    if x in list {
      var k :| 0 <= k < |list| && list[k] == x;
      RemoveAt(list, k);
      assert list == list[..k] + [x] + list[k + 1..];
    } else {
      RemoveAbsent(list, x);
    }
  }

  lemma {:induction false} RemoveInConcat(a: seq<Fingerprint>, b: seq<Fingerprint>, x: Fingerprint)
    ensures Remove(a + b, x) == if x in a then Remove(a, x) + b else a + Remove(b, x)
  {
    if a == [] {
      assert a + b == b;
    } else {
      assert (a + b)[1..] == a[1..] + b;
      if a[0] != x { RemoveInConcat(a[1..], b, x); }
    }
  }

  lemma RecentSnoc(h: seq<Fingerprint>, y: Fingerprint)
    ensures Recent(h + [y]) == [y] + Remove(Recent(h), y)
  {
    assert (h + [y])[..|h|] == h;
  }

  /** Before `x` in the list come exactly the distinct fingerprints since its last login. */
  lemma {:induction false} RankIsDistinctSince(a: seq<Fingerprint>, x: Fingerprint, b: seq<Fingerprint>)
    returns (older: seq<Fingerprint>)
    requires x !in b
    ensures Recent(a + [x] + b) == Recent(b) + [x] + older
  {
    if b == [] {
      RecentSnoc(a, x);
      older := Remove(Recent(a), x);
      assert a + [x] + b == a + [x];
    } else {
      var b0, y := b[..|b| - 1], b[|b| - 1];
      assert b == b0 + [y];
      var older0 := RankIsDistinctSince(a, x, b0);
      older := OneMoreSince(a + [x] + b0, b0, x, y, older0);
      assert a + [x] + b == (a + [x] + b0) + [y];
    }
  }

  lemma OneMoreSince(h: seq<Fingerprint>, b: seq<Fingerprint>, x: Fingerprint, y: Fingerprint, older0: seq<Fingerprint>)
    returns (older: seq<Fingerprint>)
    requires x != y && Recent(h) == Recent(b) + [x] + older0
    ensures Recent(h + [y]) == Recent(b + [y]) + [x] + older
  {
    RecentSnoc(h, y);
    RecentSnoc(b, y);
    older := RemoveAround(Recent(b), x, older0, y);
    Regroup(y, Remove(Recent(b), y), x, older);
  }

  lemma RemoveAround(p: seq<Fingerprint>, x: Fingerprint, q: seq<Fingerprint>, y: Fingerprint)
    returns (older: seq<Fingerprint>)
    requires x != y
    ensures Remove(p + [x] + q, y) == Remove(p, y) + [x] + older
  {
    RemoveInConcat(p + [x], q, y);
    RemoveInConcat(p, [x], y);
    if y in p {
      assert y in p + [x];
      older := q;
    } else {
      RemoveAbsent(p, y);
      older := Remove(q, y);
    }
  }

  lemma Regroup(y: Fingerprint, p: seq<Fingerprint>, x: Fingerprint, q: seq<Fingerprint>)
    ensures [y] + (p + [x] + q) == [y] + p + [x] + q
  {
  }

  // ---- the table follows the specification --------------------------------------------

  /** The rows are the fingerprints of `r`, last seen in that order, active in its slots. */
  ghost predicate Matches(t: Devices, r: seq<Fingerprint>) {
    && (forall f :: f in t <==> f in r)
    && (forall f :: f in t ==> (!t[f].revoked <==> f in Slots(r)))
    && LatestFirst(t, r)
  }

  ghost predicate SeenBefore(t: Devices, at: int) {
    forall f :: f in t ==> t[f].lastSeen < at
  }

  lemma ActiveIsSlots(t: Devices, r: seq<Fingerprint>)
    requires Matches(t, r) && Distinct(r)
    ensures |Active(t)| == |Slots(r)|
    ensures forall f :: f in Active(t) <==> f in Slots(r)
  {
    assert forall f :: f in Slots(r) ==> f in r;
    CardOfList(Active(t), Slots(r));
  }

  lemma {:induction false} CardOfList(keys: set<Fingerprint>, list: seq<Fingerprint>)
    requires Distinct(list) && forall f :: f in keys <==> f in list
    ensures |keys| == |list|
  {
    if list == [] {
      assert keys == {};
    } else {
      var rest := list[1..];
      assert list == [list[0]] + rest;
      CardOfList(keys - {list[0]}, rest);
    }
  }

  /** With every slot taken, the device revoked is the fourth most recent. */
  lemma OldestIsFourth(t: Devices, r: seq<Fingerprint>, f: Fingerprint)
    requires Matches(t, r) && Distinct(r) && IsOldest(t, f) && |Active(t)| >= MAX_DEVICES
    ensures |r| >= MAX_DEVICES && f == r[MAX_DEVICES - 1]
  {
    ActiveIsSlots(t, r);
    assert Slots(r) == r[..MAX_DEVICES];
    assert r[..MAX_DEVICES][MAX_DEVICES - 1] == r[MAX_DEVICES - 1];
    assert r[MAX_DEVICES - 1] in Active(t);
    var i :| 0 <= i < MAX_DEVICES && r[i] == f;
  }

  /** How the most-recent list, and with it the slots, change by one login. */
  lemma RecentAfter(r: seq<Fingerprint>, f: Fingerprint)
    requires Distinct(r)
    ensures var r' := [f] + Remove(r, f);
            && (f in Slots(r) ==> forall x :: x in Slots(r') <==> x in Slots(r))
            && (f !in Slots(r) && |r| < MAX_DEVICES ==> forall x :: x in Slots(r') <==> x in Slots(r) || x == f)
            && (f !in Slots(r) && |r| >= MAX_DEVICES ==>
                  forall x :: x in Slots(r') <==> (x in Slots(r) && x != r[MAX_DEVICES - 1]) || x == f)
  {
    if f in Slots(r) {
      HitKeepsSlots(r, f);
    } else if |r| < MAX_DEVICES {
      RemoveAbsent(r, f);
    } else {
      MissTakesFirstSlot(r, f);
    }
  }

  lemma HitKeepsSlots(r: seq<Fingerprint>, f: Fingerprint)
    requires Distinct(r) && f in Slots(r)
    ensures forall x :: x in Slots([f] + Remove(r, f)) <==> x in Slots(r)
  {
    var k :| 0 <= k < |Slots(r)| && Slots(r)[k] == f;
    RemoveAt(r, k);
    var n := |Slots(r)|;
    var r' := [f] + (r[..k] + r[k + 1..]);
    assert Slots(r) == r[..n] && Slots(r') == r'[..n];
    RotatedPrefix(r, k, n);
  }

  lemma RotatedPrefix(r: seq<Fingerprint>, k: nat, n: nat)
    requires k < n <= |r|
    ensures forall x :: x in ([r[k]] + (r[..k] + r[k + 1..]))[..n] <==> x in r[..n]
  {
    assert r[..n] == r[..k] + [r[k]] + r[k + 1..n];
    assert ([r[k]] + (r[..k] + r[k + 1..]))[..n] == [r[k]] + r[..k] + r[k + 1..n];
  }

  lemma MissTakesFirstSlot(r: seq<Fingerprint>, f: Fingerprint)
    requires Distinct(r) && f !in Slots(r) && |r| >= MAX_DEVICES
    ensures forall x :: x in Slots([f] + Remove(r, f)) <==> (x in Slots(r) && x != r[MAX_DEVICES - 1]) || x == f
  {
    if f in r {
      var k :| 0 <= k < |r| && r[k] == f;
      assert forall i :: 0 <= i < MAX_DEVICES ==> r[i] == Slots(r)[i] && r[i] in Slots(r);
      RemoveAt(r, k);
    } else {
      RemoveAbsent(r, f);
    }
    FirstThree(r, [f] + Remove(r, f), f);
  }

  lemma FirstThree(r: seq<Fingerprint>, r': seq<Fingerprint>, f: Fingerprint)
    requires Distinct(r) && |r| >= MAX_DEVICES && |r'| >= MAX_DEVICES
    requires r'[..MAX_DEVICES] == [f] + r[..MAX_DEVICES - 1]
    ensures forall x :: x in Slots(r') <==> (x in Slots(r) && x != r[MAX_DEVICES - 1]) || x == f
  {
    assert r[..MAX_DEVICES] == r[..MAX_DEVICES - 1] + [r[MAX_DEVICES - 1]];
    assert Slots(r) == r[..MAX_DEVICES] && Slots(r') == r'[..MAX_DEVICES];
    assert r[MAX_DEVICES - 1] !in r[..MAX_DEVICES - 1];
  }

  /** `r` lists devices of `t`, latest first. */
  ghost predicate LatestFirst(t: Devices, r: seq<Fingerprint>) {
    && (forall i :: 0 <= i < |r| ==> r[i] in t)
    && (forall i, j :: 0 <= i < j < |r| ==> t[r[i]].lastSeen > t[r[j]].lastSeen)
  }

  lemma {:induction false} RemoveKeepsLatestFirst(t: Devices, r: seq<Fingerprint>, f: Fingerprint)
    requires LatestFirst(t, r) && Distinct(r)
    ensures LatestFirst(t, Remove(r, f))
  {
    if f in r {
      var k :| 0 <= k < |r| && r[k] == f;
      RemoveAt(r, k);
    } else {
      RemoveAbsent(r, f);
    }
  }

  lemma OrderAfter(t: Devices, t': Devices, r: seq<Fingerprint>, f: Fingerprint, at: int)
    requires Distinct(r) && SeenBefore(t, at) && LatestFirst(t, r)
    requires f in t' && t'[f].lastSeen == at
    requires forall x :: x in t && x != f ==> x in t' && t'[x].lastSeen == t[x].lastSeen
    ensures LatestFirst(t', [f] + Remove(r, f))
  {
    RemoveKeepsLatestFirst(t, r, f);
    RemoveDistinct(r, f);
    var rest := Remove(r, f);
    forall i | 0 <= i < |rest| ensures rest[i] in t' && t'[rest[i]].lastSeen == t[rest[i]].lastSeen < at {
      assert rest[i] in rest;
    }
  }

  lemma LoginTimes(t: Devices, l: Login, t': Devices)
    requires Next(t, l, t')
    ensures forall f :: f in t' <==> f == l.fingerprint || f in t
    ensures t'[l.fingerprint].lastSeen == l.at && !t'[l.fingerprint].revoked
    ensures forall f :: f in t && f != l.fingerprint ==> t'[f].lastSeen == t[f].lastSeen
  {
  }

  /** With every slot taken and a newcomer, the fourth most recent device is revoked. */
  lemma LoginEvicts(t: Devices, l: Login, t': Devices, r: seq<Fingerprint>)
    requires Matches(t, r) && Distinct(r) && Next(t, l, t')
    requires l.fingerprint !in Active(t) && |Active(t)| >= MAX_DEVICES
    ensures |r| >= MAX_DEVICES
    ensures forall f :: f in t && f in t' && f != l.fingerprint ==>
      (t'[f].revoked <==> t[f].revoked || f == r[MAX_DEVICES - 1])
  {
    var mid :| Evicted(t, mid) && t' == Admitted(mid, l);
    var k :| IsOldest(t, k) && mid == t[k := t[k].(revoked := true)];
    OldestIsFourth(t, r, k);
  }

  /** Who has a row, who is active, and when each was last seen, after one login. */
  lemma LoginRows(t: Devices, l: Login, t': Devices, r: seq<Fingerprint>)
    requires Matches(t, r) && Distinct(r) && Next(t, l, t')
    ensures forall f :: f in t' <==> f == l.fingerprint || f in t
    ensures t'[l.fingerprint].lastSeen == l.at && !t'[l.fingerprint].revoked
    ensures forall f :: f in t && f != l.fingerprint ==> t'[f].lastSeen == t[f].lastSeen
    ensures forall f :: f in t && f != l.fingerprint ==>
      (t'[f].revoked <==>
        (t[f].revoked || (l.fingerprint !in Slots(r) && |r| >= MAX_DEVICES && f == r[MAX_DEVICES - 1])))
  {
    LoginTimes(t, l, t');
    ActiveIsSlots(t, r);
    if l.fingerprint !in Active(t) && |Active(t)| >= MAX_DEVICES {
      LoginEvicts(t, l, t', r);
    }
  }

  lemma LoginMoves(t: Devices, l: Login, t': Devices, r: seq<Fingerprint>)
    requires Matches(t, r) && Distinct(r) && Next(t, l, t') && SeenBefore(t, l.at)
    ensures Matches(t', [l.fingerprint] + Remove(r, l.fingerprint))
  {
    RemoveDistinct(r, l.fingerprint);
    RecentAfter(r, l.fingerprint);
    LoginRows(t, l, t', r);
    OrderAfter(t, t', r, l.fingerprint, l.at);
  }

  /** `tables` is one user's rows before each login of `h` and after the last. */
  ghost predicate IsRun(tables: seq<Devices>, h: seq<Login>) {
    && |tables| == |h| + 1 && tables[0] == map[]
    && (forall i :: 0 <= i < |h| ==> Next(tables[i], h[i], tables[i + 1]))
    && (forall i :: 0 < i < |h| ==> h[i - 1].at < h[i].at)
  }

  lemma {:induction false} RunFollowsSpecification(tables: seq<Devices>, h: seq<Login>)
    requires IsRun(tables, h)
    ensures Matches(tables[|h|], Recent(FingerprintsOf(h)))
    ensures h != [] ==> SeenBefore(tables[|h|], h[|h| - 1].at + 1)
    decreases |h|
  {
    if h != [] {
      var n := |h| - 1;
      RunFollowsSpecification(tables[..n + 1], h[..n]);
      var fs, r := FingerprintsOf(h[..n]), Recent(FingerprintsOf(h[..n]));
      assert FingerprintsOf(h) == fs + [h[n].fingerprint];
      RecentSnoc(fs, h[n].fingerprint);
      RecentSound(fs);
      assert Next(tables[n], h[n], tables[n + 1]);
      LoginMoves(tables[n], h[n], tables[n + 1], r);
      LoginRows(tables[n], h[n], tables[n + 1], r);
    }
  }

  /**
   Count-then-revoke-oldest is least-recently-used eviction: after any history of logins
   of a user at strictly increasing times, a device is active if and only if fewer than
   four distinct other fingerprints logged in after its last login.
   */
  lemma ActiveIffAmongLastFour(tables: seq<Devices>, h: seq<Login>,
          a: seq<Fingerprint>, f: Fingerprint, b: seq<Fingerprint>)
    requires IsRun(tables, h) && FingerprintsOf(h) == a + [f] + b && f !in b
    ensures f in tables[|h|] && (!tables[|h|][f].revoked <==> |Recent(b)| < 4)
    ensures |Recent(b)| == |set g | g in b|
  {
    RunFollowsSpecification(tables, h);
    var older := RankIsDistinctSince(a, f, b);
    RecentSound(a + [f] + b);
    RecentSound(b);
    CardOfList((set g | g in b), Recent(b));
    var r, n := Recent(a + [f] + b), |Recent(b)|;
    assert r[n] == f;
    if n < MAX_DEVICES {
      assert Slots(r)[n] == f;
    }
  }

  /** Never more than four, and four as soon as four distinct devices have logged in. */
  lemma SlotsAreFilled(tables: seq<Devices>, h: seq<Login>)
    requires IsRun(tables, h)
    ensures var distinct := |set l | l in FingerprintsOf(h)|;
            |Active(tables[|h|])| == if distinct < 4 then distinct else 4
  {
    RunFollowsSpecification(tables, h);
    RecentSound(FingerprintsOf(h));
    CardOfList((set l | l in FingerprintsOf(h)), Recent(FingerprintsOf(h)));
    ActiveIsSlots(tables[|h|], Recent(FingerprintsOf(h)));
  }

  /** A device keeps the time it was first seen, through revocations and returns. */
  lemma FirstSeenIsKept(t: Devices, l: Login, t': Devices, f: Fingerprint)
    requires Next(t, l, t') && f in t
    ensures f in t' && t'[f].firstSeen == t[f].firstSeen
  {
    if l.fingerprint !in Active(t) {
      var mid :| Evicted(t, mid) && t' == Admitted(mid, l);
    }
  }
}
