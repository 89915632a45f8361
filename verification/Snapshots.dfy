/**
 Immutable price snapshots: the worker writes one row per distinct content hash, links
 every order item to the row with its hash, and never updates a row.
 */
module Snapshots {
  import opened Common
  import opened Decimal
  import opened CheckoutTotals

  function FormatName(f: BookFormat): string {
    match f
    case HARDCOVER => "HARDCOVER"
    case PAPERBACK => "PAPERBACK"
    case EBOOK => "EBOOK"
    case AUDIOBOOK => "AUDIOBOOK"
  }

  /** The string that is hashed. */
  function Content(v: Variant): string {
    v.isbn + "-" + Print(v.id) + "-" + FormatName(v.format) + "-" + Print(v.price)
  }

  /** SHA-256, taken to be injective. */
  datatype Hash = Sha256(content: string)

  function ContentHash(v: Variant): Hash {
    Sha256(Content(v))
  }

  lemma FormatNameInjective(a: BookFormat, b: BookFormat)
    requires FormatName(a) == FormatName(b)
    ensures a == b
  {
    assert FormatName(HARDCOVER)[0] == 'H' && FormatName(PAPERBACK)[0] == 'P';
    assert FormatName(EBOOK)[0] == 'E' && FormatName(AUDIOBOOK)[0] == 'A';
  }

  lemma NoDash(f: BookFormat, n: nat)
    ensures '-' !in FormatName(f) && '-' !in Print(n)
  {
  }

  /** The content determines ISBN, id, format and price, even if the ISBN contains hyphens. */
  lemma ContentDeterminesVariant(a: Variant, b: Variant)
    requires Content(a) == Content(b)
    ensures a == b
  {
    NoDash(a.format, a.id); NoDash(b.format, b.id); NoDash(a.format, a.price); NoDash(b.format, b.price);
    var a1, b1 := a.isbn + "-" + Print(a.id), b.isbn + "-" + Print(b.id);
    var a2, b2 := a1 + "-" + FormatName(a.format), b1 + "-" + FormatName(b.format);
    SplitAtLast(a2, Print(a.price), b2, Print(b.price), '-');
    SplitAtLast(a1, FormatName(a.format), b1, FormatName(b.format), '-');
    SplitAtLast(a.isbn, Print(a.id), b.isbn, Print(b.id), '-');
    PrintInjective(a.price, b.price);
    PrintInjective(a.id, b.id);
    FormatNameInjective(a.format, b.format);
  }

  /** The content as the hash function gets it, for one variant. */
  lemma ContentText()
    ensures Content(Variant(1, "978-3", PAPERBACK, 9)) == "978-3-1-PAPERBACK-9"
  {
    assert Print(1) == "1" && Print(9) == "9";
  }

  // ---- the snapshot table ------------------------------------------------------

  /** A row; its id is its position. */
  datatype Snapshot = Snapshot(hash: Hash, variantId: nat, price: nat, format: BookFormat)

  function SnapshotOf(v: Variant): Snapshot {
    Snapshot(ContentHash(v), v.id, v.price, v.format)
  }

  /** The fields of a snapshot agree with the variant it was taken of. */
  ghost predicate Describes(s: Snapshot, v: Variant) {
    s.variantId == v.id && s.price == v.price && s.format == v.format
  }

  /** A hash is shared only by equal snapshots: price and all. */
  lemma SameHashSameSnapshot(a: Snapshot, b: Snapshot)
    requires IsGenuine(a) && IsGenuine(b) && a.hash == b.hash
    ensures a == b
  {
    var v :| a == SnapshotOf(v);
    var w :| b == SnapshotOf(w);
    ContentDeterminesVariant(v, w);
  }

  ghost predicate UniqueHashes(rows: seq<Snapshot>) {
    forall i, j :: 0 <= i < j < |rows| ==> rows[i].hash != rows[j].hash
  }

  /** Every row was written for some variant, as it was priced then. */
  ghost predicate Genuine(rows: seq<Snapshot>) {
    forall i :: 0 <= i < |rows| ==> IsGenuine(rows[i])
  }

  ghost predicate IsGenuine(row: Snapshot) {
    exists v :: row == SnapshotOf(v)
  }

  function FindByHash(rows: seq<Snapshot>, hash: Hash): (r: Option<nat>)
    ensures r.Some? ==> r.value < |rows| && rows[r.value].hash == hash
    ensures r.None? ==> forall i :: 0 <= i < |rows| ==> rows[i].hash != hash
  {
    if rows == [] then None
    else
      var n := |rows| - 1;
      if rows[n].hash == hash then Some(n) else FindByHash(rows[..n], hash)
  }

  /** One row of `createMany` with duplicates skipped. */
  function InsertOne(rows: seq<Snapshot>, row: Snapshot): seq<Snapshot> {
    if FindByHash(rows, row.hash).Some? then rows else rows + [row]
  }

  function InsertAll(rows: seq<Snapshot>, more: seq<Snapshot>): seq<Snapshot>
    decreases |more|
  {
    if more == [] then rows else InsertAll(InsertOne(rows, more[0]), more[1..])
  }

  ghost predicate HasHash(rows: seq<Snapshot>, hash: Hash) {
    exists i :: 0 <= i < |rows| && rows[i].hash == hash
  }

  lemma InsertOneKeeps(rows: seq<Snapshot>, row: Snapshot)
    requires UniqueHashes(rows) && Genuine(rows) && IsGenuine(row)
    ensures UniqueHashes(InsertOne(rows, row)) && Genuine(InsertOne(rows, row))
    ensures rows <= InsertOne(rows, row) && HasHash(InsertOne(rows, row), row.hash)
  {
    if FindByHash(rows, row.hash).None? {
      assert (rows + [row])[|rows|].hash == row.hash;
    }
  }

  /** Inserting keeps every earlier row in its place and makes every new hash present. */
  lemma {:induction false} InsertAllKeeps(rows: seq<Snapshot>, more: seq<Snapshot>)
    requires UniqueHashes(rows) && Genuine(rows) && Genuine(more)
    ensures UniqueHashes(InsertAll(rows, more)) && Genuine(InsertAll(rows, more))
    ensures rows <= InsertAll(rows, more)
    ensures forall k :: 0 <= k < |more| ==> HasHash(InsertAll(rows, more), more[k].hash)
    ensures forall i :: |rows| <= i < |InsertAll(rows, more)| ==> InsertAll(rows, more)[i] in more
    decreases |more|
  {
    if more != [] {
      var next := InsertOne(rows, more[0]);
      InsertOneKeeps(rows, more[0]);
      InsertAllKeeps(next, more[1..]);
      forall k | 0 <= k < |more| ensures HasHash(InsertAll(rows, more), more[k].hash) {
        if k == 0 {
          var i :| 0 <= i < |next| && next[i].hash == more[0].hash;
          assert InsertAll(next, more[1..])[i].hash == more[0].hash;
        } else {
          assert more[k] == more[1..][k - 1];
        }
      }
    }
  }

  // ---- the worker ----------------------------------------------------------------

  datatype OrderItem = OrderItem(snapshotId: nat, quantity: int, unitPrice: nat, lineTotal: int)

  /** The item's snapshot exists and carries the price that was charged. */
  predicate PricedBy(rows: seq<Snapshot>, item: OrderItem) {
    item.snapshotId < |rows| && rows[item.snapshotId].price == item.unitPrice
  }

  ghost predicate AllPriced(rows: seq<Snapshot>, items: seq<OrderItem>) {
    forall i :: 0 <= i < |items| ==> PricedBy(rows, items[i])
  }

  const LINE_TOTAL: OrderItem -> int := (i: OrderItem) => i.lineTotal

  function SnapshotTotal(quantities: map<int, int>): Snapshot -> int {
    (s: Snapshot) => s.price * Get(quantities, s.variantId)
  }

  lemma {:induction false} SnapshotsSumToRows(variants: seq<Variant>, snapshots: seq<Snapshot>,
          quantities: map<int, int>)
    requires |snapshots| == |variants|
    requires forall k :: 0 <= k < |variants| ==> Describes(snapshots[k], variants[k])
    ensures Sum(SnapshotTotal(quantities), snapshots) == Sum(RowTotal(quantities), variants)
  {
    if variants != [] {
      assert Describes(snapshots[0], variants[0]);
      forall k | 0 <= k < |variants[1..]| ensures Describes(snapshots[1..][k], variants[1..][k]) {
        assert Describes(snapshots[k + 1], variants[k + 1]);
      }
      SnapshotsSumToRows(variants[1..], snapshots[1..], quantities);
    }
  }

  /** The items of one job, each linked to the table row that equals its snapshot. */
  method LinkItems(rows: seq<Snapshot>, snapshots: seq<Snapshot>, quantities: map<int, int>)
    returns (items: seq<OrderItem>, reserve: seq<Item>)
    requires forall k :: 0 <= k < |snapshots| ==> HasHash(rows, snapshots[k].hash)
    requires forall i, k :: 0 <= i < |rows| && 0 <= k < |snapshots| && rows[i].hash == snapshots[k].hash ==>
      rows[i] == snapshots[k]
    ensures |items| == |reserve| == |snapshots|
    ensures forall k :: 0 <= k < |snapshots| ==> Linked(rows, items[k], snapshots[k], quantities)
    ensures Sum(LINE_TOTAL, items) == Sum(SnapshotTotal(quantities), snapshots)
    ensures forall k :: 0 <= k < |snapshots| ==>
      reserve[k] == Item(snapshots[k].variantId, Get(quantities, snapshots[k].variantId))
  {
    items, reserve := [], [];
    for k := 0 to |snapshots|
      invariant |items| == |reserve| == k
      invariant forall j :: 0 <= j < k ==> Linked(rows, items[j], snapshots[j], quantities)
      invariant Sum(LINE_TOTAL, items) == Sum(SnapshotTotal(quantities), snapshots[..k])
      invariant forall j :: 0 <= j < k ==>
        reserve[j] == Item(snapshots[j].variantId, Get(quantities, snapshots[j].variantId))
    {
      var s := snapshots[k];
      assert HasHash(rows, s.hash);
      var quantity := if s.variantId in quantities then quantities[s.variantId] else 0;
      var id := FindByHash(rows, s.hash).value;
      var item := OrderItem(id, quantity, s.price, s.price * quantity);
      SumAppend(LINE_TOTAL, items, item);
      assert snapshots[..k + 1] == snapshots[..k] + [s];
      SumAppend(SnapshotTotal(quantities), snapshots[..k], s);
      items := items + [item];
      reserve := reserve + [Item(s.variantId, quantity)];
    }
    assert snapshots[..|snapshots|] == snapshots;
  }

  /** The item charges the snapshot's price for the requested units, and is linked to that row. */
  ghost predicate Linked(rows: seq<Snapshot>, item: OrderItem, s: Snapshot, quantities: map<int, int>) {
    && item.snapshotId < |rows| && rows[item.snapshotId] == s && item.unitPrice == s.price
    && item.quantity == Get(quantities, s.variantId) && item.lineTotal == s.price * item.quantity
  }

  /** The item charges the variant's price for the requested units, and its snapshot says so. */
  ghost predicate Charges(rows: seq<Snapshot>, item: OrderItem, v: Variant, quantities: map<int, int>) {
    && item.snapshotId < |rows| && Describes(rows[item.snapshotId], v) && item.unitPrice == v.price
    && item.quantity == Get(quantities, v.id) && item.lineTotal == v.price * item.quantity
  }

  function SnapshotsOf(variants: seq<Variant>): (r: seq<Snapshot>)
    ensures |r| == |variants| && forall k :: 0 <= k < |variants| ==> r[k] == SnapshotOf(variants[k])
  {
    seq(|variants|, k requires 0 <= k < |variants| => SnapshotOf(variants[k]))
  }

  method TakeSnapshots(variants: seq<Variant>) returns (snapshots: seq<Snapshot>)
    ensures snapshots == SnapshotsOf(variants)
    ensures Genuine(snapshots) && |snapshots| == |variants|
    ensures forall k :: 0 <= k < |variants| ==> Describes(snapshots[k], variants[k])
    ensures forall k :: 0 <= k < |variants| ==> snapshots[k].hash == ContentHash(variants[k])
  {
    snapshots := [];
    for k := 0 to |variants|
      invariant |snapshots| == k && forall j :: 0 <= j < k ==> snapshots[j] == SnapshotOf(variants[j])
    {
      snapshots := snapshots + [SnapshotOf(variants[k])];
    }
    assert forall k :: 0 <= k < |snapshots| ==> snapshots[k] == SnapshotOf(variants[k]) && IsGenuine(snapshots[k]);
  }

  class CheckoutWorker {
    var rows: seq<Snapshot>
    var orderItems: map<int, seq<OrderItem>>

    /** Every order item ever written is linked to a snapshot with its price. */
    ghost predicate Valid()
      reads this
    {
      && UniqueHashes(rows) && Genuine(rows)
      && forall o :: o in orderItems ==> AllPriced(rows, orderItems[o])
    }

    constructor ()
      ensures Valid() && rows == [] && orderItems == map[]
    {
      rows, orderItems := [], map[];
    }

    method CreateMany(snapshots: seq<Snapshot>)
      modifies this`rows
      ensures rows == InsertAll(old(rows), snapshots)
    {
      var k := 0;
      while k < |snapshots|
        invariant 0 <= k <= |snapshots| && InsertAll(rows, snapshots[k..]) == InsertAll(old(rows), snapshots)
      {
        assert snapshots[k..][1..] == snapshots[k + 1..];
        if FindByHash(rows, snapshots[k].hash).None? {
          rows := rows + [snapshots[k]];
        }
        k := k + 1;
      }
    }

    /**
     Snapshots and items of one checkout job, from the variants as they were priced when
     the job was queued.  The line totals add up to the subtotal; the items to reserve are
     those of the job, unless the database path already reserved them or a guest pays by
     transfer.  No earlier snapshot or order item changes.
     */
    method ProcessCheckout(orderId: int, variants: seq<Variant>, quantities: map<int, int>,
                           isGuest: bool, isError: bool, isCod: bool)
      returns (reserve: seq<Item>)
      requires Valid()
      modifies this
      ensures Valid() && rows == InsertAll(old(rows), SnapshotsOf(variants)) && old(rows) <= rows
      ensures orderItems.Keys == old(orderItems).Keys + {orderId}
      ensures forall o :: o in old(orderItems) && o != orderId ==> orderItems[o] == old(orderItems)[o]
      ensures |orderItems[orderId]| == |variants|
      ensures forall k :: 0 <= k < |variants| ==> Charges(rows, orderItems[orderId][k], variants[k], quantities)
      ensures Sum(LINE_TOTAL, orderItems[orderId]) == Sum(RowTotal(quantities), variants)
      ensures |reserve| == if isError || (isGuest && !isCod) then 0 else |variants|
      ensures forall k :: 0 <= k < |reserve| ==> reserve[k] == Item(variants[k].id, Get(quantities, variants[k].id))
    {
      var snapshots := TakeSnapshots(variants);
      InsertAllKeeps(rows, snapshots);
      CreateMany(snapshots);
      forall i, k | 0 <= i < |rows| && 0 <= k < |snapshots| && rows[i].hash == snapshots[k].hash
        ensures rows[i] == snapshots[k] {
        SameHashSameSnapshot(rows[i], snapshots[k]);
      }
      var items, all := LinkItems(rows, snapshots, quantities);
      SnapshotsSumToRows(variants, snapshots, quantities);
      forall k | 0 <= k < |items| ensures PricedBy(rows, items[k]) && Charges(rows, items[k], variants[k], quantities) {
        assert Linked(rows, items[k], snapshots[k], quantities) && Describes(snapshots[k], variants[k]);
      }
      forall o | o in orderItems ensures AllPriced(rows, orderItems[o]) {
        MoreRowsKeepPrices(old(rows), rows, orderItems[o]);
      }
      orderItems := orderItems[orderId := items];
      reserve := if isError || (isGuest && !isCod) then [] else all;
    }
  }

  /** The table after a list of further checkout jobs, each with its variants as priced then. */
  function AfterJobs(rows: seq<Snapshot>, jobs: seq<seq<Variant>>): seq<Snapshot>
    decreases |jobs|
  {
    if jobs == [] then rows else AfterJobs(InsertAll(rows, SnapshotsOf(jobs[0])), jobs[1..])
  }

  /** Items keep their snapshots, prices included, under every list of later jobs at whatever new prices. */
  lemma {:induction false} PricesAreKept(rows: seq<Snapshot>, jobs: seq<seq<Variant>>, items: seq<OrderItem>)
    requires UniqueHashes(rows) && Genuine(rows) && AllPriced(rows, items)
    ensures AllPriced(AfterJobs(rows, jobs), items)
    ensures forall i :: 0 <= i < |items| ==>
      items[i].snapshotId < |rows| && AfterJobs(rows, jobs)[items[i].snapshotId] == rows[items[i].snapshotId]
    decreases |jobs|
  {
    assert forall i :: 0 <= i < |items| ==> PricedBy(rows, items[i]);
    if jobs != [] {
      var taken := SnapshotsOf(jobs[0]);
      assert forall k :: 0 <= k < |taken| ==> taken[k] == SnapshotOf(jobs[0][k]) && IsGenuine(taken[k]);
      InsertAllKeeps(rows, taken);
      MoreRowsKeepPrices(rows, InsertAll(rows, taken), items);
      PricesAreKept(InsertAll(rows, taken), jobs[1..], items);
    }
  }

  lemma MoreRowsKeepPrices(rows: seq<Snapshot>, later: seq<Snapshot>, items: seq<OrderItem>)
    requires AllPriced(rows, items) && rows <= later
    ensures AllPriced(later, items)
    ensures forall i :: 0 <= i < |items| ==> later[items[i].snapshotId] == rows[items[i].snapshotId]
  {
    forall i | 0 <= i < |items|
      ensures PricedBy(later, items[i]) && later[items[i].snapshotId] == rows[items[i].snapshotId]
    {
      assert PricedBy(rows, items[i]);
    }
  }
}
