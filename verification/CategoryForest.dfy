/**
 Building the category forest from rows whose parents may be missing, unnamed, or part of
 a cycle, and sorting it recursively.

 Nodes are records that refer to each other: `info` holds the fields that never change
 and `children` the arrays that are filled and then sorted in place.
 */
module CategoryForest {
  import opened Common

  datatype CategoryRow = CategoryRow(id: int, parentId: Option<int>, name: Option<string>, sortOrder: Option<int>)

  datatype Info = Info(parentId: Option<int>, name: string, sortOrder: int)

  type Infos = map<int, Info>
  type Children = map<int, seq<int>>

  /** Rows without a translated name get no node. */
  predicate Named(r: CategoryRow) {
    r.name.Some? && r.name.value != ""
  }

  function InfoOf(r: CategoryRow): Info
    requires Named(r)
  {
    Info(r.parentId, r.name.value, if r.sortOrder.Some? then r.sortOrder.value else 0)
  }

  /** A missing parent and a zero parent both make a root. */
  predicate IsRoot(info: Infos, id: int) {
    id in info && (info[id].parentId.None? || info[id].parentId.value == 0)
  }

  predicate IsChild(info: Infos, c: int, p: int) {
    c in info && p in info && !IsRoot(info, c) && info[c].parentId == Some(p)
  }

  /** The order of siblings: by sort order, then by id. */
  predicate Before(info: Infos, a: int, b: int)
    requires a in info && b in info
  {
    info[a].sortOrder < info[b].sortOrder || (info[a].sortOrder == info[b].sortOrder && a < b)
  }

  ghost predicate Ordered(info: Infos, list: seq<int>) {
    && (forall i :: 0 <= i < |list| ==> list[i] in info)
    && (forall i, j :: 0 <= i < j < |list| ==> Before(info, list[i], list[j]))
  }

  /** Every children array lists exactly the node's children, each once. */
  ghost predicate Linked(info: Infos, children: Children) {
    && children.Keys == info.Keys
    && forall p :: p in info ==> ChildList(info, children[p], p)
  }

  ghost predicate ChildList(info: Infos, list: seq<int>, p: int) {
    Distinct(list) && forall c :: c in list <==> IsChild(info, c, p)
  }

  // ---- chains and paths ---------------------------------------------------------

  /** Going up from `id` through named rows reaches a parentless row in `steps` steps. */
  ghost predicate ChainEnds(info: Infos, id: int, steps: nat)
    decreases steps
  {
    id in info &&
    if steps == 0 then IsRoot(info, id)
    else !IsRoot(info, id) && ChainEnds(info, info[id].parentId.value, steps - 1)
  }

  /** A path down from a root. */
  ghost predicate IsPath(info: Infos, p: seq<int>) {
    && p != [] && IsRoot(info, p[0])
    && forall i :: 0 <= i < |p| - 1 ==> IsChild(info, p[i + 1], p[i])
  }

  lemma {:induction false} ChainHasPath(info: Infos, id: int, steps: nat) returns (p: seq<int>)
    requires ChainEnds(info, id, steps)
    ensures IsPath(info, p) && p[|p| - 1] == id
    decreases steps
  {
    if steps == 0 {
      p := [id];
    } else {
      var up := ChainHasPath(info, info[id].parentId.value, steps - 1);
      p := up + [id];
    }
  }

  lemma {:induction false} PathHasChain(info: Infos, p: seq<int>)
    requires IsPath(info, p)
    ensures ChainEnds(info, p[|p| - 1], |p| - 1)
  {
    if |p| > 1 {
      PathHasChain(info, p[..|p| - 1]);
      assert IsChild(info, p[|p| - 1], p[|p| - 2]);
    }
  }

  /** Only one path leads to a node. */
  lemma {:induction false} PathUnique(info: Infos, p: seq<int>, q: seq<int>)
    requires IsPath(info, p) && IsPath(info, q) && p[|p| - 1] == q[|q| - 1]
    ensures p == q
    decreases |p|
  {
    if |p| > 1 { assert IsChild(info, p[|p| - 1], p[|p| - 2]); }
    if |q| > 1 { assert IsChild(info, q[|q| - 1], q[|q| - 2]); }
    if |p| > 1 && |q| > 1 {
      PathUnique(info, p[..|p| - 1], q[..|q| - 1]);
      assert p == p[..|p| - 1] + [p[|p| - 1]];
      assert q == q[..|q| - 1] + [q[|q| - 1]];
    }
  }

  /** A path never meets a node twice, so it is no longer than the number of nodes. */
  lemma {:induction false} PathBounded(info: Infos, p: seq<int>)
    requires IsPath(info, p)
    ensures Distinct(p) && |p| <= |info|
  {
    PathDistinct(info, p);
    DistinctBound(p, info.Keys);
  }

  lemma {:induction false} PathDistinct(info: Infos, p: seq<int>)
    requires IsPath(info, p)
    ensures Distinct(p) && forall i :: 0 <= i < |p| ==> p[i] in info
  {
    var n := |p| - 1;
    if n > 0 {
      PathDistinct(info, p[..n]);
      assert IsChild(info, p[n], p[n - 1]);
      forall j | 0 <= j < n ensures p[j] != p[n] {
        if j > 0 { assert IsChild(info, p[j], p[j - 1]); }
      }
    }
  }

  lemma {:induction false} DistinctBound(s: seq<int>, keys: set<int>)
    requires Distinct(s) && forall i :: 0 <= i < |s| ==> s[i] in keys
    ensures |s| <= |keys|
  {
    if s != [] {
      DistinctBound(s[1..], keys - {s[0]});
    }
  }

  lemma PathExtends(info: Infos, path: seq<int>, c: int)
    requires IsPath(info, path) && IsChild(info, c, path[|path| - 1])
    ensures IsPath(info, path + [c])
  {
  }

  /** `list` holds siblings that sit right below `path` (or roots, below the empty path). */
  ghost predicate Below(info: Infos, path: seq<int>, list: seq<int>) {
    forall i :: 0 <= i < |list| ==> IsPath(info, path + [list[i]])
  }

  lemma ChildrenBelow(info: Infos, children: Children, path: seq<int>, x: int)
    requires Linked(info, children) && IsPath(info, path + [x]) && x in info
    ensures Below(info, path + [x], children[x]) && |path| < |info|
  {
    PathBounded(info, path + [x]);
    forall i | 0 <= i < |children[x]| ensures IsPath(info, path + [x] + [children[x][i]]) {
      assert children[x][i] in children[x];
      PathExtends(info, path + [x], children[x][i]);
    }
  }

  lemma LastInInfo(info: Infos, p: seq<int>)
    requires IsPath(info, p)
    ensures p[|p| - 1] in info
  {
    if |p| > 1 { assert IsChild(info, p[|p| - 1], p[|p| - 2]); }
  }

  // ---- sorting siblings -----------------------------------------------------------

  function Insert(info: Infos, x: int, list: seq<int>): (r: seq<int>)
    requires x in info && forall i :: 0 <= i < |list| ==> list[i] in info
    ensures multiset(r) == multiset(list) + multiset{x}
    ensures |r| == |list| + 1 && forall i :: 0 <= i < |r| ==> r[i] == x || r[i] in list
  {
    if list == [] || Before(info, x, list[0]) then assert [x] + list == [x] + list; [x] + list
    else
      assert list == [list[0]] + list[1..];
      [list[0]] + Insert(info, x, list[1..])
  }

  function SortSiblings(info: Infos, list: seq<int>): (r: seq<int>)
    requires forall i :: 0 <= i < |list| ==> list[i] in info
    ensures multiset(r) == multiset(list)
    ensures forall i :: 0 <= i < |r| ==> r[i] in info
  {
    if list == [] then []
    else
      assert list == [list[0]] + list[1..];
      Insert(info, list[0], SortSiblings(info, list[1..]))
  }

  lemma {:induction false} InsertOrders(info: Infos, x: int, list: seq<int>)
    requires x in info && Ordered(info, list) && x !in list
    ensures Ordered(info, Insert(info, x, list))
  {
    if list != [] && !Before(info, x, list[0]) {
      InsertOrders(info, x, list[1..]);
      var r := Insert(info, x, list[1..]);
      forall i | 0 <= i < |r| ensures Before(info, list[0], r[i]) {
        assert r[i] == x || r[i] in list[1..];
      }
    }
  }

  lemma {:induction false} SortOrders(info: Infos, list: seq<int>)
    requires Distinct(list) && forall i :: 0 <= i < |list| ==> list[i] in info
    ensures Ordered(info, SortSiblings(info, list))
  {
    if list != [] {
      SortOrders(info, list[1..]);
      var rest := SortSiblings(info, list[1..]);
      assert list[0] !in multiset(list[1..]);
      assert list[0] !in multiset(rest);
      InsertOrders(info, list[0], rest);
    }
  }

  /** Sorting leaves a sorted list alone. */
  lemma {:induction false} SortIsStable(info: Infos, list: seq<int>)
    requires Ordered(info, list)
    ensures SortSiblings(info, list) == list
  {
    if list != [] {
      SortIsStable(info, list[1..]);
    }
  }

  lemma SameElements(a: seq<int>, b: seq<int>)
    requires multiset(a) == multiset(b)
    ensures |a| == |b| && forall x :: x in a <==> x in b
    ensures Distinct(a) ==> Distinct(b)
  {
    assert |a| == |multiset(a)| == |multiset(b)| == |b|;
    forall x ensures x in a <==> x in b {
      assert x in multiset(a) <==> x in multiset(b);
    }
    if Distinct(a) {
      forall i, j | 0 <= i < j < |b| ensures b[i] != b[j] {
        if b[i] == b[j] {
          CountTwo(b, i, j);
          CountDistinct(a, b[i]);
        }
      }
    }
  }

  lemma CountTwo(s: seq<int>, i: nat, j: nat)
    requires i < j < |s| && s[i] == s[j]
    ensures multiset(s)[s[i]] >= 2
  {
    assert s == s[..j] + [s[j]] + s[j + 1..];
    assert s[i] in s[..j];
  }

  // ---- what the forest contains -------------------------------------------------------

  /** The nodes of the forest below `list`, parents before children. */
  ghost function Preorder(info: Infos, children: Children, list: seq<int>, path: seq<int>): seq<int>
    requires Linked(info, children) && Below(info, path, list)
    decreases |info| - |path|, |list|
  {
    if list == [] then []
    else
      LastInInfo(info, path + [list[0]]);
      ChildrenBelow(info, children, path, list[0]);
      [list[0]] + Preorder(info, children, children[list[0]], path + [list[0]])
        + Preorder(info, children, list[1..], path)
  }

  /** Everything in the forest hangs from a root. */
  lemma {:induction false} PreorderSound(info: Infos, children: Children, list: seq<int>, path: seq<int>, id: int)
    requires Linked(info, children) && Below(info, path, list)
    requires id in Preorder(info, children, list, path)
    ensures exists p :: IsPath(info, p) && p[|p| - 1] == id
    decreases |info| - |path|, |list|
  {
    var x := list[0];
    LastInInfo(info, path + [x]);
    ChildrenBelow(info, children, path, x);
    if id == x {
      assert (path + [x])[|path + [x]| - 1] == id;
    } else if id in Preorder(info, children, children[x], path + [x]) {
      PreorderSound(info, children, children[x], path + [x], id);
    } else {
      PreorderSound(info, children, list[1..], path, id);
    }
  }

  ghost predicate PassesThrough(p: seq<int>, path: seq<int>, list: seq<int>) {
    |path| < |p| && path == p[..|path|] && p[|path|] in list
  }

  /** A path through `x` that goes on goes through one of the children of `x`. */
  lemma OneLevelDown(info: Infos, path: seq<int>, x: int, kids: seq<int>, p: seq<int>)
    requires IsPath(info, p) && p[|p| - 1] != x && ChildList(info, kids, x)
    ensures PassesThrough(p, path, [x]) <==> PassesThrough(p, path + [x], kids)
  {
    if PassesThrough(p, path, [x]) {
      assert IsChild(info, p[|path| + 1], p[|path|]);
      assert p[..|path| + 1] == path + [x];
    }
  }

  lemma FirstOrRest(list: seq<int>, path: seq<int>, p: seq<int>)
    requires list != [] && Distinct(list)
    ensures PassesThrough(p, path, list) <==> PassesThrough(p, path, [list[0]]) || PassesThrough(p, path, list[1..])
    ensures !(PassesThrough(p, path, [list[0]]) && PassesThrough(p, path, list[1..]))
  {
    assert list == [list[0]] + list[1..];
    assert list[0] !in list[1..];
  }

  /** A node occurs once if its path passes through the list, and not at all otherwise. */
  lemma {:induction false} PreorderCount(info: Infos, children: Children, list: seq<int>, path: seq<int>, p: seq<int>)
    requires Linked(info, children) && Below(info, path, list) && Distinct(list) && IsPath(info, p)
    ensures multiset(Preorder(info, children, list, path))[p[|p| - 1]] == if PassesThrough(p, path, list) then 1 else 0
    decreases |info| - |path|, |list|
  {
    if list != [] {
      var x, id := list[0], p[|p| - 1];
      LastInInfo(info, path + [x]);
      ChildrenBelow(info, children, path, x);
      assert ChildList(info, children[x], x);
      PreorderCount(info, children, children[x], path + [x], p);
      PreorderCount(info, children, list[1..], path, p);
      FirstOrRest(list, path, p);
      if x == id {
        PathUnique(info, p, path + [x]);
      } else {
        OneLevelDown(info, path, x, children[x], p);
      }
    }
  }

  // ---- order below a list of siblings ---------------------------------------------

  ghost predicate Under(info: Infos, path: seq<int>, list: seq<int>, id: int) {
    exists p :: IsPath(info, p) && PassesThrough(p, path, list) && p[|p| - 1] == id
  }

  /** Every node of the subtrees hanging from `list` has its children in order. */
  ghost predicate Tidy(info: Infos, children: Children, path: seq<int>, list: seq<int>) {
    forall id :: id in children && Under(info, path, list, id) ==> Ordered(info, children[id])
  }

  /** No children array that was in order has changed. */
  ghost predicate KeepsOrdered(info: Infos, before: Children, after: Children) {
    before.Keys == after.Keys && forall id :: id in before && Ordered(info, before[id]) ==> after[id] == before[id]
  }

  lemma TidyKept(info: Infos, before: Children, after: Children, path: seq<int>, list: seq<int>)
    requires Tidy(info, before, path, list) && KeepsOrdered(info, before, after)
    ensures Tidy(info, after, path, list)
  {
  }

  lemma TidyOne(info: Infos, children: Children, path: seq<int>, x: int, kids: seq<int>)
    requires ChildList(info, kids, x) && Tidy(info, children, path + [x], kids)
    requires x in children ==> Ordered(info, children[x])
    ensures Tidy(info, children, path, [x])
  {
    forall id | id in children && Under(info, path, [x], id) ensures Ordered(info, children[id]) {
      var p :| IsPath(info, p) && PassesThrough(p, path, [x]) && p[|p| - 1] == id;
      if id != x {
        OneLevelDown(info, path, x, kids, p);
        assert Under(info, path + [x], kids, id);
      }
    }
  }

  lemma TidySome(info: Infos, children: Children, path: seq<int>, list: seq<int>, parts: seq<int>)
    requires forall x :: x in parts ==> x in list || Tidy(info, children, path, [x])
    requires Tidy(info, children, path, list)
    ensures Tidy(info, children, path, parts)
  {
    forall id | id in children && Under(info, path, parts, id) ensures Ordered(info, children[id]) {
      var p :| IsPath(info, p) && PassesThrough(p, path, parts) && p[|p| - 1] == id;
      if p[|path|] in list {
        assert PassesThrough(p, path, list) && Under(info, path, list, id);
      } else {
        assert PassesThrough(p, path, [p[|path|]]) && Under(info, path, [p[|path|]], id);
      }
    }
  }

  /** Two listings of the same node's children have the same elements. */
  lemma SameMembers(info: Infos, a: seq<int>, b: seq<int>, x: int)
    requires ChildList(info, a, x) && ChildList(info, b, x)
    ensures multiset(a) == multiset(b)
  {
    forall c ensures multiset(a)[c] == multiset(b)[c] {
      CountDistinct(a, c);
      CountDistinct(b, c);
      assert c in a <==> IsChild(info, c, x);
    }
  }

  lemma LinkedReplaced(info: Infos, children: Children, x: int, kids: seq<int>)
    requires Linked(info, children) && x in info && multiset(kids) == multiset(children[x])
    ensures Linked(info, children[x := kids])
  {
    SameElements(children[x], kids);
    assert ChildList(info, children[x], x);
    assert ChildList(info, kids, x);
  }

  // ---- the builder -------------------------------------------------------------------------

  ghost predicate UniqueIds(rows: seq<CategoryRow>) {
    forall i, j :: 0 <= i < j < |rows| ==> rows[i].id != rows[j].id
  }

  /** The fields of a node are those of its row, with a missing sort order counted as zero. */
  ghost predicate Keeps(node: Info, r: CategoryRow) {
    && node.parentId == r.parentId && Some(node.name) == r.name
    && node.sortOrder == (match r.sortOrder case Some(n) => n case None => 0)
  }

  /** The order promised on the rows themselves: sort order, then id. */
  ghost predicate Precedes(a: CategoryRow, b: CategoryRow) {
    var x := if a.sortOrder.Some? then a.sortOrder.value else 0;
    var y := if b.sortOrder.Some? then b.sortOrder.value else 0;
    x < y || (x == y && a.id < b.id)
  }

  ghost predicate RowsInOrder(rows: seq<CategoryRow>, ids: seq<int>) {
    forall m, n, i, j :: 0 <= m < n < |ids| && IsRow(rows, i, ids[m]) && IsRow(rows, j, ids[n]) ==>
      Precedes(rows[i], rows[j])
  }

  predicate IsRow(rows: seq<CategoryRow>, i: int, id: int) {
    0 <= i < |rows| && rows[i].id == id
  }

  /** A row has a node if and only if it has a name that is not empty. */
  ghost predicate NodesOf(rows: seq<CategoryRow>, info: Infos) {
    && (forall id :: id in info <==> exists i :: 0 <= i < |rows| && rows[i].id == id && HasName(rows[i]))
    && (forall i :: 0 <= i < |rows| && HasName(rows[i]) ==> Keeps(info[rows[i].id], rows[i]))
  }

  ghost predicate HasName(r: CategoryRow) {
    r.name != None && r.name != Some("")
  }

  lemma OrderedByRows(rows: seq<CategoryRow>, info: Infos, ids: seq<int>)
    requires UniqueIds(rows) && NodesOf(rows, info) && Ordered(info, ids)
    ensures RowsInOrder(rows, ids)
  {
    forall m, n, i, j | 0 <= m < n < |ids| && IsRow(rows, i, ids[m]) && IsRow(rows, j, ids[n])
      ensures Precedes(rows[i], rows[j])
    {
      assert ids[m] in info && ids[n] in info && Before(info, ids[m], ids[n]);
    }
  }

  /** One node, without children, for every named row; `order` is the map's insertion order. */
  method AddNodes(rows: seq<CategoryRow>) returns (info: Infos, order: seq<int>)
    requires UniqueIds(rows)
    ensures NodesOf(rows, info)
    ensures Distinct(order) && forall id :: id in order <==> id in info
  {
    info, order := map[], [];
    var i := 0;
    while i < |rows|
      invariant 0 <= i <= |rows|
      invariant forall id :: id in info <==> exists k :: 0 <= k < i && Named(rows[k]) && rows[k].id == id
      invariant forall k :: 0 <= k < i && Named(rows[k]) ==> info[rows[k].id] == InfoOf(rows[k])
      invariant Distinct(order) && forall id :: id in order <==> id in info
    {
      if Named(rows[i]) {
        assert rows[i].id !in info && rows[i].id !in order;
        info := info[rows[i].id := InfoOf(rows[i])];
        order := order + [rows[i].id];
      }
      i := i + 1;
    }
    NodesByName(rows, info);
  }

  lemma NodesByName(rows: seq<CategoryRow>, info: Infos)
    requires forall id :: id in info <==> exists k :: 0 <= k < |rows| && Named(rows[k]) && rows[k].id == id
    requires forall k :: 0 <= k < |rows| && Named(rows[k]) ==> info[rows[k].id] == InfoOf(rows[k])
    ensures NodesOf(rows, info)
  {
    assert forall k :: 0 <= k < |rows| ==> (Named(rows[k]) <==> HasName(rows[k]));
  }

  /** Hangs every node below its parent; nodes whose parent has no node are dropped. */
  method LinkNodes(info: Infos, order: seq<int>) returns (roots: seq<int>, children: Children)
    requires Distinct(order) && forall id :: id in order <==> id in info
    ensures Linked(info, children)
    ensures Distinct(roots) && forall id :: id in roots <==> IsRoot(info, id)
  {
    roots, children := [], map id | id in info :: [];
    var i := 0;
    while i < |order|
      invariant 0 <= i <= |order| && children.Keys == info.Keys
      invariant Distinct(roots) && forall id :: id in roots <==> id in order[..i] && IsRoot(info, id)
      invariant forall p :: p in info ==> Distinct(children[p])
      invariant forall p, c :: p in info ==> (c in children[p] <==> c in order[..i] && IsChild(info, c, p))
    {
      var id := order[i];
      assert id in order && id in info && id !in order[..i];
      assert order[..i + 1] == order[..i] + [id];
      if info[id].parentId.None? || info[id].parentId.value == 0 {
        roots := roots + [id];
      } else if info[id].parentId.value in info {
        var p := info[id].parentId.value;
        children := children[p := children[p] + [id]];
      }
      i := i + 1;
    }
    assert order[..i] == order;
  }

  /**
   Sorts a list of siblings and, recursively, the children arrays of everything below
   it.  The ghost path is the way down from a root; it cannot be longer than the number
   of nodes, which is why the recursion ends even though the rows may contain cycles.
   */
  method SortCategoryTree(info: Infos, children: Children, list: seq<int>, ghost path: seq<int>)
    returns (sorted: seq<int>, after: Children)
    requires Linked(info, children) && Below(info, path, list) && Distinct(list)
    ensures Linked(info, after) && KeepsOrdered(info, children, after)
    ensures multiset(sorted) == multiset(list) && Ordered(info, sorted)
    ensures Ordered(info, list) ==> sorted == list
    ensures Tidy(info, after, path, list)
    decreases |info| - |path|
  {
    sorted := SortedList(info, list, path);
    after := children;
    var i := 0;
    while i < |sorted|
      invariant 0 <= i <= |sorted| && Linked(info, after)
      invariant KeepsOrdered(info, children, after)
      invariant Tidy(info, after, path, sorted[..i])
    {
      var next := SortBelow(info, after, sorted[i], path);
      TidyStep(info, after, next, path, sorted, i);
      KeepsTwice(info, children, after, next);
      after := next;
      i := i + 1;
    }
    TidySome(info, after, path, sorted[..i], list);
  }

  method SortedList(info: Infos, list: seq<int>, ghost path: seq<int>) returns (sorted: seq<int>)
    requires Below(info, path, list) && Distinct(list)
    ensures multiset(sorted) == multiset(list) && Ordered(info, sorted)
    ensures forall i :: 0 <= i < |sorted| ==> sorted[i] in list
    ensures forall x :: x in list ==> x in sorted
    ensures Ordered(info, list) ==> sorted == list
  {
    forall i | 0 <= i < |list| ensures list[i] in info {
      LastInInfo(info, path + [list[i]]);
    }
    sorted := SortSiblings(info, list);
    SortOrders(info, list);
    SameElements(list, sorted);
    forall i | 0 <= i < |sorted| ensures sorted[i] in list {
      assert sorted[i] in sorted;
    }
    if Ordered(info, list) { SortIsStable(info, list); }
  }

  lemma TidyStep(info: Infos, before: Children, after: Children, path: seq<int>, sorted: seq<int>, i: nat)
    requires i < |sorted| && KeepsOrdered(info, before, after)
    requires Tidy(info, before, path, sorted[..i]) && Tidy(info, after, path, [sorted[i]])
    ensures Tidy(info, after, path, sorted[..i + 1])
  {
    TidyKept(info, before, after, path, sorted[..i]);
    TidySome(info, after, path, sorted[..i], sorted[..i + 1]);
  }

  lemma KeepsTwice(info: Infos, a: Children, b: Children, c: Children)
    requires KeepsOrdered(info, a, b) && KeepsOrdered(info, b, c)
    ensures KeepsOrdered(info, a, c)
  {
  }

  /** The recursive call for one sibling, whose children array it replaces. */
  method SortBelow(info: Infos, children: Children, x: int, ghost path: seq<int>) returns (after: Children)
    requires Linked(info, children) && IsPath(info, path + [x])
    ensures Linked(info, after) && KeepsOrdered(info, children, after)
    ensures Tidy(info, after, path, [x])
    decreases |info| - |path|, 0
  {
    LastInInfo(info, path + [x]);
    ChildrenBelow(info, children, path, x);
    assert ChildList(info, children[x], x);
    var sorted, mid := SortCategoryTree(info, children, children[x], path + [x]);
    after := mid[x := sorted];
    ReplacedBelow(info, children, mid, x, sorted, path);
  }

  lemma ReplacedBelow(info: Infos, children: Children, mid: Children, x: int, sorted: seq<int>, path: seq<int>)
    requires Linked(info, children) && Linked(info, mid) && KeepsOrdered(info, children, mid) && x in info
    requires multiset(sorted) == multiset(children[x]) && Ordered(info, sorted)
    requires Ordered(info, children[x]) ==> sorted == children[x]
    requires Tidy(info, mid, path + [x], children[x])
    ensures Linked(info, mid[x := sorted]) && KeepsOrdered(info, children, mid[x := sorted])
    ensures Tidy(info, mid[x := sorted], path, [x])
  {
    assert ChildList(info, children[x], x) && ChildList(info, mid[x], x);
    SameMembers(info, children[x], mid[x], x);
    LinkedReplaced(info, mid, x, sorted);
    assert Tidy(info, mid[x := sorted], path + [x], children[x]);
    TidyOne(info, mid[x := sorted], path, x, children[x]);
  }

  lemma RootsBelow(info: Infos, roots: seq<int>)
    requires forall id :: id in roots <==> IsRoot(info, id)
    ensures Below(info, [], roots)
  {
    forall i | 0 <= i < |roots| ensures IsPath(info, [] + [roots[i]]) {
      assert roots[i] in roots;
    }
  }

  /** Going up from `id` through named rows ends at a parentless row. */
  ghost predicate Anchored(info: Infos, id: int) {
    exists steps :: ChainEnds(info, id, steps)
  }

  /** A node is in the forest once if its chain of parents ends, and not at all otherwise. */
  lemma ForestContents(info: Infos, children: Children, roots: seq<int>, id: int)
    requires Linked(info, children) && Distinct(roots) && Below(info, [], roots)
    requires forall r :: r in roots <==> IsRoot(info, r)
    ensures multiset(Preorder(info, children, roots, []))[id] == if Anchored(info, id) then 1 else 0
  {
    if Anchored(info, id) {
      var steps :| ChainEnds(info, id, steps);
      var p := ChainHasPath(info, id, steps);
      PreorderCount(info, children, roots, [], p);
      assert PassesThrough(p, [], roots);
    } else if id in Preorder(info, children, roots, []) {
      PreorderSound(info, children, roots, [], id);
      var p :| IsPath(info, p) && p[|p| - 1] == id;
      PathHasChain(info, p);
      assert false;
    }
  }

  lemma AnchoredIsOrdered(info: Infos, children: Children, roots: seq<int>, id: int)
    requires Linked(info, children) && Tidy(info, children, [], roots) && Anchored(info, id)
    requires forall r :: r in roots <==> IsRoot(info, r)
    ensures id in children && Ordered(info, children[id])
  {
    var steps :| ChainEnds(info, id, steps);
    var p := ChainHasPath(info, id, steps);
    assert PassesThrough(p, [], roots) && Under(info, [], roots, id);
  }

  /** The roots are the nodes without a parent, a parent of zero counting as none. */
  ghost predicate AreRoots(info: Infos, roots: seq<int>) {
    forall id :: id in roots <==> id in info && (info[id].parentId == None || info[id].parentId == Some(0))
  }

  /** In the forest, every list of siblings follows the rows' order. */
  ghost predicate SiblingsInOrder(rows: seq<CategoryRow>, info: Infos, children: Children) {
    forall id :: Anchored(info, id) ==>
      id in children && Ordered(info, children[id]) && RowsInOrder(rows, children[id])
  }

  /** A node occurs in the forest once if its chain of parents ends, and not at all otherwise. */
  ghost predicate EachAnchoredOnce(info: Infos, children: Children, roots: seq<int>)
    requires Linked(info, children) && Below(info, [], roots)
  {
    forall id :: multiset(Preorder(info, children, roots, []))[id] == if Anchored(info, id) then 1 else 0
  }

  /**
   The whole builder, for any rows with unique ids: the recursion ends, a named row
   occurs in the forest exactly once if its chain of named parents ends at a parentless
   row and otherwise not at all, and the roots and all siblings in the forest are in the
   order of their rows.
   */
  method BuildCatalogCategoryTree(rows: seq<CategoryRow>)
    returns (roots: seq<int>, info: Infos, children: Children)
    requires UniqueIds(rows)
    ensures NodesOf(rows, info)
    ensures Linked(info, children) && Below(info, [], roots) && Ordered(info, roots) && RowsInOrder(rows, roots)
    ensures AreRoots(info, roots)
    ensures SiblingsInOrder(rows, info, children)
    ensures EachAnchoredOnce(info, children, roots)
  {
    var order, unsorted, unsortedChildren;
    info, order := AddNodes(rows);
    unsorted, unsortedChildren := LinkNodes(info, order);
    RootsBelow(info, unsorted);
    roots, children := SortCategoryTree(info, unsortedChildren, unsorted, []);
    SortedForest(rows, info, unsorted, roots, children);
  }

  lemma SortedForest(rows: seq<CategoryRow>, info: Infos, unsorted: seq<int>, roots: seq<int>, children: Children)
    requires UniqueIds(rows) && NodesOf(rows, info) && Linked(info, children) && Ordered(info, roots)
    requires Distinct(unsorted) && forall id :: id in unsorted <==> IsRoot(info, id)
    requires multiset(roots) == multiset(unsorted) && Tidy(info, children, [], unsorted)
    ensures Below(info, [], roots) && RowsInOrder(rows, roots) && AreRoots(info, roots)
    ensures SiblingsInOrder(rows, info, children)
    ensures EachAnchoredOnce(info, children, roots)
  {
    SameElements(unsorted, roots);
    RootsBelow(info, roots);
    OrderedByRows(rows, info, roots);
    forall id | Anchored(info, id)
      ensures id in children && Ordered(info, children[id]) && RowsInOrder(rows, children[id])
    {
      AnchoredIsOrdered(info, children, unsorted, id);
      OrderedByRows(rows, info, children[id]);
    }
    forall id ensures multiset(Preorder(info, children, roots, []))[id] == if Anchored(info, id) then 1 else 0 {
      ForestContents(info, children, roots, id);
    }
  }
}
