/**
 Merging a guest's cart into a user's cart at login.  Carts may carry both a user and a
 guest session, because assigning a guest cart to a user leaves its session in place.
 */
module CartMerge {
  import opened Common

  /** Items are unique per variant. */
  datatype Cart = Cart(userId: Option<int>, guestSession: Option<int>, items: map<nat, nat>, updatedAt: int)

  type Carts = map<nat, Cart>

  datatype Line = Line(variantId: nat, quantity: nat)

  predicate OfGuest(t: Carts, session: int, id: nat) {
    id in t && t[id].guestSession == Some(session)
  }

  predicate OfUser(t: Carts, user: int, id: nat) {
    id in t && t[id].userId == Some(user)
  }

  /** The most recently updated of the carts that qualify. */
  predicate IsGuestCart(t: Carts, session: int, id: nat) {
    && OfGuest(t, session, id)
    && forall other :: other in t && OfGuest(t, session, other) ==> t[other].updatedAt <= t[id].updatedAt
  }

  predicate IsUserCart(t: Carts, user: int, id: nat) {
    && OfUser(t, user, id)
    && forall other :: other in t && OfUser(t, user, other) ==> t[other].updatedAt <= t[id].updatedAt
  }

  function Units(items: map<nat, nat>, v: nat): nat {
    if v in items then items[v] else 0
  }

  /** The pointwise sum of two carts. */
  function Combined(a: map<nat, nat>, b: map<nat, nat>): map<nat, nat> {
    map v | v in a.Keys + b.Keys :: Units(a, v) + Units(b, v)
  }

  /** Total quantity, summed over the variants in `keys`. */
  ghost function TotalOver(items: map<nat, nat>, keys: set<nat>): nat
    decreases |keys|
  {
    if keys == {} then 0
    else
      var v :| v in keys;
      Units(items, v) + TotalOver(items, keys - {v})
  }

  ghost function Total(items: map<nat, nat>): nat {
    TotalOver(items, items.Keys)
  }

  lemma {:induction false} TotalTakes(items: map<nat, nat>, keys: set<nat>, v: nat)
    requires v in keys
    ensures TotalOver(items, keys) == Units(items, v) + TotalOver(items, keys - {v})
    decreases |keys|
  {
    var u :| u in keys && TotalOver(items, keys) == Units(items, u) + TotalOver(items, keys - {u});
    if u != v {
      TotalTakes(items, keys - {u}, v);
      TotalTakes(items, keys - {v}, u);
      assert keys - {u} - {v} == keys - {v} - {u};
    }
  }

  lemma {:induction false} TotalIgnoresAbsent(items: map<nat, nat>, keys: set<nat>)
    requires items.Keys <= keys
    ensures TotalOver(items, keys) == Total(items)
    decreases |keys|
  {
    var rest := keys - items.Keys;
    if rest == {} {
      assert keys == items.Keys;
    } else {
      var v :| v in rest;
      TotalTakes(items, keys, v);
      TotalIgnoresAbsent(items, keys - {v});
    }
  }

  lemma {:induction false} TotalOfSum(a: map<nat, nat>, b: map<nat, nat>, keys: set<nat>)
    requires keys <= a.Keys + b.Keys
    ensures TotalOver(Combined(a, b), keys) == TotalOver(a, keys) + TotalOver(b, keys)
    decreases |keys|
  {
    if keys != {} {
      var v :| v in keys;
      TotalTakes(a, keys, v);
      TotalTakes(b, keys, v);
      TotalTakes(Combined(a, b), keys, v);
      TotalOfSum(a, b, keys - {v});
    }
  }

  /** No unit is lost or invented by a merge. */
  lemma CombinedConservesTotal(a: map<nat, nat>, b: map<nat, nat>)
    ensures Total(Combined(a, b)) == Total(a) + Total(b)
  {
    var keys := a.Keys + b.Keys;
    assert Combined(a, b).Keys == keys;
    TotalOfSum(a, b, keys);
    TotalIgnoresAbsent(a, keys);
    TotalIgnoresAbsent(b, keys);
  }

  /** A list of cart lines shows a cart if it names every variant of the cart once, with its quantity. */
  ghost predicate Shows(lines: seq<Line>, items: map<nat, nat>) {
    && DistinctLines(lines)
    && (forall i :: 0 <= i < |lines| ==> lines[i].variantId in items && lines[i].quantity == items[lines[i].variantId])
    && (forall v {:trigger HasLine(lines, v)} :: v in items ==> HasLine(lines, v))
  }

  ghost predicate DistinctLines(lines: seq<Line>) {
    forall i, j :: 0 <= i < j < |lines| ==> lines[i].variantId != lines[j].variantId
  }

  ghost predicate HasLine(lines: seq<Line>, v: nat) {
    exists i :: 0 <= i < |lines| && lines[i].variantId == v
  }

  /** The items after one upsert per line, in order. */
  function Upserted(items: map<nat, nat>, lines: seq<Line>): map<nat, nat>
    decreases |lines|
  {
    if lines == [] then items
    else Upserted(items[lines[0].variantId := lines[0].quantity], lines[1..])
  }

  lemma {:induction false} UpsertedLookup(items: map<nat, nat>, lines: seq<Line>)
    requires DistinctLines(lines)
    ensures forall i :: 0 <= i < |lines| ==>
      lines[i].variantId in Upserted(items, lines) && Upserted(items, lines)[lines[i].variantId] == lines[i].quantity
    ensures forall v :: !HasLine(lines, v) ==>
      (v in Upserted(items, lines) <==> v in items) && (v in items ==> Upserted(items, lines)[v] == items[v])
    decreases |lines|
  {
    if lines != [] {
      var next := items[lines[0].variantId := lines[0].quantity];
      UpsertedLookup(next, lines[1..]);
      assert !HasLine(lines[1..], lines[0].variantId);
      forall i | 0 <= i < |lines|
        ensures lines[i].variantId in Upserted(items, lines)
        ensures Upserted(items, lines)[lines[i].variantId] == lines[i].quantity
      {
        if i > 0 {
          assert lines[i] == lines[1..][i - 1];
        }
      }
      forall v | !HasLine(lines, v)
        ensures (v in Upserted(items, lines) <==> v in items) && (v in items ==> Upserted(items, lines)[v] == items[v])
      {
        assert lines[0].variantId != v && !HasLine(lines[1..], v);
      }
    }
  }

  /** The guest's lines with the user's quantity of the same variant added. */
  ghost predicate AreMerged(merged: seq<Line>, lines: seq<Line>, mine: map<nat, nat>) {
    && |merged| == |lines|
    && forall i :: 0 <= i < |lines| ==>
         merged[i] == Line(lines[i].variantId, Units(mine, lines[i].variantId) + lines[i].quantity)
  }

  lemma UpsertsCombine(theirs: map<nat, nat>, mine: map<nat, nat>, lines: seq<Line>, merged: seq<Line>)
    requires Shows(lines, theirs) && AreMerged(merged, lines, mine)
    ensures Upserted(mine, merged) == Combined(mine, theirs)
  {
    forall v ensures v in Upserted(mine, merged) <==> v in mine || v in theirs
             ensures v in Upserted(mine, merged) ==> Upserted(mine, merged)[v] == Units(mine, v) + Units(theirs, v) {
      UpsertsCombineAt(theirs, mine, lines, merged, v);
    }
  }

  lemma UpsertsCombineAt(theirs: map<nat, nat>, mine: map<nat, nat>, lines: seq<Line>, merged: seq<Line>, v: nat)
    requires Shows(lines, theirs) && AreMerged(merged, lines, mine)
    ensures v in Upserted(mine, merged) <==> v in mine || v in theirs
    ensures v in Upserted(mine, merged) ==> Upserted(mine, merged)[v] == Units(mine, v) + Units(theirs, v)
  {
    UpsertedLookup(mine, merged);
    if v in theirs {
      assert HasLine(lines, v);
      var i :| 0 <= i < |lines| && lines[i].variantId == v;
      assert merged[i].variantId == v;
    } else {
      assert !HasLine(merged, v);
    }
  }

  /** The variants of the guest that the user has none of. */
  function NewVariants(theirs: map<nat, nat>, mine: map<nat, nat>): set<nat> {
    set v | v in theirs && Units(mine, v) == 0
  }

  /** Adds up both carts line by line and counts the guest's variants that the user has none of. */
  method MergeItems(lines: seq<Line>, mine: map<nat, nat>, ghost theirs: map<nat, nat>)
    returns (merged: seq<Line>, mergeCount: nat)
    requires Shows(lines, theirs)
    ensures AreMerged(merged, lines, mine)
    ensures mergeCount == |NewVariants(theirs, mine)|
  {
    merged, mergeCount := [], 0;
    ghost var counted: set<nat> := {};
    for k := 0 to |lines|
      invariant AreMerged(merged, lines[..k], mine)
      invariant mergeCount == |counted| && counted <= NewVariants(theirs, mine)
      invariant forall i :: 0 <= i < |lines| ==>
        (lines[i].variantId in counted <==> i < k && Units(mine, lines[i].variantId) == 0)
    {
      var guestItem := lines[k];
      var existing := if guestItem.variantId in mine then mine[guestItem.variantId] else 0;
      merged := merged + [Line(guestItem.variantId, existing + guestItem.quantity)];
      if existing == 0 {
        mergeCount := mergeCount + 1;
        counted := counted + {guestItem.variantId};
      }
    }
    assert lines[..|lines|] == lines;
    assert NewVariants(theirs, mine) <= counted by {
      forall v | v in NewVariants(theirs, mine) ensures v in counted {
        assert HasLine(lines, v);
      }
    }
    assert NewVariants(theirs, mine) == counted;
  }

  function WithItems(t: Carts, id: nat, items: map<nat, nat>): Carts
    requires id in t
  {
    t[id := t[id].(items := items)]
  }

  function WithoutSession(t: Carts, session: int): Carts {
    map c | c in t && !OfGuest(t, session, c) :: t[c]
  }

  /** The cart belongs to the user and is otherwise as it was, session and items included. */
  ghost predicate IsHandedTo(after: Cart, before: Cart, userId: int, now: int) {
    && after.userId == Some(userId) && after.guestSession == before.guestSession
    && after.items == before.items && after.updatedAt == now
  }

  /** The guest has the variant in the cart, and the user has none of it. */
  predicate IsNews(v: nat, mine: map<nat, nat>, theirs: map<nat, nat>) {
    v in theirs && (v !in mine || mine[v] == 0)
  }

  ghost predicate CountsNews(count: nat, mine: map<nat, nat>, theirs: map<nat, nat>) {
    exists news: set<nat> :: |news| == count && forall v :: v in news <==> IsNews(v, mine, theirs)
  }

  /** Every variant of either cart, with the quantities of both. */
  ghost predicate SumsUp(merged: map<nat, nat>, mine: map<nat, nat>, theirs: map<nat, nat>) {
    && merged.Keys == mine.Keys + theirs.Keys
    && forall v :: v in merged ==>
         merged[v] == (if v in mine then mine[v] else 0) + (if v in theirs then theirs[v] else 0)
  }

  class CartService {
    var carts: Carts

    constructor (carts: Carts)
      ensures this.carts == carts
    {
      this.carts := carts;
    }

    /** One upsert per merged item. */
    method UpdateCart(cartId: nat, lines: seq<Line>)
      requires cartId in carts
      modifies this
      ensures carts == WithItems(old(carts), cartId, Upserted(old(carts)[cartId].items, lines))
    {
      ghost var before := carts;
      for k := 0 to |lines|
        invariant cartId in carts && carts == WithItems(before, cartId, carts[cartId].items)
        invariant Upserted(carts[cartId].items, lines[k..]) == Upserted(before[cartId].items, lines)
      {
        var cart := carts[cartId];
        carts := carts[cartId := cart.(items := cart.items[lines[k].variantId := lines[k].quantity])];
        assert lines[k..][1..] == lines[k + 1..];
      }
    }

    method RemoveByGuestSession(session: int)
      modifies this
      ensures carts == WithoutSession(old(carts), session)
      ensures forall c :: c in carts <==> c in old(carts) && old(carts)[c].guestSession != Some(session)
      ensures forall c :: c in carts ==> carts[c] == old(carts)[c]
    {
      carts := map c | c in carts && !OfGuest(carts, session, c) :: carts[c];
    }

    /**
     `mergeCart`; `guest` and `user` are the answers to the two cart queries and `lines` the
     guest cart's items as listed by the first.  With both carts found, the user's cart
     becomes the pointwise sum, every cart of the guest session is deleted, and the count
     is that of the guest's variants the user had none of.
     */
    method MergeCart(session: int, userId: int, guest: Option<nat>, lines: seq<Line>, user: Option<nat>, now: int)
      returns (mergeCount: nat)
      requires if guest.Some? then IsGuestCart(carts, session, guest.value) && Shows(lines, carts[guest.value].items)
               else forall c :: c in carts ==> !OfGuest(carts, session, c)
      requires if user.Some? then IsUserCart(carts, userId, user.value)
               else forall c :: c in carts ==> !OfUser(carts, userId, c)
      modifies this
      ensures guest.None? ==> carts == old(carts) && mergeCount == 0
      ensures guest.Some? && user.None? ==> carts == Assigned(old(carts), guest.value, userId, now)
      ensures guest.Some? && user.None? ==> mergeCount == |lines|
      ensures guest.Some? && user.None? ==>
        carts.Keys == old(carts).Keys && (forall c :: c in carts && c != guest.value ==> carts[c] == old(carts)[c])
      ensures guest.Some? && user.None? ==> IsHandedTo(carts[guest.value], old(carts)[guest.value], userId, now)
      ensures guest.Some? && user.Some? ==> forall c ::
        c in carts <==> c in old(carts) && old(carts)[c].guestSession != Some(session)
      ensures guest.Some? && user.Some? ==> forall c :: c in carts && c != user.value ==> carts[c] == old(carts)[c]
      ensures guest.Some? && user.Some? && user.value in carts ==>
        && carts[user.value].userId == Some(userId)
        && carts[user.value].guestSession == old(carts)[user.value].guestSession
        && SumsUp(carts[user.value].items, old(carts)[user.value].items, old(carts)[guest.value].items)
      ensures guest.Some? && user.Some? ==>
        CountsNews(mergeCount, old(carts)[user.value].items, old(carts)[guest.value].items)
      ensures guest.Some? && user.Some? ==> carts == Merged(old(carts), session, guest.value, user.value)
      ensures guest.Some? && user.Some? ==>
        mergeCount == |NewVariants(old(carts)[guest.value].items, old(carts)[user.value].items)|
    {
      if guest.None? { return 0; }
      if user.None? {
        mergeCount := |lines|;
        carts := carts[guest.value := carts[guest.value].(userId := Some(userId), updatedAt := now)];
        return;
      }
      ghost var theirs, mine := carts[guest.value].items, carts[user.value].items;
      assert forall v :: v in NewVariants(theirs, mine) <==> IsNews(v, mine, theirs);
      var merged;
      merged, mergeCount := MergeItems(lines, carts[user.value].items, theirs);
      UpsertsCombine(theirs, mine, lines, merged);
      UpdateCart(user.value, merged);
      RemoveByGuestSession(session);
    }
  }

  function Assigned(t: Carts, guest: nat, userId: int, now: int): Carts
    requires guest in t
  {
    t[guest := t[guest].(userId := Some(userId), updatedAt := now)]
  }

  function Merged(t: Carts, session: int, guest: nat, user: nat): Carts
    requires guest in t && user in t
  {
    WithoutSession(WithItems(t, user, Combined(t[user].items, t[guest].items)), session)
  }

  /**
   The user keeps a cart if and only if it is not itself tied to the guest session; then
   it holds everything both carts held, and no cart of the session is left.
   */
  lemma MergeConservesIffCartsAreApart(t: Carts, session: int, guest: nat, user: nat)
    requires guest in t && user in t && OfGuest(t, session, guest)
    ensures var t' := Merged(t, session, guest, user);
            && (user in t' <==> !OfGuest(t, session, user))
            && (user in t' ==> guest !in t' && Total(t'[user].items) == Total(t[user].items) + Total(t[guest].items))
            && (forall c :: c in t' ==> !OfGuest(t', session, c))
            && (forall c :: c in t && c != user && !OfGuest(t, session, c) ==> c in t' && t'[c] == t[c])
  {
    CombinedConservesTotal(t[user].items, t[guest].items);
  }

  /**
   A guest cart that was assigned to its user keeps its session, so a second merge with
   the same session finds it as both carts and deletes it.
   */
  lemma AssignedCartIsLostByNextMerge(t: Carts, session: int, userId: int, guest: nat, now: int)
    requires IsGuestCart(t, session, guest) && forall c :: c in t ==> !OfUser(t, userId, c)
    requires t[guest].updatedAt <= now
    ensures var t1 := Assigned(t, guest, userId, now);
            && IsGuestCart(t1, session, guest) && IsUserCart(t1, userId, guest)
            && forall c :: c in Merged(t1, session, guest, guest) ==>
                 !OfUser(Merged(t1, session, guest, guest), userId, c)
  {
  }
}
