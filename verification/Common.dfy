/**
 Shared vocabulary: optional values, requested items, sums over sequences, and
 sequences without repetition.
 */
module Common {

  datatype Option<+T> = None | Some(value: T)

  /** One line of a request or of an order: so many units of one book variant. */
  datatype Item = Item(variantId: int, quantity: int)

  datatype OrderStatus = PENDING_PAYMENT | PAID | CANCELLED

  datatype PaymentStatus =
    | PENDING
    | SUCCESS
    | EXPIRED
    | PAYMENT_SHORTFALL
    | PAYMENT_OVERAGE
    | NOT_FOUND_ORDER_CODE

  /** A lookup with default zero: Redis counters, `map.get(key) ?? 0`. */
  function Get(m: map<int, int>, key: int): int {
    if key in m then m[key] else 0
  }

  ghost predicate Distinct<T>(s: seq<T>) {
    forall i, j :: 0 <= i < j < |s| ==> s[i] != s[j]
  }

  lemma {:induction false} CountDistinct<T>(s: seq<T>, x: T)
    requires Distinct(s)
    ensures multiset(s)[x] == if x in s then 1 else 0
  {
    if s != [] {
      assert s == [s[0]] + s[1..];
      CountDistinct(s[1..], x);
    }
  }

  /** No two items name the same variant. */
  ghost predicate DistinctVariants(items: seq<Item>) {
    forall i, j :: 0 <= i < j < |items| ==> items[i].variantId != items[j].variantId
  }

  ghost predicate PositiveQuantities(items: seq<Item>) {
    forall i :: 0 <= i < |items| ==> items[i].quantity > 0
  }

  /** What the length check of checkout lets through, with positive quantities. */
  ghost predicate GoodItems(items: seq<Item>) {
    DistinctVariants(items) && PositiveQuantities(items)
  }

  /** The units of variant `v` in `items`, counting every occurrence. */
  function QuantityOf(items: seq<Item>, v: int): int {
    if items == [] then 0
    else (if items[0].variantId == v then items[0].quantity else 0) + QuantityOf(items[1..], v)
  }

  lemma {:induction false} QuantityAt(items: seq<Item>, k: nat)
    requires k < |items| && DistinctVariants(items)
    ensures QuantityOf(items, items[k].variantId) == items[k].quantity
  {
    if k == 0 {
      QuantityAbsent(items[1..], items[0].variantId);
    } else {
      QuantityAt(items[1..], k - 1);
    }
  }

  lemma {:induction false} QuantityAbsent(items: seq<Item>, v: int)
    requires forall i :: 0 <= i < |items| ==> items[i].variantId != v
    ensures QuantityOf(items, v) == 0
  {
    if items != [] {
      QuantityAbsent(items[1..], v);
    }
  }

  lemma {:induction false} QuantityNonNegative(items: seq<Item>, v: int)
    requires PositiveQuantities(items)
    ensures QuantityOf(items, v) >= 0
  {
    if items != [] {
      QuantityNonNegative(items[1..], v);
    }
  }

  // ---- sums ---------------------------------------------------------------

  function Sum<T>(f: T -> int, s: seq<T>): int {
    if s == [] then 0 else f(s[0]) + Sum(f, s[1..])
  }

  lemma {:induction false} SumConcat<T>(f: T -> int, s: seq<T>, t: seq<T>)
    ensures Sum(f, s + t) == Sum(f, s) + Sum(f, t)
  {
    if s == [] {
      assert s + t == t;
    } else {
      assert (s + t)[1..] == s[1..] + t;
      SumConcat(f, s[1..], t);
    }
  }

  lemma SumAppend<T>(f: T -> int, s: seq<T>, x: T)
    ensures Sum(f, s + [x]) == Sum(f, s) + f(x)
  {
    SumConcat(f, s, [x]);
    assert Sum(f, [x]) == f(x) + Sum(f, []);
  }

  lemma {:induction false} SumUpdate<T>(f: T -> int, s: seq<T>, k: nat, x: T)
    requires k < |s|
    ensures Sum(f, s[k := x]) == Sum(f, s) - f(s[k]) + f(x)
  {
    if k == 0 {
      assert s[k := x][1..] == s[1..];
    } else {
      assert s[k := x][1..] == s[1..][k - 1 := x];
      SumUpdate(f, s[1..], k - 1, x);
    }
  }

  lemma {:induction false} SumLeq<T>(f: T -> int, g: T -> int, s: seq<T>)
    requires forall x :: x in s ==> f(x) <= g(x)
    ensures Sum(f, s) <= Sum(g, s)
  {
    if s != [] {
      assert s[0] in s;
      SumLeq(f, g, s[1..]);
    }
  }

  lemma TakeOut<T>(s: seq<T>, k: nat)
    requires k < |s|
    ensures multiset(s[..k] + s[k + 1..]) == multiset(s) - multiset{s[k]}
  {
    assert s == s[..k] + [s[k]] + s[k + 1..];
  }

  /** Removing one occurrence from a sequence takes exactly its term from the sum. */
  lemma SumRemove<T>(f: T -> int, s: seq<T>, k: nat)
    requires k < |s|
    ensures Sum(f, s) == f(s[k]) + Sum(f, s[..k] + s[k + 1..])
  {
    assert s == s[..k] + ([s[k]] + s[k + 1..]);
    SumConcat(f, s[..k], [s[k]] + s[k + 1..]);
    SumConcat(f, [s[k]], s[k + 1..]);
    SumConcat(f, s[..k], s[k + 1..]);
    assert Sum(f, [s[k]]) == f(s[k]) + Sum(f, []);
  }
}
