/**
 The search for a free slug: base, base-2, base-3 and so on, until one is not used by a
 translation of the same language.
 */
module UniqueSlug {
  import opened Decimal

  datatype Translation = Translation(languageId: int, slug: string)

  /** The n-th name tried. */
  function Candidate(base: string, n: nat): string {
    if n <= 1 then base else base + "-" + Print(n)
  }

  /** The first three names tried for a base. */
  lemma FirstNames(base: string)
    ensures Candidate(base, 1) == base && Candidate(base, 2) == base + "-2" && Candidate(base, 3) == base + "-3"
  {
    assert Print(2) == "2" && Print(3) == "3";
    assert base + "-" + "2" == base + "-2" && base + "-" + "3" == base + "-3";
  }

  lemma CandidatesDiffer(base: string, m: nat, n: nat)
    requires 1 <= m < n
    ensures Candidate(base, m) != Candidate(base, n)
  {
    if m == 1 {
      assert |Candidate(base, n)| > |base|;
    } else if Candidate(base, m) == Candidate(base, n) {
      assert base + ['-'] + Print(m) == base + ['-'] + Print(n);
      SplitAtLast(base, Print(m), base, Print(n), '-');
      PrintInjective(m, n);
    }
  }

  /** The first `n` names tried. */
  ghost function Tried(languageId: int, base: string, n: nat): set<Translation> {
    if n == 0 then {} else Tried(languageId, base, n - 1) + {Translation(languageId, Candidate(base, n))}
  }

  /** All names tried are different: the pigeonholes of the search. */
  lemma {:induction false} TriedAreDistinct(languageId: int, base: string, n: nat, next: nat)
    requires n < next
    ensures |Tried(languageId, base, n)| == n
    ensures Translation(languageId, Candidate(base, next)) !in Tried(languageId, base, n)
    decreases n
  {
    if n > 0 {
      TriedAreDistinct(languageId, base, n - 1, n);
      TriedAreDistinct(languageId, base, n - 1, next);
      CandidatesDiffer(base, n, next);
    }
  }

  lemma {:induction false} TriedContains(languageId: int, base: string, m: nat, n: nat)
    requires 1 <= m <= n
    ensures Translation(languageId, Candidate(base, m)) in Tried(languageId, base, n)
    decreases n
  {
    if m < n { TriedContains(languageId, base, m, n - 1); }
  }

  lemma SubsetSize<T>(a: set<T>, b: set<T>)
    requires a <= b
    ensures |a| <= |b|
  {
    assert b == a + (b - a);
  }

  /**
   The search ends for every finite table, with the first free name; it needs no more
   tries than the language has slugs, plus one.
   */
  method BuildUniqueSlug(table: set<Translation>, languageId: int, base: string)
    returns (slug: string, ghost tries: nat)
    ensures Translation(languageId, slug) !in table
    ensures tries >= 1 && slug == Candidate(base, tries)
    ensures slug == if tries == 1 then base else base + "-" + Print(tries)
    ensures forall m :: 1 <= m < tries ==> Translation(languageId, Candidate(base, m)) in table
    ensures tries <= 1 + |set t | t in table && t.languageId == languageId|
  {
    var index := 2;
    slug := base;
    ghost var used := set t | t in table && t.languageId == languageId;
    SubsetSize(Tried(languageId, base, 0), used);
    while Translation(languageId, slug) in table
      invariant index >= 2 && slug == Candidate(base, index - 1)
      invariant Tried(languageId, base, index - 2) <= used && index - 2 <= |used|
      decreases |used| - (index - 2)
    {
      SubsetSize(Tried(languageId, base, index - 1), used);
      TriedAreDistinct(languageId, base, index - 1, index);
      slug := base + "-" + Print(index);
      index := index + 1;
    }
    tries := index - 1;
    forall m | 1 <= m < tries ensures Translation(languageId, Candidate(base, m)) in table {
      TriedContains(languageId, base, m, tries - 1);
    }
  }
}
