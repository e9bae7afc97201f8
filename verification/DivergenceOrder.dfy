/** The divergences for any order of the observations (`_divergences` in `backend/data/reconciliation.py`). */
module SymmetricPairs {
  import opened Seqs
  import opened Reconciliation

  /** `f` of the second of a pair and its first is the mirror image of `f` of the first and the second. */
  ghost predicate Mirrors<T(!new), U>(f: T -> T -> seq<U>, m: U -> U) {
    forall a, b :: f(b)(a) == Map(m, f(a)(b))
  }

  function Against<T, U>(f: T -> T -> seq<U>, x: T): T -> seq<U> {
    (a: T) => f(a)(x)
  }

  function Row<T, U>(f: T -> T -> seq<U>, s: seq<T>): T -> seq<U> {
    (a: T) => FlatMap(f(a), s)
  }

  /** `f` of every element and every element, itself included. */
  function Square<T, U>(f: T -> T -> seq<U>, s: seq<T>): seq<U> {
    FlatMap(Row(f, s), s)
  }

  function BothSides<U>(m: U -> U, s: seq<U>): multiset<U> {
    multiset(s) + multiset(Map(m, s))
  }

  lemma {:induction false} SameRows<T, U>(f: T -> seq<U>, g: T -> seq<U>, s: seq<T>)
    requires forall a :: a in s ==> multiset(f(a)) == multiset(g(a))
    ensures multiset(FlatMap(f, s)) == multiset(FlatMap(g, s))
  {
    if s != [] {
      SameRows(f, g, Front(s));
      assert Last(s) in s;
    }
  }

  /** The square does not depend on the order. */
  lemma SquarePermutes<T, U>(f: T -> T -> seq<U>, s: seq<T>, t: seq<T>)
    requires multiset(s) == multiset(t)
    ensures multiset(Square(f, s)) == multiset(Square(f, t))
  {
    FlatMapPermutation(Row(f, s), s, t);
    forall a | a in t ensures multiset(Row(f, s)(a)) == multiset(Row(f, t)(a)) {
      FlatMapPermutation(f(a), s, t);
    }
    SameRows(Row(f, s), Row(f, t), t);
  }

  lemma {:induction false} RowsSnoc<T, U>(f: T -> T -> seq<U>, s: seq<T>, rows: seq<T>, x: T)
    ensures multiset(FlatMap(Row(f, s + [x]), rows))
         == multiset(FlatMap(Row(f, s), rows)) + multiset(FlatMap(Against(f, x), rows))
  {
    if rows != [] {
      RowsSnoc(f, s, Front(rows), x);
      assert Front(s + [x]) == s;
    }
  }

  lemma SquareSnoc<T, U>(f: T -> T -> seq<U>, s: seq<T>, x: T)
    requires f(x)(x) == []
    ensures multiset(Square(f, s + [x]))
         == multiset(Square(f, s)) + multiset(FlatMap(Against(f, x), s)) + multiset(FlatMap(f(x), s))
  {
    assert Front(s + [x]) == s;
    RowsSnoc(f, s, s, x);
    assert Row(f, s + [x])(x) == FlatMap(f(x), s) + [];
  }

  lemma {:induction false} PairsSnoc<T, U>(f: T -> T -> seq<U>, s: seq<T>, x: T, n: nat)
    requires n <= |s|
    ensures multiset(PairsUpTo(f, s + [x], n))
         == multiset(PairsUpTo(f, s, n)) + multiset(FlatMap(Against(f, x), s[..n]))
  {
    if n > 0 {
      PairsSnoc(f, s, x, n - 1);
      PairsSnocStep(f, s, x, n);
      TakeNext(s, n - 1);
      Exchange(multiset(PairsUpTo(f, s, n - 1)), multiset(FlatMap(Against(f, x), s[..n - 1])),
               multiset(FlatMap(f(s[n - 1]), s[n..])), multiset(f(s[n - 1])(x)));
    }
  }

  lemma PairsSnocStep<T, U>(f: T -> T -> seq<U>, s: seq<T>, x: T, n: nat)
    requires 0 < n <= |s|
    ensures PairsUpTo(f, s + [x], n) == PairsUpTo(f, s + [x], n - 1) + (FlatMap(f(s[n - 1]), s[n..]) + f(s[n - 1])(x))
  {
    assert (s + [x])[n..] == s[n..] + [x];
    FlatMapSnoc(f(s[n - 1]), s[n..], x);
  }

  lemma Exchange<U>(a: multiset<U>, b: multiset<U>, c: multiset<U>, d: multiset<U>)
    ensures (a + b) + (c + d) == (a + c) + (b + d)
  {
  }

  lemma FlatMapSnoc<T, U>(f: T -> seq<U>, s: seq<T>, x: T)
    ensures FlatMap(f, s + [x]) == FlatMap(f, s) + f(x)
  {
    assert Front(s + [x]) == s;
  }

  lemma AllPairsSnoc<T, U>(f: T -> T -> seq<U>, s: seq<T>, x: T)
    ensures multiset(PairsUpTo(f, s + [x], |s| + 1))
         == multiset(PairsUpTo(f, s, |s|)) + multiset(FlatMap(Against(f, x), s))
  {
    PairsSnoc(f, s, x, |s|);
    assert s[..|s|] == s;
    assert (s + [x])[|s| + 1..] == [];
  }

  lemma {:induction false} MapFlatMap<T, U>(m: U -> U, f: T -> seq<U>, g: T -> seq<U>, s: seq<T>)
    requires forall a :: g(a) == Map(m, f(a))
    ensures Map(m, FlatMap(f, s)) == FlatMap(g, s)
  {
    if s != [] {
      MapFlatMap(m, f, g, Front(s));
      assert Map(m, FlatMap(f, s)) == Map(m, FlatMap(f, Front(s))) + Map(m, f(Last(s)));
    }
  }

  lemma MapMultiset<U>(m: U -> U, a: seq<U>, b: seq<U>, c: seq<U>)
    requires multiset(a) == multiset(b) + multiset(c)
    ensures multiset(Map(m, a)) == multiset(Map(m, b)) + multiset(Map(m, c))
  {
    MapPermutation(m, a, b + c);
    assert Map(m, b + c) == Map(m, b) + Map(m, c);
  }

  /** The pairs of positions and their mirror images are the pairs of elements. */
  lemma {:induction false} PairsAreHalf<T(!new), U>(f: T -> T -> seq<U>, m: U -> U, s: seq<T>)
    requires Mirrors(f, m) && forall a :: f(a)(a) == []
    ensures BothSides(m, PairsUpTo(f, s, |s|)) == multiset(Square(f, s))
  {
    if s != [] {
      var front, x := Front(s), Last(s);
      PairsAreHalf(f, m, front);
      SplitLast(s);
      AllPairsSnoc(f, front, x);
      SquareSnoc(f, front, x);
      MapFlatMap(m, Against(f, x), f(x), front);
      MapMultiset(m, PairsUpTo(f, s, |s|), PairsUpTo(f, front, |front|), FlatMap(Against(f, x), front));
    }
  }

  /** So they do not depend on the order. */
  lemma PairsPermute<T(!new), U>(f: T -> T -> seq<U>, m: U -> U, s: seq<T>, t: seq<T>)
    requires Mirrors(f, m) && (forall a :: f(a)(a) == []) && multiset(s) == multiset(t)
    ensures BothSides(m, PairsUpTo(f, s, |s|)) == BothSides(m, PairsUpTo(f, t, |t|))
  {
    PairsAreHalf(f, m, s);
    PairsAreHalf(f, m, t);
    SquarePermutes(f, s, t);
  }
}

module DivergenceOrder {
  import opened Seqs
  import opened SortedNames
  import opened StableSort
  import opened Observations
  import opened Reconciliation
  import opened SymmetricPairs

  lemma {:induction false} NothingFound<T, U>(f: T -> seq<U>, s: seq<T>)
    requires forall x :: x in s ==> f(x) == []
    ensures FlatMap(f, s) == []
  {
    if s != [] {
      NothingFound(f, Front(s));
      assert Last(s) in s;
    }
  }

  lemma ComparisonsMirror(policy: Policy)
    ensures Mirrors(CompareWith(policy), Mirrored)
    ensures forall o :: CompareWith(policy)(o)(o) == []
  {
    forall a, b ensures CompareWith(policy)(b)(a) == Map(Mirrored, CompareWith(policy)(a)(b)) {
      forall name ensures CompareOn(policy, b, a)(name) == Map(Mirrored, CompareOn(policy, a, b)(name)) {
        ComparisonMirrors(policy, a, b, name);
      }
      assert b.fields.Keys * a.fields.Keys == a.fields.Keys * b.fields.Keys;
      MapFlatMap(Mirrored, CompareOn(policy, a, b), CompareOn(policy, b, a), SharedNames(a, b));
    }
    forall o ensures CompareWith(policy)(o)(o) == [] {
      NothingFound(CompareOn(policy, o, o), SharedNames(o, o));
    }
  }

  /** Whatever the observations, the divergences are the same for every input order, up to which observation of a pair
      is on the left. */
  lemma DivergencesIgnoreOrder(a: seq<Observation>, b: seq<Observation>, policy: Policy)
    requires multiset(a) == multiset(b)
    ensures BothSides(Mirrored, Reconciled(a, policy).divergences)
         == BothSides(Mirrored, Reconciled(b, policy).divergences)
  {
    SameSize(a, b);
    IdentitiesPermutation(a, b);
    ReportedDivergences(a, policy);
    ReportedDivergences(b, policy);
    SortedDivergencesAgree(a, b, policy);
  }

  lemma SortedDivergencesAgree(a: seq<Observation>, b: seq<Observation>, policy: Policy)
    requires multiset(a) == multiset(b)
    ensures BothSides(Mirrored, AllDivergences(policy, Sorted(ByPrecedence(policy), a)))
         == BothSides(Mirrored, AllDivergences(policy, Sorted(ByPrecedence(policy), b)))
  {
    var first, second := Sorted(ByPrecedence(policy), a), Sorted(ByPrecedence(policy), b);
    assert multiset(first) == multiset(second) by {
      SortedPermutes(ByPrecedence(policy), a);
      SortedPermutes(ByPrecedence(policy), b);
    }
    ComparisonsMirror(policy);
    PairsPermute(CompareWith(policy), Mirrored, first, second);
  }

  lemma ReportedDivergences(observations: seq<Observation>, policy: Policy)
    ensures Reconciled(observations, policy).divergences
         == if observations == [] || |Identities(observations)| != 1 then []
            else AllDivergences(policy, Sorted(ByPrecedence(policy), observations))
  {
    PreviewDivergences(Sorted(ByPrecedence(policy), observations), policy);
  }

  lemma PreviewDivergences(ordered: seq<Observation>, policy: Policy)
    ensures Preview(ordered, policy).divergences == AllDivergences(policy, ordered)
  {
  }
}
