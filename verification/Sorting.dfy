/** Lexicographic order on strings, as the source compares `str` values. */
module StringOrder {

  predicate StrLeq(a: string, b: string) {
    a == [] || (b != [] && (a[0] < b[0] || (a[0] == b[0] && StrLeq(a[1..], b[1..]))))
  }

  lemma StrTotal(a: string, b: string)
    ensures StrLeq(a, b) || StrLeq(b, a)
  {
  }

  lemma {:induction false} StrTransitive(a: string, b: string, c: string)
    requires StrLeq(a, b) && StrLeq(b, c)
    ensures StrLeq(a, c)
  {
    if a != [] && a[0] == b[0] == c[0] {
      StrTransitive(a[1..], b[1..], c[1..]);
    }
  }

  lemma {:induction false} StrAntisymmetric(a: string, b: string)
    requires StrLeq(a, b) && StrLeq(b, a)
    ensures a == b
  {
    if a != [] {
      StrAntisymmetric(a[1..], b[1..]);
      assert a == [a[0]] + a[1..] && b == [b[0]] + b[1..];
    }
  }

  /** `a` comes before `b` exactly when it is a prefix of `b`, or has the smaller character where they first differ. */
  lemma {:induction false} StrLeqIsLexicographic(a: string, b: string)
    ensures StrLeq(a, b) <==>
            a <= b || exists k: nat :: k < |a| && k < |b| && a[..k] == b[..k] && a[k] < b[k]
  {
    if a != [] && b != [] && a[0] == b[0] {
      StrLeqIsLexicographic(a[1..], b[1..]);
      assert a == [a[0]] + a[1..] && b == [b[0]] + b[1..];
      if a[1..] <= b[1..] {
        assert a <= b;
      }
      if k: nat :| k < |a[1..]| && k < |b[1..]| && a[1..][..k] == b[1..][..k] && a[1..][k] < b[1..][k] {
        assert a[..k + 1] == [a[0]] + a[1..][..k] && b[..k + 1] == [b[0]] + b[1..][..k];
      }
      if k: nat :| k < |a| && k < |b| && a[..k] == b[..k] && a[k] < b[k] {
        assert k > 0;
        assert a[1..][..k - 1] == a[..k][1..] && b[1..][..k - 1] == b[..k][1..];
        assert a[1..][k - 1] == a[k] && b[1..][k - 1] == b[k];
      }
    } else if a != [] && b != [] && a[0] < b[0] {
      assert a[..0] == b[..0] && a[0] < b[0];
    }
  }

  lemma StrIsLinear()
    ensures forall a, b :: StrLeq(a, b) || StrLeq(b, a)
    ensures forall a, b, c :: StrLeq(a, b) && StrLeq(b, c) ==> StrLeq(a, c)
    ensures forall a, b :: StrLeq(a, b) && StrLeq(b, a) ==> a == b
  {
    forall a, b ensures StrLeq(a, b) || StrLeq(b, a) { StrTotal(a, b); }
    forall a, b, c | StrLeq(a, b) && StrLeq(b, c) ensures StrLeq(a, c) { StrTransitive(a, b, c); }
    forall a, b | StrLeq(a, b) && StrLeq(b, a) ensures a == b { StrAntisymmetric(a, b); }
  }
}

/** `sorted` of a set of names. */
module SortedNames {
  import opened StringOrder

  predicate IsLeast(m: string, s: set<string>) {
    m in s && forall x :: x in s ==> StrLeq(m, x)
  }

  lemma LeastOfTwo(m: string, rest: set<string>, y: string) returns (least: string)
    requires IsLeast(m, rest)
    ensures IsLeast(least, rest + {y})
  {
    StrTotal(m, y);
    StrTotal(y, y);
    least := if StrLeq(m, y) then m else y;
    forall x | x in rest ensures StrLeq(least, x) {
      if least == y {
        StrTransitive(y, m, x);
      }
    }
  }

  lemma {:induction false} HasLeast(s: set<string>)
    requires s != {}
    ensures exists m :: IsLeast(m, s)
    decreases |s|
  {
    var y :| y in s;
    var rest := s - {y};
    assert s == rest + {y};
    if rest == {} {
      StrTotal(y, y);
      assert IsLeast(y, s);
    } else {
      HasLeast(rest);
      var m :| IsLeast(m, rest);
      var least := LeastOfTwo(m, rest, y);
      assert IsLeast(least, s);
    }
  }

  function Least(s: set<string>): (m: string)
    requires s != {}
    ensures IsLeast(m, s)
  {
    HasLeast(s);
    StrIsLinear();
    var m :| IsLeast(m, s);
    m
  }

  function Names(s: set<string>): (r: seq<string>)
    ensures forall x :: x in r <==> x in s
    decreases |s|
  {
    if s == {} then [] else [Least(s)] + Names(s - {Least(s)})
  }

  /** Every name once, in ascending order. */
  ghost predicate StrictlyAscending(names: seq<string>) {
    forall i, j :: 0 <= i < j < |names| ==> StrLeq(names[i], names[j]) && names[i] != names[j]
  }

  lemma {:induction false} NamesAscend(s: set<string>)
    ensures StrictlyAscending(Names(s)) && |Names(s)| == |s|
    decreases |s|
  {
    if s != {} {
      var rest := s - {Least(s)};
      NamesAscend(rest);
      forall j | 0 <= j < |Names(rest)| ensures StrLeq(Least(s), Names(rest)[j]) && Least(s) != Names(rest)[j] {
        assert Names(rest)[j] in Names(rest);
      }
    }
  }
}

/** Python's `sorted`: a stable sort by a total preorder (the comparison of the key tuples). */
module StableSort {
  import opened Seqs

  ghost predicate Preorder<T(!new)>(leq: (T, T) -> bool) {
    && (forall a, b :: leq(a, b) || leq(b, a))
    && (forall a, b, c :: leq(a, b) && leq(b, c) ==> leq(a, c))
  }

  ghost predicate Ordered<T>(leq: (T, T) -> bool, s: seq<T>) {
    forall i, j :: 0 <= i < j < |s| ==> leq(s[i], s[j])
  }

  /** The order tells the elements of `s` apart. */
  ghost predicate Separates<T>(leq: (T, T) -> bool, s: seq<T>) {
    forall a, b :: a in s && b in s && leq(a, b) && leq(b, a) ==> a == b
  }

  /** Puts `x` behind the last element of `s` that is not greater than `x`. */
  function Insert<T>(leq: (T, T) -> bool, s: seq<T>, x: T): (r: seq<T>)
    ensures |r| == |s| + 1
  {
    if s == [] || leq(Last(s), x) then s + [x]
    else Insert(leq, Front(s), x) + [Last(s)]
  }

  function Sorted<T>(leq: (T, T) -> bool, s: seq<T>): (r: seq<T>)
    ensures |r| == |s|
  {
    if s == [] then [] else Insert(leq, Sorted(leq, Front(s)), Last(s))
  }

  lemma {:induction false} InsertPermutes<T>(leq: (T, T) -> bool, s: seq<T>, x: T)
    ensures multiset(Insert(leq, s, x)) == multiset(s) + multiset{x}
  {
    if s != [] && !leq(Last(s), x) {
      InsertPermutes(leq, Front(s), x);
      SplitLast(s);
    }
  }

  lemma {:induction false} SortedPermutes<T>(leq: (T, T) -> bool, s: seq<T>)
    ensures multiset(Sorted(leq, s)) == multiset(s)
  {
    if s != [] {
      SortedPermutes(leq, Front(s));
      InsertPermutes(leq, Sorted(leq, Front(s)), Last(s));
      SplitLast(s);
    }
  }

  lemma SortedElements<T>(leq: (T, T) -> bool, s: seq<T>)
    ensures forall x :: x in Sorted(leq, s) <==> x in s
  {
    SortedPermutes(leq, s);
    forall x ensures x in Sorted(leq, s) <==> x in s {
      assert x in Sorted(leq, s) <==> x in multiset(Sorted(leq, s));
    }
  }

  lemma {:induction false} InsertOrders<T(!new)>(leq: (T, T) -> bool, s: seq<T>, x: T)
    requires Preorder(leq) && Ordered(leq, s)
    ensures Ordered(leq, Insert(leq, s, x))
  {
    if s != [] && !leq(Last(s), x) {
      InsertOrders(leq, Front(s), x);
      InsertPermutes(leq, Front(s), x);
      var r := Insert(leq, Front(s), x);
      forall i | 0 <= i < |r| ensures leq(r[i], Last(s)) {
        assert r[i] in multiset(r);
      }
    }
  }

  lemma {:induction false} SortedOrders<T(!new)>(leq: (T, T) -> bool, s: seq<T>)
    requires Preorder(leq)
    ensures Ordered(leq, Sorted(leq, s))
  {
    if s != [] {
      SortedOrders(leq, Front(s));
      InsertOrders(leq, Sorted(leq, Front(s)), Last(s));
    }
  }

  lemma {:induction false} FilterInsert<T(!new)>(leq: (T, T) -> bool, p: T -> bool, s: seq<T>, x: T)
    requires Preorder(leq) && Ordered(leq, s)
    ensures Filter(p, Insert(leq, s, x)) == if p(x) then Insert(leq, Filter(p, s), x) else Filter(p, s)
  {
    var f := Filter(p, s);
    if s == [] || leq(Last(s), x) {
      FilterSnoc(p, s, x);
      if f != [] {
        FilterElements(p, s, Last(f));
        assert leq(Last(f), Last(s));
      }
    } else {
      FilterInsert(leq, p, Front(s), x);
      FilterSnoc(p, Insert(leq, Front(s), x), Last(s));
      if p(Last(s)) {
        assert Front(f) == Filter(p, Front(s)) && Last(f) == Last(s);
      } else {
        assert f == Filter(p, Front(s));
      }
    }
  }

  /** Stability, in its most general form: selecting by any predicate commutes with sorting. */
  lemma {:induction false} SortedFilter<T(!new)>(leq: (T, T) -> bool, p: T -> bool, s: seq<T>)
    requires Preorder(leq)
    ensures Filter(p, Sorted(leq, s)) == Sorted(leq, Filter(p, s))
  {
    if s != [] {
      SortedFilter(leq, p, Front(s));
      SortedOrders(leq, Front(s));
      FilterInsert(leq, p, Sorted(leq, Front(s)), Last(s));
      if p(Last(s)) {
        assert Front(Filter(p, s)) == Filter(p, Front(s)) && Last(Filter(p, s)) == Last(s);
      } else {
        assert Filter(p, s) == Filter(p, Front(s));
      }
    }
  }

  /** Two ordered permutations agree when the order separates the elements. */
  lemma {:induction false} OrderedUnique<T>(leq: (T, T) -> bool, a: seq<T>, b: seq<T>)
    requires forall x :: x in a ==> leq(x, x)
    requires Ordered(leq, a) && Ordered(leq, b)
    requires multiset(a) == multiset(b) && Separates(leq, a)
    ensures a == b
    decreases |a|
  {
    SameSize(a, b);
    if a != [] {
      LastsAgree(leq, a, b);
      FrontsAgree(leq, a, b);
      OrderedUnique(leq, Front(a), Front(b));
      assert a == Front(a) + [Last(a)] && b == Front(b) + [Last(b)];
    }
  }

  lemma FrontsAgree<T>(leq: (T, T) -> bool, a: seq<T>, b: seq<T>)
    requires a != [] && b != [] && Last(a) == Last(b) && multiset(a) == multiset(b)
    requires (forall x :: x in a ==> leq(x, x)) && Separates(leq, a)
    ensures multiset(Front(a)) == multiset(Front(b))
    ensures (forall x :: x in Front(a) ==> leq(x, x)) && Separates(leq, Front(a))
  {
    SplitLast(a);
    SplitLast(b);
    assert multiset(Front(a)) == multiset(a) - multiset{Last(a)} == multiset(Front(b));
    assert forall x :: x in Front(a) ==> x in a;
  }

  lemma LastsAgree<T>(leq: (T, T) -> bool, a: seq<T>, b: seq<T>)
    requires a != [] && b != [] && forall x :: x in a ==> leq(x, x)
    requires Ordered(leq, a) && Ordered(leq, b)
    requires multiset(a) == multiset(b) && Separates(leq, a)
    ensures Last(a) == Last(b)
  {
    var x, y := Last(a), Last(b);
    assert y in multiset(a) && x in multiset(b);
    assert leq(y, x) && leq(x, y);
  }

  /** Sorting forgets the input order of elements that the order separates. */
  lemma SortedCanonical<T(!new)>(leq: (T, T) -> bool, a: seq<T>, b: seq<T>)
    requires Preorder(leq)
    requires multiset(a) == multiset(b) && Separates(leq, a)
    ensures Sorted(leq, a) == Sorted(leq, b)
  {
    SortedPermutes(leq, a);
    SortedPermutes(leq, b);
    SortedOrders(leq, a);
    SortedOrders(leq, b);
    SortedElements(leq, a);
    OrderedUnique(leq, Sorted(leq, a), Sorted(leq, b));
  }

  /** Sorting leaves an ordered sequence as it is. */
  lemma {:induction false} SortedFixed<T(!new)>(leq: (T, T) -> bool, s: seq<T>)
    requires Preorder(leq) && Ordered(leq, s)
    ensures Sorted(leq, s) == s
  {
    if s != [] {
      SortedFixed(leq, Front(s));
      SplitLast(s);
    }
  }

  lemma SortedOne<T>(leq: (T, T) -> bool, a: T)
    ensures Sorted(leq, [a]) == [a]
  {
    assert Front([a]) == [];
  }

  /** Of two elements the first stays first unless the second is strictly smaller. */
  lemma SortedTwo<T>(leq: (T, T) -> bool, a: T, b: T)
    ensures Sorted(leq, [a, b]) == if leq(a, b) then [a, b] else [b, a]
  {
    SortedOne(leq, a);
    assert Front([a, b]) == [a] && Front([a]) == [];
    assert Insert(leq, [], b) == [b];
  }

  lemma {:induction false} InsertBehindFirst<T>(leq: (T, T) -> bool, s: seq<T>, x: T)
    requires s != [] && leq(s[0], x)
    ensures Insert(leq, s, x)[0] == s[0]
  {
    if !leq(Last(s), x) {
      InsertBehindFirst(leq, Front(s), x);
    }
  }

  /** A first element that nothing precedes stays first. */
  lemma {:induction false} FirstLeastStaysFirst<T>(leq: (T, T) -> bool, s: seq<T>)
    requires s != [] && forall x :: x in s ==> leq(s[0], x)
    ensures Sorted(leq, s)[0] == s[0]
  {
    if |s| == 1 {
      assert s == [s[0]];
      SortedOne(leq, s[0]);
    } else {
      FirstLeastStaysFirst(leq, Front(s));
      InsertBehindFirst(leq, Sorted(leq, Front(s)), Last(s));
    }
  }

  function Tied<T>(leq: (T, T) -> bool, a: T): T -> bool {
    (x: T) => leq(x, a) && leq(a, x)
  }

  lemma TiedAreOrdered<T(!new)>(leq: (T, T) -> bool, s: seq<T>, a: T)
    requires Preorder(leq) && forall x :: x in s ==> leq(x, a) && leq(a, x)
    ensures Sorted(leq, s) == s
  {
    forall i, j | 0 <= i < j < |s| ensures leq(s[i], s[j]) {
      assert leq(s[i], a) && leq(a, s[j]);
    }
    SortedFixed(leq, s);
  }

  /** The elements that tie with `a` keep their order. */
  lemma TiedKeepOrder<T(!new)>(leq: (T, T) -> bool, s: seq<T>, a: T)
    requires Preorder(leq)
    ensures Filter(Tied(leq, a), Sorted(leq, s)) == Filter(Tied(leq, a), s)
  {
    SortedFilter(leq, Tied(leq, a), s);
    forall x | x in Filter(Tied(leq, a), s) ensures leq(x, a) && leq(a, x) {
      FilterElements(Tied(leq, a), s, x);
    }
    TiedAreOrdered(leq, Filter(Tied(leq, a), s), a);
  }

  /** The first of the elements that tie with `a` stays the first of them. */
  lemma FirstOfTied<T(!new)>(leq: (T, T) -> bool, s: seq<T>, a: T)
    requires Preorder(leq) && s != [] && leq(s[0], a) && leq(a, s[0])
    ensures Filter(Tied(leq, a), Sorted(leq, s)) != [] && Filter(Tied(leq, a), Sorted(leq, s))[0] == s[0]
  {
    TiedKeepOrder(leq, s, a);
    FilterFirst(Tied(leq, a), s);
  }

  ghost predicate OrderFree<T(!new)>(leq: (T, T) -> bool, s: seq<T>) {
    forall other | multiset(other) == multiset(s) :: Sorted(leq, other) == Sorted(leq, s)
  }

  lemma OrderFreeSeparates<T(!new)>(leq: (T, T) -> bool, s: seq<T>, a: T, b: T)
    requires Preorder(leq) && OrderFree(leq, s) && a in s && b in s && leq(a, b) && leq(b, a)
    ensures a == b
  {
    var first := MoveToFront(s, a);
    var second := MoveToFront(s, b);
    FirstOfTied(leq, first, a);
    FirstOfTied(leq, second, a);
    assert Sorted(leq, first) == Sorted(leq, s) == Sorted(leq, second);
  }

  /** Sorting forgets the input order exactly when the sort key tells all elements apart. */
  lemma OrderFreeIffSeparates<T(!new)>(leq: (T, T) -> bool, s: seq<T>)
    requires Preorder(leq)
    ensures OrderFree(leq, s) <==> Separates(leq, s)
  {
    if Separates(leq, s) {
      forall other | multiset(other) == multiset(s) ensures Sorted(leq, other) == Sorted(leq, s) {
        SortedCanonical(leq, s, other);
      }
    }
    if OrderFree(leq, s) {
      forall a, b | a in s && b in s && leq(a, b) && leq(b, a) ensures a == b {
        OrderFreeSeparates(leq, s, a, b);
      }
    }
  }

  /** Two ordered permutations whose ties agree are one sequence. */
  lemma {:induction false} SameTiesUnique<T(!new)>(leq: (T, T) -> bool, a: seq<T>, b: seq<T>)
    requires Preorder(leq) && Ordered(leq, a) && Ordered(leq, b) && multiset(a) == multiset(b)
    requires forall x :: Filter(Tied(leq, x), a) == Filter(Tied(leq, x), b)
    ensures a == b
    decreases |a|
  {
    SameSize(a, b);
    if a != [] {
      LastsOfTies(leq, a, b);
      FrontsOfTies(leq, a, b);
      SameTiesUnique(leq, Front(a), Front(b));
      SplitLast(a);
      SplitLast(b);
    }
  }

  lemma LastsOfTies<T(!new)>(leq: (T, T) -> bool, a: seq<T>, b: seq<T>)
    requires Preorder(leq) && Ordered(leq, a) && Ordered(leq, b) && multiset(a) == multiset(b)
    requires a != [] && b != [] && forall x :: Filter(Tied(leq, x), a) == Filter(Tied(leq, x), b)
    ensures Last(a) == Last(b)
  {
    var x, y := Last(a), Last(b);
    LastsTie(leq, a, b);
    assert leq(x, x) && leq(y, y);
    assert Last(Filter(Tied(leq, x), a)) == x && Last(Filter(Tied(leq, x), b)) == y;
  }

  lemma LastsTie<T(!new)>(leq: (T, T) -> bool, a: seq<T>, b: seq<T>)
    requires Preorder(leq) && Ordered(leq, a) && Ordered(leq, b) && multiset(a) == multiset(b) && a != [] && b != []
    ensures leq(Last(b), Last(a)) && leq(Last(a), Last(b))
  {
    assert Last(b) in multiset(a) && Last(a) in multiset(b);
    assert leq(Last(a), Last(a)) && leq(Last(b), Last(b));
  }

  lemma FrontsOfTies<T(!new)>(leq: (T, T) -> bool, a: seq<T>, b: seq<T>)
    requires a != [] && b != [] && Last(a) == Last(b) && multiset(a) == multiset(b)
    requires forall x :: Filter(Tied(leq, x), a) == Filter(Tied(leq, x), b)
    ensures multiset(Front(a)) == multiset(Front(b))
    ensures forall x :: Filter(Tied(leq, x), Front(a)) == Filter(Tied(leq, x), Front(b))
  {
    SplitLast(a);
    SplitLast(b);
    assert multiset(Front(a)) == multiset(a) - multiset{Last(a)} == multiset(Front(b));
    forall x ensures Filter(Tied(leq, x), Front(a)) == Filter(Tied(leq, x), Front(b)) {
      CutEqual(Filter(Tied(leq, x), Front(a)), Filter(Tied(leq, x), Front(b)),
               if Tied(leq, x)(Last(a)) then [Last(a)] else []);
    }
  }

  lemma CutEqual<T>(a: seq<T>, b: seq<T>, c: seq<T>)
    requires a + c == b + c
    ensures a == b
  {
    assert |a + c| == |a| + |c| && |b + c| == |b| + |c|;
    assert a == (a + c)[..|a|] && b == (b + c)[..|b|];
  }

  /** Permutations sort alike when the elements of each tie come in one order. */
  lemma SameTiesSameSort<T(!new)>(leq: (T, T) -> bool, a: seq<T>, b: seq<T>)
    requires Preorder(leq) && multiset(a) == multiset(b)
    requires forall x :: Filter(Tied(leq, x), a) == Filter(Tied(leq, x), b)
    ensures Sorted(leq, a) == Sorted(leq, b)
  {
    SortedPermutes(leq, a);
    SortedPermutes(leq, b);
    SortedOrders(leq, a);
    SortedOrders(leq, b);
    forall x ensures Filter(Tied(leq, x), Sorted(leq, a)) == Filter(Tied(leq, x), Sorted(leq, b)) {
      TiedKeepOrder(leq, a, x);
      TiedKeepOrder(leq, b, x);
    }
    SameTiesUnique(leq, Sorted(leq, a), Sorted(leq, b));
  }

  lemma FilterOrdered<T(!new)>(leq: (T, T) -> bool, p: T -> bool, s: seq<T>)
    requires Preorder(leq) && Ordered(leq, s)
    ensures Ordered(leq, Filter(p, s))
  {
    SortedFixed(leq, s);
    SortedFilter(leq, p, s);
    SortedOrders(leq, Filter(p, s));
  }
}
