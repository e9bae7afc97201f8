/** Values that may be absent, as the source's `X | None`, and results of operations that may raise. */
module Results {
  datatype Option<+T> = None | Some(value: T) {
    function GetOr(default: T): T {
      if Some? then value else default
    }
  }

  datatype Result<+T, +E> = Ok(value: T) | Err(error: E)
}

/** Sequence folds that the models share. They peel the last element, so that a loop which
    appends one element per iteration advances them by one step. */
module Seqs {

  function Last<T>(s: seq<T>): T
    requires s != []
  {
    s[|s| - 1]
  }

  function Front<T>(s: seq<T>): seq<T>
    requires s != []
  {
    s[..|s| - 1]
  }

  function Filter<T>(p: T -> bool, s: seq<T>): (r: seq<T>)
    ensures |r| <= |s|
  {
    if s == [] then [] else Filter(p, Front(s)) + if p(Last(s)) then [Last(s)] else []
  }

  function Map<T, U>(f: T -> U, s: seq<T>): (r: seq<U>)
    ensures |r| == |s|
    ensures forall i :: 0 <= i < |s| ==> r[i] == f(s[i])
  {
    seq(|s|, i requires 0 <= i < |s| => f(s[i]))
  }

  function Sum<T>(f: T -> real, s: seq<T>): real {
    if s == [] then 0.0 else Sum(f, Front(s)) + f(Last(s))
  }

  function FlatMap<T, U>(f: T -> seq<U>, s: seq<T>): seq<U> {
    if s == [] then [] else FlatMap(f, Front(s)) + f(Last(s))
  }

  function Reverse<T>(s: seq<T>): (r: seq<T>)
    ensures |r| == |s| && forall i :: 0 <= i < |s| ==> r[i] == s[|s| - 1 - i]
  {
    seq(|s|, i requires 0 <= i < |s| => s[|s| - 1 - i])
  }

  ghost predicate Distinct<T>(s: seq<T>) {
    forall i, j :: 0 <= i < j < |s| ==> s[i] != s[j]
  }

  lemma TakeNext<T>(s: seq<T>, i: nat)
    requires i < |s|
    ensures s[..i + 1] != [] && Front(s[..i + 1]) == s[..i] && Last(s[..i + 1]) == s[i]
  {
  }

  lemma SliceNext<T>(s: seq<T>, i: nat, x: T)
    requires i < |s| && s[i] == x
    ensures s[..i + 1] == s[..i] + [x]
  {
  }

  lemma SplitLast<T>(s: seq<T>)
    requires s != []
    ensures s == Front(s) + [Last(s)]
    ensures multiset(s) == multiset(Front(s)) + multiset{Last(s)}
  {
    assert s == Front(s) + [Last(s)];
  }

  lemma Associative<T>(a: seq<T>, b: seq<T>, c: seq<T>)
    ensures (a + b) + c == a + (b + c)
  {
  }

  lemma {:induction false} FilterAppend<T>(p: T -> bool, a: seq<T>, b: seq<T>)
    ensures Filter(p, a + b) == Filter(p, a) + Filter(p, b)
  {
    if b == [] {
      assert a + b == a;
    } else {
      assert Front(a + b) == a + Front(b) && Last(a + b) == Last(b);
      FilterAppend(p, a, Front(b));
      Associative(Filter(p, a), Filter(p, Front(b)), if p(Last(b)) then [Last(b)] else []);
    }
  }

  lemma FilterSnoc<T>(p: T -> bool, s: seq<T>, x: T)
    ensures Filter(p, s + [x]) == Filter(p, s) + if p(x) then [x] else []
  {
    assert Front(s + [x]) == s;
  }

  lemma FilterFirst<T>(p: T -> bool, s: seq<T>)
    requires s != [] && p(s[0])
    ensures Filter(p, s) != [] && Filter(p, s)[0] == s[0]
  {
    assert s == [s[0]] + s[1..] && Front([s[0]]) == [];
    FilterAppend(p, [s[0]], s[1..]);
  }

  lemma {:induction false} FilterElements<T>(p: T -> bool, s: seq<T>, x: T)
    ensures x in Filter(p, s) <==> x in s && p(x)
  {
    if s != [] {
      FilterElements(p, Front(s), x);
      SplitLast(s);
    }
  }

  /** Predicates that agree on the elements select alike. */
  lemma {:induction false} FilterSame<T>(p: T -> bool, q: T -> bool, s: seq<T>)
    requires forall x :: x in s ==> p(x) == q(x)
    ensures Filter(p, s) == Filter(q, s)
  {
    if s != [] {
      SplitLast(s);
      FilterSame(p, q, Front(s));
    }
  }

  lemma {:induction false} FilterFilter<T>(p: T -> bool, q: T -> bool, both: T -> bool, s: seq<T>)
    requires forall x :: x in s ==> both(x) == (p(x) && q(x))
    ensures Filter(p, Filter(q, s)) == Filter(both, s)
  {
    if s != [] {
      SplitLast(s);
      FilterFilter(p, q, both, Front(s));
      FilterAppend(p, Filter(q, Front(s)), if q(Last(s)) then [Last(s)] else []);
    }
  }

  lemma {:induction false} FilterMap<T, U>(p: U -> bool, f: T -> U, q: T -> bool, s: seq<T>)
    requires forall x :: x in s ==> q(x) == p(f(x))
    ensures Filter(p, Map(f, s)) == Map(f, Filter(q, s))
  {
    if s != [] {
      SplitLast(s);
      FilterMap(p, f, q, Front(s));
      assert Front(Map(f, s)) == Map(f, Front(s));
    }
  }

  lemma {:induction false} FilterAll<T>(p: T -> bool, s: seq<T>)
    requires forall x :: x in s ==> p(x)
    ensures Filter(p, s) == s
  {
    if s != [] {
      SplitLast(s);
      FilterAll(p, Front(s));
    }
  }

  lemma {:induction false} FilterNone<T>(p: T -> bool, s: seq<T>)
    requires forall x :: x in s ==> !p(x)
    ensures Filter(p, s) == []
  {
    if s != [] {
      SplitLast(s);
      FilterNone(p, Front(s));
    }
  }

  lemma SameSize<T>(a: seq<T>, b: seq<T>)
    requires multiset(a) == multiset(b)
    ensures |a| == |b|
  {
    assert |multiset(a)| == |a| && |multiset(b)| == |b|;
  }

  lemma {:induction false} SumAppend<T>(f: T -> real, a: seq<T>, b: seq<T>)
    ensures Sum(f, a + b) == Sum(f, a) + Sum(f, b)
  {
    if b == [] {
      assert a + b == a;
    } else {
      assert Front(a + b) == a + Front(b);
      SumAppend(f, a, Front(b));
    }
  }

  function Without<T>(s: seq<T>, j: nat): seq<T>
    requires j < |s|
  {
    s[..j] + s[j + 1..]
  }

  lemma WithoutMultiset<T>(s: seq<T>, j: nat)
    requires j < |s|
    ensures multiset(s) == multiset(Without(s, j)) + multiset{s[j]}
  {
    assert s == s[..j] + [s[j]] + s[j + 1..];
  }

  lemma SplitAt<T>(s: seq<T>, j: nat)
    requires j < |s|
    ensures s == s[..j] + [s[j]] + s[j + 1..]
  {
  }

  lemma MoveToFront<T>(s: seq<T>, x: T) returns (other: seq<T>)
    requires x in s
    ensures multiset(other) == multiset(s) && other != [] && other[0] == x
  {
    var j :| 0 <= j < |s| && s[j] == x;
    WithoutMultiset(s, j);
    other := [x] + Without(s, j);
  }

  lemma FilterMiddle<T>(p: T -> bool, a: seq<T>, x: T, b: seq<T>)
    ensures multiset(Filter(p, a + [x] + b)) == multiset(Filter(p, a + b)) + if p(x) then multiset{x} else multiset{}
  {
    FilterAppend(p, a + [x], b);
    FilterSnoc(p, a, x);
    FilterAppend(p, a, b);
  }

  lemma FilterWithout<T>(p: T -> bool, s: seq<T>, j: nat)
    requires j < |s|
    ensures multiset(Filter(p, s)) == multiset(Filter(p, Without(s, j))) + if p(s[j]) then multiset{s[j]} else multiset{}
  {
    SplitAt(s, j);
    FilterMiddle(p, s[..j], s[j], s[j + 1..]);
  }

  /** Filtering respects reordering. */
  lemma {:induction false} FilterPermutation<T>(p: T -> bool, a: seq<T>, b: seq<T>)
    requires multiset(a) == multiset(b)
    ensures multiset(Filter(p, a)) == multiset(Filter(p, b)) && |Filter(p, a)| == |Filter(p, b)|
    decreases |a|
  {
    if a == [] {
      assert b == [] by { SameSize(a, b); }
    } else {
      assert Last(a) in multiset(b);
      var j :| 0 <= j < |b| && b[j] == Last(a);
      SplitLast(a);
      WithoutMultiset(b, j);
      assert multiset(Front(a)) == multiset(a) - multiset{b[j]} == multiset(Without(b, j));
      FilterPermutation(p, Front(a), Without(b, j));
      FilterWithout(p, b, j);
    }
    SameSize(Filter(p, a), Filter(p, b));
  }

  lemma SumMiddle<T>(f: T -> real, a: seq<T>, x: T, b: seq<T>)
    ensures Sum(f, a + [x] + b) == Sum(f, a + b) + f(x)
  {
    SumAppend(f, a + [x], b);
    SumAppend(f, a, b);
    assert Front(a + [x]) == a;
  }

  lemma SumWithout<T>(f: T -> real, s: seq<T>, j: nat)
    requires j < |s|
    ensures Sum(f, s) == Sum(f, Without(s, j)) + f(s[j])
  {
    SplitAt(s, j);
    SumMiddle(f, s[..j], s[j], s[j + 1..]);
  }

  /** A sum does not depend on the order of its terms. */
  lemma {:induction false} SumPermutation<T>(f: T -> real, a: seq<T>, b: seq<T>)
    requires multiset(a) == multiset(b)
    ensures Sum(f, a) == Sum(f, b)
    decreases |a|
  {
    if a == [] {
      assert b == [] by { SameSize(a, b); }
    } else {
      assert Last(a) in multiset(b);
      var j :| 0 <= j < |b| && b[j] == Last(a);
      SplitLast(a);
      WithoutMultiset(b, j);
      assert multiset(Front(a)) == multiset(a) - multiset{b[j]} == multiset(Without(b, j));
      SumPermutation(f, Front(a), Without(b, j));
      SumWithout(f, b, j);
    }
  }

  lemma {:induction false} FlatMapAppend<T, U>(f: T -> seq<U>, a: seq<T>, b: seq<T>)
    ensures FlatMap(f, a + b) == FlatMap(f, a) + FlatMap(f, b)
  {
    if b == [] {
      assert a + b == a;
    } else {
      assert Front(a + b) == a + Front(b) && Last(a + b) == Last(b);
      FlatMapAppend(f, a, Front(b));
      Associative(FlatMap(f, a), FlatMap(f, Front(b)), f(Last(b)));
    }
  }

  lemma FlatMapMiddle<T, U>(f: T -> seq<U>, a: seq<T>, x: T, b: seq<T>)
    ensures multiset(FlatMap(f, a + [x] + b)) == multiset(FlatMap(f, a + b)) + multiset(f(x))
  {
    assert Front(a + [x]) == a;
    FlatMapAppend(f, a + [x], b);
    FlatMapAppend(f, a, b);
  }

  lemma FlatMapWithout<T, U>(f: T -> seq<U>, s: seq<T>, j: nat)
    requires j < |s|
    ensures multiset(FlatMap(f, s)) == multiset(FlatMap(f, Without(s, j))) + multiset(f(s[j]))
  {
    SplitAt(s, j);
    FlatMapMiddle(f, s[..j], s[j], s[j + 1..]);
  }

  lemma {:induction false} FlatMapPermutation<T, U>(f: T -> seq<U>, a: seq<T>, b: seq<T>)
    requires multiset(a) == multiset(b)
    ensures multiset(FlatMap(f, a)) == multiset(FlatMap(f, b))
    decreases |a|
  {
    if a == [] {
      assert b == [] by { SameSize(a, b); }
    } else {
      assert Last(a) in multiset(b);
      var j :| 0 <= j < |b| && b[j] == Last(a);
      SplitLast(a);
      WithoutMultiset(b, j);
      assert multiset(Front(a)) == multiset(a) - multiset{b[j]} == multiset(Without(b, j));
      FlatMapPermutation(f, Front(a), Without(b, j));
      FlatMapWithout(f, b, j);
    }
  }

  lemma {:induction false} InFlatMap<T, U>(f: T -> seq<U>, s: seq<T>, u: U)
    ensures u in FlatMap(f, s) <==> exists x :: x in s && u in f(x)
  {
    if s != [] {
      InFlatMap(f, Front(s), u);
      assert forall x :: x in s <==> x in Front(s) || x == Last(s);
    }
  }

  lemma MapWithout<T, U>(f: T -> U, s: seq<T>, j: nat)
    requires j < |s|
    ensures multiset(Map(f, s)) == multiset(Map(f, Without(s, j))) + multiset{f(s[j])}
  {
    var m := Map(f, s);
    assert Map(f, Without(s, j)) == Without(m, j);
    WithoutMultiset(m, j);
  }

  lemma MapFront<T, U>(f: T -> U, s: seq<T>)
    requires s != []
    ensures multiset(Map(f, s)) == multiset(Map(f, Front(s))) + multiset{f(Last(s))}
  {
    assert Map(f, s) == Map(f, Front(s)) + [f(Last(s))];
  }

  lemma {:induction false} MapPermutation<T, U>(f: T -> U, a: seq<T>, b: seq<T>)
    requires multiset(a) == multiset(b)
    ensures multiset(Map(f, a)) == multiset(Map(f, b))
    decreases |a|
  {
    if a == [] {
      assert b == [] by { SameSize(a, b); }
    } else {
      assert Last(a) in multiset(b);
      var j :| 0 <= j < |b| && b[j] == Last(a);
      SplitLast(a);
      WithoutMultiset(b, j);
      assert multiset(Front(a)) == multiset(a) - multiset{b[j]} == multiset(Without(b, j));
      MapPermutation(f, Front(a), Without(b, j));
      MapFront(f, a);
      MapWithout(f, b, j);
    }
  }

  lemma {:induction false} DistinctMultiset<T>(s: seq<T>)
    requires Distinct(s)
    ensures multiset(s) == multiset(set x | x in s)
  {
    if s != [] {
      SplitLast(s);
      DistinctMultiset(Front(s));
      assert Last(s) !in Front(s);
      assert (set x | x in s) == (set x | x in Front(s)) + {Last(s)};
    }
  }
}

/** Python dictionaries: a map that remembers the insertion order of its keys. */
module InsertionDict {
  import opened Seqs

  datatype Dict<K(==), V> = Dict(keys: seq<K>, entries: map<K, V>) {

    ghost predicate Valid() {
      Distinct(keys) && (set k | k in keys) == entries.Keys
    }

    /** `d[k] = v`: an existing key keeps its place. */
    function Put(k: K, v: V): (d: Dict<K, V>)
      ensures Valid() ==> d.Valid()
    {
      Dict(if k in entries then keys else keys + [k], entries[k := v])
    }

    function Values(): (r: seq<V>)
      requires Valid()
      ensures |r| == |keys|
      ensures forall i :: 0 <= i < |r| ==> keys[i] in entries && r[i] == entries[keys[i]]
    {
      seq(|keys|, i requires 0 <= i < |keys| => entries[keys[i]])
    }
  }

  function Empty<K(==), V>(): (d: Dict<K, V>)
    ensures d.Valid()
  {
    Dict([], map[])
  }
}
