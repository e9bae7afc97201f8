/** What reconciliation prefers and reports (`backend/data/reconciliation.py`), read off the policy and the observations
    themselves. */
module Precedence {
  import opened Results
  import opened Seqs
  import opened StringOrder
  import opened StableSort
  import opened Observations
  import opened Reconciliation
  import opened DivergenceOrder

  // ----- Whose value is chosen -----

  /** The rank of a provider is its first place in the policy's list, or the length of the list. */
  lemma {:induction false} RankIsFirstPlace(xs: seq<string>, x: string)
    ensures x in xs ==> IndexOf(xs, x) < |xs| && xs[IndexOf(xs, x)] == x
    ensures x !in xs ==> IndexOf(xs, x) == |xs|
    ensures forall j :: 0 <= j < IndexOf(xs, x) ==> xs[j] != x
  {
    if xs != [] && xs[0] != x {
      RankIsFirstPlace(xs[1..], x);
      forall j | 0 <= j < IndexOf(xs, x) ensures xs[j] != x {
        assert j > 0 ==> xs[j] == xs[1..][j - 1];
      }
    }
  }

  /** Wherever the list names `b`, it names `a` no later. A provider that it does not name is behind all that it
      does. */
  ghost predicate ListedNoLater(precedence: seq<string>, a: string, b: string) {
    forall j :: 0 <= j < |precedence| && precedence[j] == b ==> exists i :: 0 <= i <= j && precedence[i] == a
  }

  lemma SmallerRankIsListedNoLater(policy: Policy, a: string, b: string)
    requires Rank(a, policy) <= Rank(b, policy)
    ensures ListedNoLater(policy.precedence, a, b)
    ensures Rank(a, policy) == Rank(b, policy) && a != b ==> a !in policy.precedence && b !in policy.precedence
  {
    RankIsFirstPlace(policy.precedence, a);
    RankIsFirstPlace(policy.precedence, b);
    forall j | 0 <= j < |policy.precedence| && policy.precedence[j] == b
      ensures exists i :: 0 <= i <= j && policy.precedence[i] == a
    {
      assert policy.precedence[Rank(a, policy)] == a;
    }
  }

  ghost predicate IsFreshWith(o: Observation, name: string) {
    !o.stale && name in o.fields && o.fields[name] != Null
  }

  /** Among the fresh observations that have a value for the field, the value comes from one whose provider the policy
      names first; if it names none of them, from the alphabetically first provider; and among several of that provider
      from the one with the smallest source checksum. */
  lemma EarliestProviderWins(observations: seq<Observation>, policy: Policy, name: string) returns (o: Observation)
    requires Reconciled(observations, policy).action.Composite? || Reconciled(observations, policy).action.SelectProvider?
    requires name in Reconciled(observations, policy).canonicalFields
    ensures o in observations && IsFreshWith(o, name)
    ensures Reconciled(observations, policy).canonicalFields[name] == o.fields[name]
    ensures name in Reconciled(observations, policy).fieldProvenance
    ensures Reconciled(observations, policy).fieldProvenance[name] == o.provider
    ensures forall p :: p in observations && IsFreshWith(p, name) ==>
      && ListedNoLater(policy.precedence, o.provider, p.provider)
      && (o.provider !in policy.precedence ==> StrLeq(o.provider, p.provider))
      && (p.provider == o.provider ==> StrLeq(o.sourceChecksum, p.sourceChecksum))
  {
    var r := Reconciled(observations, policy);
    CanonicalFieldsByPrecedence(observations, policy, name);
    o :| IsLeader(observations, policy, name, o) && r.canonicalFields[name] == o.fields[name]
         && r.fieldProvenance[name] == o.provider;
    forall p | p in observations && IsFreshWith(p, name)
      ensures ListedNoLater(policy.precedence, o.provider, p.provider)
      ensures o.provider !in policy.precedence ==> StrLeq(o.provider, p.provider)
      ensures p.provider == o.provider ==> StrLeq(o.sourceChecksum, p.sourceChecksum)
    {
      assert Offers(p, name) && ObservationLeq(policy, o, p);
      LeaderIsPreferred(policy, o, p);
    }
  }

  lemma LeaderIsPreferred(policy: Policy, o: Observation, p: Observation)
    requires !o.stale && !p.stale && ObservationLeq(policy, o, p)
    ensures ListedNoLater(policy.precedence, o.provider, p.provider)
    ensures o.provider !in policy.precedence ==> StrLeq(o.provider, p.provider)
    ensures p.provider == o.provider ==> StrLeq(o.sourceChecksum, p.sourceChecksum)
  {
    SmallerRankIsListedNoLater(policy, o.provider, p.provider);
    RankIsFirstPlace(policy.precedence, o.provider);
    RankIsFirstPlace(policy.precedence, p.provider);
    StrTotal(o.provider, o.provider);
  }

  /** The order in which observations are compared with each other: by the policy's list, fresh before stale, then by
      provider and checksum. */
  lemma ComparedInOrder(observations: seq<Observation>, policy: Policy, i: nat, j: nat)
    requires i < j < |observations|
    ensures var ordered := Sorted(ByPrecedence(policy), observations);
      var a, b := ordered[i], ordered[j];
      && ListedNoLater(policy.precedence, a.provider, b.provider)
      && (a.provider !in policy.precedence && b.provider !in policy.precedence && a.stale == b.stale ==>
            StrLeq(a.provider, b.provider))
      && (a.provider == b.provider || (a.provider !in policy.precedence && b.provider !in policy.precedence) ==>
            (a.stale ==> b.stale))
      && (a.provider == b.provider && a.stale == b.stale ==> StrLeq(a.sourceChecksum, b.sourceChecksum))
  {
    var ordered := Sorted(ByPrecedence(policy), observations);
    var a, b := ordered[i], ordered[j];
    assert Preorder(ByPrecedence(policy)) by { ByPrecedenceIsPreorder(policy); }
    SortedOrders(ByPrecedence(policy), observations);
    assert ByPrecedence(policy)(a, b);
    SmallerRankIsListedNoLater(policy, a.provider, b.provider);
    RankIsFirstPlace(policy.precedence, a.provider);
    RankIsFirstPlace(policy.precedence, b.provider);
    StrTotal(a.provider, a.provider);
  }

  ghost predicate FromTwoProviders(provenance: map<string, string>) {
    exists x, y :: x in provenance && y in provenance && provenance[x] != provenance[y]
  }

  lemma CompositePreviewIff(ordered: seq<Observation>, policy: Policy)
    ensures Preview(ordered, policy).action.Composite? <==> FromTwoProviders(Preview(ordered, policy).fieldProvenance)
  {
    PreviewShape(ordered, policy);
    ManyValues(Preview(ordered, policy).fieldProvenance);
  }

  /** A preview is composite exactly when two of its fields come from different providers. */
  lemma CompositeIff(observations: seq<Observation>, policy: Policy)
    ensures Reconciled(observations, policy).action.Composite?
       <==> FromTwoProviders(Reconciled(observations, policy).fieldProvenance)
  {
    if observations != [] && |Identities(observations)| == 1 {
      CompositePreviewIff(Sorted(ByPrecedence(policy), observations), policy);
    }
  }

  lemma ManyValues(m: map<string, string>)
    ensures |m.Values| > 1 <==> FromTwoProviders(m)
  {
    if x, y :| x in m && y in m && m[x] != m[y] {
      assert {m[x], m[y]} <= m.Values;
      assert m.Values == {m[x], m[y]} + (m.Values - {m[x], m[y]});
    }
    if |m.Values| > 1 {
      var v :| v in m.Values;
      var rest := m.Values - {v};
      assert |rest| > 0;
      var w :| w in rest;
      assert exists x, y :: x in m && y in m && m[x] == v && m[y] == w;
    }
  }

  // ----- What is reported as a divergence -----

  ghost predicate IsNumeric(v: Value, x: real) {
    (v.IntValue? && v.i as real == x) || (v.FloatValue? && v.r == x)
  }

  function Gap(x: real, y: real): real { if x >= y then x - y else y - x }

  /** `scale` is the largest of the two magnitudes and 1e-12. */
  predicate IsScale(scale: real, x: real, y: real) {
    && x <= scale && -x <= scale && y <= scale && -y <= scale && 0.000000000001 <= scale
    && (scale == x || scale == -x || scale == y || scale == -y || scale == 0.000000000001)
  }

  lemma MaxIsScale(x: real, y: real)
    ensures IsScale(Max(Max(Abs(x), Abs(y)), 0.000000000001), x, y)
  {
  }

  lemma ScaleIsUnique(s: real, t: real, x: real, y: real)
    requires IsScale(s, x, y) && IsScale(t, x, y)
    ensures s == t
  {
  }

  lemma DifferencesAre(a: Value, b: Value, x: real, y: real, scale: real)
    requires IsNumeric(a, x) && IsNumeric(b, y) && IsScale(scale, x, y)
    ensures AbsoluteDifference(a, b) == Gap(x, y) && RelativeDifference(a, b) == Gap(x, y) / scale
  {
    MaxIsScale(x, y);
    ScaleIsUnique(scale, Max(Max(Abs(x), Abs(y)), 0.000000000001), x, y);
  }

  /** Within the field's absolute tolerance, or relative to `scale` within its relative one; a missing one is zero. */
  predicate Within(policy: Policy, name: string, gap: real, scale: real)
    requires scale > 0.0
  {
    || gap <= (if name in policy.absoluteTolerances then policy.absoluteTolerances[name] else 0.0)
    || gap / scale <= (if name in policy.relativeTolerances then policy.relativeTolerances[name] else 0.0)
  }

  /** Two numbers diverge when they differ. The difference is tolerated when it is within the field's absolute
      tolerance, or within its relative tolerance of the larger magnitude. Otherwise the divergence is critical exactly for a
      critical field. */
  lemma NumbersDiverge(
    policy: Policy, left: Observation, right: Observation, name: string, x: real, y: real, scale: real)
    requires name in left.fields && name in right.fields
    requires IsNumeric(left.fields[name], x) && IsNumeric(right.fields[name], y) && IsScale(scale, x, y)
    ensures Compare(policy, left, right, name) == [] <==> x == y
    ensures x != y ==>
      var d := Compare(policy, left, right, name)[0];
      && d.absoluteDifference == Some(Gap(x, y)) && d.relativeDifference == Some(Gap(x, y) / scale)
      && d.severity == if Within(policy, name, Gap(x, y), scale) then Informational
                       else if name in policy.criticalFields then Critical else Moderate
  {
    DifferencesAre(left.fields[name], right.fields[name], x, y, scale);
  }

  /** A text diverges from a number, and from every other text; that is never tolerated. */
  lemma TextsDiverge(policy: Policy, left: Observation, right: Observation, name: string)
    requires name in left.fields && name in right.fields
    requires left.fields[name] != Null && right.fields[name] != Null
    requires left.fields[name].Text? || right.fields[name].Text?
    ensures Compare(policy, left, right, name) == [] <==> left.fields[name] == right.fields[name]
    ensures left.fields[name] != right.fields[name] ==>
      var d := Compare(policy, left, right, name)[0];
      && d.absoluteDifference == None && d.relativeDifference == None
      && d.severity == if name in policy.criticalFields then Critical else Moderate
  {
  }

  /** `d` is about the field `name` of `left` and `right`, both of which have a value for it. */
  ghost predicate IsAbout(d: Divergence, left: Observation, right: Observation, name: string) {
    && d.field == name && d.leftProvider == left.provider && d.rightProvider == right.provider
    && name in left.fields && left.fields[name] != Null && d.left == left.fields[name]
    && name in right.fields && right.fields[name] != Null && d.right == right.fields[name]
  }

  lemma ComparedFieldsAreShared(policy: Policy, left: Observation, right: Observation, name: string)
    ensures |Compare(policy, left, right, name)| <= 1
    ensures Compare(policy, left, right, name) != [] ==>
      IsAbout(Compare(policy, left, right, name)[0], left, right, name)
  {
  }

  /** The divergences of two observations are those of the fields that both have. */
  lemma DivergencesOfPair(policy: Policy, left: Observation, right: Observation, d: Divergence)
    ensures d in CompareWith(policy)(left)(right) <==>
            exists name :: name in left.fields && name in right.fields && d in Compare(policy, left, right, name)
  {
    InFlatMap(CompareOn(policy, left, right), SharedNames(left, right), d);
    if name :| name in left.fields && name in right.fields && d in Compare(policy, left, right, name) {
      assert name in SharedNames(left, right) && d in CompareOn(policy, left, right)(name);
    }
  }

  /** `d` is reported for the field `name` of two of the observations, compared in the given order. */
  ghost predicate Found(policy: Policy, ordered: seq<Observation>, i: int, j: int, name: string, d: Divergence) {
    && 0 <= i < j < |ordered| && name in ordered[i].fields && name in ordered[j].fields
    && d in Compare(policy, ordered[i], ordered[j], name)
  }

  /** A preview of observations of one contract reports, for every two of them and every field that both have, what
      comparing that field reports, and nothing else. */
  lemma EveryPairIsCompared(observations: seq<Observation>, policy: Policy, d: Divergence)
    requires observations != [] && |Identities(observations)| == 1
    ensures d in Reconciled(observations, policy).divergences <==>
      exists i, j, name :: Found(policy, Sorted(ByPrecedence(policy), observations), i, j, name, d)
  {
    var ordered := Sorted(ByPrecedence(policy), observations);
    ReportedDivergences(observations, policy);
    FoundInPairs(ordered, policy, d);
  }

  lemma FoundInPairs(ordered: seq<Observation>, policy: Policy, d: Divergence)
    ensures d in AllDivergences(policy, ordered) <==> exists i, j, name :: Found(policy, ordered, i, j, name, d)
  {
    InPairs(CompareWith(policy), ordered, |ordered|, d);
    if i: nat, j: nat :| i < |ordered| && FromPair(CompareWith(policy), ordered, i, j, d) {
      DivergencesOfPair(policy, ordered[i], ordered[j], d);
      var name :| name in ordered[i].fields && name in ordered[j].fields
                  && d in Compare(policy, ordered[i], ordered[j], name);
      assert Found(policy, ordered, i, j, name, d);
    }
    if i, j, name :| Found(policy, ordered, i, j, name, d) {
      assert FromPair(CompareWith(policy), ordered, i, j, d) by {
        DivergencesOfPair(policy, ordered[i], ordered[j], d);
      }
    }
  }
}
