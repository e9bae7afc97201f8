/** Field-by-field majority between providers (`consensus` in `backend/data/reconciliation.py`). */
module Consensus {
  import opened Results
  import opened Seqs
  import opened InsertionDict
  import opened StringOrder
  import opened SortedNames
  import opened StableSort
  import opened Observations

  datatype ConsensusError = TooFewProviders | IdentityConflict

  /** SHA-256 over the canonical JSON of these three, as an injective constructor. */
  datatype Digest = ConsensusDigest(fields: map<string, Value>, unresolved: seq<string>, policyVersion: string)

  datatype ConsensusResult = ConsensusResult(
    agreeingProviders: seq<string>, dissentingProviders: seq<string>, consensusFields: map<string, Value>,
    unresolvedFields: seq<string>, fieldProvenance: map<string, seq<string>>, policyVersion: string,
    confidence: real, severity: Severity, warnings: seq<string>, checksum: Digest)

  // ----- Majorities -----

  function Carries(name: string, v: Value): Observation -> bool {
    (o: Observation) => FieldOf(o, name) == Some(v)
  }

  /** The observations that carry `v` (not null) in the field. */
  function Carriers(observations: seq<Observation>, name: string, v: Value): seq<Observation> {
    Filter(Carries(name, v), observations)
  }

  ghost predicate Majority(observations: seq<Observation>, name: string, v: Value) {
    2 * |Carriers(observations, name, v)| > |observations|
  }

  lemma {:induction false} CarriersAreDisjoint(observations: seq<Observation>, name: string, v: Value, w: Value)
    requires v != w
    ensures |Carriers(observations, name, v)| + |Carriers(observations, name, w)| <= |observations|
  {
    if observations != [] {
      CarriersAreDisjoint(Front(observations), name, v, w);
    }
  }

  /** At most one value has a strict majority. */
  lemma MajorityIsUnique(observations: seq<Observation>, name: string, v: Value, w: Value)
    requires Majority(observations, name, v) && Majority(observations, name, w)
    ensures v == w
  {
    if v != w {
      CarriersAreDisjoint(observations, name, v, w);
    }
  }

  ghost function Decided(observations: seq<Observation>, name: string): (r: Option<Value>)
    ensures r.Some? ==> Majority(observations, name, r.value)
    ensures r.None? ==> forall v :: !Majority(observations, name, v)
  {
    if v :| Majority(observations, name, v) then Some(v) else None
  }

  // ----- The outcome, field by field -----

  function ProviderOf(o: Observation): string { o.provider }

  function ProvidersOf(group: seq<Observation>): seq<string> {
    Sorted(StrLeq, Map(ProviderOf, group))
  }

  predicate FieldsEqual(a: map<string, Value>, b: map<string, Value>) {
    a.Keys == b.Keys && forall name :: name in a.Keys ==> PyEqual(a[name], b[name])
  }

  /** Dataclass equality, which `item not in winner` uses: equal numbers count as equal whatever their JSON text. */
  predicate PyEqualObservations(a: Observation, b: Observation) {
    a.(fields := map[]) == b.(fields := map[]) && FieldsEqual(a.fields, b.fields)
  }

  predicate InGroup(o: Observation, group: seq<Observation>) {
    exists m :: m in group && PyEqualObservations(o, m)
  }

  function Dissenters(observations: seq<Observation>, group: seq<Observation>): set<string> {
    set o | o in observations && !InGroup(o, group) :: o.provider
  }

  function FieldNames(observations: seq<Observation>): set<string> {
    set o, name | o in observations && name in o.fields.Keys :: name
  }

  datatype Tally = Tally(
    fields: map<string, Value>, provenance: map<string, seq<string>>, unresolved: seq<string>,
    agreeing: set<string>, dissenting: set<string>)

  function Agree(t: Tally, observations: seq<Observation>, name: string, v: Value, group: seq<Observation>): Tally {
    Tally(t.fields[name := v], t.provenance[name := ProvidersOf(group)], t.unresolved,
          t.agreeing + (set p | p in ProvidersOf(group)), t.dissenting + Dissenters(observations, group))
  }

  ghost function TallyOf(observations: seq<Observation>, names: seq<string>): Tally {
    if names == [] then Tally(map[], map[], [], {}, {})
    else
      var t, name := TallyOf(observations, Front(names)), Last(names);
      match Decided(observations, name)
      case None => t.(unresolved := t.unresolved + [name])
      case Some(v) => Agree(t, observations, name, v, Carriers(observations, name, v))
  }

  function Conclude(t: Tally, observations: seq<Observation>, policy: Policy): ConsensusResult
    requires observations != []
  {
    var critical := exists name :: name in t.unresolved && name in policy.criticalFields;
    ConsensusResult(
      Names(t.agreeing), Names(t.dissenting), t.fields, t.unresolved, t.provenance, policy.version,
      |t.agreeing| as real / |observations| as real,
      if critical then Critical else if t.unresolved != [] then Moderate else Informational,
      if critical then ["Critical metadata conflict was not auto-resolved"] else [],
      ConsensusDigest(t.fields, t.unresolved, policy.version))
  }

  ghost function ConsensusOf(observations: seq<Observation>, policy: Policy): Result<ConsensusResult, ConsensusError> {
    if |observations| < 3 then Err(TooFewProviders)
    else if |Identities(observations)| != 1 then Err(IdentityConflict)
    else Ok(Conclude(TallyOf(observations, Names(FieldNames(observations))), observations, policy))
  }

  // ----- Grouping and the tie-break -----

  /** The groups by JSON text; a text stands for exactly one value. */
  ghost predicate AreGroups(groups: Dict<Value, seq<Observation>>, observations: seq<Observation>, name: string) {
    && groups.Valid()
    && (forall v :: v in groups.entries <==> Carriers(observations, name, v) != [])
    && (forall v :: v in groups.entries ==> groups.entries[v] == Carriers(observations, name, v))
  }

  lemma GroupsGrow(groups: Dict<Value, seq<Observation>>, observations: seq<Observation>, i: nat, name: string)
    requires i < |observations| && AreGroups(groups, observations[..i], name)
    ensures var o := observations[i];
      var next := if FieldOf(o, name).None? then groups
        else var v := FieldOf(o, name).value;
          groups.Put(v, (if v in groups.entries then groups.entries[v] else []) + [o]);
      AreGroups(next, observations[..i + 1], name)
  {
    var o := observations[i];
    TakeNext(observations, i);
    forall v ensures Carriers(observations[..i + 1], name, v) ==
      Carriers(observations[..i], name, v) + if FieldOf(o, name) == Some(v) then [o] else [] {}
  }

  method GroupByValue(observations: seq<Observation>, name: string) returns (groups: Dict<Value, seq<Observation>>)
    ensures AreGroups(groups, observations, name)
  {
    groups := Empty();
    for i := 0 to |observations|
      invariant AreGroups(groups, observations[..i], name)
    {
      GroupsGrow(groups, observations, i, name);
      var item := observations[i];
      if FieldOf(item, name).Some? {
        var key := item.fields[name];
        var group := if key in groups.entries then groups.entries[key] else [];
        groups := groups.Put(key, group + [item]);
      }
    }
    assert observations[..|observations|] == observations;
  }

  function MinRank(group: seq<Observation>, policy: Policy): nat
    requires group != []
  {
    var r := Rank(Last(group).provider, policy);
    if |group| == 1 then r
    else var m := MinRank(Front(group), policy); if m <= r then m else r
  }

  /** The key of the tie-break: size first, then the best-ranked provider. */
  predicate Beats(a: seq<Observation>, b: seq<Observation>, policy: Policy)
    requires a != [] && b != []
  {
    |a| > |b| || (|a| == |b| && MinRank(a, policy) < MinRank(b, policy))
  }

  /** `max(groups, key=...)`: the first group that no other beats. */
  method MaxGroup(groups: seq<seq<Observation>>, policy: Policy) returns (best: nat)
    requires groups != [] && forall j :: 0 <= j < |groups| ==> groups[j] != []
    ensures best < |groups|
    ensures forall j :: 0 <= j < |groups| ==> !Beats(groups[j], groups[best], policy)
    ensures forall j :: 0 <= j < best ==> Beats(groups[best], groups[j], policy)
  {
    best := 0;
    for i := 1 to |groups|
      invariant best < i
      invariant forall j :: 0 <= j < i ==> !Beats(groups[j], groups[best], policy)
      invariant forall j :: 0 <= j < best ==> Beats(groups[best], groups[j], policy)
    {
      if Beats(groups[i], groups[best], policy) {
        best := i;
      }
    }
  }

  /** The largest group has a strict majority exactly when its value does; no other value can. */
  lemma LargestGroupDecides(observations: seq<Observation>, name: string, v: Value)
    requires forall w :: |Carriers(observations, name, w)| <= |Carriers(observations, name, v)|
    ensures Decided(observations, name) == if Majority(observations, name, v) then Some(v) else None
  {
    if Decided(observations, name).Some? {
      var w := Decided(observations, name).value;
      assert |Carriers(observations, name, w)| <= |Carriers(observations, name, v)|;
      MajorityIsUnique(observations, name, v, w);
    }
  }

  /** The group that decides a field; `None` when no group has a strict majority. */
  method Elect(observations: seq<Observation>, name: string, policy: Policy) returns (r: Option<seq<Observation>>)
    ensures r.None? <==> Decided(observations, name).None?
    ensures r.Some? ==> r.value == Carriers(observations, name, Decided(observations, name).value)
  {
    var groups := GroupByValue(observations, name);
    var values := groups.Values();
    if values == [] {
      NoGroupNoMajority(groups, observations, name);
      return None;
    }
    var best := MaxGroup(values, policy);
    var winner := values[best];
    LargestGroupWins(groups, observations, name, policy, best);
    if 2 * |winner| > |observations| {
      return Some(winner);
    }
    return None;
  }

  lemma NoGroupNoMajority(groups: Dict<Value, seq<Observation>>, observations: seq<Observation>, name: string)
    requires AreGroups(groups, observations, name) && groups.keys == []
    ensures Decided(observations, name) == None
  {
    forall v ensures !Majority(observations, name, v) {
      assert v !in groups.entries;
    }
  }

  lemma LargestGroupWins(
    groups: Dict<Value, seq<Observation>>, observations: seq<Observation>, name: string, policy: Policy, best: nat)
    requires AreGroups(groups, observations, name) && best < |groups.keys|
    requires forall j :: 0 <= j < |groups.keys| ==>
      groups.Values()[j] != [] && groups.Values()[best] != [] && !Beats(groups.Values()[j], groups.Values()[best], policy)
    ensures groups.Values()[best] == Carriers(observations, name, groups.keys[best])
    ensures Decided(observations, name) ==
      if 2 * |groups.Values()[best]| > |observations| then Some(groups.keys[best]) else None
  {
    var v := groups.keys[best];
    assert v in groups.entries;
    forall w ensures |Carriers(observations, name, w)| <= |Carriers(observations, name, v)| {
      if w in groups.entries {
        var j :| 0 <= j < |groups.keys| && groups.keys[j] == w;
        assert !Beats(groups.Values()[j], groups.Values()[best], policy);
      }
    }
    LargestGroupDecides(observations, name, v);
  }

  lemma FirstCarrier(observations: seq<Observation>, name: string, v: Value)
    requires Majority(observations, name, v)
    ensures var group := Carriers(observations, name, v);
      group != [] && FieldOf(group[0], name) == Some(v)
  {
    var group := Carriers(observations, name, v);
    FilterElements(Carries(name, v), observations, group[0]);
  }

  method ComputeConsensus(observations: seq<Observation>, policy: Policy)
    returns (r: Result<ConsensusResult, ConsensusError>)
    ensures r == ConsensusOf(observations, policy)
  {
    if |observations| < 3 {
      return Err(TooFewProviders);
    }
    if |Identities(observations)| != 1 {
      return Err(IdentityConflict);
    }
    var tally := Tally(map[], map[], [], {}, {});
    var names := Names(FieldNames(observations));
    for i := 0 to |names|
      invariant tally == TallyOf(observations, names[..i])
    {
      TakeNext(names, i);
      var elected := Elect(observations, names[i], policy);
      if elected.Some? {
        var winner := elected.value;
        FirstCarrier(observations, names[i], Decided(observations, names[i]).value);
        tally := Agree(tally, observations, names[i], winner[0].fields[names[i]], winner);
      } else {
        tally := tally.(unresolved := tally.unresolved + [names[i]]);
      }
    }
    assert names[..|names|] == names;
    return Ok(Conclude(tally, observations, policy));
  }

  // ----- What the result says -----

  lemma {:induction false} TallyIsExact(observations: seq<Observation>, names: seq<string>, name: string)
    ensures var t := TallyOf(observations, names);
      && (name in t.fields <==> name in names && Decided(observations, name).Some?)
      && (name in t.provenance <==> name in t.fields)
      && (name in t.unresolved <==> name in names && Decided(observations, name).None?)
      && (name in t.fields ==>
            && Majority(observations, name, t.fields[name])
            && t.provenance[name] == ProvidersOf(Carriers(observations, name, t.fields[name])))
  {
    if names != [] {
      TallyIsExact(observations, Front(names), name);
      SplitLast(names);
    }
  }

  lemma MajorityIsNamed(observations: seq<Observation>, name: string, v: Value)
    requires Majority(observations, name, v)
    ensures name in FieldNames(observations)
  {
    var carriers := Carriers(observations, name, v);
    FilterElements(Carries(name, v), observations, carriers[0]);
  }

  /** A field is a consensus field exactly when some value has a strict majority of all
      observations; then it holds that value, and its provenance is the sorted list of the
      providers that carry it. Every other field name is unresolved. */
  lemma ConsensusIffMajority(observations: seq<Observation>, policy: Policy, name: string)
    requires ConsensusOf(observations, policy).Ok?
    ensures var r := ConsensusOf(observations, policy).value;
      && (name in r.consensusFields <==> exists v :: Majority(observations, name, v))
      && (forall v :: Majority(observations, name, v) ==>
            && name in r.consensusFields && r.consensusFields[name] == v
            && name in r.fieldProvenance
            && r.fieldProvenance[name] == ProvidersOf(Carriers(observations, name, v)))
      && (name in r.unresolvedFields <==>
            name in FieldNames(observations) && forall v :: !Majority(observations, name, v))
  {
    TallyIsExact(observations, Names(FieldNames(observations)), name);
    var r := ConsensusOf(observations, policy).value;
    assert name in r.consensusFields ==> Majority(observations, name, r.consensusFields[name]);
    forall v | Majority(observations, name, v)
      ensures Decided(observations, name) == Some(v) && name in FieldNames(observations)
    {
      MajorityIsUnique(observations, name, v, Decided(observations, name).value);
      MajorityIsNamed(observations, name, v);
    }
  }

  // ----- Independence of the observation order -----

  lemma CarriersPermutation(a: seq<Observation>, b: seq<Observation>, name: string, v: Value)
    requires multiset(a) == multiset(b)
    ensures multiset(Carriers(a, name, v)) == multiset(Carriers(b, name, v))
    ensures Majority(a, name, v) <==> Majority(b, name, v)
  {
    FilterPermutation(Carries(name, v), a, b);
    SameSize(a, b);
  }

  lemma DecidedPermutation(a: seq<Observation>, b: seq<Observation>, name: string)
    requires multiset(a) == multiset(b)
    ensures Decided(a, name) == Decided(b, name)
  {
    forall v ensures Majority(a, name, v) <==> Majority(b, name, v) {
      CarriersPermutation(a, b, name, v);
    }
    if Decided(a, name).Some? {
      MajorityIsUnique(a, name, Decided(a, name).value, Decided(b, name).value);
    }
  }

  lemma ProvidersPermutation(a: seq<Observation>, b: seq<Observation>)
    requires multiset(a) == multiset(b)
    ensures ProvidersOf(a) == ProvidersOf(b)
  {
    MapPermutation(ProviderOf, a, b);
    StrIsLinear();
    SortedCanonical(StrLeq, Map(ProviderOf, a), Map(ProviderOf, b));
  }

  lemma SameElements(a: seq<Observation>, b: seq<Observation>)
    requires multiset(a) == multiset(b)
    ensures forall o :: o in a <==> o in b
  {
    forall o ensures o in a <==> o in b {
      assert o in a <==> o in multiset(a);
      assert o in b <==> o in multiset(b);
    }
  }

  lemma DissentersPermutation(a: seq<Observation>, b: seq<Observation>, g: seq<Observation>, h: seq<Observation>)
    requires multiset(a) == multiset(b) && multiset(g) == multiset(h)
    ensures Dissenters(a, g) == Dissenters(b, h)
  {
    SameElements(a, b);
    SameElements(g, h);
  }

  lemma {:induction false} TallyPermutation(a: seq<Observation>, b: seq<Observation>, names: seq<string>)
    requires multiset(a) == multiset(b)
    ensures TallyOf(a, names) == TallyOf(b, names)
  {
    if names != [] {
      TallyPermutation(a, b, Front(names));
      DecidedPermutation(a, b, Last(names));
      if Decided(a, Last(names)).Some? {
        var v := Decided(a, Last(names)).value;
        var g, h := Carriers(a, Last(names), v), Carriers(b, Last(names), v);
        CarriersPermutation(a, b, Last(names), v);
        ProvidersPermutation(g, h);
        DissentersPermutation(a, b, g, h);
      }
    }
  }

  /** The order of the observations, which the tie-break sees, cannot be told from the result. */
  lemma ConsensusIgnoresOrder(a: seq<Observation>, b: seq<Observation>, policy: Policy)
    requires multiset(a) == multiset(b)
    ensures ConsensusOf(a, policy) == ConsensusOf(b, policy)
  {
    SameSize(a, b);
    IdentitiesPermutation(a, b);
    SameElements(a, b);
    assert FieldNames(a) == FieldNames(b);
    TallyPermutation(a, b, Names(FieldNames(a)));
  }

  // ----- Who agrees -----

  /** `o` carries the value that the majority carries in the field. */
  ghost predicate WithMajority(observations: seq<Observation>, name: string, o: Observation) {
    o in observations && exists v :: Majority(observations, name, v) && FieldOf(o, name) == Some(v)
  }

  lemma ProviderInGroup(group: seq<Observation>, p: string)
    ensures p in ProvidersOf(group) <==> exists o :: o in group && o.provider == p
  {
    SortedElements(StrLeq, Map(ProviderOf, group));
    if exists o :: o in group && o.provider == p {
      var i :| 0 <= i < |group| && group[i].provider == p;
      assert Map(ProviderOf, group)[i] == p;
    }
    if p in Map(ProviderOf, group) {
      var i :| 0 <= i < |group| && Map(ProviderOf, group)[i] == p;
      assert group[i].provider == p;
    }
  }

  lemma CarrierIsWithMajority(observations: seq<Observation>, name: string, o: Observation)
    requires Decided(observations, name).Some?
    ensures o in Carriers(observations, name, Decided(observations, name).value)
       <==> WithMajority(observations, name, o)
  {
    var v := Decided(observations, name).value;
    FilterElements(Carries(name, v), observations, o);
    forall w | Majority(observations, name, w) ensures w == v {
      MajorityIsUnique(observations, name, v, w);
    }
  }

  lemma {:induction false} TallyAgreeing(observations: seq<Observation>, names: seq<string>, p: string)
    ensures p in TallyOf(observations, names).agreeing <==>
            exists name, o :: name in names && WithMajority(observations, name, o) && o.provider == p
  {
    if names != [] {
      TallyAgreeing(observations, Front(names), p);
      SplitLast(names);
      AgreeingByLast(observations, names, p);
    }
  }

  lemma AgreeingByLast(observations: seq<Observation>, names: seq<string>, p: string)
    requires names != []
    ensures p in TallyOf(observations, names).agreeing <==>
            p in TallyOf(observations, Front(names)).agreeing
            || exists o :: WithMajority(observations, Last(names), o) && o.provider == p
  {
    var name := Last(names);
    if Decided(observations, name).Some? {
      var group := Carriers(observations, name, Decided(observations, name).value);
      ProviderInGroup(group, p);
      forall o ensures o in group <==> WithMajority(observations, name, o) {
        CarrierIsWithMajority(observations, name, o);
      }
    }
  }

  /** A provider is listed as agreeing exactly when an observation of its carries the majority value of some field. */
  lemma AgreeingCarryMajorities(observations: seq<Observation>, policy: Policy, p: string)
    requires ConsensusOf(observations, policy).Ok?
    ensures p in ConsensusOf(observations, policy).value.agreeingProviders <==>
            exists name, o :: WithMajority(observations, name, o) && o.provider == p
  {
    var names := Names(FieldNames(observations));
    TallyAgreeing(observations, names, p);
    forall name, o | WithMajority(observations, name, o) ensures name in names {
      var v :| Majority(observations, name, v) && FieldOf(o, name) == Some(v);
      MajorityIsNamed(observations, name, v);
    }
  }

  lemma {:induction false} FewProviders(observations: seq<Observation>)
    ensures |set o | o in observations :: o.provider| <= |observations|
  {
    if observations != [] {
      FewProviders(Front(observations));
      SplitLast(observations);
      var all := set o | o in observations :: o.provider;
      var fewer := set o | o in Front(observations) :: o.provider;
      assert all == fewer + {Last(observations).provider};
    }
  }

  lemma SubsetIsSmaller(a: set<string>, b: set<string>)
    requires a <= b
    ensures |a| <= |b|
  {
    assert b == a + (b - a);
  }

  /** The confidence is a fraction: no more providers agree than there are observations. */
  lemma ConfidenceIsFraction(observations: seq<Observation>, policy: Policy)
    requires ConsensusOf(observations, policy).Ok?
    ensures 0.0 <= ConsensusOf(observations, policy).value.confidence <= 1.0
  {
    var t := TallyOf(observations, Names(FieldNames(observations)));
    var providers := set o | o in observations :: o.provider;
    forall p | p in t.agreeing ensures p in providers {
      TallyAgreeing(observations, Names(FieldNames(observations)), p);
    }
    SubsetIsSmaller(t.agreeing, providers);
    FewProviders(observations);
    QuotientIsFraction(|t.agreeing| as real, |observations| as real);
  }

  lemma QuotientIsFraction(a: real, b: real)
    requires 0.0 <= a <= b && b > 0.0
    ensures 0.0 <= a / b <= 1.0
  {
    var q := a / b;
    assert q * b == a;
    assert q > 1.0 ==> (q - 1.0) * b > 0.0;
    assert q < 0.0 ==> q * b < 0.0;
  }
}
