/** What a consensus reports besides its fields (`consensus` in `backend/data/reconciliation.py`). */
module ConsensusReport {
  import opened Results
  import opened Seqs
  import opened StringOrder
  import opened SortedNames
  import opened StableSort
  import opened Observations
  import opened Consensus

  ghost predicate HasMajority(observations: seq<Observation>, name: string) {
    exists v :: Majority(observations, name, v)
  }

  ghost predicate Named(observations: seq<Observation>, name: string) {
    exists o :: o in observations && name in o.fields
  }

  /** Some observation has the field, and no value of it has a majority. */
  ghost predicate Unresolved(observations: seq<Observation>, name: string) {
    Named(observations, name) && !HasMajority(observations, name)
  }

  lemma UnresolvedIff(observations: seq<Observation>, policy: Policy, name: string)
    requires ConsensusOf(observations, policy).Ok?
    ensures name in ConsensusOf(observations, policy).value.unresolvedFields <==> Unresolved(observations, name)
  {
    ConsensusIffMajority(observations, policy, name);
  }

  /** The result is critical, with the one warning, exactly when a critical field is unresolved; moderate when only
      other fields are; and informational when none is. */
  lemma SeverityIsExact(observations: seq<Observation>, policy: Policy)
    requires ConsensusOf(observations, policy).Ok?
    ensures var r := ConsensusOf(observations, policy).value;
      && (r.severity == Critical <==> exists name :: name in policy.criticalFields && Unresolved(observations, name))
      && (r.severity == Informational <==> forall name :: !Unresolved(observations, name))
      && (r.severity == Critical || r.severity == Moderate || r.severity == Informational)
      && r.warnings
         == if r.severity == Critical then ["Critical metadata conflict was not auto-resolved"] else []
  {
    var r := ConsensusOf(observations, policy).value;
    forall name ensures name in r.unresolvedFields <==> Unresolved(observations, name) {
      UnresolvedIff(observations, policy, name);
    }
    if r.unresolvedFields != [] {
      assert r.unresolvedFields[0] in r.unresolvedFields;
    }
  }

  /** The confidence is the number of agreeing providers, each counted once, by the number of observations. */
  lemma ConfidenceIsExact(observations: seq<Observation>, policy: Policy)
    requires ConsensusOf(observations, policy).Ok?
    ensures var r := ConsensusOf(observations, policy).value;
      && |observations| > 0 && r.confidence == |r.agreeingProviders| as real / |observations| as real
      && StrictlyAscending(r.agreeingProviders) && StrictlyAscending(r.dissentingProviders)
  {
    var t := TallyOf(observations, Names(FieldNames(observations)));
    NamesAscend(t.agreeing);
    NamesAscend(t.dissenting);
  }

  // ----- Who dissents -----

  /** Nothing tells the two apart but how equal numbers are written. */
  ghost predicate Alike(a: Observation, b: Observation) {
    && a.provider == b.provider && a.identity == b.identity && a.timestamp == b.timestamp
    && a.sourceChecksum == b.sourceChecksum && a.certificationScore == b.certificationScore && a.stale == b.stale
    && (forall name :: name in a.fields <==> name in b.fields)
    && (forall name :: name in a.fields && name in b.fields ==>
          || a.fields[name] == b.fields[name]
          || (a.fields[name].IntValue? && b.fields[name].FloatValue? && a.fields[name].i as real == b.fields[name].r)
          || (a.fields[name].FloatValue? && b.fields[name].IntValue? && a.fields[name].r == b.fields[name].i as real))
  }

  lemma AlikeIff(a: Observation, b: Observation)
    ensures PyEqualObservations(a, b) <==> Alike(a, b)
  {
  }

  /** `o` is unlike every observation that carries the majority value of the field. */
  ghost predicate Dissents(observations: seq<Observation>, name: string, o: Observation) {
    && o in observations
    && exists v :: Majority(observations, name, v)
                && forall m :: m in observations && name in m.fields && m.fields[name] == v && v != Null ==>
                     !Alike(o, m)
  }

  /** Some observation of the provider dissents in the field. */
  ghost predicate DissentsIn(observations: seq<Observation>, name: string, p: string) {
    exists o :: Dissents(observations, name, o) && o.provider == p
  }

  lemma DissentersOfField(observations: seq<Observation>, name: string, v: Value, p: string)
    requires Majority(observations, name, v)
    ensures p in Dissenters(observations, Carriers(observations, name, v)) <==> DissentsIn(observations, name, p)
  {
    forall o | o in observations
      ensures InGroup(o, Carriers(observations, name, v)) <==> !Dissents(observations, name, o)
    {
      InGroupIff(observations, name, v, o);
    }
  }

  lemma InGroupIff(observations: seq<Observation>, name: string, v: Value, o: Observation)
    requires o in observations && Majority(observations, name, v)
    ensures InGroup(o, Carriers(observations, name, v)) <==> !Dissents(observations, name, o)
  {
    forall m ensures m in Carriers(observations, name, v) <==> m in observations && FieldOf(m, name) == Some(v) {
      FilterElements(Carries(name, v), observations, m);
    }
    forall m ensures PyEqualObservations(o, m) <==> Alike(o, m) {
      AlikeIff(o, m);
    }
    forall w | Majority(observations, name, w) ensures w == v {
      MajorityIsUnique(observations, name, v, w);
    }
  }

  lemma {:induction false} DissentingField(observations: seq<Observation>, names: seq<string>, p: string)
    returns (name: string)
    requires p in TallyOf(observations, names).dissenting
    ensures name in names && DissentsIn(observations, name, p)
  {
    DissentingByLast(observations, names, p);
    SplitLast(names);
    if p in TallyOf(observations, Front(names)).dissenting {
      name := DissentingField(observations, Front(names), p);
    } else {
      name := Last(names);
    }
  }

  lemma {:induction false} DissenterIsListed(
    observations: seq<Observation>, names: seq<string>, p: string, name: string)
    requires name in names && DissentsIn(observations, name, p)
    ensures p in TallyOf(observations, names).dissenting
  {
    DissentingByLast(observations, names, p);
    SplitLast(names);
    if name in Front(names) {
      DissenterIsListed(observations, Front(names), p, name);
    }
  }

  lemma DissentingByLast(observations: seq<Observation>, names: seq<string>, p: string)
    requires names != []
    ensures p in TallyOf(observations, names).dissenting <==>
            p in TallyOf(observations, Front(names)).dissenting
            || DissentsIn(observations, Last(names), p)
  {
    var name := Last(names);
    if Decided(observations, name).Some? {
      DissentersOfField(observations, name, Decided(observations, name).value, p);
    }
  }

  /** A provider is listed as dissenting exactly when an observation of its is unlike all those that carry the majority
      value of some field. */
  lemma DissentingProvidersAreExact(observations: seq<Observation>, policy: Policy, p: string)
    requires ConsensusOf(observations, policy).Ok?
    ensures p in ConsensusOf(observations, policy).value.dissentingProviders <==>
            exists name :: DissentsIn(observations, name, p)
  {
    var names := Names(FieldNames(observations));
    if p in TallyOf(observations, names).dissenting {
      var name := DissentingField(observations, names, p);
    }
    if name :| DissentsIn(observations, name, p) {
      var v :| Majority(observations, name, v);
      MajorityIsNamed(observations, name, v);
      DissenterIsListed(observations, names, p, name);
    }
  }

  // ----- The lists and the checksum -----

  /** The providers of a consensus field are exactly those that carry its value, in ascending order, one entry for each
      observation. */
  lemma ProvenanceIsAscending(group: seq<Observation>)
    ensures multiset(ProvidersOf(group)) == multiset(Map(ProviderOf, group))
    ensures forall i, j :: 0 <= i < j < |ProvidersOf(group)| ==> StrLeq(ProvidersOf(group)[i], ProvidersOf(group)[j])
  {
    SortedPermutes(StrLeq, Map(ProviderOf, group));
    assert Preorder(StrLeq) by { StrIsLinear(); }
    SortedOrders(StrLeq, Map(ProviderOf, group));
  }

  lemma {:induction false} UnresolvedIsFilter(observations: seq<Observation>, names: seq<string>)
    requires StrictlyAscending(names)
    ensures StrictlyAscending(TallyOf(observations, names).unresolved)
    ensures forall name :: name in TallyOf(observations, names).unresolved ==> name in names
  {
    if names != [] {
      UnresolvedIsFilter(observations, Front(names));
      SplitLast(names);
      var before := TallyOf(observations, Front(names)).unresolved;
      forall i | 0 <= i < |before| ensures StrLeq(before[i], Last(names)) && before[i] != Last(names) {
        assert before[i] in Front(names);
      }
    }
  }

  /** The unresolved fields are listed once each, in ascending order. */
  lemma UnresolvedAscend(observations: seq<Observation>, policy: Policy)
    requires ConsensusOf(observations, policy).Ok?
    ensures StrictlyAscending(ConsensusOf(observations, policy).value.unresolvedFields)
  {
    NamesAscend(FieldNames(observations));
    UnresolvedIsFilter(observations, Names(FieldNames(observations)));
  }

  /** Two results have one checksum exactly when they have the same consensus fields, unresolved fields and policy
      version, whoever agreed. */
  lemma ChecksumIsExact(a: seq<Observation>, b: seq<Observation>, p: Policy, q: Policy)
    requires ConsensusOf(a, p).Ok? && ConsensusOf(b, q).Ok?
    ensures var r, s := ConsensusOf(a, p).value, ConsensusOf(b, q).value;
      && r.policyVersion == p.version
      && (r.checksum == s.checksum <==>
            && r.consensusFields == s.consensusFields && r.unresolvedFields == s.unresolvedFields
            && p.version == q.version)
  {
  }

  /** Fewer than three observations are refused, and more of different contracts. */
  lemma RefusedIff(observations: seq<Observation>, policy: Policy)
    ensures ConsensusOf(observations, policy) == Err(TooFewProviders) <==> |observations| <= 2
    ensures ConsensusOf(observations, policy) == Err(IdentityConflict) <==>
            |observations| > 2 && exists a, b :: a in observations && b in observations && a.identity != b.identity
  {
    if observations != [] {
      OneIdentityCount(observations);
    }
  }
}
