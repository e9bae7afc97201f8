/** Observations of one contract by several providers (`backend/data/reconciliation.py`). */
module Observations {
  import opened Results
  import opened Seqs
  import opened StringOrder
  import opened StableSort

  /** A JSON scalar. `1` and `1.0` are equal in Python but have different JSON texts. */
  datatype Value = Null | IntValue(i: int) | FloatValue(r: real) | Text(s: string)

  datatype Identity = Identity(underlying: string, expiration: string, strike: real, optionType: string,
                               multiplier: real, styles: string)

  datatype Observation = Observation(
    provider: string, identity: Identity, timestamp: string, fields: map<string, Value>,
    sourceChecksum: string, certificationScore: Option<real>, stale: bool)

  datatype Policy = Policy(
    version: string, precedence: seq<string>, absoluteTolerances: map<string, real>,
    relativeTolerances: map<string, real>, criticalFields: seq<string>)

  datatype Severity = Informational | Minor | Moderate | Major | Critical | Incomparable

  predicate IsNumber(v: Value) { v.IntValue? || v.FloatValue? }

  function AsReal(v: Value): real
    requires IsNumber(v)
  {
    if v.IntValue? then v.i as real else v.r
  }

  /** Python's `==`. */
  predicate PyEqual(a: Value, b: Value) {
    if IsNumber(a) && IsNumber(b) then AsReal(a) == AsReal(b) else a == b
  }

  /** The non-null value of a field. */
  function FieldOf(o: Observation, name: string): Option<Value> {
    if name in o.fields && o.fields[name] != Null then Some(o.fields[name]) else None
  }

  function IndexOf(xs: seq<string>, x: string): nat {
    if xs == [] then 0 else if xs[0] == x then 0 else 1 + IndexOf(xs[1..], x)
  }

  /** The position in the policy's precedence; providers it does not list come last. */
  function Rank(provider: string, policy: Policy): nat {
    IndexOf(policy.precedence, provider)
  }

  ghost predicate OneIdentity(observations: seq<Observation>) {
    forall a, b :: a in observations && b in observations ==> a.identity == b.identity
  }

  function Identities(observations: seq<Observation>): set<Identity> {
    set o | o in observations :: o.identity
  }

  lemma OneIdentityCount(observations: seq<Observation>)
    requires observations != []
    ensures |Identities(observations)| == 1 <==> OneIdentity(observations)
  {
    var ids := Identities(observations);
    var first := observations[0];
    assert first.identity in ids;
    if OneIdentity(observations) {
      assert ids == {first.identity};
    }
    if |ids| == 1 {
      assert |ids - {first.identity}| == 0;
      forall a | a in observations ensures a.identity == first.identity {
        assert a.identity in ids;
      }
    }
  }

  lemma IdentitiesPermutation(a: seq<Observation>, b: seq<Observation>)
    requires multiset(a) == multiset(b)
    ensures Identities(a) == Identities(b)
  {
    forall o ensures o in a <==> o in b {
      assert o in a <==> o in multiset(a);
      assert o in b <==> o in multiset(b);
    }
  }
}

/** Merge by precedence (`reconcile`, `_divergences`). */
module Reconciliation {
  import opened Results
  import opened Seqs
  import opened StringOrder
  import opened SortedNames
  import opened StableSort
  import opened Observations

  datatype Action = SelectProvider | PreserveMultiple | Composite | Reject | Quarantine | ManualReview

  datatype Divergence = Divergence(
    field: string, leftProvider: string, rightProvider: string, left: Value, right: Value,
    absoluteDifference: Option<real>, relativeDifference: Option<real>, severity: Severity, reason: string)

  datatype MergePreview = MergePreview(
    action: Action, canonicalFields: map<string, Value>, fieldProvenance: map<string, string>,
    divergences: seq<Divergence>, policyVersion: string, observations: seq<Observation>, explanation: string)

  function Abs(x: real): real { if x >= 0.0 then x else -x }

  function Max(a: real, b: real): real { if a >= b then a else b }

  function AbsoluteDifference(a: Value, b: Value): real
    requires IsNumber(a) && IsNumber(b)
  {
    Abs(AsReal(a) - AsReal(b))
  }

  function RelativeDifference(a: Value, b: Value): real
    requires IsNumber(a) && IsNumber(b)
  {
    AbsoluteDifference(a, b) / Max(Max(Abs(AsReal(a)), Abs(AsReal(b))), 0.000000000001)
  }

  function Tolerance(tolerances: map<string, real>, name: string): real {
    if name in tolerances then tolerances[name] else 0.0
  }

  predicate Tolerated(policy: Policy, name: string, a: Value, b: Value) {
    && IsNumber(a) && IsNumber(b)
    && (AbsoluteDifference(a, b) <= Tolerance(policy.absoluteTolerances, name) ||
        RelativeDifference(a, b) <= Tolerance(policy.relativeTolerances, name))
  }

  function SeverityOf(policy: Policy, name: string, a: Value, b: Value): Severity {
    if Tolerated(policy, name, a, b) then Informational
    else if name in policy.criticalFields then Critical
    else Moderate
  }

  /** What the comparison of one field of two observations reports. */
  function Compare(policy: Policy, left: Observation, right: Observation, name: string): seq<Divergence> {
    if FieldOf(left, name).None? || FieldOf(right, name).None? then []
    else
      var a, b := left.fields[name], right.fields[name];
      if PyEqual(a, b) then []
      else
        var numbers := IsNumber(a) && IsNumber(b);
        [Divergence(name, left.provider, right.provider, a, b,
                    if numbers then Some(AbsoluteDifference(a, b)) else None,
                    if numbers then Some(RelativeDifference(a, b)) else None,
                    SeverityOf(policy, name, a, b),
                    if Tolerated(policy, name, a, b) then "within tolerance" else "values conflict")]
  }

  function SharedNames(left: Observation, right: Observation): seq<string> {
    Names(left.fields.Keys * right.fields.Keys)
  }

  function CompareOn(policy: Policy, left: Observation, right: Observation): string -> seq<Divergence> {
    (name: string) => Compare(policy, left, right, name)
  }

  function CompareWith(policy: Policy): Observation -> Observation -> seq<Divergence> {
    (left: Observation) => (right: Observation) => FlatMap(CompareOn(policy, left, right), SharedNames(left, right))
  }

  /** `f` of every pair of positions, the left one among the first `n`. */
  function PairsUpTo<T, U>(f: T -> T -> seq<U>, s: seq<T>, n: nat): seq<U>
    requires n <= |s|
  {
    if n == 0 then [] else PairsUpTo(f, s, n - 1) + FlatMap(f(s[n - 1]), s[n..])
  }

  function AllDivergences(policy: Policy, observations: seq<Observation>): seq<Divergence> {
    PairsUpTo(CompareWith(policy), observations, |observations|)
  }

  /** The body of the loop over the shared names. */
  method CompareField(policy: Policy, left: Observation, right: Observation, name: string)
    returns (output: seq<Divergence>)
    requires name in left.fields && name in right.fields
    ensures output == Compare(policy, left, right, name)
    ensures output == [] <==>
      FieldOf(left, name).None? || FieldOf(right, name).None? || PyEqual(left.fields[name], right.fields[name])
    ensures output != [] ==>
      && |output| == 1 && output[0].left == left.fields[name] && output[0].right == right.fields[name]
      && (output[0].severity == Critical <==> Conflicts(policy, left, right, name))
      && (output[0].severity == Informational <==> Tolerated(policy, name, output[0].left, output[0].right))
  {
    var first, second := left.fields[name], right.fields[name];
    if first == Null || second == Null || PyEqual(first, second) {
      return [];
    }
    var absolute: Option<real>, relative: Option<real> := None, None;
    var tolerated := false;
    if IsNumber(first) && IsNumber(second) {
      var difference := AbsoluteDifference(first, second);
      var ratio := RelativeDifference(first, second);
      absolute, relative := Some(difference), Some(ratio);
      tolerated := difference <= Tolerance(policy.absoluteTolerances, name) ||
                   ratio <= Tolerance(policy.relativeTolerances, name);
    }
    var severity := if tolerated then Informational else Moderate;
    if name in policy.criticalFields && !tolerated {
      severity := Critical;
    }
    return [Divergence(name, left.provider, right.provider, first, second, absolute, relative, severity,
                       if tolerated then "within tolerance" else "values conflict")];
  }

  method CompareFields(policy: Policy, left: Observation, right: Observation) returns (output: seq<Divergence>)
    ensures output == CompareWith(policy)(left)(right)
  {
    output := [];
    var names := SharedNames(left, right);
    for i := 0 to |names|
      invariant output == FlatMap(CompareOn(policy, left, right), names[..i])
    {
      TakeNext(names, i);
      assert names[i] in names;
      var found := CompareField(policy, left, right, names[i]);
      output := output + found;
    }
    assert names[..|names|] == names;
  }

  method CompareWithRest(policy: Policy, left: Observation, rest: seq<Observation>) returns (output: seq<Divergence>)
    ensures output == FlatMap(CompareWith(policy)(left), rest)
  {
    output := [];
    for j := 0 to |rest|
      invariant output == FlatMap(CompareWith(policy)(left), rest[..j])
    {
      TakeNext(rest, j);
      var pair := CompareFields(policy, left, rest[j]);
      output := output + pair;
    }
    assert rest[..|rest|] == rest;
  }

  method Divergences(observations: seq<Observation>, policy: Policy) returns (output: seq<Divergence>)
    ensures output == AllDivergences(policy, observations)
  {
    output := [];
    for index := 0 to |observations|
      invariant output == PairsUpTo(CompareWith(policy), observations, index)
    {
      var found := CompareWithRest(policy, observations[index], observations[index + 1..]);
      output := output + found;
    }
  }

  /** The same divergence, seen with the observations exchanged. */
  function Mirrored(d: Divergence): Divergence {
    d.(leftProvider := d.rightProvider, rightProvider := d.leftProvider, left := d.right, right := d.left)
  }

  /** Exchanging the observations exchanges the sides of what is reported, and nothing else. */
  lemma ComparisonMirrors(policy: Policy, left: Observation, right: Observation, name: string)
    ensures Compare(policy, right, left, name) == Map(Mirrored, Compare(policy, left, right, name))
  {
    if FieldOf(left, name).Some? && FieldOf(right, name).Some? {
      DifferencesAreSymmetric(left.fields[name], right.fields[name]);
    }
  }

  lemma DifferencesAreSymmetric(a: Value, b: Value)
    ensures PyEqual(a, b) == PyEqual(b, a)
    ensures IsNumber(a) && IsNumber(b) ==>
      AbsoluteDifference(a, b) == AbsoluteDifference(b, a) && RelativeDifference(a, b) == RelativeDifference(b, a)
  {
    if IsNumber(a) && IsNumber(b) {
      assert Max(Abs(AsReal(a)), Abs(AsReal(b))) == Max(Abs(AsReal(b)), Abs(AsReal(a)));
    }
  }

  // ----- Selection by precedence -----

  predicate ObservationLeq(policy: Policy, a: Observation, b: Observation) {
    if Rank(a.provider, policy) != Rank(b.provider, policy) then Rank(a.provider, policy) < Rank(b.provider, policy)
    else if a.stale != b.stale then b.stale
    else if a.provider != b.provider then StrLeq(a.provider, b.provider)
    else StrLeq(a.sourceChecksum, b.sourceChecksum)
  }

  function ByPrecedence(policy: Policy): (Observation, Observation) -> bool {
    (a: Observation, b: Observation) => ObservationLeq(policy, a, b)
  }

  datatype Selection = Selection(fields: map<string, Value>, provenance: map<string, string>)

  /** The non-null fields of `o` among `names`. */
  function OfferedFields(o: Observation, names: set<string>): map<string, Value> {
    map name | name in names && name in o.fields && o.fields[name] != Null :: o.fields[name]
  }

  function OfferedProvenance(o: Observation, names: set<string>): map<string, string> {
    map name | name in names && name in o.fields && o.fields[name] != Null :: o.provider
  }

  /** A field already selected stays; a stale observation contributes nothing. */
  function Contribute(s: Selection, o: Observation): Selection {
    if o.stale then s
    else Selection(OfferedFields(o, o.fields.Keys) + s.fields, OfferedProvenance(o, o.fields.Keys) + s.provenance)
  }

  function Select(ordered: seq<Observation>): Selection {
    if ordered == [] then Selection(map[], map[]) else Contribute(Select(Front(ordered)), Last(ordered))
  }

  predicate AnyCritical(divergences: seq<Divergence>) {
    exists d :: d in divergences && d.severity == Critical
  }

  function Reconciled(observations: seq<Observation>, policy: Policy): MergePreview {
    if observations == [] then
      MergePreview(Reject, map[], map[], [], policy.version, [], "No observations")
    else if |Identities(observations)| != 1 then
      MergePreview(ManualReview, map[], map[], [], policy.version, observations, "Contract identity conflict")
    else
      Preview(Sorted(ByPrecedence(policy), observations), policy).(observations := observations)
  }

  /** The preview of observations of one contract, in precedence order; it does not echo them. */
  function Preview(ordered: seq<Observation>, policy: Policy): MergePreview {
    var divergences := AllDivergences(policy, ordered);
    if AnyCritical(divergences) then
      MergePreview(Quarantine, map[], map[], divergences, policy.version, [], "Critical contract-definition conflict")
    else
      var selection := Select(ordered);
      MergePreview(if |selection.provenance.Values| > 1 then Composite else SelectProvider,
                   selection.fields, selection.provenance, divergences, policy.version, [],
                   "Fields selected by versioned provider precedence and freshness")
  }

  method Reconcile(observations: seq<Observation>, policy: Policy) returns (r: MergePreview)
    ensures r == Reconciled(observations, policy)
  {
    if observations == [] {
      return MergePreview(Reject, map[], map[], [], policy.version, [], "No observations");
    }
    if |Identities(observations)| != 1 {
      return MergePreview(
        ManualReview, map[], map[], [], policy.version, observations, "Contract identity conflict");
    }
    var ordered := Sorted(ByPrecedence(policy), observations);
    var divergences := Divergences(ordered, policy);
    if AnyCritical(divergences) {
      return MergePreview(
        Quarantine, map[], map[], divergences, policy.version, observations, "Critical contract-definition conflict");
    }
    var fields, provenance := SelectFields(ordered);
    var action := if |provenance.Values| > 1 then Composite else SelectProvider;
    return MergePreview(action, fields, provenance, divergences, policy.version, observations,
                        "Fields selected by versioned provider precedence and freshness");
  }

  method SelectFields(ordered: seq<Observation>) returns (fields: map<string, Value>, provenance: map<string, string>)
    ensures Selection(fields, provenance) == Select(ordered)
  {
    fields, provenance := map[], map[];
    for i := 0 to |ordered|
      invariant Selection(fields, provenance) == Select(ordered[..i])
      invariant fields.Keys == provenance.Keys
    {
      TakeNext(ordered, i);
      if !ordered[i].stale {
        fields, provenance := SelectFrom(ordered[i], fields, provenance);
      }
    }
    assert ordered[..|ordered|] == ordered;
  }

  /** The inner loop over one fresh observation's fields. */
  method SelectFrom(o: Observation, before: map<string, Value>, from: map<string, string>)
    returns (fields: map<string, Value>, provenance: map<string, string>)
    requires !o.stale && before.Keys == from.Keys
    ensures Selection(fields, provenance) == Contribute(Selection(before, from), o)
    ensures fields.Keys == provenance.Keys
  {
    fields, provenance := before, from;
    var names := Names(o.fields.Keys);
    ghost var done: set<string> := {};
    for i := 0 to |names|
      invariant forall x :: x in done <==> x in names[..i]
      invariant fields == OfferedFields(o, done) + before
      invariant provenance == OfferedProvenance(o, done) + from
      invariant fields.Keys == provenance.Keys
    {
      var name := names[i];
      assert name in names && names[..i + 1] == names[..i] + [name];
      OfferOne(o, done, name, before, from);
      if o.fields[name] != Null && name !in fields {
        fields, provenance := fields[name := o.fields[name]], provenance[name := o.provider];
      }
      done := done + {name};
    }
    assert names[..|names|] == names;
    assert done == o.fields.Keys;
  }

  lemma OfferOne(o: Observation, done: set<string>, name: string, before: map<string, Value>, from: map<string, string>)
    requires name in o.fields && before.Keys == from.Keys
    ensures OfferedFields(o, done + {name}) + before ==
      var fields := OfferedFields(o, done) + before;
      if o.fields[name] != Null && name !in fields then fields[name := o.fields[name]] else fields
    ensures OfferedProvenance(o, done + {name}) + from ==
      var provenance := OfferedProvenance(o, done) + from;
      if o.fields[name] != Null && name !in provenance then provenance[name := o.provider] else provenance
  {
  }

  // ----- Each canonical field is the first fresh value -----

  /** Observation `i` is the first of `ordered` that is fresh and has a value for the field. */
  ghost predicate FirstFresh(ordered: seq<Observation>, name: string, i: nat) {
    && i < |ordered| && Offers(ordered[i], name)
    && forall j :: 0 <= j < i ==> !Offers(ordered[j], name)
  }

  predicate Offers(o: Observation, name: string) {
    !o.stale && FieldOf(o, name).Some?
  }

  lemma {:induction false} SelectIsFirstFresh(ordered: seq<Observation>, name: string)
    ensures name in Select(ordered).fields <==> exists i :: 0 <= i < |ordered| && Offers(ordered[i], name)
    ensures name in Select(ordered).provenance <==> name in Select(ordered).fields
    ensures forall i: nat :: FirstFresh(ordered, name, i) ==>
      && name in Select(ordered).fields
      && Select(ordered).fields[name] == ordered[i].fields[name]
      && Select(ordered).provenance[name] == ordered[i].provider
  {
    if ordered != [] {
      var front, last := Front(ordered), Last(ordered);
      SelectIsFirstFresh(front, name);
      SplitLast(ordered);
      forall i: nat | FirstFresh(ordered, name, i)
        ensures name in Select(ordered).fields
        ensures Select(ordered).fields[name] == ordered[i].fields[name]
        ensures Select(ordered).provenance[name] == ordered[i].provider
      {
        if i < |front| {
          assert FirstFresh(front, name, i);
        }
      }
    }
  }

  lemma FirstFreshExists(ordered: seq<Observation>, name: string) returns (i: nat)
    requires exists j :: 0 <= j < |ordered| && Offers(ordered[j], name)
    ensures FirstFresh(ordered, name, i)
  {
    i := 0;
    while !Offers(ordered[i], name)
      invariant i < |ordered|
      invariant forall j :: 0 <= j < i ==> !Offers(ordered[j], name)
      decreases |ordered| - i
    {
      i := i + 1;
    }
  }

  lemma ByPrecedenceIsPreorder(policy: Policy)
    ensures Preorder(ByPrecedence(policy))
  {
    StrIsLinear();
  }

  /** `o` is fresh, has a value for the field, and no other such observation precedes it. */
  ghost predicate IsLeader(observations: seq<Observation>, policy: Policy, name: string, o: Observation) {
    && o in observations && Offers(o, name)
    && forall p :: p in observations && Offers(p, name) ==> ObservationLeq(policy, o, p)
  }

  /** A merged preview has exactly the fields for which some fresh observation has a value; each
      value and its provenance come from one such observation, and none precedes it. */
  lemma CanonicalFieldsByPrecedence(observations: seq<Observation>, policy: Policy, name: string)
    requires Reconciled(observations, policy).action.Composite? || Reconciled(observations, policy).action.SelectProvider?
    ensures var r := Reconciled(observations, policy);
      && (name in r.canonicalFields <==> exists o :: o in observations && Offers(o, name))
      && (name in r.fieldProvenance <==> name in r.canonicalFields)
      && (name in r.canonicalFields ==>
            exists o | IsLeader(observations, policy, name, o) ::
              r.canonicalFields[name] == o.fields[name] && r.fieldProvenance[name] == o.provider)
  {
    PreviewAction(observations, policy);
    SelectedByPrecedence(observations, policy, name);
  }

  /** The two ways in which the order of the observations enters the preview. */
  lemma PreviewAction(observations: seq<Observation>, policy: Policy)
    requires observations != [] && |Identities(observations)| == 1
    ensures var r, ordered := Reconciled(observations, policy), Sorted(ByPrecedence(policy), observations);
      && (r.action.Quarantine? <==> AnyCritical(AllDivergences(policy, ordered)))
      && (!r.action.Quarantine? ==> Selection(r.canonicalFields, r.fieldProvenance) == Select(ordered))
  {
  }

  lemma SelectedByPrecedence(observations: seq<Observation>, policy: Policy, name: string)
    ensures var s := Select(Sorted(ByPrecedence(policy), observations));
      && (name in s.fields <==> exists o :: o in observations && Offers(o, name))
      && (name in s.provenance <==> name in s.fields)
      && (name in s.fields ==>
            exists o | IsLeader(observations, policy, name, o) ::
              s.fields[name] == o.fields[name] && s.provenance[name] == o.provider)
  {
    var ordered := Sorted(ByPrecedence(policy), observations);
    SelectIsFirstFresh(ordered, name);
    SortedElements(ByPrecedence(policy), observations);
    if o :| o in observations && Offers(o, name) {
      assert o in ordered;
      var i := FirstFreshExists(ordered, name);
      assert ordered[i] in ordered;
      FirstFreshLeads(observations, policy, name, i);
    }
  }

  lemma FirstFreshLeads(observations: seq<Observation>, policy: Policy, name: string, i: nat)
    requires FirstFresh(Sorted(ByPrecedence(policy), observations), name, i)
    ensures IsLeader(observations, policy, name, Sorted(ByPrecedence(policy), observations)[i])
  {
    var ordered := Sorted(ByPrecedence(policy), observations);
    SortedElements(ByPrecedence(policy), observations);
    assert ordered[i] in ordered;
    assert Preorder(ByPrecedence(policy)) by { ByPrecedenceIsPreorder(policy); }
    SortedOrders(ByPrecedence(policy), observations);
    forall p | p in observations && Offers(p, name) ensures ObservationLeq(policy, ordered[i], p) {
      assert p in ordered;
      var j :| 0 <= j < |ordered| && ordered[j] == p;
      assert i <= j;
      StrTotal(p.sourceChecksum, p.sourceChecksum);
      assert i < j ==> ByPrecedence(policy)(ordered[i], ordered[j]);
    }
  }

  // ----- Quarantine exactly on a critical conflict -----

  ghost predicate Conflicts(policy: Policy, left: Observation, right: Observation, name: string) {
    && name in policy.criticalFields
    && FieldOf(left, name).Some? && FieldOf(right, name).Some?
    && !PyEqual(left.fields[name], right.fields[name])
    && !Tolerated(policy, name, left.fields[name], right.fields[name])
  }

  ghost predicate AnyConflict(policy: Policy, observations: seq<Observation>) {
    exists l, r, name :: l in observations && r in observations && Conflicts(policy, l, r, name)
  }

  lemma AnyConflictElements(policy: Policy, a: seq<Observation>, b: seq<Observation>)
    requires (forall o :: o in a ==> o in b) && AnyConflict(policy, a)
    ensures AnyConflict(policy, b)
  {
  }

  lemma ConflictIsSymmetric(policy: Policy, left: Observation, right: Observation, name: string)
    ensures Conflicts(policy, left, right, name) <==> Conflicts(policy, right, left, name)
    ensures !Conflicts(policy, left, left, name)
  {
    if FieldOf(left, name).Some? && FieldOf(right, name).Some? {
      var a, b := left.fields[name], right.fields[name];
      if IsNumber(a) && IsNumber(b) {
        assert AbsoluteDifference(a, b) == AbsoluteDifference(b, a);
        assert Max(Abs(AsReal(a)), Abs(AsReal(b))) == Max(Abs(AsReal(b)), Abs(AsReal(a)));
        assert RelativeDifference(a, b) == RelativeDifference(b, a);
      }
    }
  }

  ghost predicate FromPair<T, U>(f: T -> T -> seq<U>, s: seq<T>, i: nat, j: nat, u: U) {
    i < j < |s| && u in f(s[i])(s[j])
  }

  lemma InOneRow<T, U>(f: T -> T -> seq<U>, s: seq<T>, n: nat, u: U)
    requires n < |s|
    ensures u in FlatMap(f(s[n]), s[n + 1..]) <==> exists j: nat :: FromPair(f, s, n, j, u)
  {
    var rest := s[n + 1..];
    InFlatMap(f(s[n]), rest, u);
    if right :| right in rest && u in f(s[n])(right) {
      var k :| 0 <= k < |rest| && rest[k] == right;
      assert FromPair(f, s, n, n + 1 + k, u);
    }
    if j: nat :| FromPair(f, s, n, j, u) {
      assert s[j] == rest[j - n - 1];
    }
  }

  lemma {:induction false} InPairs<T, U>(f: T -> T -> seq<U>, s: seq<T>, n: nat, u: U)
    requires n <= |s|
    ensures u in PairsUpTo(f, s, n) <==> exists i: nat, j: nat :: i < n && FromPair(f, s, i, j, u)
  {
    if n > 0 {
      InPairs(f, s, n - 1, u);
      InOneRow(f, s, n - 1, u);
      if i: nat, j: nat :| i < n && FromPair(f, s, i, j, u) {
        assert i == n - 1 || i < n - 1;
      }
    }
  }

  lemma CriticalIsConflict(policy: Policy, left: Observation, right: Observation, name: string, d: Divergence)
    requires d in Compare(policy, left, right, name) && d.severity == Critical
    ensures Conflicts(policy, left, right, name)
  {
  }

  lemma ConflictIsCritical(policy: Policy, left: Observation, right: Observation, name: string)
    requires Conflicts(policy, left, right, name)
    ensures Compare(policy, left, right, name) != [] && Compare(policy, left, right, name)[0].severity == Critical
  {
  }

  lemma CriticalPair(policy: Policy, left: Observation, right: Observation)
    ensures (exists d :: d in CompareWith(policy)(left)(right) && d.severity == Critical)
       <==> (exists name :: Conflicts(policy, left, right, name))
  {
    if d :| d in CompareWith(policy)(left)(right) && d.severity == Critical {
      var name := ConflictOfCritical(policy, left, right, d);
    }
    if name :| Conflicts(policy, left, right, name) {
      var d := CriticalOfConflict(policy, left, right, name);
    }
  }

  lemma ConflictOfCritical(policy: Policy, left: Observation, right: Observation, d: Divergence) returns (name: string)
    requires d in CompareWith(policy)(left)(right) && d.severity == Critical
    ensures Conflicts(policy, left, right, name)
  {
    var names, compare := SharedNames(left, right), CompareOn(policy, left, right);
    InFlatMap(compare, names, d);
    name :| name in names && d in compare(name);
    CriticalIsConflict(policy, left, right, name, d);
  }

  lemma CriticalOfConflict(policy: Policy, left: Observation, right: Observation, name: string) returns (d: Divergence)
    requires Conflicts(policy, left, right, name)
    ensures d in CompareWith(policy)(left)(right) && d.severity == Critical
  {
    var names, compare := SharedNames(left, right), CompareOn(policy, left, right);
    ConflictIsCritical(policy, left, right, name);
    d := compare(name)[0];
    assert name in names && d in compare(name);
    InFlatMap(compare, names, d);
  }

  lemma CriticalIffConflict(policy: Policy, ordered: seq<Observation>)
    ensures AnyCritical(AllDivergences(policy, ordered)) <==>
      exists i, j, name :: 0 <= i < j < |ordered| && Conflicts(policy, ordered[i], ordered[j], name)
  {
    if AnyCritical(AllDivergences(policy, ordered)) {
      var d :| d in AllDivergences(policy, ordered) && d.severity == Critical;
      InPairs(CompareWith(policy), ordered, |ordered|, d);
      var i: nat, j: nat :| i < |ordered| && FromPair(CompareWith(policy), ordered, i, j, d);
      CriticalPair(policy, ordered[i], ordered[j]);
    }
    if i, j, name :| 0 <= i < j < |ordered| && Conflicts(policy, ordered[i], ordered[j], name) {
      CriticalPair(policy, ordered[i], ordered[j]);
      var d :| d in CompareWith(policy)(ordered[i])(ordered[j]) && d.severity == Critical;
      assert FromPair(CompareWith(policy), ordered, i, j, d);
      InPairs(CompareWith(policy), ordered, |ordered|, d);
    }
  }

  lemma ConflictAnywhere(policy: Policy, observations: seq<Observation>)
    ensures (exists i, j, name :: 0 <= i < j < |observations| && Conflicts(policy, observations[i], observations[j], name))
       <==> AnyConflict(policy, observations)
  {
    if l, r, name :| l in observations && r in observations && Conflicts(policy, l, r, name) {
      var i, j :| 0 <= i < |observations| && 0 <= j < |observations| && observations[i] == l && observations[j] == r;
      ConflictIsSymmetric(policy, l, r, name);
      assert i < j || j < i;
    }
  }

  /** Observations of one contract are quarantined exactly when two of them, fresh or stale, have
      values for a critical field that differ beyond both tolerances. */
  lemma QuarantineIffConflict(observations: seq<Observation>, policy: Policy)
    requires observations != [] && OneIdentity(observations)
    ensures Reconciled(observations, policy).action.Quarantine? <==>
      AnyConflict(policy, observations)
  {
    OneIdentityCount(observations);
    PreviewAction(observations, policy);
    CriticalAnywhere(observations, policy);
  }

  lemma CriticalAnywhere(observations: seq<Observation>, policy: Policy)
    ensures AnyCritical(AllDivergences(policy, Sorted(ByPrecedence(policy), observations))) <==>
      AnyConflict(policy, observations)
  {
    var ordered := Sorted(ByPrecedence(policy), observations);
    CriticalIffConflict(policy, ordered);
    ConflictAnywhere(policy, ordered);
    assert forall o :: o in ordered <==> o in observations by {
      SortedElements(ByPrecedence(policy), observations);
    }
    if AnyConflict(policy, ordered) {
      AnyConflictElements(policy, ordered, observations);
    }
    if AnyConflict(policy, observations) {
      AnyConflictElements(policy, observations, ordered);
    }
  }

  // ----- Independence of the observation order -----

  /** No two observations, both fresh or both stale, share provider and source checksum. */
  ghost predicate DistinctSources(observations: seq<Observation>) {
    forall a, b | a in observations && b in observations ::
      a.provider == b.provider && a.sourceChecksum == b.sourceChecksum && a.stale == b.stale ==> a == b
  }

  lemma PrecedenceSeparatesIff(policy: Policy, observations: seq<Observation>)
    ensures Separates(ByPrecedence(policy), observations) <==> DistinctSources(observations)
  {
    StrIsLinear();
    forall a: Observation, b: Observation | a.provider == b.provider && a.sourceChecksum == b.sourceChecksum && a.stale == b.stale
      ensures ByPrecedence(policy)(a, b)
    {
      StrTotal(a.sourceChecksum, a.sourceChecksum);
    }
  }

  /** The precedence order, on which everything else rests, is independent of the input order exactly when provider,
      freshness and source checksum tell the observations apart. */
  lemma PrecedenceOrderFreeIff(policy: Policy, observations: seq<Observation>)
    ensures OrderFree(ByPrecedence(policy), observations) <==> DistinctSources(observations)
  {
    assert OrderFree(ByPrecedence(policy), observations) <==> Separates(ByPrecedence(policy), observations) by {
      ByPrecedenceIsPreorder(policy);
      OrderFreeIffSeparates(ByPrecedence(policy), observations);
    }
    PrecedenceSeparatesIff(policy, observations);
  }

  /** Everything but the echoed observations is independent of the order of the observations. */
  lemma ReconcileIgnoresOrder(a: seq<Observation>, b: seq<Observation>, policy: Policy)
    requires multiset(a) == multiset(b) && DistinctSources(a)
    ensures Reconciled(a, policy).(observations := []) == Reconciled(b, policy).(observations := [])
  {
    SameSize(a, b);
    IdentitiesPermutation(a, b);
    assert Sorted(ByPrecedence(policy), b) == Sorted(ByPrecedence(policy), a) by {
      PrecedenceOrderFreeIff(policy, a);
    }
  }

  // ----- When exactly the canonical fields are independent of the order -----

  ghost predicate Merged(observations: seq<Observation>, policy: Policy) {
    observations != [] && OneIdentity(observations) && !AnyConflict(policy, observations)
  }

  lemma MergedIff(observations: seq<Observation>, policy: Policy)
    ensures Merged(observations, policy) <==>
      Reconciled(observations, policy).action.Composite? || Reconciled(observations, policy).action.SelectProvider?
  {
    if observations != [] {
      OneIdentityCount(observations);
      if OneIdentity(observations) {
        QuarantineIffConflict(observations, policy);
      }
    }
  }

  lemma PreviewShape(ordered: seq<Observation>, policy: Policy)
    ensures var r := Preview(ordered, policy);
      if r.action.Quarantine? then r.canonicalFields == map[] && r.fieldProvenance == map[]
      else r.action == if |r.fieldProvenance.Values| > 1 then Composite else SelectProvider
  {
    if !AnyCritical(AllDivergences(policy, ordered)) {
      var selection := Select(ordered);
    }
  }

  ghost predicate FieldsNeedMerge(r: MergePreview) {
    r.action.Composite? || r.action.SelectProvider? || (r.canonicalFields == map[] && r.fieldProvenance == map[])
  }

  lemma PreviewFieldsNeedMerge(ordered: seq<Observation>, policy: Policy)
    ensures FieldsNeedMerge(Preview(ordered, policy))
  {
    PreviewShape(ordered, policy);
  }

  lemma OnlyMergesHaveFields(observations: seq<Observation>, policy: Policy)
    ensures FieldsNeedMerge(Reconciled(observations, policy))
  {
    if observations != [] && |Identities(observations)| == 1 {
      var preview := Preview(Sorted(ByPrecedence(policy), observations), policy);
      assert Reconciled(observations, policy) == preview.(observations := observations);
      assert FieldsNeedMerge(preview) by {
        PreviewFieldsNeedMerge(Sorted(ByPrecedence(policy), observations), policy);
      }
    }
  }

  lemma NotMergedIsEmpty(observations: seq<Observation>, policy: Policy)
    requires !Merged(observations, policy)
    ensures Reconciled(observations, policy).canonicalFields == map[]
    ensures Reconciled(observations, policy).fieldProvenance == map[]
  {
    MergedIff(observations, policy);
    OnlyMergesHaveFields(observations, policy);
  }

  /** The observations that may lead a field all have the same value for it. */
  ghost predicate LeadersAgree(observations: seq<Observation>, policy: Policy) {
    forall name, o, p :: IsLeader(observations, policy, name, o) && IsLeader(observations, policy, name, p) ==>
      o.fields[name] == p.fields[name]
  }

  lemma LeadersShareProvider(observations: seq<Observation>, policy: Policy, name: string, o: Observation, p: Observation)
    requires IsLeader(observations, policy, name, o) && IsLeader(observations, policy, name, p)
    ensures o.provider == p.provider
  {
    assert ObservationLeq(policy, o, p) && ObservationLeq(policy, p, o);
    if o.provider != p.provider {
      StrAntisymmetric(o.provider, p.provider);
    }
  }

  lemma SameLeaders(a: seq<Observation>, b: seq<Observation>, policy: Policy, name: string, o: Observation)
    requires multiset(a) == multiset(b) && IsLeader(a, policy, name, o)
    ensures IsLeader(b, policy, name, o)
  {
    assert o in multiset(a);
    forall p | p in b ensures p in a {
      assert p in multiset(b);
    }
  }

  lemma MergedAnyOrder(a: seq<Observation>, b: seq<Observation>, policy: Policy)
    requires multiset(a) == multiset(b) && Merged(a, policy)
    ensures Merged(b, policy)
  {
    SameSize(a, b);
    forall p | p in b ensures p in a {
      assert p in multiset(b);
    }
    if AnyConflict(policy, b) {
      AnyConflictElements(policy, b, a);
    }
  }

  /** The field's entry in either order comes from one of the leaders of both. */
  lemma SameEntry(a: seq<Observation>, b: seq<Observation>, policy: Policy, name: string)
    requires multiset(a) == multiset(b) && Merged(a, policy)
    ensures var r, q := Reconciled(a, policy), Reconciled(b, policy);
      && (name in r.canonicalFields <==> name in q.canonicalFields)
      && (name in r.fieldProvenance <==> name in r.canonicalFields)
      && (name in q.fieldProvenance <==> name in q.canonicalFields)
      && (name in r.canonicalFields ==>
            && r.fieldProvenance[name] == q.fieldProvenance[name]
            && (LeadersAgree(a, policy) ==> r.canonicalFields[name] == q.canonicalFields[name]))
  {
    MergedAnyOrder(a, b, policy);
    MergedIff(a, policy);
    MergedIff(b, policy);
    CanonicalFieldsByPrecedence(a, policy, name);
    CanonicalFieldsByPrecedence(b, policy, name);
    assert forall o :: o in a <==> o in b by {
      forall o ensures o in a <==> o in b { assert o in multiset(a) <==> o in multiset(b); }
    }
    var r, q := Reconciled(a, policy), Reconciled(b, policy);
    if name in r.canonicalFields {
      var o :| IsLeader(a, policy, name, o)
               && r.canonicalFields[name] == o.fields[name] && r.fieldProvenance[name] == o.provider;
      var p :| IsLeader(b, policy, name, p)
               && q.canonicalFields[name] == p.fields[name] && q.fieldProvenance[name] == p.provider;
      SameLeaders(b, a, policy, name, p);
      LeadersShareProvider(a, policy, name, o, p);
    }
  }

  lemma SameProvenance(a: seq<Observation>, b: seq<Observation>, policy: Policy)
    requires multiset(a) == multiset(b)
    ensures Reconciled(a, policy).fieldProvenance == Reconciled(b, policy).fieldProvenance
  {
    var r, q := Reconciled(a, policy), Reconciled(b, policy);
    if Merged(a, policy) {
      forall name ensures (name in r.fieldProvenance <==> name in q.fieldProvenance)
                       && (name in r.fieldProvenance ==> r.fieldProvenance[name] == q.fieldProvenance[name])
      {
        SameEntry(a, b, policy, name);
      }
      EqualMaps(r.fieldProvenance, q.fieldProvenance);
    } else {
      NeitherMerged(a, b, policy);
    }
  }

  lemma SameFields(a: seq<Observation>, b: seq<Observation>, policy: Policy)
    requires multiset(a) == multiset(b)
    requires Merged(a, policy) ==> LeadersAgree(a, policy)
    ensures Reconciled(a, policy).canonicalFields == Reconciled(b, policy).canonicalFields
  {
    var r, q := Reconciled(a, policy), Reconciled(b, policy);
    if Merged(a, policy) {
      forall name ensures (name in r.canonicalFields <==> name in q.canonicalFields)
                       && (name in r.canonicalFields ==> r.canonicalFields[name] == q.canonicalFields[name])
      {
        SameEntry(a, b, policy, name);
      }
      EqualMaps(r.canonicalFields, q.canonicalFields);
    } else {
      NeitherMerged(a, b, policy);
    }
  }

  lemma EqualMaps<V>(a: map<string, V>, b: map<string, V>)
    requires forall k :: (k in a <==> k in b) && (k in a ==> a[k] == b[k])
    ensures a == b
  {
    assert a.Keys == b.Keys;
  }

  lemma NeitherMerged(a: seq<Observation>, b: seq<Observation>, policy: Policy)
    requires multiset(a) == multiset(b) && !Merged(a, policy)
    ensures Reconciled(a, policy).canonicalFields == map[] == Reconciled(b, policy).canonicalFields
    ensures Reconciled(a, policy).fieldProvenance == map[] == Reconciled(b, policy).fieldProvenance
  {
    if Merged(b, policy) {
      MergedAnyOrder(b, a, policy);
    }
    NotMergedIsEmpty(a, policy);
    NotMergedIsEmpty(b, policy);
  }

  function OffersName(name: string): Observation -> bool {
    (o: Observation) => Offers(o, name)
  }

  lemma FirstFreshIsFirstOffer(ordered: seq<Observation>, name: string, i: nat)
    requires FirstFresh(ordered, name, i)
    ensures Filter(OffersName(name), ordered) != [] && Filter(OffersName(name), ordered)[0] == ordered[i]
  {
    assert ordered == ordered[..i] + ordered[i..];
    FilterAppend(OffersName(name), ordered[..i], ordered[i..]);
    FilterNone(OffersName(name), ordered[..i]);
    FilterFirst(OffersName(name), ordered[i..]);
  }

  /** A leader that comes first in the input is the one that is selected. */
  lemma FirstLeaderWins(observations: seq<Observation>, policy: Policy, name: string)
    requires Merged(observations, policy) && IsLeader(observations, policy, name, observations[0])
    ensures var r := Reconciled(observations, policy);
      name in r.canonicalFields && r.canonicalFields[name] == observations[0].fields[name]
  {
    var ordered := Sorted(ByPrecedence(policy), observations);
    var offers := Filter(OffersName(name), observations);
    FilterFirst(OffersName(name), observations);
    forall o | o in offers ensures ByPrecedence(policy)(offers[0], o) {
      FilterElements(OffersName(name), observations, o);
    }
    FirstLeastStaysFirst(ByPrecedence(policy), offers);
    assert Filter(OffersName(name), ordered)[0] == observations[0] by {
      ByPrecedenceIsPreorder(policy);
      SortedFilter(ByPrecedence(policy), OffersName(name), observations);
    }
    SelectsFirstOffer(ordered, name);
    OneIdentityCount(observations);
    QuarantineIffConflict(observations, policy);
    PreviewAction(observations, policy);
  }

  lemma SelectsFirstOffer(ordered: seq<Observation>, name: string)
    requires Filter(OffersName(name), ordered) != []
    ensures var first := Filter(OffersName(name), ordered)[0];
      name in first.fields && name in Select(ordered).fields && Select(ordered).fields[name] == first.fields[name]
  {
    var first := Filter(OffersName(name), ordered)[0];
    FilterElements(OffersName(name), ordered, first);
    var j :| 0 <= j < |ordered| && ordered[j] == first;
    var i := FirstFreshExists(ordered, name);
    FirstFreshIsFirstOffer(ordered, name, i);
    SelectIsFirstFresh(ordered, name);
  }

  ghost predicate FieldsOrderBlind(observations: seq<Observation>, policy: Policy) {
    forall other | multiset(other) == multiset(observations) ::
      Reconciled(other, policy).canonicalFields == Reconciled(observations, policy).canonicalFields
  }

  lemma BlindLeadersAgree(observations: seq<Observation>, policy: Policy, name: string, o: Observation, p: Observation)
    requires Merged(observations, policy) && FieldsOrderBlind(observations, policy)
    requires IsLeader(observations, policy, name, o) && IsLeader(observations, policy, name, p)
    ensures o.fields[name] == p.fields[name]
  {
    var first := MoveToFront(observations, o);
    var second := MoveToFront(observations, p);
    MergedAnyOrder(observations, first, policy);
    MergedAnyOrder(observations, second, policy);
    SameLeaders(observations, first, policy, name, o);
    SameLeaders(observations, second, policy, name, p);
    FirstLeaderWins(first, policy, name);
    FirstLeaderWins(second, policy, name);
    assert Reconciled(first, policy).canonicalFields == Reconciled(second, policy).canonicalFields;
  }

  /** The canonical fields are independent of the input order exactly when nothing is merged, or the observations
      that may lead a field agree on its value. */
  lemma FieldsOrderBlindIff(observations: seq<Observation>, policy: Policy)
    ensures FieldsOrderBlind(observations, policy) <==>
      (Merged(observations, policy) ==> LeadersAgree(observations, policy))
  {
    if Merged(observations, policy) && FieldsOrderBlind(observations, policy) {
      forall name, o, p | IsLeader(observations, policy, name, o) && IsLeader(observations, policy, name, p)
        ensures o.fields[name] == p.fields[name]
      {
        BlindLeadersAgree(observations, policy, name, o, p);
      }
    }
    if Merged(observations, policy) ==> LeadersAgree(observations, policy) {
      forall other | multiset(other) == multiset(observations)
        ensures Reconciled(other, policy).canonicalFields == Reconciled(observations, policy).canonicalFields
      {
        SameFields(observations, other, policy);
      }
    }
  }

  /** Action and provenance never depend on the order, whatever the observations are. */
  lemma ActionIgnoresOrder(a: seq<Observation>, b: seq<Observation>, policy: Policy)
    requires multiset(a) == multiset(b)
    ensures Reconciled(a, policy).action == Reconciled(b, policy).action
    ensures Reconciled(a, policy).fieldProvenance == Reconciled(b, policy).fieldProvenance
  {
    SameProvenance(a, b, policy);
    SameSize(a, b);
    IdentitiesPermutation(a, b);
    ActionOf(a, policy);
    ActionOf(b, policy);
    if Merged(a, policy) {
      MergedAnyOrder(a, b, policy);
    }
    if Merged(b, policy) {
      MergedAnyOrder(b, a, policy);
    }
  }

  lemma ActionOf(observations: seq<Observation>, policy: Policy)
    ensures var r := Reconciled(observations, policy);
      r.action == if observations == [] then Reject
                  else if |Identities(observations)| != 1 then ManualReview
                  else if !Merged(observations, policy) then Quarantine
                  else if |r.fieldProvenance.Values| > 1 then Composite
                  else SelectProvider
  {
    if observations != [] && |Identities(observations)| == 1 {
      OneIdentityCount(observations);
      QuarantineIffConflict(observations, policy);
      PreviewShape(Sorted(ByPrecedence(policy), observations), policy);
    }
  }
}
