/** The branching replay log (`backend/backtesting/replay.py`). `State` and `Next` describe what
    each call does; `BacktestReplayEngine` at the end of the module does it in place. */
module Replay {
  import opened Results
  import opened Seqs

  // ----- Data -----

  datatype Event = Event(timestamp: int, eventType: string, payload: string)

  datatype Snapshot = Snapshot(snapshotId: string, cursor: nat, timestamp: int, captured: string)

  datatype Session = Session(sessionId: string, runId: string, timelineId: string, baseBranchId: string)

  datatype Branch = Branch(
    branchId: string, parent: Option<string>, rootSnapshotId: string, decisionDelta: string)

  /** SHA-256 over the canonical JSON of these five fields, as an injective constructor. */
  datatype Checksum = EventDigest(
    branchId: string, eventSequence: nat, timestamp: int, eventType: string, payload: string)

  datatype TimelineEvent = TimelineEvent(
    eventSequence: nat, timestamp: int, eventType: string, severity: string, strategyId: string,
    symbol: string, tags: seq<string>, payload: string, checksum: Checksum)

  type Timeline = seq<TimelineEvent>

  /** The arguments of `append_branch_event` besides the branch. */
  datatype Entry = Entry(
    eventType: string, severity: string, strategyId: string, symbol: string, timestamp: int,
    tags: seq<string>, payload: string)

  datatype State = State(
    events: seq<Event>,
    cursor: int,
    snapshots: seq<Snapshot>,
    branches: map<string, Branch>,
    timelines: map<string, Timeline>)

  datatype Op =
    | StepForward
    | StepBackward
    | JumpToTimestamp(timestamp: int)
    | CreateSnapshot(snapshotId: string, captured: string)
    | RestoreSnapshot(snapshotId: string)
    | InitializeSession(baseBranchId: string)
    | CreateBranch(branchId: string, parentBranchId: string, rootSnapshotId: string, decisionDelta: string)
    | AppendBranchEvent(branchId: string, entry: Entry)

  // ----- What one call does -----

  function TimelineOf(s: State, branchId: string): Timeline {
    if branchId in s.timelines then s.timelines[branchId] else []
  }

  /** The first event at or after `timestamp`; past the end when there is none. */
  function FirstAtOrAfter(events: seq<Event>, timestamp: int): (i: nat)
    ensures i <= |events|
    ensures forall j :: 0 <= j < i ==> events[j].timestamp < timestamp
    ensures i < |events| ==> events[i].timestamp >= timestamp
  {
    if events == [] then 0
    else
      var i := FirstAtOrAfter(Front(events), timestamp);
      if i < |events| - 1 || Last(events).timestamp >= timestamp then i else i + 1
  }

  function FindSnapshot(snapshots: seq<Snapshot>, id: string): Option<Snapshot> {
    if snapshots == [] then None
    else if FindSnapshot(Front(snapshots), id).Some? then FindSnapshot(Front(snapshots), id)
    else if Last(snapshots).snapshotId == id then Some(Last(snapshots))
    else None
  }

  /** `min(max(0, cursor), len(events) - 1)`. */
  function SnapshotIndex(s: State): nat
    requires s.events != []
  {
    if s.cursor < 0 then 0 else if s.cursor < |s.events| then s.cursor else |s.events| - 1
  }

  function Forked(parent: Timeline, snapshot: Option<Snapshot>): Timeline {
    match snapshot
    case None => parent
    case Some(sn) => Filter((e: TimelineEvent) => e.eventSequence <= sn.cursor, parent)
  }

  function MakeEvent(branchId: string, sequence: nat, e: Entry): TimelineEvent {
    TimelineEvent(sequence, e.timestamp, e.eventType, e.severity, e.strategyId, e.symbol, e.tags, e.payload,
                  EventDigest(branchId, sequence, e.timestamp, e.eventType, e.payload))
  }

  function AfterAppend(s: State, branchId: string, e: Entry): State {
    var t := TimelineOf(s, branchId);
    s.(timelines := s.timelines[branchId := t + [MakeEvent(branchId, |t|, e)]])
  }

  predicate CanCreate(s: State, branchId: string, parentBranchId: string) {
    parentBranchId in s.branches && branchId !in s.branches
  }

  /** A call that raises leaves the state as it was. */
  function Next(s: State, op: Op): State {
    match op
    case StepForward => if s.cursor >= |s.events| then s else s.(cursor := s.cursor + 1)
    case StepBackward => if s.cursor <= 1 then s.(cursor := 0) else s.(cursor := s.cursor - 1)
    case JumpToTimestamp(t) => s.(cursor := FirstAtOrAfter(s.events, t))
    case CreateSnapshot(id, captured) =>
      if s.events == [] then s
      else
        var i := SnapshotIndex(s);
        s.(snapshots := s.snapshots + [Snapshot(id, i, s.events[i].timestamp, captured)])
    case RestoreSnapshot(id) =>
      (match FindSnapshot(s.snapshots, id)
       case None => s
       case Some(sn) => s.(cursor := sn.cursor))
    case InitializeSession(base) =>
      s.(branches := if base in s.branches then s.branches else s.branches[base := Branch(base, None, "", "")],
         timelines := if base in s.timelines then s.timelines else s.timelines[base := []])
    case CreateBranch(id, parent, root, delta) =>
      if !CanCreate(s, id, parent) then s
      else
        s.(branches := s.branches[id := Branch(id, Some(parent), root, delta)],
           timelines := s.timelines[id := Forked(TimelineOf(s, parent), FindSnapshot(s.snapshots, root))])
    case AppendBranchEvent(id, e) => AfterAppend(s, id, e)
  }

  function Initial(events: seq<Event>): State {
    State(events, 0, [], map[], map[])
  }

  function Run(s: State, ops: seq<Op>): State {
    if ops == [] then s else Next(Run(s, Front(ops)), Last(ops))
  }

  // ----- The prefix tree -----

  function Owner(e: TimelineEvent): string { e.checksum.branchId }

  ghost predicate NumberedFromZero(t: Timeline) {
    forall i :: 0 <= i < |t| ==> t[i].eventSequence == i
  }

  /** `t` agrees, up to and including event `i`, with the timeline of the branch that appended event `i`. */
  ghost predicate SharesWithOwner(s: State, t: Timeline, i: nat)
    requires i < |t|
  {
    var o := Owner(t[i]);
    o in s.timelines && i < |s.timelines[o]| && s.timelines[o][..i + 1] == t[..i + 1]
  }

  ghost predicate PrefixTree(s: State) {
    && s.branches.Keys <= s.timelines.Keys
    && (forall b :: b in s.timelines ==> NumberedFromZero(s.timelines[b]))
    && (forall b, i :: b in s.timelines && 0 <= i < |s.timelines[b]| ==>
          SharesWithOwner(s, s.timelines[b], i))
    // An event of an unregistered branch is nowhere but on that branch.
    && (forall b, i :: b in s.timelines && 0 <= i < |s.timelines[b]| ==>
          Owner(s.timelines[b][i]) == b || Owner(s.timelines[b][i]) in s.branches)
  }

  lemma AppendKeepsPrefixTree(s: State, id: string, e: Entry)
    requires PrefixTree(s)
    ensures PrefixTree(AfterAppend(s, id, e))
  {
    var s' := AfterAppend(s, id, e);
    var t := TimelineOf(s, id);
    forall b, i | b in s'.timelines && 0 <= i < |s'.timelines[b]|
      ensures SharesWithOwner(s', s'.timelines[b], i)
    {
      var t' := s'.timelines[b];
      if b == id && i == |t| {
        assert Owner(t'[i]) == id;
      } else {
        var u := s.timelines[b];
        assert SharesWithOwner(s, u, i);
        var o := s.timelines[Owner(u[i])];
        assert t'[..i + 1] == u[..i + 1];
        assert s'.timelines[Owner(u[i])][..i + 1] == o[..i + 1];
      }
    }
  }

  lemma {:induction false} FilterNumbered(t: Timeline, limit: nat)
    requires NumberedFromZero(t)
    ensures Filter((e: TimelineEvent) => e.eventSequence <= limit, t) == t[..if |t| <= limit + 1 then |t| else limit + 1]
  {
    if t != [] {
      FilterNumbered(Front(t), limit);
      SplitLast(t);
    }
  }

  /** A fork copies a prefix of its parent: up to the snapshot's cursor, or everything. */
  lemma ForkCopiesPrefix(parent: Timeline, snapshot: Option<Snapshot>)
    requires NumberedFromZero(parent)
    ensures snapshot.None? ==> Forked(parent, snapshot) == parent
    ensures snapshot.Some? && |parent| <= snapshot.value.cursor + 1 ==> Forked(parent, snapshot) == parent
    ensures snapshot.Some? && snapshot.value.cursor + 1 < |parent| ==>
      Forked(parent, snapshot) == parent[..snapshot.value.cursor + 1]
    ensures Forked(parent, snapshot) <= parent
  {
    if snapshot.Some? {
      FilterNumbered(parent, snapshot.value.cursor);
    }
  }

  lemma ForkKeepsPrefixTree(s: State, op: Op)
    requires PrefixTree(s) && op.CreateBranch? && CanCreate(s, op.branchId, op.parentBranchId)
    ensures PrefixTree(Next(s, op))
  {
    var s' := Next(s, op);
    var parent := s.timelines[op.parentBranchId];
    ForkCopiesPrefix(parent, FindSnapshot(s.snapshots, op.rootSnapshotId));
    var child := s'.timelines[op.branchId];
    assert child == parent[..|child|];
    forall b, i | b in s'.timelines && 0 <= i < |s'.timelines[b]|
      ensures SharesWithOwner(s', s'.timelines[b], i)
      ensures Owner(s'.timelines[b][i]) == b || Owner(s'.timelines[b][i]) in s'.branches
    {
      var from := if b == op.branchId then parent else s.timelines[b];
      var t := s'.timelines[b];
      assert SharesWithOwner(s, from, i);
      assert t[i] == from[i] && t[..i + 1] == from[..i + 1];
      assert Owner(t[i]) != op.branchId || b == op.branchId;
      if b == op.branchId {
        assert Owner(from[i]) == op.parentBranchId || Owner(from[i]) in s.branches;
      }
    }
  }

  lemma StepKeepsPrefixTree(s: State, op: Op)
    requires PrefixTree(s)
    ensures PrefixTree(Next(s, op))
  {
    match op
    case AppendBranchEvent(id, e) => AppendKeepsPrefixTree(s, id, e);
    case CreateBranch(id, parent, _, _) =>
      if CanCreate(s, id, parent) {
        ForkKeepsPrefixTree(s, op);
      }
    case InitializeSession(base) =>
      var s' := Next(s, op);
      forall b, i | b in s'.timelines && 0 <= i < |s'.timelines[b]|
        ensures SharesWithOwner(s', s'.timelines[b], i)
      {
        assert SharesWithOwner(s, s.timelines[b], i);
      }
    case _ =>
      var s' := Next(s, op);
      forall b, i | b in s'.timelines && 0 <= i < |s'.timelines[b]|
        ensures SharesWithOwner(s', s'.timelines[b], i)
      {
        assert SharesWithOwner(s, s.timelines[b], i);
      }
  }

  /** Whatever is called, in whatever order, on registered or unknown branches: all timelines
      form a prefix tree. */
  lemma {:induction false} EveryRunIsAPrefixTree(events: seq<Event>, ops: seq<Op>)
    ensures PrefixTree(Run(Initial(events), ops))
  {
    if ops != [] {
      EveryRunIsAPrefixTree(events, Front(ops));
      StepKeepsPrefixTree(Run(Initial(events), Front(ops)), Last(ops));
    }
  }

  // ----- Comparing branches -----

  datatype Comparison = Comparison(
    leftBranchId: string, rightBranchId: string, matching: bool, differingEvents: seq<nat>,
    differingPolicyDecisions: seq<nat>, differingFills: seq<nat>, differingScenarios: seq<nat>,
    differingAnalytics: seq<nat>)

  function Longer(left: Timeline, right: Timeline): nat {
    if |left| < |right| then |right| else |left|
  }

  predicate DiffersAt(left: Timeline, right: Timeline, i: nat) {
    i >= |left| || i >= |right| || left[i].checksum != right[i].checksum
  }

  function DifferingBelow(left: Timeline, right: Timeline, n: nat): seq<nat> {
    if n == 0 then []
    else DifferingBelow(left, right, n - 1) + if DiffersAt(left, right, n - 1) then [n - 1] else []
  }

  predicate Contains(text: string, part: string) {
    part <= text || (text != [] && Contains(text[1..], part))
  }

  predicate HasCategory(t: Timeline, i: nat, name: string) {
    i < |t| && (t[i].eventType == name || Contains(t[i].eventType, name))
  }

  function Category(left: Timeline, right: Timeline, name: string): nat -> bool {
    (i: nat) => HasCategory(left, i, name) || HasCategory(right, i, name)
  }

  function CompareBranches(s: State, leftBranchId: string, rightBranchId: string): Comparison {
    var left, right := TimelineOf(s, leftBranchId), TimelineOf(s, rightBranchId);
    var differing := DifferingBelow(left, right, Longer(left, right));
    Comparison(leftBranchId, rightBranchId, differing == [], differing,
               Filter(Category(left, right, "policy"), differing),
               Filter(Category(left, right, "fill"), differing),
               Filter(Category(left, right, "scenario"), differing),
               Filter(Category(left, right, "analytics"), differing))
  }

  ghost predicate CommonPrefixLength(left: Timeline, right: Timeline, k: nat) {
    && k <= |left| && k <= |right|
    && left[..k] == right[..k]
    && (k < |left| && k < |right| ==> left[k] != right[k])
  }

  lemma {:induction false} CommonPrefix(left: Timeline, right: Timeline) returns (k: nat)
    ensures CommonPrefixLength(left, right, k)
  {
    k := 0;
    while k < |left| && k < |right| && left[k] == right[k]
      invariant k <= |left| && k <= |right| && left[..k] == right[..k]
    {
      TakeNext(left, k);
      TakeNext(right, k);
      k := k + 1;
    }
  }

  /** One equal checksum means equal histories up to it, although the checksum leaves out
      severity, strategy, symbol and tags. */
  lemma EqualChecksumEqualHistory(s: State, b: string, c: string, i: nat)
    requires PrefixTree(s)
    requires i < |TimelineOf(s, b)| && i < |TimelineOf(s, c)|
    requires TimelineOf(s, b)[i].checksum == TimelineOf(s, c)[i].checksum
    ensures TimelineOf(s, b)[..i + 1] == TimelineOf(s, c)[..i + 1]
    ensures forall j :: 0 <= j <= i ==> TimelineOf(s, b)[j] == TimelineOf(s, c)[j]
  {
    assert SharesWithOwner(s, s.timelines[b], i) && SharesWithOwner(s, s.timelines[c], i);
    forall j | 0 <= j <= i ensures TimelineOf(s, b)[j] == TimelineOf(s, c)[j] {
      assert TimelineOf(s, b)[..i + 1][j] == TimelineOf(s, c)[..i + 1][j];
    }
  }

  function Range(lo: nat, hi: nat): (r: seq<nat>)
    requires lo <= hi
    ensures |r| == hi - lo
  {
    seq(hi - lo, i requires 0 <= i => lo + i)
  }

  lemma {:induction false} DifferingIsRange(left: Timeline, right: Timeline, k: nat, n: nat)
    requires forall i :: 0 <= i < n ==> (DiffersAt(left, right, i) <==> k <= i)
    ensures DifferingBelow(left, right, n) == if n <= k then [] else Range(k, n)
  {
    if n > 0 {
      DifferingIsRange(left, right, k, n - 1);
      assert DiffersAt(left, right, n - 1) <==> k <= n - 1;
      assert k < n ==> Range(k, n) == Range(k, n - 1) + [n - 1];
    }
  }

  lemma DiffersBehindCommonPrefix(s: State, b: string, c: string, k: nat, i: nat)
    requires PrefixTree(s)
    requires CommonPrefixLength(TimelineOf(s, b), TimelineOf(s, c), k)
    requires i < Longer(TimelineOf(s, b), TimelineOf(s, c))
    ensures DiffersAt(TimelineOf(s, b), TimelineOf(s, c), i) <==> k <= i
  {
    var left, right := TimelineOf(s, b), TimelineOf(s, c);
    if i < k {
      assert left[..k][i] == right[..k][i];
    } else if !DiffersAt(left, right, i) {
      EqualChecksumEqualHistory(s, b, c, i);
    }
  }

  lemma DiffersFrom(s: State, b: string, c: string, k: nat)
    requires PrefixTree(s)
    requires CommonPrefixLength(TimelineOf(s, b), TimelineOf(s, c), k)
    ensures CompareBranches(s, b, c).differingEvents == Range(k, Longer(TimelineOf(s, b), TimelineOf(s, c)))
    ensures CompareBranches(s, b, c).matching <==> TimelineOf(s, b) == TimelineOf(s, c)
  {
    var left, right := TimelineOf(s, b), TimelineOf(s, c);
    var n := Longer(left, right);
    forall i | 0 <= i < n ensures DiffersAt(left, right, i) <==> k <= i {
      DiffersBehindCommonPrefix(s, b, c, k, i);
    }
    DifferingIsRange(left, right, k, n);
    assert n == k ==> left == left[..k] && right == right[..k];
  }

  /** In every reachable state, the differing events of two branches are exactly the indices from
      the end of their longest common prefix to the end of the longer branch. */
  lemma DifferingEventsAreASuffix(s: State, b: string, c: string)
    requires PrefixTree(s)
    ensures exists k | CommonPrefixLength(TimelineOf(s, b), TimelineOf(s, c), k) ::
      CompareBranches(s, b, c).differingEvents == Range(k, Longer(TimelineOf(s, b), TimelineOf(s, c)))
    ensures CompareBranches(s, b, c).matching <==> TimelineOf(s, b) == TimelineOf(s, c)
  {
    var k := CommonPrefix(TimelineOf(s, b), TimelineOf(s, c));
    DiffersFrom(s, b, c, k);
  }

  predicate OccursAt(part: string, text: string, k: nat) {
    k + |part| <= |text| && text[k..k + |part|] == part
  }

  /** `part` occurs somewhere in `text`. */
  ghost predicate OccursIn(part: string, text: string) {
    exists k: nat :: OccursAt(part, text, k)
  }

  lemma OccursAtStart(part: string, text: string)
    ensures OccursAt(part, text, 0) <==> part <= text
  {
    if |part| <= |text| {
      assert text[0..0 + |part|] == text[..|part|];
    }
  }

  lemma OccursLater(part: string, text: string, k: nat)
    requires text != []
    ensures OccursAt(part, text, k + 1) <==> OccursAt(part, text[1..], k)
  {
    if k + 1 + |part| <= |text| {
      assert text[1..][k..k + |part|] == text[k + 1..k + 1 + |part|];
    }
  }

  lemma {:induction false} ContainsIff(text: string, part: string)
    ensures Contains(text, part) <==> OccursIn(part, text)
  {
    OccursAtStart(part, text);
    if text != [] {
      ContainsIff(text[1..], part);
      if k: nat :| OccursAt(part, text[1..], k) {
        OccursLater(part, text, k);
      }
      if k: nat :| OccursAt(part, text, k) && k > 0 {
        OccursLater(part, text, k - 1);
      }
    }
  }

  /** One of the two timelines has an event at `i` in whose type the name occurs. */
  ghost predicate EitherHas(left: Timeline, right: Timeline, name: string, i: nat) {
    || (i < |left| && OccursIn(name, left[i].eventType))
    || (i < |right| && OccursIn(name, right[i].eventType))
  }

  lemma CategoryIff(left: Timeline, right: Timeline, name: string, i: nat)
    ensures Category(left, right, name)(i) <==> EitherHas(left, right, name, i)
  {
    if i < |left| {
      ContainsIff(left[i].eventType, name);
      assert left[i].eventType == name ==> name <= left[i].eventType;
    }
    if i < |right| {
      ContainsIff(right[i].eventType, name);
      assert right[i].eventType == name ==> name <= right[i].eventType;
    }
  }

  /** An index is listed under a category exactly when the branches differ there and the type of one of the two events
      there contains the category's name. */
  lemma CategoriesAreExact(s: State, b: string, c: string, i: nat)
    ensures var r := CompareBranches(s, b, c);
      var left, right := TimelineOf(s, b), TimelineOf(s, c);
      && (i in r.differingPolicyDecisions <==> i in r.differingEvents && EitherHas(left, right, "policy", i))
      && (i in r.differingFills <==> i in r.differingEvents && EitherHas(left, right, "fill", i))
      && (i in r.differingScenarios <==> i in r.differingEvents && EitherHas(left, right, "scenario", i))
      && (i in r.differingAnalytics <==> i in r.differingEvents && EitherHas(left, right, "analytics", i))
  {
    var left, right := TimelineOf(s, b), TimelineOf(s, c);
    var differing := DifferingBelow(left, right, Longer(left, right));
    InCategory(left, right, "policy", differing, i);
    InCategory(left, right, "fill", differing, i);
    InCategory(left, right, "scenario", differing, i);
    InCategory(left, right, "analytics", differing, i);
  }

  lemma InCategory(left: Timeline, right: Timeline, name: string, differing: seq<nat>, i: nat)
    ensures i in Filter(Category(left, right, name), differing) <==> i in differing && EitherHas(left, right, name, i)
  {
    FilterElements(Category(left, right, name), differing, i);
    CategoryIff(left, right, name, i);
  }

  /** The list whose SHA-256 is the branch checksum. */
  function BranchDigest(t: Timeline): seq<(nat, int, string, Checksum)> {
    Map((e: TimelineEvent) => (e.eventSequence, e.timestamp, e.eventType, e.checksum), t)
  }

  /** Two branches have the same checksum exactly when they have the same timeline. */
  lemma BranchChecksumIsFaithful(s: State, b: string, c: string)
    requires PrefixTree(s)
    ensures BranchDigest(TimelineOf(s, b)) == BranchDigest(TimelineOf(s, c)) <==> TimelineOf(s, b) == TimelineOf(s, c)
  {
    var left, right := TimelineOf(s, b), TimelineOf(s, c);
    if BranchDigest(left) == BranchDigest(right) && left != [] {
      var n := |left|;
      assert |BranchDigest(left)| == n == |BranchDigest(right)| == |right|;
      assert BranchDigest(left)[n - 1].3 == BranchDigest(right)[n - 1].3;
      EqualChecksumEqualHistory(s, b, c, n - 1);
      assert left[..n] == left && right[..n] == right;
    }
  }

  // ----- Append-only history -----

  /** A registered branch only ever grows at its end. */
  lemma {:induction false} RegisteredBranchesAppendOnly(s: State, ops: seq<Op>, b: string)
    requires PrefixTree(s) && b in s.branches
    ensures PrefixTree(Run(s, ops)) && b in Run(s, ops).branches
    ensures TimelineOf(s, b) <= TimelineOf(Run(s, ops), b)
  {
    if ops != [] {
      RegisteredBranchesAppendOnly(s, Front(ops), b);
      StepKeepsPrefixTree(Run(s, Front(ops)), Last(ops));
      StepAppends(Run(s, Front(ops)), Last(ops), b);
    }
  }

  lemma StepAppends(s: State, op: Op, b: string)
    requires PrefixTree(s) && b in s.branches
    ensures b in Next(s, op).branches && TimelineOf(s, b) <= TimelineOf(Next(s, op), b)
  {
  }

  /** After any further calls, a child still shares with its parent the events it was forked with;
      everything in which the two differ lies behind them. */
  lemma ForkSharesForever(s: State, fork: Op, later: seq<Op>)
    requires PrefixTree(s) && fork.CreateBranch? && CanCreate(s, fork.branchId, fork.parentBranchId)
    ensures var s' := Run(Next(s, fork), later);
      var copied := TimelineOf(Next(s, fork), fork.branchId);
      && copied <= TimelineOf(s, fork.parentBranchId)
      && copied <= TimelineOf(s', fork.branchId)
      && copied <= TimelineOf(s', fork.parentBranchId)
      && forall k | CommonPrefixLength(TimelineOf(s', fork.branchId), TimelineOf(s', fork.parentBranchId), k) ::
           |copied| <= k
  {
    var s1 := Next(s, fork);
    ForkCopiesPrefix(s.timelines[fork.parentBranchId], FindSnapshot(s.snapshots, fork.rootSnapshotId));
    StepKeepsPrefixTree(s, fork);
    RegisteredBranchesAppendOnly(s1, later, fork.branchId);
    RegisteredBranchesAppendOnly(s1, later, fork.parentBranchId);
    assert TimelineOf(s1, fork.parentBranchId) == TimelineOf(s, fork.parentBranchId);
  }

  lemma {:induction false} LengthsAreBounded(names: set<string>) returns (bound: nat)
    ensures forall x :: x in names ==> |x| < bound
    decreases |names|
  {
    if names == {} {
      bound := 0;
    } else {
      var y :| y in names;
      var rest := LengthsAreBounded(names - {y});
      bound := if rest > |y| then rest else |y| + 1;
    }
  }

  lemma FreshName(names: set<string>) returns (name: string)
    ensures name !in names
  {
    var bound := LengthsAreBounded(names);
    name := seq(bound, _ => 'a');
  }

  /** Events appended to an unregistered id are lost when a branch of that name is forked from an empty one. */
  lemma UnregisteredTimelineIsLost(s: State, b: string) returns (ops: seq<Op>)
    requires b !in s.branches
    ensures TimelineOf(Run(s, ops), b) == []
  {
    var root := FreshName(s.branches.Keys + s.timelines.Keys + {b});
    var initialize, create := InitializeSession(root), CreateBranch(b, root, "", "");
    ops := [initialize, create];
    assert Front(ops) == [initialize] && Front([initialize]) == [];
    var s1 := Next(s, initialize);
    assert Run(s, [initialize]) == s1;
    assert TimelineOf(s1, root) == [] && CanCreate(s1, b, root);
    assert Run(s, ops) == Next(s1, create);
  }

  /** Registration is what makes a branch append-only: no calls whatever take events from it exactly when it is
      registered, or has none. */
  lemma AppendOnlyIffRegistered(s: State, b: string)
    requires PrefixTree(s)
    ensures (forall ops :: TimelineOf(s, b) <= TimelineOf(Run(s, ops), b))
       <==> b in s.branches || TimelineOf(s, b) == []
  {
    if b in s.branches {
      forall ops ensures TimelineOf(s, b) <= TimelineOf(Run(s, ops), b) {
        RegisteredBranchesAppendOnly(s, ops, b);
      }
    } else {
      var ops := UnregisteredTimelineIsLost(s, b);
      assert TimelineOf(s, b) <= TimelineOf(Run(s, ops), b) ==> TimelineOf(s, b) == [];
    }
  }

  // ----- Cursor and snapshots -----

  ghost predicate CursorInRange(s: State) {
    && 0 <= s.cursor <= |s.events|
    && forall i :: 0 <= i < |s.snapshots| ==> s.snapshots[i].cursor < |s.events|
  }

  lemma {:induction false} FoundSnapshotIsListed(snapshots: seq<Snapshot>, id: string)
    ensures FindSnapshot(snapshots, id).Some? ==>
      FindSnapshot(snapshots, id).value in snapshots && FindSnapshot(snapshots, id).value.snapshotId == id
    ensures FindSnapshot(snapshots, id).None? ==> forall sn :: sn in snapshots ==> sn.snapshotId != id
  {
    if snapshots != [] {
      FoundSnapshotIsListed(Front(snapshots), id);
      SplitLast(snapshots);
    }
  }

  lemma {:induction false} CursorStaysInRange(events: seq<Event>, ops: seq<Op>)
    ensures CursorInRange(Run(Initial(events), ops)) && Run(Initial(events), ops).events == events
  {
    if ops != [] {
      CursorStaysInRange(events, Front(ops));
      var s := Run(Initial(events), Front(ops));
      if Last(ops).RestoreSnapshot? {
        FoundSnapshotIsListed(s.snapshots, Last(ops).snapshotId);
      }
    }
  }

  /** Stepping back undoes stepping forward, unless the tape was already at its end. */
  lemma StepBackwardUndoesStepForward(s: State)
    requires CursorInRange(s)
    ensures Next(Next(s, StepForward), StepBackward) == s <==> (s.cursor < |s.events| || s.cursor == 0)
  {
  }

  lemma {:induction false} FirstSnapshotWins(s: State, ops: seq<Op>, id: string)
    requires FindSnapshot(s.snapshots, id).Some?
    ensures FindSnapshot(Run(s, ops).snapshots, id) == FindSnapshot(s.snapshots, id)
  {
    if ops != [] {
      FirstSnapshotWins(s, Front(ops), id);
      var t := Run(s, Front(ops));
      if Last(ops).CreateSnapshot? && t.events != [] {
        assert Front(Next(t, Last(ops)).snapshots) == t.snapshots;
      }
    }
  }

  /** Restoring a snapshot brings the cursor back to where it was taken, whatever happened in
      between, provided the id was new and the tape was not at its end. */
  lemma RestoreReturnsToSnapshot(s: State, id: string, captured: string, later: seq<Op>)
    requires CursorInRange(s) && s.events != [] && FindSnapshot(s.snapshots, id).None?
    ensures var s' := Next(Run(Next(s, CreateSnapshot(id, captured)), later), RestoreSnapshot(id));
      && s'.cursor == (if s.cursor < |s.events| then s.cursor else |s.events| - 1)
      && (s'.cursor == s.cursor <==> s.cursor < |s.events|)
  {
    var s1 := Next(s, CreateSnapshot(id, captured));
    NewSnapshotIsFound(s, id, captured);
    FirstSnapshotWins(s1, later, id);
  }

  lemma NewSnapshotIsFound(s: State, id: string, captured: string)
    requires s.events != [] && FindSnapshot(s.snapshots, id).None?
    ensures var found := FindSnapshot(Next(s, CreateSnapshot(id, captured)).snapshots, id);
      found.Some? && found.value.cursor == SnapshotIndex(s)
  {
    assert Front(Next(s, CreateSnapshot(id, captured)).snapshots) == s.snapshots;
  }

  // ----- The decision graph -----

  datatype Kind = StateKind | PolicyKind | DecisionKind | ExecutionKind | PortfolioKind | AnalyticsKind | NextStateKind

  const KINDS: seq<Kind> :=
    [StateKind, PolicyKind, DecisionKind, ExecutionKind, PortfolioKind, AnalyticsKind, NextStateKind]

  /** `"{branch}:{sequence}:{kind}"`. */
  datatype NodeId = NodeId(branchId: string, eventSequence: nat, kind: Kind)

  datatype Node = Node(id: NodeId, kind: Kind, eventChecksum: Checksum, payload: string)

  datatype Graph = Graph(nodes: seq<Node>, edges: seq<(NodeId, NodeId)>)

  function NodeAt(branchId: string, e: TimelineEvent, k: nat): Node
    requires k < |KINDS|
  {
    Node(NodeId(branchId, e.eventSequence, KINDS[k]), KINDS[k], e.checksum, e.payload)
  }

  function EdgeAt(branchId: string, e: TimelineEvent, k: nat): (NodeId, NodeId)
    requires k + 1 < |KINDS|
  {
    (NodeAt(branchId, e, k).id, NodeAt(branchId, e, k + 1).id)
  }

  /** The graph lists, event by event, the seven nodes and the six edges of one chain. */
  ghost predicate IsDecisionGraph(g: Graph, branchId: string, t: Timeline) {
    && |g.nodes| == 7 * |t| && |g.edges| == 6 * |t|
    && (forall i, k :: 0 <= i < |t| && 0 <= k < 7 ==> g.nodes[7 * i + k] == NodeAt(branchId, t[i], k))
    && (forall i, k :: 0 <= i < |t| && 0 <= k < 6 ==> g.edges[6 * i + k] == EdgeAt(branchId, t[i], k))
  }

  function KindNode(branchId: string, e: TimelineEvent, kind: Kind): Node {
    Node(NodeId(branchId, e.eventSequence, kind), kind, e.checksum, e.payload)
  }

  /** The chain of one event: state, policy, decision, execution, portfolio, analytics, next state, each with the event's
      checksum and payload, and an edge from each to the next. */
  lemma ChainOfEvent(g: Graph, branchId: string, t: Timeline, i: nat)
    requires IsDecisionGraph(g, branchId, t) && i < |t|
    ensures 7 * i + 7 <= |g.nodes| == 7 * |t| && 6 * i + 6 <= |g.edges| == 6 * |t|
    ensures g.nodes[7 * i..7 * i + 7] == [
              KindNode(branchId, t[i], StateKind), KindNode(branchId, t[i], PolicyKind),
              KindNode(branchId, t[i], DecisionKind), KindNode(branchId, t[i], ExecutionKind),
              KindNode(branchId, t[i], PortfolioKind), KindNode(branchId, t[i], AnalyticsKind),
              KindNode(branchId, t[i], NextStateKind)]
    ensures g.edges[6 * i..6 * i + 6] == [
              KindEdge(branchId, t[i], StateKind, PolicyKind), KindEdge(branchId, t[i], PolicyKind, DecisionKind),
              KindEdge(branchId, t[i], DecisionKind, ExecutionKind),
              KindEdge(branchId, t[i], ExecutionKind, PortfolioKind),
              KindEdge(branchId, t[i], PortfolioKind, AnalyticsKind),
              KindEdge(branchId, t[i], AnalyticsKind, NextStateKind)]
  {
    NodesOfEvent(g, branchId, t, i);
    ChainNodes(branchId, t[i]);
    EdgesOfEvent(g, branchId, t, i);
    ChainEdges(branchId, t[i]);
  }

  function KindEdge(branchId: string, e: TimelineEvent, from: Kind, to: Kind): (NodeId, NodeId) {
    (NodeId(branchId, e.eventSequence, from), NodeId(branchId, e.eventSequence, to))
  }

  function EdgesAt(branchId: string, e: TimelineEvent): seq<(NodeId, NodeId)> {
    seq(6, k requires 0 <= k < 6 => EdgeAt(branchId, e, k))
  }

  lemma EdgesOfEvent(g: Graph, branchId: string, t: Timeline, i: nat)
    requires IsDecisionGraph(g, branchId, t) && i < |t|
    ensures g.edges[6 * i..6 * i + 6] == EdgesAt(branchId, t[i])
  {
    forall k | 0 <= k < 6 ensures g.edges[6 * i..6 * i + 6][k] == EdgesAt(branchId, t[i])[k] {
      assert g.edges[6 * i + k] == EdgeAt(branchId, t[i], k);
    }
  }

  lemma ChainEdges(branchId: string, e: TimelineEvent)
    ensures EdgesAt(branchId, e) == [
              KindEdge(branchId, e, StateKind, PolicyKind), KindEdge(branchId, e, PolicyKind, DecisionKind),
              KindEdge(branchId, e, DecisionKind, ExecutionKind), KindEdge(branchId, e, ExecutionKind, PortfolioKind),
              KindEdge(branchId, e, PortfolioKind, AnalyticsKind),
              KindEdge(branchId, e, AnalyticsKind, NextStateKind)]
  {
    assert KINDS[0] == StateKind && KINDS[1] == PolicyKind && KINDS[2] == DecisionKind && KINDS[3] == ExecutionKind;
    assert KINDS[4] == PortfolioKind && KINDS[5] == AnalyticsKind && KINDS[6] == NextStateKind;
  }

  function NodesAt(branchId: string, e: TimelineEvent): seq<Node> {
    seq(7, k requires 0 <= k < 7 => NodeAt(branchId, e, k))
  }

  lemma NodesOfEvent(g: Graph, branchId: string, t: Timeline, i: nat)
    requires IsDecisionGraph(g, branchId, t) && i < |t|
    ensures g.nodes[7 * i..7 * i + 7] == NodesAt(branchId, t[i])
  {
    forall k | 0 <= k < 7 ensures g.nodes[7 * i..7 * i + 7][k] == NodesAt(branchId, t[i])[k] {
      assert g.nodes[7 * i + k] == NodeAt(branchId, t[i], k);
    }
  }

  lemma ChainNodes(branchId: string, e: TimelineEvent)
    ensures NodesAt(branchId, e) == [
              KindNode(branchId, e, StateKind), KindNode(branchId, e, PolicyKind), KindNode(branchId, e, DecisionKind),
              KindNode(branchId, e, ExecutionKind), KindNode(branchId, e, PortfolioKind),
              KindNode(branchId, e, AnalyticsKind), KindNode(branchId, e, NextStateKind)]
  {
    assert KINDS[0] == StateKind && KINDS[1] == PolicyKind && KINDS[2] == DecisionKind && KINDS[3] == ExecutionKind;
    assert KINDS[4] == PortfolioKind && KINDS[5] == AnalyticsKind && KINDS[6] == NextStateKind;
  }

  /** In a reachable state no node id occurs twice. */
  lemma NodeIdsAreDistinct(g: Graph, branchId: string, t: Timeline, m: nat, n: nat)
    requires IsDecisionGraph(g, branchId, t) && NumberedFromZero(t)
    requires m < n < |g.nodes|
    ensures g.nodes[m].id != g.nodes[n].id
  {
    assert m == 7 * (m / 7) + m % 7 && n == 7 * (n / 7) + n % 7;
    assert g.nodes[m] == NodeAt(branchId, t[m / 7], m % 7);
    assert g.nodes[n] == NodeAt(branchId, t[n / 7], n % 7);
  }

  // ----- The engine, in place -----

  class BacktestReplayEngine {
    const events: seq<Event>
    var cursor: int
    var snapshots: seq<Snapshot>
    var replaySession: Option<Session>
    var branches: map<string, Branch>
    var branchEvents: map<string, Timeline>

    ghost function Abstract(): State
      reads this
    {
      State(events, cursor, snapshots, branches, branchEvents)
    }

    constructor (events: seq<Event>)
      ensures Abstract() == Initial(events) && replaySession == None
    {
      this.events := events;
      cursor, snapshots, replaySession := 0, [], None;
      branches, branchEvents := map[], map[];
    }

    method StepForward() returns (event: Option<Event>)
      requires 0 <= cursor
      modifies this`cursor
      ensures Abstract() == Next(old(Abstract()), Op.StepForward)
      ensures event == if old(cursor) < |events| then Some(events[old(cursor)]) else None
    {
      if cursor >= |events| {
        return None;
      }
      event := Some(events[cursor]);
      cursor := cursor + 1;
    }

    method StepBackward() returns (event: Option<Event>)
      requires cursor <= |events|
      modifies this`cursor
      ensures Abstract() == Next(old(Abstract()), Op.StepBackward)
      ensures event == if old(cursor) <= 1 then None else Some(events[cursor - 1])
    {
      if cursor <= 1 {
        cursor := 0;
        return None;
      }
      cursor := cursor - 1;
      event := Some(events[cursor - 1]);
    }

    method JumpToTimestamp(timestamp: int) returns (event: Option<Event>)
      modifies this`cursor
      ensures Abstract() == Next(old(Abstract()), Op.JumpToTimestamp(timestamp))
      ensures event == if cursor < |events| then Some(events[cursor]) else None
    {
      for index := 0 to |events|
        invariant forall j :: 0 <= j < index ==> events[j].timestamp < timestamp
      {
        if events[index].timestamp >= timestamp {
          cursor := index;
          return Some(events[index]);
        }
      }
      cursor := |events|;
      return None;
    }

    method CreateSnapshot(snapshotId: string, captured: string) returns (snapshot: Option<Snapshot>)
      modifies this`snapshots
      ensures Abstract() == Next(old(Abstract()), Op.CreateSnapshot(snapshotId, captured))
      ensures snapshot == if events == [] then None else Some(Last(snapshots))
    {
      if events == [] {
        return None;
      }
      var atLeastZero := if cursor < 0 then 0 else cursor;
      var index := if atLeastZero < |events| - 1 then atLeastZero else |events| - 1;
      var taken := Snapshot(snapshotId, index, events[index].timestamp, captured);
      snapshots := snapshots + [taken];
      return Some(taken);
    }

    method FirstSnapshot(snapshotId: string) returns (snapshot: Option<Snapshot>)
      ensures snapshot == FindSnapshot(snapshots, snapshotId)
    {
      for i := 0 to |snapshots|
        invariant FindSnapshot(snapshots[..i], snapshotId).None?
      {
        TakeNext(snapshots, i);
        if snapshots[i].snapshotId == snapshotId {
          FoundSnapshotSticks(snapshots, i + 1, snapshotId);
          return Some(snapshots[i]);
        }
      }
      assert snapshots[..|snapshots|] == snapshots;
      return None;
    }

    method RestoreSnapshot(snapshotId: string) returns (snapshot: Option<Snapshot>)
      modifies this`cursor
      ensures Abstract() == Next(old(Abstract()), Op.RestoreSnapshot(snapshotId))
      ensures snapshot == FindSnapshot(snapshots, snapshotId)
    {
      snapshot := FirstSnapshot(snapshotId);
      if snapshot.Some? {
        cursor := snapshot.value.cursor;
      }
    }

    method InitializeSession(sessionId: string, runId: string, timelineId: string, baseBranchId: string)
      returns (session: Session)
      modifies this`replaySession, this`branches, this`branchEvents
      ensures Abstract() == Next(old(Abstract()), Op.InitializeSession(baseBranchId))
      ensures session == Session(sessionId, runId, timelineId, baseBranchId) && replaySession == Some(session)
    {
      session := Session(sessionId, runId, timelineId, baseBranchId);
      replaySession := Some(session);
      if baseBranchId !in branches {
        branches := branches[baseBranchId := Branch(baseBranchId, None, "", "")];
      }
      if baseBranchId !in branchEvents {
        branchEvents := branchEvents[baseBranchId := []];
      }
    }

    /** `Err` is the ValueError; it is raised before anything is changed. */
    method CreateBranch(branchId: string, parentBranchId: string, rootSnapshotId: string, decisionDelta: string)
      returns (r: Result<Branch, string>)
      modifies this`branches, this`branchEvents
      ensures Abstract() == Next(old(Abstract()), Op.CreateBranch(branchId, parentBranchId, rootSnapshotId, decisionDelta))
      ensures r == if parentBranchId !in old(branches) then Err("unknown replay parent branch")
                   else if branchId in old(branches) then Err("replay branch already exists")
                   else Ok(Branch(branchId, Some(parentBranchId), rootSnapshotId, decisionDelta))
    {
      if parentBranchId !in branches {
        return Err("unknown replay parent branch");
      }
      if branchId in branches {
        return Err("replay branch already exists");
      }
      var snapshot := FirstSnapshot(rootSnapshotId);
      var parentEvents := if parentBranchId in branchEvents then branchEvents[parentBranchId] else [];
      if snapshot.Some? {
        parentEvents := Filter((e: TimelineEvent) => e.eventSequence <= snapshot.value.cursor, parentEvents);
      }
      var branch := Branch(branchId, Some(parentBranchId), rootSnapshotId, decisionDelta);
      branches := branches[branchId := branch];
      branchEvents := branchEvents[branchId := parentEvents];
      return Ok(branch);
    }

    method AppendBranchEvent(branchId: string, entry: Entry) returns (event: TimelineEvent)
      modifies this`branchEvents
      ensures Abstract() == Next(old(Abstract()), Op.AppendBranchEvent(branchId, entry))
      ensures var before := if branchId in old(branchEvents) then old(branchEvents)[branchId] else [];
        && branchEvents == old(branchEvents)[branchId := before + [event]]
        && event.eventSequence == |before|
        && event.checksum == EventDigest(branchId, |before|, entry.timestamp, entry.eventType, entry.payload)
      ensures event.timestamp == entry.timestamp && event.eventType == entry.eventType
           && event.severity == entry.severity && event.strategyId == entry.strategyId
           && event.symbol == entry.symbol && event.tags == entry.tags && event.payload == entry.payload
    {
      if branchId !in branchEvents {
        branchEvents := branchEvents[branchId := []];
      }
      var sequence := |branchEvents[branchId]|;
      event := TimelineEvent(
        sequence, entry.timestamp, entry.eventType, entry.severity, entry.strategyId, entry.symbol,
        entry.tags, entry.payload,
        EventDigest(branchId, sequence, entry.timestamp, entry.eventType, entry.payload));
      branchEvents := branchEvents[branchId := branchEvents[branchId] + [event]];
    }

    method DecisionGraph(branchId: string) returns (g: Graph)
      ensures IsDecisionGraph(g, branchId, TimelineOf(Abstract(), branchId))
    {
      var timeline := if branchId in branchEvents then branchEvents[branchId] else [];
      var nodes: seq<Node>, edges: seq<(NodeId, NodeId)> := [], [];
      for i := 0 to |timeline|
        invariant IsDecisionGraph(Graph(nodes, edges), branchId, timeline[..i])
      {
        var newNodes, newEdges := Chain(branchId, timeline[i]);
        DecisionGraphGrows(Graph(nodes, edges), branchId, timeline, i, newNodes, newEdges);
        nodes, edges := nodes + newNodes, edges + newEdges;
      }
      assert timeline[..|timeline|] == timeline;
      g := Graph(nodes, edges);
    }
  }

  /** The inner loop of `decision_graph`: one event's chain. */
  method Chain(branchId: string, event: TimelineEvent) returns (nodes: seq<Node>, edges: seq<(NodeId, NodeId)>)
    ensures |nodes| == 7 && forall k :: 0 <= k < 7 ==> nodes[k] == NodeAt(branchId, event, k)
    ensures |edges| == 6 && forall k :: 0 <= k < 6 ==> edges[k] == EdgeAt(branchId, event, k)
  {
    nodes, edges := [], [];
    var previous: Option<NodeId> := None;
    for k := 0 to |KINDS|
      invariant |nodes| == k && forall j :: 0 <= j < k ==> nodes[j] == NodeAt(branchId, event, j)
      invariant |edges| == (if k == 0 then 0 else k - 1)
      invariant forall j :: 0 <= j < |edges| ==> edges[j] == EdgeAt(branchId, event, j)
      invariant previous == if k == 0 then None else Some(NodeAt(branchId, event, k - 1).id)
    {
      var kind := KINDS[k];
      var nodeId := NodeId(branchId, event.eventSequence, kind);
      nodes := nodes + [Node(nodeId, kind, event.checksum, event.payload)];
      if previous.Some? {
        edges := edges + [(previous.value, nodeId)];
      }
      previous := Some(nodeId);
    }
  }

  lemma DecisionGraphGrows(
    g: Graph, branchId: string, t: Timeline, n: nat, nodes: seq<Node>, edges: seq<(NodeId, NodeId)>)
    requires n < |t| && IsDecisionGraph(g, branchId, t[..n])
    requires |nodes| == 7 && forall k :: 0 <= k < 7 ==> nodes[k] == NodeAt(branchId, t[n], k)
    requires |edges| == 6 && forall k :: 0 <= k < 6 ==> edges[k] == EdgeAt(branchId, t[n], k)
    ensures IsDecisionGraph(Graph(g.nodes + nodes, g.edges + edges), branchId, t[..n + 1])
  {
    var u := t[..n + 1];
    forall i, k | 0 <= i < |u| && 0 <= k < 7 ensures (g.nodes + nodes)[7 * i + k] == NodeAt(branchId, u[i], k) {
      if i < n {
        assert t[..n][i] == u[i];
        assert 7 * i + k < |g.nodes|;
      }
    }
    forall i, k | 0 <= i < |u| && 0 <= k < 6 ensures (g.edges + edges)[6 * i + k] == EdgeAt(branchId, u[i], k) {
      if i < n {
        assert t[..n][i] == u[i];
        assert 6 * i + k < |g.edges|;
      }
    }
  }

  lemma {:induction false} FoundSnapshotSticks(snapshots: seq<Snapshot>, i: nat, id: string)
    requires i <= |snapshots| && FindSnapshot(snapshots[..i], id).Some?
    ensures FindSnapshot(snapshots, id) == FindSnapshot(snapshots[..i], id)
    decreases |snapshots| - i
  {
    if i == |snapshots| {
      assert snapshots[..i] == snapshots;
    } else {
      TakeNext(snapshots, i);
      FoundSnapshotSticks(snapshots, i + 1, id);
    }
  }
}
