/** The strategy lifecycle state machine (`backend/backtesting/state_machine.py`). */
module Lifecycle {
  import opened Results
  import opened Seqs

  datatype LifecycleState =
    | Configured
    | WaitingForEntry
    | EntrySignaled
    | EntryPending
    | PartiallyOpen
    | Open
    | ManagementPending
    | ExitSignaled
    | ExitPending
    | PartiallyClosed
    | RollSignaled
    | RollPending
    | Expired
    | PendingExerciseOrAssignment
    | Closed
    | Cancelled
    | Failed

  function Allowed(s: LifecycleState): set<LifecycleState> {
    match s
    case Configured => {WaitingForEntry, Cancelled, Failed}
    case WaitingForEntry => {EntrySignaled, Cancelled, Failed}
    case EntrySignaled => {EntryPending, Cancelled, Failed}
    case EntryPending => {PartiallyOpen, Open, Cancelled, Failed}
    case PartiallyOpen => {Open, Cancelled, Failed}
    case Open => {ManagementPending, ExitSignaled, RollSignaled, Expired, Failed}
    case ManagementPending => {Open, ExitSignaled, RollSignaled, Failed}
    case ExitSignaled => {ExitPending, Failed}
    case ExitPending => {PartiallyClosed, Closed, Failed}
    case PartiallyClosed => {Closed, Failed}
    case RollSignaled => {RollPending, Failed}
    case RollPending => {Open, PartiallyOpen, Failed}
    case Expired => {PendingExerciseOrAssignment, Closed}
    case PendingExerciseOrAssignment => {Closed, Failed}
    case Closed => {}
    case Cancelled => {}
    case Failed => {}
  }

  datatype GuardResult = GuardResult(guard: string, passed: bool, reasonCode: string)

  datatype Request = Request(
    next: LifecycleState, timestamp: int, trigger: string, guards: seq<GuardResult>, snapshotReference: string)

  /** SHA-256 over these fields, as an injective constructor. */
  datatype Checksum = TransitionDigest(
    sequenceNumber: nat, prior: LifecycleState, next: LifecycleState, timestamp: int, trigger: string, snapshot: string)

  datatype Record = Record(
    sequenceNumber: nat, prior: LifecycleState, next: LifecycleState, timestamp: int, trigger: string,
    guards: seq<GuardResult>, snapshotReference: string, checksum: Checksum)

  datatype Rejection = InvalidTransition | GuardsFailed | NonDeterministicTimestamp

  datatype Machine = Machine(state: LifecycleState, sequenceNumber: nat, transitions: seq<Record>)

  const INITIAL := Machine(Configured, 0, [])

  predicate GuardsPass(guards: seq<GuardResult>) {
    forall g :: g in guards ==> g.passed
  }

  function Answer(m: Machine, q: Request): Result<Record, Rejection> {
    if q.next !in Allowed(m.state) then Err(InvalidTransition)
    else if !GuardsPass(q.guards) then Err(GuardsFailed)
    else if m.transitions != [] && q.timestamp < Last(m.transitions).timestamp then Err(NonDeterministicTimestamp)
    else
      var n := m.sequenceNumber + 1;
      Ok(Record(n, m.state, q.next, q.timestamp, q.trigger, q.guards, q.snapshotReference,
                TransitionDigest(n, m.state, q.next, q.timestamp, q.trigger, q.snapshotReference)))
  }

  /** A rejected request leaves the machine as it was. */
  function Next(m: Machine, q: Request): Machine {
    match Answer(m, q)
    case Err(_) => m
    case Ok(record) => Machine(q.next, record.sequenceNumber, m.transitions + [record])
  }

  function Run(requests: seq<Request>): Machine {
    if requests == [] then INITIAL else Next(Run(Front(requests)), Last(requests))
  }

  class StrategyStateMachine {
    var state: LifecycleState
    var sequenceNumber: nat
    var transitions: seq<Record>

    ghost function Abstract(): Machine
      reads this
    {
      Machine(state, sequenceNumber, transitions)
    }

    constructor ()
      ensures Abstract() == INITIAL
    {
      state, sequenceNumber, transitions := Configured, 0, [];
    }

    method Transition(q: Request) returns (r: Result<Record, Rejection>)
      modifies this
      ensures r == Answer(old(Abstract()), q)
      ensures Abstract() == Next(old(Abstract()), q)
      ensures r.Err? ==> unchanged(this)
    {
      if q.next !in Allowed(state) {
        return Err(InvalidTransition);
      }
      if !GuardsPass(q.guards) {
        return Err(GuardsFailed);
      }
      if transitions != [] && q.timestamp < Last(transitions).timestamp {
        return Err(NonDeterministicTimestamp);
      }
      sequenceNumber := sequenceNumber + 1;
      var checksum := TransitionDigest(
        sequenceNumber, state, q.next, q.timestamp, q.trigger, q.snapshotReference);
      var record := Record(
        sequenceNumber, state, q.next, q.timestamp, q.trigger, q.guards, q.snapshotReference, checksum);
      state := q.next;
      transitions := transitions + [record];
      return Ok(record);
    }
  }

  // ----- What is accepted -----

  /** The states from which each state can be entered. */
  predicate MayEnter(next: LifecycleState, from: LifecycleState) {
    match next
    case Configured => false
    case WaitingForEntry => from == Configured
    case EntrySignaled => from == WaitingForEntry
    case EntryPending => from == EntrySignaled
    case PartiallyOpen => from == EntryPending || from == RollPending
    case Open => from == EntryPending || from == PartiallyOpen || from == ManagementPending || from == RollPending
    case ManagementPending => from == Open
    case ExitSignaled => from == Open || from == ManagementPending
    case ExitPending => from == ExitSignaled
    case PartiallyClosed => from == ExitPending
    case RollSignaled => from == Open || from == ManagementPending
    case RollPending => from == RollSignaled
    case Expired => from == Open
    case PendingExerciseOrAssignment => from == Expired
    case Closed => from == ExitPending || from == PartiallyClosed || from == Expired || from == PendingExerciseOrAssignment
    case Cancelled =>
      from == Configured || from == WaitingForEntry || from == EntrySignaled || from == EntryPending
      || from == PartiallyOpen
    case Failed => from != Expired && from != Closed && from != Cancelled && from != Failed
  }

  /** A request is accepted exactly when its state can be entered from the machine's, all its guards passed and it is not
      earlier than the last transition. It is then recorded, under the next number, with everything it states. */
  lemma AcceptedIff(m: Machine, q: Request)
    ensures var before := if m.transitions == [] then q.timestamp else Last(m.transitions).timestamp;
      if MayEnter(q.next, m.state) && (forall g :: g in q.guards ==> g.passed) && before <= q.timestamp
      then
        var n := m.sequenceNumber + 1;
        Next(m, q) == Machine(q.next, n, m.transitions + [
          Record(n, m.state, q.next, q.timestamp, q.trigger, q.guards, q.snapshotReference,
                 TransitionDigest(n, m.state, q.next, q.timestamp, q.trigger, q.snapshotReference))])
      else Next(m, q) == m
  {
  }

  // ----- Every recorded run is a connected chain -----

  /** Where the machine was before record `i`. */
  function StateBefore(t: seq<Record>, i: nat): LifecycleState
    requires i <= |t|
  {
    if i == 0 then Configured else t[i - 1].next
  }

  ghost predicate Connected(t: seq<Record>, i: nat)
    requires i < |t|
  {
    && t[i].sequenceNumber == i + 1
    && t[i].prior == StateBefore(t, i)
    && t[i].next in Allowed(t[i].prior)
    && GuardsPass(t[i].guards)
    && (i > 0 ==> t[i - 1].timestamp <= t[i].timestamp)
  }

  ghost predicate Chain(m: Machine) {
    && m.sequenceNumber == |m.transitions|
    && m.state == StateBefore(m.transitions, |m.transitions|)
    && forall i :: 0 <= i < |m.transitions| ==> Connected(m.transitions, i)
  }

  lemma StepKeepsChain(m: Machine, q: Request)
    requires Chain(m)
    ensures Chain(Next(m, q))
  {
    if Answer(m, q).Ok? {
      var t, t' := m.transitions, Next(m, q).transitions;
      forall i | 0 <= i < |t'| ensures Connected(t', i) {
        if i < |t| {
          assert Connected(t, i);
        }
      }
    }
  }

  lemma {:induction false} TimestampsAscend(m: Machine, i: nat, j: nat)
    requires Chain(m) && i <= j < |m.transitions|
    ensures m.transitions[i].timestamp <= m.transitions[j].timestamp
  {
    if i < j {
      TimestampsAscend(m, i, j - 1);
      assert Connected(m.transitions, j);
    }
  }

  lemma {:induction false} EveryRunIsAChain(requests: seq<Request>)
    ensures Chain(Run(requests))
  {
    if requests != [] {
      EveryRunIsAChain(Front(requests));
      StepKeepsChain(Run(Front(requests)), Last(requests));
    }
  }

  // ----- How long a run can be -----

  function Entries(t: seq<Record>): nat {
    if t == [] then 0 else Entries(Front(t)) + if Last(t).next == Open then 1 else 0
  }

  /** The most transitions that can have been made since the last entry into OPEN, or since the start. */
  function Depth(s: LifecycleState): nat {
    match s
    case Configured => 0
    case WaitingForEntry => 1
    case EntrySignaled => 2
    case EntryPending => 3
    case PartiallyOpen => 4
    case Open => 0
    case ManagementPending => 1
    case ExitSignaled => 2
    case ExitPending => 3
    case PartiallyClosed => 4
    case RollSignaled => 2
    case RollPending => 3
    case Expired => 1
    case PendingExerciseOrAssignment => 2
    case Closed => 5
    case Cancelled => 5
    case Failed => 5
  }

  lemma DepthGrows(s: LifecycleState, next: LifecycleState)
    requires next in Allowed(s)
    ensures Depth(s) + 1 <= if next == Open then 5 else Depth(next)
  {
  }

  lemma {:induction false} LengthByDepth(requests: seq<Request>)
    ensures |Run(requests).transitions| <= 5 * Entries(Run(requests).transitions) + Depth(Run(requests).state)
  {
    if requests != [] {
      LengthByDepth(Front(requests));
      StepDepth(Run(Front(requests)), Last(requests));
    }
  }

  lemma StepDepth(m: Machine, q: Request)
    requires |m.transitions| <= 5 * Entries(m.transitions) + Depth(m.state)
    ensures |Next(m, q).transitions| <= 5 * Entries(Next(m, q).transitions) + Depth(Next(m, q).state)
  {
    if Answer(m, q).Ok? {
      DepthGrows(m.state, q.next);
      assert Front(Next(m, q).transitions) == m.transitions;
    }
  }

  /** No run is longer than five transitions per entry into OPEN, plus five. */
  lemma RunsAreBounded(requests: seq<Request>)
    ensures |Run(requests).transitions| <= 5 * (Entries(Run(requests).transitions) + 1)
  {
    LengthByDepth(requests);
  }

  function Plain(s: LifecycleState): Request { Request(s, 0, "", [], "") }

  /** The run ends in state `s`, all at time zero, after `n` transitions of which `k` enter OPEN. */
  ghost predicate Reaches(requests: seq<Request>, s: LifecycleState, n: nat, k: nat) {
    var m := Run(requests);
    && m.state == s && |m.transitions| == n && Entries(m.transitions) == k
    && (m.transitions != [] ==> Last(m.transitions).timestamp == 0)
  }

  lemma OneMore(requests: seq<Request>, s: LifecycleState, n: nat, k: nat, next: LifecycleState)
    requires Reaches(requests, s, n, k) && next in Allowed(s)
    ensures Reaches(requests + [Plain(next)], next, n + 1, if next == Open then k + 1 else k)
  {
    var all := requests + [Plain(next)];
    assert Front(all) == requests;
    assert Run(all) == Next(Run(requests), Plain(next));
    assert Front(Run(all).transitions) == Run(requests).transitions;
  }

  lemma FiveMore(requests: seq<Request>, s: LifecycleState, n: nat, k: nat, path: seq<LifecycleState>)
    returns (longer: seq<Request>)
    requires Reaches(requests, s, n, k) && |path| == 5
    requires path[0] in Allowed(s) && path[1] in Allowed(path[0]) && path[2] in Allowed(path[1])
    requires path[3] in Allowed(path[2]) && path[4] in Allowed(path[3])
    requires path[0] != Open && path[1] != Open && path[2] != Open && path[3] != Open
    ensures Reaches(longer, path[4], n + 5, if path[4] == Open then k + 1 else k)
  {
    longer := requests;
    OneMore(longer, s, n, k, path[0]);
    longer := longer + [Plain(path[0])];
    OneMore(longer, path[0], n + 1, k, path[1]);
    longer := longer + [Plain(path[1])];
    OneMore(longer, path[1], n + 2, k, path[2]);
    longer := longer + [Plain(path[2])];
    OneMore(longer, path[2], n + 3, k, path[3]);
    longer := longer + [Plain(path[3])];
    OneMore(longer, path[3], n + 4, k, path[4]);
    longer := longer + [Plain(path[4])];
  }

  lemma {:induction false} LongestOpenRun(k: nat) returns (requests: seq<Request>)
    requires k >= 1
    ensures Reaches(requests, Open, 5 * k, k)
  {
    if k == 1 {
      assert Reaches([], Configured, 0, 0);
      requests := FiveMore(
        [], Configured, 0, 0, [WaitingForEntry, EntrySignaled, EntryPending, PartiallyOpen, Open]);
    } else {
      var shorter := LongestOpenRun(k - 1);
      requests := FiveMore(
        shorter, Open, 5 * (k - 1), k - 1, [ManagementPending, RollSignaled, RollPending, PartiallyOpen, Open]);
    }
  }

  /** The bound is attained for every number of entries into OPEN. */
  lemma BoundIsAttained(k: nat) returns (requests: seq<Request>)
    ensures Entries(Run(requests).transitions) == k && |Run(requests).transitions| == 5 * (k + 1)
  {
    if k == 0 {
      assert Reaches([], Configured, 0, 0);
      requests := FiveMore(
        [], Configured, 0, 0, [WaitingForEntry, EntrySignaled, EntryPending, PartiallyOpen, Cancelled]);
    } else {
      var running := LongestOpenRun(k);
      requests := FiveMore(
        running, Open, 5 * k, k, [ManagementPending, ExitSignaled, ExitPending, PartiallyClosed, Closed]);
    }
  }

  // ----- What a final state says about the run -----

  predicate OnlyBeforeOpen(s: LifecycleState) {
    s in {Configured, WaitingForEntry, EntrySignaled, EntryPending}
  }

  predicate EitherSide(s: LifecycleState) {
    s in {PartiallyOpen, Cancelled, Failed}
  }

  /** The end of `t` repeats `path`. */
  ghost predicate EndsWith(t: seq<Record>, path: seq<LifecycleState>) {
    |path| <= |t| && forall i :: 0 <= i < |path| ==> t[|t| - |path| + i].next == path[i]
  }

  ghost predicate CountsEntries(s: LifecycleState, entries: nat) {
    && (OnlyBeforeOpen(s) ==> entries == 0)
    && (!OnlyBeforeOpen(s) && !EitherSide(s) ==> entries > 0)
  }

  /** After an entry into OPEN these three states are reached only along the path of a roll. */
  ghost predicate EndsAlongRoll(s: LifecycleState, t: seq<Record>) {
    && (s.RollPending? ==> EndsWith(t, [RollPending]))
    && (s.PartiallyOpen? ==> EndsWith(t, [RollPending, PartiallyOpen]))
    && (s.Cancelled? ==> EndsWith(t, [RollPending, PartiallyOpen, Cancelled]))
  }

  ghost predicate Phases(m: Machine) {
    && CountsEntries(m.state, Entries(m.transitions))
    && (Entries(m.transitions) > 0 ==> EndsAlongRoll(m.state, m.transitions))
  }

  lemma StepCounts(s: LifecycleState, next: LifecycleState, entries: nat)
    requires CountsEntries(s, entries) && next in Allowed(s)
    ensures CountsEntries(next, if next == Open then entries + 1 else entries)
  {
  }

  lemma WhereFrom(s: LifecycleState, next: LifecycleState)
    requires next in Allowed(s)
    ensures next.PartiallyOpen? ==> s.EntryPending? || s.RollPending?
    ensures next.Cancelled? ==> OnlyBeforeOpen(s) || s.PartiallyOpen?
  {
  }

  lemma StepEnds(s: LifecycleState, t: seq<Record>, r: Record)
    requires CountsEntries(s, Entries(t)) && (Entries(t) > 0 ==> EndsAlongRoll(s, t))
    requires r.next in Allowed(s)
    ensures Entries(t + [r]) > 0 ==> EndsAlongRoll(r.next, t + [r])
  {
    assert Front(t + [r]) == t;
    WhereFrom(s, r.next);
    EndsLonger(t, r);
  }

  lemma StepKeepsPhases(m: Machine, q: Request)
    requires Phases(m)
    ensures Phases(Next(m, q))
  {
    if Answer(m, q).Ok? {
      var r := Answer(m, q).value;
      assert Front(m.transitions + [r]) == m.transitions;
      StepCounts(m.state, q.next, Entries(m.transitions));
      StepEnds(m.state, m.transitions, r);
    }
  }

  lemma EndsLonger(t: seq<Record>, r: Record)
    ensures EndsWith(t + [r], [r.next])
    ensures forall s :: EndsWith(t, [s]) ==> EndsWith(t + [r], [s, r.next])
    ensures forall s, u :: EndsWith(t, [s, u]) ==> EndsWith(t + [r], [s, u, r.next])
  {
    forall s | EndsWith(t, [s]) ensures EndsWith(t + [r], [s, r.next]) {
      assert t[|t| - 1].next == [s][0];
    }
    forall s, u | EndsWith(t, [s, u]) ensures EndsWith(t + [r], [s, u, r.next]) {
      assert t[|t| - 2].next == [s, u][0] && t[|t| - 1].next == [s, u][1];
    }
  }

  lemma {:induction false} EveryRunHasPhases(requests: seq<Request>)
    ensures Phases(Run(requests))
  {
    if requests != [] {
      EveryRunHasPhases(Front(requests));
      StepKeepsPhases(Run(Front(requests)), Last(requests));
    }
  }

  lemma {:induction false} EntryIsRecorded(t: seq<Record>)
    requires Entries(t) > 0
    ensures exists i :: 0 <= i < |t| && t[i].next == Open
  {
    if Last(t).next != Open {
      EntryIsRecorded(Front(t));
      var i :| 0 <= i < |Front(t)| && Front(t)[i].next == Open;
      assert t[i].next == Open;
    }
  }

  /** Nothing is closed that was not open before. */
  lemma ClosedWasOpen(requests: seq<Request>)
    requires Run(requests).state == Closed
    ensures exists i :: 0 <= i < |Run(requests).transitions| && Run(requests).transitions[i].next == Open
  {
    EveryRunHasPhases(requests);
    EntryIsRecorded(Run(requests).transitions);
  }

  lemma {:induction false} NoEntryRecorded(t: seq<Record>, i: nat)
    requires i < |t| && t[i].next == Open
    ensures Entries(t) > 0
  {
    if i < |t| - 1 {
      NoEntryRecorded(Front(t), i);
    }
  }

  /** A position that was open can be cancelled only while a roll is partially open again. */
  lemma CancelledAfterOpenWasRolling(requests: seq<Request>, i: nat)
    requires Run(requests).state == Cancelled
    requires i < |Run(requests).transitions| && Run(requests).transitions[i].next == Open
    ensures EndsWith(Run(requests).transitions, [RollPending, PartiallyOpen, Cancelled])
  {
    EveryRunHasPhases(requests);
    NoEntryRecorded(Run(requests).transitions, i);
  }

  /** CLOSED, CANCELLED and FAILED are final, and no other state is. */
  lemma TerminalStates(m: Machine)
    ensures m.state in {Closed, Cancelled, Failed} <==> forall q :: Next(m, q) == m
  {
    if m.state !in {Closed, Cancelled, Failed} {
      var s :| s in Allowed(m.state);
      var time := if m.transitions == [] then 0 else Last(m.transitions).timestamp;
      var q := Plain(s).(timestamp := time);
      assert Next(m, q).transitions != m.transitions;
    }
  }
}
