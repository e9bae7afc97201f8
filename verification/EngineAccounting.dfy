/** What every run of the event loop keeps, whatever the strategy answers or raises
    (`backend/backtesting/engine.py`). */
module EngineAccounting {
  import opened Results
  import opened Seqs
  import opened Clock
  import opened Engine
  import Drawdown

  function OfKind(kind: RecordKind, ledger: seq<LedgerRecord>): seq<LedgerRecord> {
    Filter((r: LedgerRecord) => r.kind == kind, ledger)
  }

  lemma OfKindAppend(kind: RecordKind, a: seq<LedgerRecord>, b: seq<LedgerRecord>)
    ensures OfKind(kind, a + b) == OfKind(kind, a) + OfKind(kind, b)
  {
    FilterAppend((r: LedgerRecord) => r.kind == kind, a, b);
  }

  lemma OfKindSnoc(kind: RecordKind, s: seq<LedgerRecord>, r: LedgerRecord)
    ensures OfKind(kind, s + [r]) == OfKind(kind, s) + if r.kind == kind then [r] else []
  {
    FilterSnoc((x: LedgerRecord) => x.kind == kind, s, r);
  }

  function Ids(positions: seq<Position>): seq<string> {
    Map((p: Position) => p.id, positions)
  }

  function RecordIds(ledger: seq<LedgerRecord>): seq<string> {
    Map((r: LedgerRecord) => r.positionId.GetOr(""), ledger)
  }

  /** Event `k` of the run raises. */
  ghost predicate Raises(strict: bool, capital: real, inputs: seq<Input>, k: int) {
    0 <= k < |inputs| && Process(strict, Run(strict, capital, inputs[..k]), inputs[k]).error.Some?
  }

  // ----- One event -----

  /** The positions an event opens and the close records it writes, whether or not it raises later. */
  datatype Delta = Delta(added: seq<Position>, closes: seq<LedgerRecord>)

  function DeltaOf(strict: bool, s: State, input: Input): Delta {
    var a := input.answers;
    if InformationError(strict, input).Some? || input.event.eventType !in LIFECYCLE_EVENTS || EntryError(a).Some?
    then Delta([], [])
    else Delta(if a.entry.value.shouldOpen then [a.created.value.value] else [],
               SweepTo(input.event, a.visits, |Entered(s, input).open|).records)
  }

  ghost predicate SweepAccounted(sweep: Sweep) {
    && OfKind(PositionOpen, sweep.records) == []
    && OfKind(PositionClose, sweep.records) == sweep.records
    && RecordIds(sweep.records) == Ids(sweep.closed)
  }

  lemma SweepNextAccounts(event: DeterministicEvent, before: Sweep, v: Visit)
    requires SweepAccounted(before)
    ensures SweepAccounted(SweepNext(event, before, v))
  {
    if before.error.None? && VisitError(v).None? && Closes(v) {
      var record, position := CloseRecord(event, v), Closing(event, v.marked.value);
      OfKindSnoc(PositionOpen, before.records, record);
      OfKindSnoc(PositionClose, before.records, record);
      assert RecordIds(before.records + [record]) == RecordIds(before.records) + [position.id];
      assert Ids(before.closed + [position]) == Ids(before.closed) + [position.id];
    }
  }

  lemma {:induction false} SweepAccounts(event: DeterministicEvent, visits: nat -> Visit, n: nat)
    ensures SweepAccounted(SweepTo(event, visits, n))
  {
    if n > 0 {
      SweepAccounts(event, visits, n - 1);
      SweepNextAccounts(event, SweepTo(event, visits, n - 1), visits(n - 1));
    }
  }

  /** A loop that is not stopped keeps or closes every position. */
  lemma {:induction false} SweepCounts(event: DeterministicEvent, visits: nat -> Visit, n: nat)
    ensures var sweep := SweepTo(event, visits, n);
            sweep.error.None? ==> |sweep.kept| + |sweep.closed| == n
  {
    if n > 0 {
      SweepCounts(event, visits, n - 1);
    }
  }

  lemma {:induction false} RefreshAccounts(
    event: DeterministicEvent, open: seq<Position>, expired: nat -> Answer<Position>, n: nat)
    requires n <= |open|
    ensures var refresh := RefreshTo(event, open, expired, n);
            && OfKind(EventRecord, refresh.records) == [] == OfKind(FailureRecord, refresh.records)
            && (refresh.error.None? ==> |refresh.refreshed| == n)
  {
    if n > 0 {
      RefreshAccounts(event, open, expired, n - 1);
      var before := RefreshTo(event, open, expired, n - 1);
      if before.error.None? && expired(n - 1).Ok? {
        var records := RefreshTo(event, open, expired, n).records;
        OfKindSnoc(EventRecord, before.records, Last(records));
        OfKindSnoc(FailureRecord, before.records, Last(records));
      }
    }
  }

  lemma ManageAccounts(s: State, input: Input)
    ensures var t, sweep := Manage(s, input).state, SweepTo(input.event, input.answers.visits, |s.open|);
            && OfKind(PositionOpen, t.tradeLedger) == OfKind(PositionOpen, s.tradeLedger)
            && OfKind(PositionClose, t.tradeLedger) == OfKind(PositionClose, s.tradeLedger) + sweep.records
            && RecordIds(sweep.records) == Ids(sweep.closed)
            && (sweep.error.None? ==>
                  |t.open| + |t.closed| == |s.open| + |s.closed| && t.closed == s.closed + sweep.closed)
  {
    SweepAccounts(input.event, input.answers.visits, |s.open|);
    SweepCounts(input.event, input.answers.visits, |s.open|);
    var sweep := SweepTo(input.event, input.answers.visits, |s.open|);
    OfKindAppend(PositionOpen, s.tradeLedger, sweep.records);
    OfKindAppend(PositionClose, s.tradeLedger, sweep.records);
    assert OfKind(PositionOpen, s.tradeLedger) + [] == OfKind(PositionOpen, s.tradeLedger);
  }

  lemma EnterAccounts(s: State, event: DeterministicEvent, decision: Decision, p: Position)
    ensures var t := Enter(s, event, decision, p);
            && RecordIds(OfKind(PositionOpen, t.tradeLedger)) == RecordIds(OfKind(PositionOpen, s.tradeLedger)) + [p.id]
            && OfKind(PositionClose, t.tradeLedger) == OfKind(PositionClose, s.tradeLedger)
  {
    var t := Enter(s, event, decision, p);
    OfKindSnoc(PositionOpen, s.tradeLedger, Last(t.tradeLedger));
    OfKindSnoc(PositionClose, s.tradeLedger, Last(t.tradeLedger));
  }

  /** An event's whole effect on positions and trade ledger. When it raises, the position lists keep
      everything but a position it added before, and the close records it wrote stay. */
  lemma EventAccounts(strict: bool, s: State, input: Input)
    ensures var step, delta := Process(strict, s, input), DeltaOf(strict, s, input);
            var t := step.state;
            && RecordIds(OfKind(PositionOpen, t.tradeLedger))
               == RecordIds(OfKind(PositionOpen, s.tradeLedger)) + Ids(delta.added)
            && OfKind(PositionClose, t.tradeLedger) == OfKind(PositionClose, s.tradeLedger) + delta.closes
            && (step.error.Some? ==> t.open == s.open + delta.added && t.closed == s.closed)
            && (step.error.None? ==>
                  && |t.open| + |t.closed| == |s.open| + |s.closed| + |delta.added|
                  && s.closed <= t.closed
                  && Ids(t.closed) == Ids(s.closed) + RecordIds(delta.closes))
  {
    var step, delta := Process(strict, s, input), DeltaOf(strict, s, input);
    var opens := RecordIds(OfKind(PositionOpen, s.tradeLedger));
    assert opens + [] == opens;
    assert OfKind(PositionClose, s.tradeLedger) + [] == OfKind(PositionClose, s.tradeLedger);
    assert s.open + [] == s.open && Ids(s.closed) + [] == Ids(s.closed);
    if InformationError(strict, input).None? {
      var announced := Announced(s, input.event);
      if input.event.eventType in LIFECYCLE_EVENTS {
        if EntryError(input.answers).None? {
          LifecycleAccounts(announced, input);
          assert Entered(announced, input).open == Entered(s, input).open;
        }
      } else if input.event.eventType == OPTION_EXPIRATION {
        RefreshAccounts(input.event, s.open, input.answers.expired, |s.open|);
      }
    }
  }

  lemma EnteredAccounts(s: State, input: Input)
    requires EntryError(input.answers).None?
    ensures var t := Entered(s, input);
            var added := if input.answers.entry.value.shouldOpen then [input.answers.created.value.value] else [];
            && t.open == s.open + added && t.closed == s.closed
            && RecordIds(OfKind(PositionOpen, t.tradeLedger))
               == RecordIds(OfKind(PositionOpen, s.tradeLedger)) + Ids(added)
            && OfKind(PositionClose, t.tradeLedger) == OfKind(PositionClose, s.tradeLedger)
  {
    var a := input.answers;
    if a.entry.value.shouldOpen {
      EnterAccounts(s, input.event, a.entry.value, a.created.value.value);
    } else {
      assert s.open + [] == s.open;
      assert RecordIds(OfKind(PositionOpen, s.tradeLedger)) + [] == RecordIds(OfKind(PositionOpen, s.tradeLedger));
    }
  }

  lemma LifecycleAccounts(s: State, input: Input)
    requires EntryError(input.answers).None?
    ensures var step, entered := LifecycleStep(s, input), Entered(s, input);
            var sweep := SweepTo(input.event, input.answers.visits, |entered.open|);
            var added := if input.answers.entry.value.shouldOpen then [input.answers.created.value.value] else [];
            var t := step.state;
            && entered.open == s.open + added
            && RecordIds(OfKind(PositionOpen, t.tradeLedger))
               == RecordIds(OfKind(PositionOpen, s.tradeLedger)) + Ids(added)
            && OfKind(PositionClose, t.tradeLedger) == OfKind(PositionClose, s.tradeLedger) + sweep.records
            && step.error == sweep.error
            && (step.error.Some? ==> t.open == s.open + added && t.closed == s.closed)
            && (step.error.None? ==>
                  && |t.open| + |t.closed| == |s.open| + |s.closed| + |added|
                  && s.closed <= t.closed
                  && Ids(t.closed) == Ids(s.closed) + RecordIds(sweep.records))
  {
    EnteredAccounts(s, input);
    ManageAccounts(Entered(s, input), input);
  }

  // ----- Every run -----

  /** The close records written by events that raised afterwards. */
  ghost function OrphanCloses(strict: bool, capital: real, inputs: seq<Input>): seq<LedgerRecord> {
    if inputs == [] then [] else
    var s := Run(strict, capital, Front(inputs));
    OrphanCloses(strict, capital, Front(inputs))
      + if Process(strict, s, Last(inputs)).error.Some? then DeltaOf(strict, s, Last(inputs)).closes else []
  }

  /** Position accounting, in every reachable state and for every strategy: each recorded opening is an open
      or a closed position, and each recorded closing a closed position or the leftover of a failed event. */
  lemma {:induction false} PositionsAreAccounted(strict: bool, capital: real, inputs: seq<Input>)
    ensures var s := Run(strict, capital, inputs);
            && |OfKind(PositionOpen, s.tradeLedger)| == |s.open| + |s.closed|
            && |OfKind(PositionClose, s.tradeLedger)| == |s.closed| + |OrphanCloses(strict, capital, inputs)|
  {
    if inputs != [] {
      PositionsAreAccounted(strict, capital, Front(inputs));
      EventAccounts(strict, Run(strict, capital, Front(inputs)), Last(inputs));
    }
  }

  /** Event `k` raises after it has written a close record. */
  ghost predicate RaisesAfterClosing(strict: bool, capital: real, inputs: seq<Input>, k: int) {
    && Raises(strict, capital, inputs, k)
    && DeltaOf(strict, Run(strict, capital, inputs[..k]), inputs[k]).closes != []
  }

  /** Closings and closed positions agree in number exactly when no event raised after closing something. */
  lemma ClosesAgreeIff(strict: bool, capital: real, inputs: seq<Input>)
    ensures var s := Run(strict, capital, inputs);
            |OfKind(PositionClose, s.tradeLedger)| == |s.closed| <==>
            !exists k :: RaisesAfterClosing(strict, capital, inputs, k)
  {
    PositionsAreAccounted(strict, capital, inputs);
    NoOrphansIff(strict, capital, inputs);
  }

  lemma RaisedEarlier(strict: bool, capital: real, inputs: seq<Input>, k: int)
    requires inputs != [] && k != |inputs| - 1
    ensures RaisesAfterClosing(strict, capital, inputs, k) <==> RaisesAfterClosing(strict, capital, Front(inputs), k)
  {
    if 0 <= k < |inputs| {
      assert Front(inputs)[..k] == inputs[..k];
    }
  }

  lemma OrphansOfLast(strict: bool, capital: real, inputs: seq<Input>)
    requires inputs != []
    ensures OrphanCloses(strict, capital, inputs) == [] <==>
            OrphanCloses(strict, capital, Front(inputs)) == []
            && !RaisesAfterClosing(strict, capital, inputs, |inputs| - 1)
  {
  }

  lemma {:induction false} NoOrphansIff(strict: bool, capital: real, inputs: seq<Input>)
    ensures OrphanCloses(strict, capital, inputs) == [] <==>
            !exists k :: RaisesAfterClosing(strict, capital, inputs, k)
  {
    if inputs != [] {
      NoOrphansIff(strict, capital, Front(inputs));
      OrphansOfLast(strict, capital, inputs);
      forall k | k != |inputs| - 1
        ensures RaisesAfterClosing(strict, capital, inputs, k) <==> RaisesAfterClosing(strict, capital, Front(inputs), k)
      {
        RaisedEarlier(strict, capital, inputs, k);
      }
      if exists k :: RaisesAfterClosing(strict, capital, Front(inputs), k) {
        var k :| RaisesAfterClosing(strict, capital, Front(inputs), k);
        assert RaisesAfterClosing(strict, capital, inputs, k);
      }
    }
  }

  lemma RaisesEarlier(strict: bool, capital: real, inputs: seq<Input>, k: int)
    requires inputs != [] && k != |inputs| - 1
    ensures Raises(strict, capital, inputs, k) <==> Raises(strict, capital, Front(inputs), k)
  {
    if 0 <= k < |inputs| {
      assert Front(inputs)[..k] == inputs[..k];
    }
  }

  lemma StatusOfLast(strict: bool, capital: real, inputs: seq<Input>)
    requires inputs != []
    ensures StatusOf(Run(strict, capital, inputs)) == Failed <==>
            StatusOf(Run(strict, capital, Front(inputs))) == Failed || Raises(strict, capital, inputs, |inputs| - 1)
  {
    ProcessKeepsFailures(strict, Run(strict, capital, Front(inputs)), Last(inputs));
  }

  /** The run is reported as failed exactly when some event raised. */
  lemma {:induction false} FailedIffSomeEventRaised(strict: bool, capital: real, inputs: seq<Input>)
    ensures StatusOf(Run(strict, capital, inputs)) == Failed <==> exists k :: Raises(strict, capital, inputs, k)
  {
    if inputs != [] {
      FailedIffSomeEventRaised(strict, capital, Front(inputs));
      StatusOfLast(strict, capital, inputs);
      forall k | k != |inputs| - 1
        ensures Raises(strict, capital, inputs, k) <==> Raises(strict, capital, Front(inputs), k)
      {
        RaisesEarlier(strict, capital, inputs, k);
      }
      if exists k :: Raises(strict, capital, Front(inputs), k) {
        var k :| Raises(strict, capital, Front(inputs), k);
        assert Raises(strict, capital, inputs, k);
      }
    }
  }

  lemma ProcessKeepsFailures(strict: bool, s: State, input: Input)
    ensures Process(strict, s, input).state.failures == s.failures
  {
  }

  lemma IdsOfMore(closes: seq<LedgerRecord>, more: seq<LedgerRecord>)
    ensures RecordIds(closes + more) == RecordIds(closes) + RecordIds(more)
  {
  }

  /** In every run the close records name exactly the closed positions and what failed events left behind, each as
      often as it occurs. */
  lemma {:induction false} ClosesNameClosedOrOrphaned(strict: bool, capital: real, inputs: seq<Input>)
    ensures var s := Run(strict, capital, inputs);
            multiset(RecordIds(OfKind(PositionClose, s.tradeLedger)))
            == multiset(Ids(s.closed)) + multiset(RecordIds(OrphanCloses(strict, capital, inputs)))
  {
    if inputs != [] {
      var s := Run(strict, capital, Front(inputs));
      ClosesNameClosedOrOrphaned(strict, capital, Front(inputs));
      EventAccounts(strict, s, Last(inputs));
      var closes := DeltaOf(strict, s, Last(inputs)).closes;
      IdsOfMore(OfKind(PositionClose, s.tradeLedger), closes);
      IdsOfMore(OrphanCloses(strict, capital, Front(inputs)), closes);
      assert OrphanCloses(strict, capital, Front(inputs)) + [] == OrphanCloses(strict, capital, Front(inputs));
    }
  }

  /** If failed events left none behind, the close records name the closed positions in order. */
  lemma {:induction false} ClosesNameClosedPositions(strict: bool, capital: real, inputs: seq<Input>)
    requires OrphanCloses(strict, capital, inputs) == []
    ensures var s := Run(strict, capital, inputs);
            RecordIds(OfKind(PositionClose, s.tradeLedger)) == Ids(s.closed)
  {
    if inputs != [] {
      var s := Run(strict, capital, Front(inputs));
      ClosesNameClosedPositions(strict, capital, Front(inputs));
      EventAccounts(strict, s, Last(inputs));
      IdsOfMore(OfKind(PositionClose, s.tradeLedger), DeltaOf(strict, s, Last(inputs)).closes);
    }
  }

  /** Once closed, a position stays closed. */
  lemma {:induction false} ClosedOnlyGrows(strict: bool, capital: real, inputs: seq<Input>, k: nat)
    requires k <= |inputs|
    ensures Run(strict, capital, inputs[..k]).closed <= Run(strict, capital, inputs).closed
  {
    if k == |inputs| {
      assert inputs[..k] == inputs;
    } else {
      assert Front(inputs)[..k] == inputs[..k];
      ClosedOnlyGrows(strict, capital, Front(inputs), k);
      EventAccounts(strict, Run(strict, capital, Front(inputs)), Last(inputs));
    }
  }

  // ----- Identities -----

  /** The strategy answers with the positions it was asked about. */
  ghost predicate KeepsIds(s: State, input: Input) {
    && (EntryError(input.answers).None? ==>
          var open := Entered(s, input).open;
          forall i :: 0 <= i < |open| && input.answers.visits(i).marked.Ok? ==>
                        input.answers.visits(i).marked.value.id == open[i].id)
    && (forall i :: 0 <= i < |s.open| && input.answers.expired(i).Ok? ==>
                      input.answers.expired(i).value.id == s.open[i].id)
  }

  lemma {:induction false} SweepKeepsIds(event: DeterministicEvent, visits: nat -> Visit, open: seq<Position>, n: nat)
    requires n <= |open|
    requires forall i :: 0 <= i < |open| && visits(i).marked.Ok? ==> visits(i).marked.value.id == open[i].id
    requires SweepTo(event, visits, n).error.None?
    ensures var sweep := SweepTo(event, visits, n);
            multiset(Ids(sweep.kept)) + multiset(Ids(sweep.closed)) == multiset(Ids(open[..n]))
  {
    if n > 0 {
      SweepKeepsIds(event, visits, open, n - 1);
      var before, sweep := SweepTo(event, visits, n - 1), SweepTo(event, visits, n);
      TakeNext(open, n - 1);
      assert Ids(open[..n]) == Ids(open[..n - 1]) + [open[n - 1].id];
      if Closes(visits(n - 1)) {
        assert Ids(sweep.closed) == Ids(before.closed) + [open[n - 1].id];
      } else {
        assert Ids(sweep.kept) == Ids(before.kept) + [open[n - 1].id];
      }
    }
  }

  lemma {:induction false} RefreshKeepsIds(
    event: DeterministicEvent, open: seq<Position>, expired: nat -> Answer<Position>, n: nat)
    requires n <= |open|
    requires forall i :: 0 <= i < |open| && expired(i).Ok? ==> expired(i).value.id == open[i].id
    requires RefreshTo(event, open, expired, n).error.None?
    ensures Ids(RefreshTo(event, open, expired, n).refreshed) == Ids(open)[..n]
  {
    if n > 0 {
      RefreshKeepsIds(event, open, expired, n - 1);
    }
  }

  ghost predicate SameIds(s: State, t: State, added: seq<Position>) {
    multiset(Ids(t.open)) + multiset(Ids(t.closed))
      == multiset(Ids(s.open)) + multiset(Ids(s.closed)) + multiset(Ids(added))
  }

  lemma ManageKeepsIds(s: State, input: Input)
    requires forall i :: 0 <= i < |s.open| && input.answers.visits(i).marked.Ok? ==>
                           input.answers.visits(i).marked.value.id == s.open[i].id
    requires Manage(s, input).error.None?
    ensures SameIds(s, Manage(s, input).state, [])
  {
    var sweep := SweepTo(input.event, input.answers.visits, |s.open|);
    SweepKeepsIds(input.event, input.answers.visits, s.open, |s.open|);
    assert s.open[..|s.open|] == s.open;
    assert Ids(s.closed + sweep.closed) == Ids(s.closed) + Ids(sweep.closed);
  }

  lemma LifecycleKeepsIds(s: State, input: Input)
    requires KeepsIds(s, input) && EntryError(input.answers).None? && LifecycleStep(s, input).error.None?
    ensures var t := Entered(s, input);
            SameIds(t, LifecycleStep(s, input).state, [])
  {
    ManageKeepsIds(Entered(s, input), input);
  }

  /** An event keeps the identities when it commits, and when it does not. */
  lemma EventKeepsIds(strict: bool, s: State, input: Input)
    requires KeepsIds(s, input)
    ensures SameIds(s, Process(strict, s, input).state, DeltaOf(strict, s, input).added)
  {
    if Process(strict, s, input).error.Some? {
      FailedEventKeepsIds(strict, s, input);
    } else if input.event.eventType in LIFECYCLE_EVENTS {
      CommittedLifecycleKeepsIds(strict, s, input);
    } else if input.event.eventType == OPTION_EXPIRATION {
      ExpirationKeepsIds(Announced(s, input.event), input);
    }
  }

  lemma FailedEventKeepsIds(strict: bool, s: State, input: Input)
    requires Process(strict, s, input).error.Some?
    ensures SameIds(s, Process(strict, s, input).state, DeltaOf(strict, s, input).added)
  {
    var added := DeltaOf(strict, s, input).added;
    EventAccounts(strict, s, input);
    assert Ids(s.open + added) == Ids(s.open) + Ids(added);
  }

  lemma ExpirationKeepsIds(s: State, input: Input)
    requires forall i :: 0 <= i < |s.open| && input.answers.expired(i).Ok? ==>
                           input.answers.expired(i).value.id == s.open[i].id
    requires ExpirationStep(s, input).error.None?
    ensures SameIds(s, ExpirationStep(s, input).state, [])
  {
    RefreshKeepsIds(input.event, s.open, input.answers.expired, |s.open|);
    assert Ids(s.open)[..|s.open|] == Ids(s.open);
  }

  lemma CommittedLifecycleKeepsIds(strict: bool, s: State, input: Input)
    requires KeepsIds(s, input) && input.event.eventType in LIFECYCLE_EVENTS
    requires Process(strict, s, input).error.None?
    ensures SameIds(s, Process(strict, s, input).state, DeltaOf(strict, s, input).added)
  {
    var announced, added := Announced(s, input.event), DeltaOf(strict, s, input).added;
    assert Entered(announced, input).open == s.open + added && Entered(announced, input).closed == s.closed;
    assert Entered(s, input).open == s.open + added;
    LifecycleKeepsIds(announced, input);
    assert Ids(s.open + added) == Ids(s.open) + Ids(added);
  }

  /** Every answer of the run is about the position asked about. */
  ghost predicate FaithfulRun(strict: bool, capital: real, inputs: seq<Input>) {
    forall k :: 0 <= k < |inputs| ==> KeepsIds(Run(strict, capital, inputs[..k]), inputs[k])
  }

  /** Under a strategy that keeps identities, the recorded openings name exactly the open and the closed
      positions, each as often as it occurs. */
  lemma {:induction false} IdentitiesAreConserved(strict: bool, capital: real, inputs: seq<Input>)
    requires FaithfulRun(strict, capital, inputs)
    ensures var s := Run(strict, capital, inputs);
            multiset(RecordIds(OfKind(PositionOpen, s.tradeLedger))) == multiset(Ids(s.open)) + multiset(Ids(s.closed))
  {
    if inputs != [] {
      var s := Run(strict, capital, Front(inputs));
      FaithfulBefore(strict, capital, inputs);
      IdentitiesAreConserved(strict, capital, Front(inputs));
      EventKeepsIds(strict, s, Last(inputs));
      EventAccounts(strict, s, Last(inputs));
    }
  }

  lemma {:induction false} SweepNamesOpen(
    event: DeterministicEvent, visits: nat -> Visit, open: seq<Position>, n: nat, p: string)
    requires n <= |open| && p in RecordIds(SweepTo(event, visits, n).records)
    requires forall i :: 0 <= i < |open| && visits(i).marked.Ok? ==> visits(i).marked.value.id == open[i].id
    ensures p in Ids(open)
  {
    var before, sweep := SweepTo(event, visits, n - 1), SweepTo(event, visits, n);
    if p in RecordIds(before.records) {
      SweepNamesOpen(event, visits, open, n - 1, p);
    } else {
      var i :| 0 <= i < |sweep.records| && RecordIds(sweep.records)[i] == p;
      assert i == |before.records| && RecordIds(sweep.records)[i] == open[n - 1].id;
      assert Ids(open)[n - 1] == p;
    }
  }

  lemma DeltaNamesOpen(strict: bool, s: State, input: Input, p: string)
    requires KeepsIds(s, input) && p in RecordIds(DeltaOf(strict, s, input).closes)
    ensures p in Ids(s.open + DeltaOf(strict, s, input).added)
  {
    var open := Entered(s, input).open;
    SweepNamesOpen(input.event, input.answers.visits, open, |open|, p);
    assert s.open + [] == s.open;
  }

  lemma FaithfulBefore(strict: bool, capital: real, inputs: seq<Input>)
    requires inputs != [] && FaithfulRun(strict, capital, inputs)
    ensures FaithfulRun(strict, capital, Front(inputs))
    ensures KeepsIds(Run(strict, capital, Front(inputs)), Last(inputs))
  {
    var n := |inputs| - 1;
    forall k | 0 <= k < n ensures KeepsIds(Run(strict, capital, Front(inputs)[..k]), Front(inputs)[k]) {
      assert Front(inputs)[..k] == inputs[..k];
      assert KeepsIds(Run(strict, capital, inputs[..k]), inputs[k]);
    }
    assert KeepsIds(Run(strict, capital, inputs[..n]), inputs[n]);
  }

  lemma InOpenings(strict: bool, capital: real, inputs: seq<Input>, p: string)
    requires FaithfulRun(strict, capital, inputs)
    ensures p in RecordIds(OfKind(PositionOpen, Run(strict, capital, inputs).tradeLedger)) <==>
            p in Ids(Run(strict, capital, inputs).open) || p in Ids(Run(strict, capital, inputs).closed)
  {
    var s := Run(strict, capital, inputs);
    IdentitiesAreConserved(strict, capital, inputs);
    assert p in multiset(RecordIds(OfKind(PositionOpen, s.tradeLedger))) <==>
           p in multiset(Ids(s.open)) + multiset(Ids(s.closed));
  }

  /** Under a strategy that keeps identities even the close records of failed events name positions whose opening is
      recorded. */
  lemma {:induction false} OrphansNameOpenings(strict: bool, capital: real, inputs: seq<Input>, p: string)
    requires FaithfulRun(strict, capital, inputs)
    requires p in RecordIds(OrphanCloses(strict, capital, inputs))
    ensures p in RecordIds(OfKind(PositionOpen, Run(strict, capital, inputs).tradeLedger))
  {
    var s, last := Run(strict, capital, Front(inputs)), Last(inputs);
    var earlier, delta := OrphanCloses(strict, capital, Front(inputs)), DeltaOf(strict, s, last);
    FaithfulBefore(strict, capital, inputs);
    EventAccounts(strict, s, last);
    IdsOfMore(earlier, delta.closes);
    assert earlier + [] == earlier;
    if p in RecordIds(earlier) {
      OrphansNameOpenings(strict, capital, Front(inputs), p);
    } else {
      DeltaNamesOpen(strict, s, last, p);
      InOpenings(strict, capital, inputs, p);
    }
  }

  // ----- No look-ahead -----

  lemma {:induction false} AuditPassesIff(strict: bool, asOf: int, items: seq<Item>)
    ensures AuditError(strict, asOf, items).None? <==>
            forall item :: item in items ==> Visible(strict, asOf, item) && item.policyIsKnown
  {
    if items != [] {
      AuditPassesIff(strict, asOf, Front(items));
      SplitLast(items);
    }
  }

  /** Under the strict guard an event whose information set holds a later observation changes nothing: it is
      reported as failed, before it is announced and before any hook is called. */
  lemma LateInformationIsRefused(s: State, input: Input, items: seq<Item>, i: nat)
    requires input.answers.lookup == Some(Ok(items)) && i < |items|
    requires items[i].observed.Some? && items[i].observed.value > input.event.timestamp
    ensures Process(true, s, input).state == s && Process(true, s, input).error.Some?
    ensures var t := After(true, s, input);
            t == s.(failures := t.failures, eventLedger := t.eventLedger)
  {
    AuditPassesIff(true, input.event.timestamp, items);
    assert !Visible(true, input.event.timestamp, items[i]);
  }

  // ----- The event ledger -----

  lemma ProcessWritesOneEvent(strict: bool, s: State, input: Input)
    ensures var t := Process(strict, s, input).state;
            && OfKind(FailureRecord, t.eventLedger) == OfKind(FailureRecord, s.eventLedger)
            && |OfKind(EventRecord, t.eventLedger)| == |OfKind(EventRecord, s.eventLedger)|
                 + if InformationError(strict, input).None? then 1 else 0
  {
    if InformationError(strict, input).None? {
      var announced := Announced(s, input.event);
      var t := Process(strict, s, input).state;
      OfKindSnoc(EventRecord, s.eventLedger, Last(announced.eventLedger));
      OfKindSnoc(FailureRecord, s.eventLedger, Last(announced.eventLedger));
      if input.event.eventType in LIFECYCLE_EVENTS {
        assert t.eventLedger == announced.eventLedger;
      } else if input.event.eventType == OPTION_EXPIRATION {
        RefreshAccounts(input.event, s.open, input.answers.expired, |s.open|);
        var records := RefreshTo(input.event, s.open, input.answers.expired, |s.open|).records;
        OfKindAppend(EventRecord, announced.eventLedger, records);
        OfKindAppend(FailureRecord, announced.eventLedger, records);
      } else if input.event.eventType == CORPORATE_ACTION {
        OfKindSnoc(EventRecord, announced.eventLedger, Last(t.eventLedger));
        OfKindSnoc(FailureRecord, announced.eventLedger, Last(t.eventLedger));
      }
    }
  }

  /** One failure record per failed event; one event record per event whose information set was accepted. */
  lemma {:induction false} EventLedgerIsComplete(strict: bool, capital: real, inputs: seq<Input>)
    ensures var s := Run(strict, capital, inputs);
            && |OfKind(FailureRecord, s.eventLedger)| == |s.failures|
            && |OfKind(EventRecord, s.eventLedger)|
               == |Filter((input: Input) => InformationError(strict, input).None?, inputs)|
  {
    if inputs != [] {
      var s := Run(strict, capital, Front(inputs));
      var step, t := Process(strict, s, Last(inputs)), Run(strict, capital, inputs);
      EventLedgerIsComplete(strict, capital, Front(inputs));
      ProcessKeepsFailures(strict, s, Last(inputs));
      ProcessWritesOneEvent(strict, s, Last(inputs));
      if step.error.Some? {
        OfKindSnoc(FailureRecord, step.state.eventLedger, Last(t.eventLedger));
        OfKindSnoc(EventRecord, step.state.eventLedger, Last(t.eventLedger));
      }
    }
  }

  // ----- The equity curve -----

  function EquityCurve(s: State): seq<Drawdown.EquityPoint> {
    Map((p: Snapshot) => Drawdown.EquityPoint(p.timestamp, p.cash + p.realizedPnl + p.unrealizedPnl), s.snapshots)
  }

  ghost predicate Flat(capital: real, s: State) {
    && s.cash == capital && s.realizedPnl == 0.0 == s.unrealizedPnl
    && forall p :: p in s.snapshots ==> p.cash == capital && p.realizedPnl == 0.0 == p.unrealizedPnl
  }

  lemma EventKeepsFlat(strict: bool, capital: real, s: State, input: Input)
    requires Flat(capital, s)
    ensures Flat(capital, After(strict, s, input))
  {
  }

  lemma {:induction false} RunIsFlat(strict: bool, capital: real, inputs: seq<Input>)
    ensures Flat(capital, Run(strict, capital, inputs))
  {
    if inputs != [] {
      RunIsFlat(strict, capital, Front(inputs));
      EventKeepsFlat(strict, capital, Run(strict, capital, Front(inputs)), Last(inputs));
    }
  }

  /** No handler of the loop books cash or profit, so every valuation of every run shows the initial
      capital, and the reported maximum drawdown is always zero. */
  lemma EquityNeverMoves(strict: bool, capital: real, inputs: seq<Input>)
    ensures forall p :: p in EquityCurve(Run(strict, capital, inputs)) ==> p.equity == capital
    ensures Drawdown.MaximumDrawdown(EquityCurve(Run(strict, capital, inputs))) == 0.0
  {
    RunIsFlat(strict, capital, inputs);
    Drawdown.ZeroIff(EquityCurve(Run(strict, capital, inputs)));
  }

  // ----- Closing one position twice -----

  function Named(id: string): Position {
    Position(id, "", "open", 0, None, [], 0.0, 0.0, "")
  }

  function Decided(shouldOpen: bool, shouldClose: bool): Answer<Decision> {
    Ok(Decision(shouldOpen, shouldClose, false, "", ""))
  }

  function Keeping(p: Position): Visit {
    Visit(Ok(p), Decided(false, false), Decided(false, false), Decided(false, false))
  }

  function Exiting(p: Position): Visit {
    Keeping(p).(exit := Decided(false, true))
  }

  function Failing(): Visit {
    Keeping(Named("")).(marked := Err(""))
  }

  /** An entry evaluation that opens `entry`, if given; `first` and `second` answer for two positions. */
  function EntryEvent(entry: Option<Position>, first: Visit, second: Visit): Input {
    Input(
      DeterministicEvent(
        EventDigest(0, ClockEvent(0, "entry_evaluation", 0, 0, map[])), 0, "entry_evaluation", 0, 0, map[]),
      Answers(None, Decided(entry.Some?, false), Ok(entry), (i: nat) => if i == 0 then first else second,
              (i: nat) => Err("")))
  }

  /** Position "a" opens; then "b" opens, "a" is closed and marking "b" raises; then "a" is closed again. */
  function ClosedTwice(): seq<Input> {
    var a, b := Named("a"), Named("b");
    [EntryEvent(Some(a), Keeping(a), Failing()),
     EntryEvent(Some(b), Exiting(a), Failing()),
     EntryEvent(None, Exiting(a), Keeping(b))]
  }

  lemma SweepOfTwo(event: DeterministicEvent, visits: nat -> Visit)
    ensures SweepTo(event, visits, 1) == SweepNext(event, Sweep([], [], [], None), visits(0))
    ensures SweepTo(event, visits, 2) == SweepNext(event, SweepTo(event, visits, 1), visits(1))
  {
    assert SweepTo(event, visits, 0) == Sweep([], [], [], None);
  }

  lemma RunNext(strict: bool, capital: real, inputs: seq<Input>, next: Input)
    ensures Run(strict, capital, inputs + [next]) == After(strict, Run(strict, capital, inputs), next)
  {
    assert Front(inputs + [next]) == inputs;
  }

  /** The close record of a failed event is not undone: the ledger shows two closings of the one closed position. */
  lemma FailureLeavesSecondClosing(capital: real)
    ensures var s := Run(true, capital, ClosedTwice());
            && RecordIds(OfKind(PositionClose, s.tradeLedger)) == ["a", "a"]
            && Ids(s.closed) == ["a"] && Ids(s.open) == ["b"] && StatusOf(s) == Failed
  {
    var x := ClosedTwice();
    assert x == [] + [x[0]] + [x[1]] + [x[2]];
    RunNext(true, capital, [], x[0]);
    RunNext(true, capital, [] + [x[0]], x[1]);
    RunNext(true, capital, [] + [x[0]] + [x[1]], x[2]);
    FirstEvent(capital);
    SecondEvent(Run(true, capital, [] + [x[0]]));
    ThirdEvent(Run(true, capital, [] + [x[0]] + [x[1]]));
  }

  lemma FirstEvent(capital: real)
    ensures var s := After(true, Initial(capital), ClosedTwice()[0]);
            s.open == [Named("a")] && s.closed == [] && OfKind(PositionClose, s.tradeLedger) == []
  {
    var x := ClosedTwice()[0];
    SweepOfTwo(x.event, x.answers.visits);
    EventAccounts(true, Initial(capital), x);
  }

  lemma SecondEvent(s: State)
    requires s.open == [Named("a")] && s.closed == [] && OfKind(PositionClose, s.tradeLedger) == []
    ensures var t := After(true, s, ClosedTwice()[1]);
            && t.open == [Named("a"), Named("b")] && t.closed == []
            && RecordIds(OfKind(PositionClose, t.tradeLedger)) == ["a"] && t.failures != []
  {
    var x := ClosedTwice()[1];
    SweepOfTwo(x.event, x.answers.visits);
    EventAccounts(true, s, x);
  }

  lemma ThirdEvent(s: State)
    requires s.open == [Named("a"), Named("b")] && s.closed == [] && s.failures != []
    ensures var t := After(true, s, ClosedTwice()[2]);
            && Ids(t.open) == ["b"] && Ids(t.closed) == ["a"] && t.failures != []
            && RecordIds(OfKind(PositionClose, t.tradeLedger)) == RecordIds(OfKind(PositionClose, s.tradeLedger)) + ["a"]
  {
    var x := ClosedTwice()[2];
    SweepOfTwo(x.event, x.answers.visits);
    EventAccounts(true, s, x);
    ProcessKeepsFailures(true, s, x);
  }
}
