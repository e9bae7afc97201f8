/** The deterministic event loop (`backend/backtesting/engine.py`). The strategy is opaque: what its
    hooks answer while one event is processed, or that they raise, is an input of the run. */
module Engine {
  import opened Results
  import opened Seqs
  import opened Clock
  import Drawdown

  // ----- Data -----

  datatype Position = Position(
    id: string, strategyId: string, status: string, openedAt: int, closedAt: Option<int>, legs: seq<string>,
    realizedPnl: real, unrealizedPnl: real, metadata: string)

  const CLOSED: string := "closed"

  datatype Decision = Decision(
    shouldOpen: bool, shouldClose: bool, shouldRoll: bool, reasonCode: string, metadata: string)

  /** What a call into the strategy returns, or the message of what it raises. */
  type Answer<+T> = Result<T, string>

  /** The four hooks called for one open position. */
  datatype Visit = Visit(
    marked: Answer<Position>, management: Answer<Decision>, exit: Answer<Decision>, roll: Answer<Decision>)

  /** One row of an information lookup. A policy name may be unknown. */
  datatype Item = Item(observed: Option<int>, policyIsKnown: bool)

  /** The answers of all hooks during one event; position hooks by their place in the open positions.
      Without a lookup there is no information to audit but the event itself. */
  datatype Answers = Answers(
    lookup: Option<Answer<seq<Item>>>, entry: Answer<Decision>, created: Answer<Option<Position>>,
    visits: nat -> Visit, expired: nat -> Answer<Position>)

  datatype Input = Input(event: DeterministicEvent, answers: Answers)

  datatype RecordKind =
    EventRecord | FailureRecord | PositionOpen | PositionClose | ExpirationRecord | CorporateAction

  datatype RecordPayload =
    | OfEvent(payload: Payload)
    | OfError(message: string)
    | OfEntry(metadata: string)
    | OfClose(managementReason: string, rollEligible: bool)
    | OfExpiration(legs: seq<string>)

  /** The SHA-256 of these fields, as an injective constructor. */
  datatype RowChecksum = RowDigest(eventId: EventId, kind: RecordKind, reasonCode: string, payload: RecordPayload)

  datatype LedgerRecord = LedgerRecord(
    timestamp: int, positionId: Option<string>, kind: RecordKind, reasonCode: string, sequenceNumber: nat,
    payload: RecordPayload, checksum: RowChecksum)

  datatype FailedEvent = FailedEvent(eventId: EventId, timestamp: int, eventType: string, message: string)

  datatype Snapshot = Snapshot(timestamp: int, cash: real, realizedPnl: real, unrealizedPnl: real)

  datatype RiskWarning = RiskWarning(timestamp: int, payload: Payload)

  datatype State = State(
    open: seq<Position>, closed: seq<Position>, cash: real, realizedPnl: real, unrealizedPnl: real,
    warnings: seq<RiskWarning>, failures: seq<FailedEvent>, eventLedger: seq<LedgerRecord>,
    tradeLedger: seq<LedgerRecord>, positionHistory: seq<Position>, snapshots: seq<Snapshot>)

  /** The state after some work, and the message of the exception that ended it, if one did. */
  datatype Step = Step(state: State, error: Option<string>)

  const LIFECYCLE_EVENTS: set<string> := {
    "lifecycle_evaluation", "entry_evaluation", "management_evaluation", "exit_evaluation", "roll_evaluation",
    "fill_event"}
  const VALUATION: string := "valuation"
  const OPTION_EXPIRATION: string := "option_expiration"
  const CORPORATE_ACTION: string := "corporate_action"
  const RISK_EVENT: string := "risk_event"

  const LATE: string := "record timestamp exceeds available information set"
  const UNKNOWN_POLICY: string := "unknown as-of policy"
  const NO_POSITION: string := "strategy returned should_open without creating a position"

  function Ledger(
    event: DeterministicEvent, positionId: Option<string>, kind: RecordKind, reasonCode: string,
    payload: RecordPayload): LedgerRecord
  {
    LedgerRecord(event.timestamp, positionId, kind, reasonCode, event.sequenceNumber, payload,
                 RowDigest(event.eventId, kind, reasonCode, payload))
  }

  function Initial(capital: real): State {
    State([], [], capital, 0.0, 0.0, [], [], [], [], [], [])
  }

  // ----- The information set -----

  predicate Visible(strict: bool, asOf: int, item: Item) {
    !strict || item.observed.None? || item.observed.value <= asOf
  }

  function ItemError(strict: bool, asOf: int, item: Item): Option<string> {
    if !Visible(strict, asOf, item) then Some(LATE)
    else if !item.policyIsKnown then Some(UNKNOWN_POLICY)
    else None
  }

  /** The message raised for the first item that cannot be audited. */
  function AuditError(strict: bool, asOf: int, items: seq<Item>): Option<string> {
    if items == [] then None else
    var before := AuditError(strict, asOf, Front(items));
    if before.Some? then before else ItemError(strict, asOf, Last(items))
  }

  function InformationError(strict: bool, input: Input): Option<string> {
    match input.answers.lookup
    case None => None
    case Some(Err(message)) => Some(message)
    case Some(Ok(items)) => AuditError(strict, input.event.timestamp, items)
  }

  // ----- Lifecycle events -----

  function Closing(event: DeterministicEvent, marked: Position): Position {
    Position(marked.id, marked.strategyId, CLOSED, marked.openedAt, Some(event.timestamp), marked.legs,
             marked.realizedPnl, 0.0, marked.metadata)
  }

  function CloseRecord(event: DeterministicEvent, v: Visit): LedgerRecord
    requires VisitError(v).None?
  {
    Ledger(event, Some(v.marked.value.id), PositionClose, v.exit.value.reasonCode,
           OfClose(v.management.value.reasonCode, v.roll.value.shouldRoll))
  }

  /** All four hooks are called before the decision, in this order. */
  function VisitError(v: Visit): Option<string> {
    if v.marked.Err? then Some(v.marked.error)
    else if v.management.Err? then Some(v.management.error)
    else if v.exit.Err? then Some(v.exit.error)
    else if v.roll.Err? then Some(v.roll.error)
    else None
  }

  predicate Closes(v: Visit)
    requires VisitError(v).None?
  {
    v.management.value.shouldClose || v.exit.value.shouldClose
  }

  /** The loop over the open positions: what it has written, kept and closed, and what stopped it. */
  datatype Sweep = Sweep(records: seq<LedgerRecord>, kept: seq<Position>, closed: seq<Position>, error: Option<string>)

  function SweepNext(event: DeterministicEvent, before: Sweep, v: Visit): Sweep {
    if before.error.Some? then before
    else if VisitError(v).Some? then before.(error := VisitError(v))
    else if Closes(v) then
      before.(records := before.records + [CloseRecord(event, v)],
              closed := before.closed + [Closing(event, v.marked.value)])
    else before.(kept := before.kept + [v.marked.value])
  }

  function SweepTo(event: DeterministicEvent, visits: nat -> Visit, n: nat): Sweep {
    if n == 0 then Sweep([], [], [], None)
    else SweepNext(event, SweepTo(event, visits, n - 1), visits(n - 1))
  }

  /** The lists of positions are committed only when no hook has raised; the close records are not undone. */
  function Manage(s: State, input: Input): Step {
    var sweep := SweepTo(input.event, input.answers.visits, |s.open|);
    var written := s.(tradeLedger := s.tradeLedger + sweep.records);
    if sweep.error.Some? then Step(written, sweep.error)
    else Step(written.(open := sweep.kept, closed := s.closed + sweep.closed), None)
  }

  function Enter(s: State, event: DeterministicEvent, decision: Decision, position: Position): State {
    s.(open := s.open + [position],
       tradeLedger := s.tradeLedger
         + [Ledger(event, Some(position.id), PositionOpen, decision.reasonCode, OfEntry(decision.metadata))])
  }

  /** The message raised before the loop over the open positions starts. */
  function EntryError(a: Answers): Option<string> {
    if a.entry.Err? then Some(a.entry.error)
    else if !a.entry.value.shouldOpen then None
    else if a.created.Err? then Some(a.created.error)
    else if a.created.value.None? then Some(NO_POSITION)
    else None
  }

  function Entered(s: State, input: Input): State
    requires EntryError(input.answers).None?
  {
    var a := input.answers;
    if a.entry.value.shouldOpen then Enter(s, input.event, a.entry.value, a.created.value.value) else s
  }

  function LifecycleStep(s: State, input: Input): Step {
    if EntryError(input.answers).Some? then Step(s, EntryError(input.answers))
    else Manage(Entered(s, input), input)
  }

  // ----- Expirations -----

  datatype Refresh = Refresh(records: seq<LedgerRecord>, refreshed: seq<Position>, error: Option<string>)

  function RefreshTo(event: DeterministicEvent, open: seq<Position>, expired: nat -> Answer<Position>, n: nat): Refresh
    requires n <= |open|
  {
    if n == 0 then Refresh([], [], None) else
    var before := RefreshTo(event, open, expired, n - 1);
    if before.error.Some? then before else
    match expired(n - 1)
    case Err(message) => before.(error := Some(message))
    case Ok(processed) =>
      Refresh(
        before.records + [Ledger(event, Some(open[n - 1].id), ExpirationRecord, "expiration_processing",
                                 OfExpiration(processed.legs))],
        before.refreshed + [processed], None)
  }

  function ExpirationStep(s: State, input: Input): Step {
    var refresh := RefreshTo(input.event, s.open, input.answers.expired, |s.open|);
    var written := s.(eventLedger := s.eventLedger + refresh.records);
    if refresh.error.Some? then Step(written, refresh.error)
    else Step(written.(open := refresh.refreshed), None)
  }

  // ----- One event, one run -----

  function Valued(s: State, timestamp: int): State {
    s.(snapshots := s.snapshots + [Snapshot(timestamp, s.cash, s.realizedPnl, s.unrealizedPnl)])
  }

  function Dispatch(s: State, input: Input): Step {
    var event := input.event;
    if event.eventType in LIFECYCLE_EVENTS then LifecycleStep(s, input)
    else if event.eventType == VALUATION then Step(Valued(s, event.timestamp), None)
    else if event.eventType == OPTION_EXPIRATION then ExpirationStep(s, input)
    else if event.eventType == CORPORATE_ACTION then
      Step(s.(eventLedger := s.eventLedger
                + [Ledger(event, None, CorporateAction, "applied", OfEvent(event.payload))]), None)
    else if event.eventType == RISK_EVENT then
      Step(s.(warnings := s.warnings + [RiskWarning(event.timestamp, event.payload)]), None)
    else Step(s, None)
  }

  function Announced(s: State, event: DeterministicEvent): State {
    s.(eventLedger := s.eventLedger
         + [Ledger(event, None, EventRecord, event.eventType, OfEvent(event.payload))])
  }

  function Process(strict: bool, s: State, input: Input): Step {
    if InformationError(strict, input).Some? then Step(s, InformationError(strict, input)) else
    var step := Dispatch(Announced(s, input.event), input);
    if step.error.Some? then step
    else Step(step.state.(positionHistory := step.state.positionHistory + step.state.open), None)
  }

  function FailureOf(event: DeterministicEvent, message: string): FailedEvent {
    FailedEvent(event.eventId, event.timestamp, event.eventType, message)
  }

  /** An event that raises is reported and the run goes on. */
  function After(strict: bool, s: State, input: Input): State {
    var step := Process(strict, s, input);
    match step.error
    case None => step.state
    case Some(message) =>
      step.state.(
        failures := step.state.failures + [FailureOf(input.event, message)],
        eventLedger := step.state.eventLedger
          + [Ledger(input.event, None, FailureRecord, "event_failure", OfError(message))])
  }

  function Run(strict: bool, capital: real, inputs: seq<Input>): State {
    if inputs == [] then Initial(capital)
    else After(strict, Run(strict, capital, Front(inputs)), Last(inputs))
  }

  datatype Status = Completed | Failed

  function StatusOf(s: State): Status {
    if s.failures != [] then Failed else Completed
  }

  // ----- The engine -----

  class BacktestEngineState {
    var open: seq<Position>
    var closed: seq<Position>
    var cash: real
    var realizedPnl: real
    var unrealizedPnl: real
    var warnings: seq<RiskWarning>
    var failures: seq<FailedEvent>
    var eventLedger: seq<LedgerRecord>
    var tradeLedger: seq<LedgerRecord>
    var positionHistory: seq<Position>
    var snapshots: seq<Snapshot>

    ghost function Abstract(): State
      reads this
    {
      State(open, closed, cash, realizedPnl, unrealizedPnl, warnings, failures, eventLedger, tradeLedger,
            positionHistory, snapshots)
    }

    constructor (capital: real)
      ensures Abstract() == Initial(capital)
    {
      open, closed, cash, realizedPnl, unrealizedPnl := [], [], capital, 0.0, 0.0;
      warnings, failures, eventLedger, tradeLedger, positionHistory, snapshots := [], [], [], [], [], [];
    }
  }

  class BacktestingEngine {
    /** The no-look-ahead guard's mode. */
    const strict: bool

    constructor (strict: bool)
      ensures this.strict == strict
    {
      this.strict := strict;
    }

    method AuditItems(asOf: int, items: seq<Item>) returns (error: Option<string>)
      ensures error == AuditError(strict, asOf, items)
    {
      error := None;
      var i := 0;
      while i < |items| && error.None?
        invariant i <= |items|
        invariant error == AuditError(strict, asOf, items[..i])
        decreases |items| - i
      {
        TakeNext(items, i);
        if !Visible(strict, asOf, items[i]) {
          error := Some(LATE);
        } else if !items[i].policyIsKnown {
          error := Some(UNKNOWN_POLICY);
        }
        i := i + 1;
      }
      AuditErrorStays(strict, asOf, items, i);
    }

    method AuditInformation(input: Input) returns (error: Option<string>)
      ensures error == InformationError(strict, input)
    {
      match input.answers.lookup {
        case None => error := None;
        case Some(Err(message)) => error := Some(message);
        case Some(Ok(items)) => error := AuditItems(input.event.timestamp, items);
      }
    }

    method HandleLifecycle(state: BacktestEngineState, input: Input) returns (error: Option<string>)
      modifies state
      ensures Step(state.Abstract(), error) == LifecycleStep(old(state.Abstract()), input)
    {
      var a := input.answers;
      if a.entry.Err? {
        return Some(a.entry.error);
      }
      if a.entry.value.shouldOpen {
        if a.created.Err? {
          return Some(a.created.error);
        }
        if a.created.value.None? {
          return Some(NO_POSITION);
        }
        var position := a.created.value.value;
        state.open := state.open + [position];
        state.tradeLedger := state.tradeLedger
          + [Ledger(input.event, Some(position.id), PositionOpen, a.entry.value.reasonCode,
                    OfEntry(a.entry.value.metadata))];
      }
      error := ManagePositions(state, input);
    }

    method ManagePositions(state: BacktestEngineState, input: Input) returns (error: Option<string>)
      modifies state
      ensures Step(state.Abstract(), error) == Manage(old(state.Abstract()), input)
    {
      var visits := input.answers.visits;
      ghost var s := state.Abstract();
      var updated, newlyClosed := [], [];
      error := None;
      var i := 0;
      while i < |state.open| && error.None?
        invariant i <= |s.open|
        invariant state.Abstract() == s.(tradeLedger := s.tradeLedger + SweepTo(input.event, visits, i).records)
        invariant SweepTo(input.event, visits, i)
          == Sweep(SweepTo(input.event, visits, i).records, updated, newlyClosed, error)
        decreases |s.open| - i
      {
        var v := visits(i);
        error := VisitError(v);
        if error.None? {
          if Closes(v) {
            newlyClosed := newlyClosed + [Closing(input.event, v.marked.value)];
            ghost var records := SweepTo(input.event, visits, i).records;
            assert (s.tradeLedger + records) + [CloseRecord(input.event, v)]
              == s.tradeLedger + (records + [CloseRecord(input.event, v)]);
            state.tradeLedger := state.tradeLedger + [CloseRecord(input.event, v)];
          } else {
            updated := updated + [v.marked.value];
          }
        }
        i := i + 1;
      }
      SweepErrorStays(input.event, visits, i, |s.open|);
      if error.None? {
        state.open := updated;
        if newlyClosed != [] {
          state.closed := state.closed + newlyClosed;
        }
      }
      assert s.closed + [] == s.closed;
    }

    method HandleExpiration(state: BacktestEngineState, input: Input) returns (error: Option<string>)
      modifies state
      ensures Step(state.Abstract(), error) == ExpirationStep(old(state.Abstract()), input)
    {
      var expired := input.answers.expired;
      ghost var s := state.Abstract();
      var refreshed := [];
      error := None;
      var i := 0;
      while i < |state.open| && error.None?
        invariant i <= |s.open|
        invariant state.Abstract()
          == s.(eventLedger := s.eventLedger + RefreshTo(input.event, s.open, expired, i).records)
        invariant RefreshTo(input.event, s.open, expired, i)
          == Refresh(RefreshTo(input.event, s.open, expired, i).records, refreshed, error)
        decreases |s.open| - i
      {
        match expired(i)
        case Err(message) =>
          error := Some(message);
          i := i + 1;
        case Ok(processed) =>
          var record := Ledger(input.event, Some(state.open[i].id), ExpirationRecord, "expiration_processing",
                               OfExpiration(processed.legs));
          ghost var records := RefreshTo(input.event, s.open, expired, i).records;
          assert (s.eventLedger + records) + [record] == s.eventLedger + (records + [record]);
          refreshed := refreshed + [processed];
          state.eventLedger := state.eventLedger + [record];
          i := i + 1;
      }
      RefreshErrorStays(input.event, s.open, expired, i, |s.open|);
      if error.None? {
        state.open := refreshed;
      }
    }

    method ProcessEvent(state: BacktestEngineState, input: Input) returns (error: Option<string>)
      modifies state
      ensures Step(state.Abstract(), error) == Process(strict, old(state.Abstract()), input)
    {
      var event := input.event;
      error := AuditInformation(input);
      if error.Some? {
        return;
      }
      var snapshot := Snapshot(event.timestamp, state.cash, state.realizedPnl, state.unrealizedPnl);
      state.eventLedger := state.eventLedger
        + [Ledger(event, None, EventRecord, event.eventType, OfEvent(event.payload))];
      if event.eventType in LIFECYCLE_EVENTS {
        error := HandleLifecycle(state, input);
      } else if event.eventType == VALUATION {
        state.snapshots := state.snapshots + [snapshot];
      } else if event.eventType == OPTION_EXPIRATION {
        error := HandleExpiration(state, input);
      } else if event.eventType == CORPORATE_ACTION {
        state.eventLedger := state.eventLedger
          + [Ledger(event, None, CorporateAction, "applied", OfEvent(event.payload))];
      } else if event.eventType == RISK_EVENT {
        state.warnings := state.warnings + [RiskWarning(event.timestamp, event.payload)];
      }
      if error.None? {
        state.positionHistory := state.positionHistory + state.open;
      }
    }

    method RunEvents(capital: real, inputs: seq<Input>) returns (state: BacktestEngineState)
      ensures fresh(state)
      ensures state.Abstract() == Run(strict, capital, inputs)
    {
      state := new BacktestEngineState(capital);
      for i := 0 to |inputs|
        invariant fresh(state)
        invariant state.Abstract() == Run(strict, capital, inputs[..i])
      {
        TakeNext(inputs, i);
        var event := inputs[i].event;
        var error := ProcessEvent(state, inputs[i]);
        if error.Some? {
          state.failures := state.failures + [FailureOf(event, error.value)];
          state.eventLedger := state.eventLedger
            + [Ledger(event, None, FailureRecord, "event_failure", OfError(error.value))];
        }
      }
      assert inputs[..|inputs|] == inputs;
    }
  }

  lemma {:induction false} AuditErrorStays(strict: bool, asOf: int, items: seq<Item>, i: nat)
    requires i <= |items|
    requires i == |items| || AuditError(strict, asOf, items[..i]).Some?
    ensures AuditError(strict, asOf, items) == AuditError(strict, asOf, items[..i])
  {
    if i == |items| {
      assert items[..i] == items;
    } else {
      assert Front(items)[..i] == items[..i];
      AuditErrorStays(strict, asOf, Front(items), i);
    }
  }

  lemma {:induction false} SweepErrorStays(event: DeterministicEvent, visits: nat -> Visit, i: nat, n: nat)
    requires i <= n
    requires i == n || SweepTo(event, visits, i).error.Some?
    ensures SweepTo(event, visits, n) == SweepTo(event, visits, i)
  {
    if i < n {
      SweepErrorStays(event, visits, i, n - 1);
    }
  }

  lemma {:induction false} RefreshErrorStays(
    event: DeterministicEvent, open: seq<Position>, expired: nat -> Answer<Position>, i: nat, n: nat)
    requires i <= n <= |open|
    requires i == n || RefreshTo(event, open, expired, i).error.Some?
    ensures RefreshTo(event, open, expired, n) == RefreshTo(event, open, expired, i)
  {
    if i < n {
      RefreshErrorStays(event, open, expired, i, n - 1);
    }
  }
}
