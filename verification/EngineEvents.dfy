/** The whole effect of each kind of event (`backend/backtesting/engine.py`), in terms of what the strategy answers. */
module EngineEvents {
  import opened Results
  import opened Seqs
  import opened Clock
  import opened Engine
  import opened EngineAccounting

  function Places(n: nat): seq<nat> { seq(n, i => i) }

  lemma MorePlaces(n: nat)
    ensures Places(n + 1) == Places(n) + [n]
  {
  }

  // ----- What the strategy answers about one position -----

  predicate Answered(v: Visit) {
    v.marked.Ok? && v.management.Ok? && v.exit.Ok? && v.roll.Ok?
  }

  /** The message of the first hook that raises: marking, then management, exit and roll. */
  predicate RaisesFirst(v: Visit, message: string) {
    || v.marked == Err(message)
    || (v.marked.Ok? && v.management == Err(message))
    || (v.marked.Ok? && v.management.Ok? && v.exit == Err(message))
    || (v.marked.Ok? && v.management.Ok? && v.exit.Ok? && v.roll == Err(message))
  }

  /** The management rules or the exit rules ask to close the position. */
  predicate AsksToClose(v: Visit) {
    (v.management.Ok? && v.management.value.shouldClose) || (v.exit.Ok? && v.exit.value.shouldClose)
  }

  function ToClose(visits: nat -> Visit): nat -> bool {
    (i: nat) => AsksToClose(visits(i))
  }

  function ToKeep(visits: nat -> Visit): nat -> bool {
    (i: nat) => !AsksToClose(visits(i))
  }

  const NO_ANSWER := Position("", "", "", 0, None, [], 0.0, 0.0, "")

  function MarkedPosition(v: Visit): Position {
    if v.marked.Ok? then v.marked.value else NO_ANSWER
  }

  /** The marked position, closed at the event's time and without unrealized profit. */
  function ClosedPosition(timestamp: int, v: Visit): Position {
    MarkedPosition(v).(status := "closed", closedAt := Some(timestamp), unrealizedPnl := 0.0)
  }

  function Marked(visits: nat -> Visit): nat -> Position {
    (i: nat) => MarkedPosition(visits(i))
  }

  function ClosedAt(timestamp: int, visits: nat -> Visit): nat -> Position {
    (i: nat) => ClosedPosition(timestamp, visits(i))
  }

  predicate IsRecord(
    r: LedgerRecord, event: DeterministicEvent, positionId: Option<string>, kind: RecordKind, reasonCode: string,
    payload: RecordPayload)
  {
    && r.timestamp == event.timestamp && r.sequenceNumber == event.sequenceNumber
    && r.positionId == positionId && r.kind == kind && r.reasonCode == reasonCode && r.payload == payload
    && r.checksum == RowDigest(event.eventId, kind, reasonCode, payload)
  }

  /** The close record of a visited position, for the reason that the exit rules give. */
  predicate IsCloseRecord(r: LedgerRecord, event: DeterministicEvent, v: Visit) {
    && Answered(v)
    && IsRecord(r, event, Some(v.marked.value.id), PositionClose, v.exit.value.reasonCode,
                OfClose(v.management.value.reasonCode, v.roll.value.shouldRoll))
  }

  /** The close records, one for each of the places. */
  ghost predicate CloseRecords(
    records: seq<LedgerRecord>, event: DeterministicEvent, visits: nat -> Visit, places: seq<nat>)
  {
    && |records| == |places|
    && forall k :: 0 <= k < |places| ==> IsCloseRecord(records[k], event, visits(places[k]))
  }

  // ----- The loop over the open positions -----

  ghost predicate SweepIs(sweep: Sweep, event: DeterministicEvent, visits: nat -> Visit, n: nat) {
    && sweep.kept == Map(Marked(visits), Filter(ToKeep(visits), Places(n)))
    && sweep.closed == Map(ClosedAt(event.timestamp, visits), Filter(ToClose(visits), Places(n)))
    && CloseRecords(sweep.records, event, visits, Filter(ToClose(visits), Places(n)))
  }

  lemma SweepIsNext(event: DeterministicEvent, before: Sweep, visits: nat -> Visit, n: nat)
    requires before.error.None? && Answered(visits(n)) && SweepIs(before, event, visits, n)
    ensures SweepNext(event, before, visits(n)).error.None?
    ensures SweepIs(SweepNext(event, before, visits(n)), event, visits, n + 1)
  {
    ChosenNext(ToKeep(visits), n);
    ChosenNext(ToClose(visits), n);
    if AsksToClose(visits(n)) {
      ClosedNext(event, before, visits, n);
    } else {
      MapSnoc(Marked(visits), Filter(ToKeep(visits), Places(n)), n);
    }
  }

  lemma ClosedNext(event: DeterministicEvent, before: Sweep, visits: nat -> Visit, n: nat)
    requires before.error.None? && Answered(visits(n)) && SweepIs(before, event, visits, n)
    requires AsksToClose(visits(n))
    ensures var next, places := SweepNext(event, before, visits(n)), Filter(ToClose(visits), Places(n)) + [n];
      && next.kept == before.kept && next.closed == Map(ClosedAt(event.timestamp, visits), places)
      && CloseRecords(next.records, event, visits, places)
  {
    MapSnoc(ClosedAt(event.timestamp, visits), Filter(ToClose(visits), Places(n)), n);
  }

  lemma ChosenNext(p: nat -> bool, n: nat)
    ensures Filter(p, Places(n + 1)) == if p(n) then Filter(p, Places(n)) + [n] else Filter(p, Places(n))
  {
    MorePlaces(n);
    FilterSnoc(p, Places(n), n);
  }

  lemma MapSnoc<T, U>(f: T -> U, s: seq<T>, x: T)
    ensures Map(f, s + [x]) == Map(f, s) + [f(x)]
  {
  }

  lemma {:induction false} SweepIsExact(event: DeterministicEvent, visits: nat -> Visit, n: nat)
    requires forall i: nat :: i < n ==> Answered(visits(i))
    ensures SweepTo(event, visits, n).error.None? && SweepIs(SweepTo(event, visits, n), event, visits, n)
  {
    if n > 0 {
      SweepIsExact(event, visits, n - 1);
      SweepIsNext(event, SweepTo(event, visits, n - 1), visits, n - 1);
    }
  }

  lemma SweepRaises(event: DeterministicEvent, visits: nat -> Visit, k: nat, n: nat, message: string)
    requires k < n && (forall i: nat :: i < k ==> Answered(visits(i))) && RaisesFirst(visits(k), message)
    ensures SweepTo(event, visits, n).error == Some(message)
    ensures CloseRecords(SweepTo(event, visits, n).records, event, visits, Filter(ToClose(visits), Places(k)))
    decreases n
  {
    if n == k + 1 {
      SweepIsExact(event, visits, k);
    } else {
      SweepRaises(event, visits, k, n - 1, message);
    }
  }

  // ----- The information set -----

  /** Without a lookup there is nothing to refuse; otherwise every row must have a known policy and, under the strict
      guard, no observation later than the event. */
  ghost predicate InformationAccepted(strict: bool, input: Input) {
    match input.answers.lookup
    case None => true
    case Some(Err(_)) => false
    case Some(Ok(items)) =>
      forall item :: item in items ==>
        && item.policyIsKnown
        && (strict && item.observed.Some? ==> item.observed.value <= input.event.timestamp)
  }

  lemma InformationAcceptedIff(strict: bool, input: Input)
    ensures InformationError(strict, input).None? <==> InformationAccepted(strict, input)
  {
    if input.answers.lookup.Some? && input.answers.lookup.value.Ok? {
      AuditPassesIff(strict, input.event.timestamp, input.answers.lookup.value.value);
    }
  }

  predicate IsLate(strict: bool, asOf: int, item: Item) {
    strict && item.observed.Some? && item.observed.value > asOf
  }

  lemma {:induction false} FirstBadRow(strict: bool, asOf: int, items: seq<Item>, k: nat)
    requires k < |items| && forall i :: 0 <= i < k ==> items[i].policyIsKnown && !IsLate(strict, asOf, items[i])
    requires !items[k].policyIsKnown || IsLate(strict, asOf, items[k])
    ensures AuditError(strict, asOf, items)
         == Some(if IsLate(strict, asOf, items[k]) then "record timestamp exceeds available information set"
                 else "unknown as-of policy")
  {
    if k < |items| - 1 {
      FirstBadRow(strict, asOf, Front(items), k);
    } else {
      AuditPassesIff(strict, asOf, Front(items));
    }
  }

  /** The first row that cannot be accepted decides the message: that it is late, or else that its policy is unknown. A
      lookup that raises decides it, too. */
  lemma RefusalIsReported(strict: bool, s: State, input: Input, items: seq<Item>, k: nat)
    requires input.answers.lookup == Some(Ok(items)) && k < |items|
    requires forall i :: 0 <= i < k ==> items[i].policyIsKnown && !IsLate(strict, input.event.timestamp, items[i])
    requires !items[k].policyIsKnown || IsLate(strict, input.event.timestamp, items[k])
    ensures Process(strict, s, input)
         == Step(s, Some(if IsLate(strict, input.event.timestamp, items[k])
                         then "record timestamp exceeds available information set" else "unknown as-of policy"))
  {
    FirstBadRow(strict, input.event.timestamp, items, k);
  }

  lemma FailedLookupIsReported(strict: bool, s: State, input: Input, message: string)
    requires input.answers.lookup == Some(Err(message))
    ensures Process(strict, s, input) == Step(s, Some(message))
  {
  }

  // ----- Lifecycle events -----

  predicate IsLifecycleEvent(eventType: string) {
    || eventType == "lifecycle_evaluation" || eventType == "entry_evaluation" || eventType == "management_evaluation"
    || eventType == "exit_evaluation" || eventType == "roll_evaluation" || eventType == "fill_event"
  }

  predicate Opens(a: Answers) {
    a.entry.Ok? && a.entry.value.shouldOpen && a.created.Ok? && a.created.value.Some?
  }

  /** The entry evaluation opens a position or wants none. */
  predicate EntryAnswered(a: Answers) {
    a.entry.Ok? && (a.entry.value.shouldOpen ==> Opens(a))
  }

  /** The message with which the entry evaluation fails: that of the hook that raises, or that of the engine when the
      strategy wants to open a position and gives none. */
  predicate EntryRaises(a: Answers, message: string) {
    || a.entry == Err(message)
    || (a.entry.Ok? && a.entry.value.shouldOpen && a.created == Err(message))
    || (a.entry.Ok? && a.entry.value.shouldOpen && a.created == Ok(None)
        && message == "strategy returned should_open without creating a position")
  }

  /** The positions that the loop visits: those open before, and the one just opened. */
  function Visited(s: State, a: Answers): seq<Position> {
    if Opens(a) then s.open + [a.created.value.value] else s.open
  }

  ghost predicate OpeningRecords(records: seq<LedgerRecord>, input: Input) {
    var a := input.answers;
    if Opens(a)
    then |records| == 1
         && IsRecord(records[0], input.event, Some(a.created.value.value.id), PositionOpen, a.entry.value.reasonCode,
                     OfEntry(a.entry.value.metadata))
    else records == []
  }

  function EventLine(event: DeterministicEvent): LedgerRecord {
    LedgerRecord(event.timestamp, None, EventRecord, event.eventType, event.sequenceNumber, OfEvent(event.payload),
                 RowDigest(event.eventId, EventRecord, event.eventType, OfEvent(event.payload)))
  }

  lemma EntryIs(s: State, input: Input) returns (opening: seq<LedgerRecord>)
    requires EntryAnswered(input.answers)
    ensures EntryError(input.answers).None? && OpeningRecords(opening, input)
    ensures Entered(s, input)
         == s.(open := Visited(s, input.answers), tradeLedger := s.tradeLedger + opening)
  {
    var a := input.answers;
    if Opens(a) {
      opening := [Last(Entered(s, input).tradeLedger)];
    } else {
      opening := [];
      assert s.tradeLedger + [] == s.tradeLedger;
    }
  }

  /** A lifecycle event at which no hook raises: of the positions visited, exactly those for which the management or
      the exit rules ask to close end in the closed list, each with its close record, and all others stay open as
      marked, in order. Nothing else changes but the announcement and the position history. */
  lemma LifecycleEventCommits(strict: bool, s: State, input: Input)
    returns (opening: seq<LedgerRecord>, closing: seq<LedgerRecord>)
    requires InformationAccepted(strict, input) && IsLifecycleEvent(input.event.eventType)
    requires EntryAnswered(input.answers)
    requires forall i: nat :: i < |Visited(s, input.answers)| ==> Answered(input.answers.visits(i))
    ensures var t, visits := Process(strict, s, input).state, input.answers.visits;
      var places := Places(|Visited(s, input.answers)|);
      && Process(strict, s, input).error.None?
      && t.open == Map(Marked(visits), Filter(ToKeep(visits), places))
      && t.closed == s.closed + Map(ClosedAt(input.event.timestamp, visits), Filter(ToClose(visits), places))
      && OpeningRecords(opening, input)
      && CloseRecords(closing, input.event, visits, Filter(ToClose(visits), places))
      && t == s.(open := t.open, closed := t.closed, tradeLedger := s.tradeLedger + opening + closing,
                 eventLedger := s.eventLedger + [EventLine(input.event)],
                 positionHistory := s.positionHistory + t.open)
  {
    var n := |Visited(s, input.answers)|;
    InformationAcceptedIff(strict, input);
    opening := EntryIs(Announced(s, input.event), input);
    SweepIsExact(input.event, input.answers.visits, n);
    closing := SweepTo(input.event, input.answers.visits, n).records;
  }

  lemma InMapped<T>(f: nat -> T, p: nat -> bool, n: nat, i: nat) returns (k: nat)
    requires i < n && p(i)
    ensures k < |Filter(p, Places(n))| && Filter(p, Places(n))[k] == i && Map(f, Filter(p, Places(n)))[k] == f(i)
  {
    var chosen := Filter(p, Places(n));
    assert Places(n)[i] == i;
    FilterElements(p, Places(n), i);
    k :| 0 <= k < |chosen| && chosen[k] == i;
  }

  /** So a position visited is closed, at the event's time, when the management or the exit rules ask for it. */
  lemma PositionIsClosed(strict: bool, s: State, input: Input, i: nat) returns (k: nat)
    requires InformationAccepted(strict, input) && IsLifecycleEvent(input.event.eventType)
    requires EntryAnswered(input.answers) && i < |Visited(s, input.answers)|
    requires forall j: nat :: j < |Visited(s, input.answers)| ==> Answered(input.answers.visits(j))
    requires ToClose(input.answers.visits)(i)
    ensures Answered(input.answers.visits(i))
    ensures |s.closed| <= k < |Process(strict, s, input).state.closed|
    ensures Process(strict, s, input).state.closed[k]
         == input.answers.visits(i).marked.value.(
              status := "closed", closedAt := Some(input.event.timestamp), unrealizedPnl := 0.0)
  {
    var closedAt, n := ClosedAt(input.event.timestamp, input.answers.visits), |Visited(s, input.answers)|;
    ClosedListIs(strict, s, input);
    var place := InMapped(closedAt, ToClose(input.answers.visits), n, i);
    k := |s.closed| + place;
    Behind(s.closed, Map(closedAt, Filter(ToClose(input.answers.visits), Places(n))), place);
    assert closedAt(i) == ClosedPosition(input.event.timestamp, input.answers.visits(i));
  }

  lemma ClosedListIs(strict: bool, s: State, input: Input)
    requires InformationAccepted(strict, input) && IsLifecycleEvent(input.event.eventType)
    requires EntryAnswered(input.answers)
    requires forall j: nat :: j < |Visited(s, input.answers)| ==> Answered(input.answers.visits(j))
    ensures Process(strict, s, input).state.closed
         == s.closed + Map(ClosedAt(input.event.timestamp, input.answers.visits),
                           Filter(ToClose(input.answers.visits), Places(|Visited(s, input.answers)|)))
  {
    var opening, closing := LifecycleEventCommits(strict, s, input);
  }

  lemma Behind<T>(a: seq<T>, b: seq<T>, k: nat)
    requires k < |b|
    ensures (a + b)[|a| + k] == b[k]
  {
  }

  /** And its close record is written. */
  lemma ClosingIsRecorded(strict: bool, s: State, input: Input, i: nat) returns (k: nat)
    requires InformationAccepted(strict, input) && IsLifecycleEvent(input.event.eventType)
    requires EntryAnswered(input.answers) && i < |Visited(s, input.answers)|
    requires forall j: nat :: j < |Visited(s, input.answers)| ==> Answered(input.answers.visits(j))
    requires ToClose(input.answers.visits)(i)
    ensures |s.tradeLedger| <= k < |Process(strict, s, input).state.tradeLedger|
    ensures IsCloseRecord(Process(strict, s, input).state.tradeLedger[k], input.event, input.answers.visits(i))
  {
    var visits, n := input.answers.visits, |Visited(s, input.answers)|;
    var opening, closing := LifecycleEventCommits(strict, s, input);
    var place := InMapped(Marked(visits), ToClose(visits), n, i);
    k := |s.tradeLedger| + |opening| + place;
    LastPart(s.tradeLedger, opening, closing, place);
  }

  lemma LastPart<T>(a: seq<T>, b: seq<T>, c: seq<T>, k: nat)
    requires k < |c|
    ensures (a + b + c)[|a| + |b| + k] == c[k]
  {
  }

  /** Otherwise it stays open, as marked. */
  lemma PositionIsKept(strict: bool, s: State, input: Input, i: nat)
    requires InformationAccepted(strict, input) && IsLifecycleEvent(input.event.eventType)
    requires EntryAnswered(input.answers) && i < |Visited(s, input.answers)|
    requires forall j: nat :: j < |Visited(s, input.answers)| ==> Answered(input.answers.visits(j))
    requires !ToClose(input.answers.visits)(i)
    ensures Answered(input.answers.visits(i))
    ensures input.answers.visits(i).marked.value in Process(strict, s, input).state.open
  {
    var visits, n := input.answers.visits, |Visited(s, input.answers)|;
    var opening, closing := LifecycleEventCommits(strict, s, input);
    var k := InMapped(Marked(visits), ToKeep(visits), n, i);
    assert Process(strict, s, input).state.open[k] == Marked(visits)(i);
  }

  /** A lifecycle event at which a hook raises for position `k`: the event fails with that message, the closed list is
      as before, the open list too but for a position just opened, and the close records of the positions before `k`
      are written. */
  lemma LifecycleEventFails(strict: bool, s: State, input: Input, k: nat, message: string)
    returns (opening: seq<LedgerRecord>, closing: seq<LedgerRecord>)
    requires InformationAccepted(strict, input) && IsLifecycleEvent(input.event.eventType)
    requires EntryAnswered(input.answers) && k < |Visited(s, input.answers)|
    requires forall i: nat :: i < k ==> Answered(input.answers.visits(i))
    requires RaisesFirst(input.answers.visits(k), message)
    ensures OpeningRecords(opening, input)
    ensures CloseRecords(closing, input.event, input.answers.visits, Filter(ToClose(input.answers.visits), Places(k)))
    ensures Process(strict, s, input)
         == Step(s.(open := Visited(s, input.answers), tradeLedger := s.tradeLedger + opening + closing,
                    eventLedger := s.eventLedger + [EventLine(input.event)]), Some(message))
  {
    var n := |Visited(s, input.answers)|;
    InformationAcceptedIff(strict, input);
    opening := EntryIs(Announced(s, input.event), input);
    SweepRaises(input.event, input.answers.visits, k, n, message);
    closing := SweepTo(input.event, input.answers.visits, n).records;
  }

  /** A lifecycle event whose entry evaluation raises is announced and changes nothing else. */
  lemma EntryFails(strict: bool, s: State, input: Input, message: string)
    requires InformationAccepted(strict, input) && IsLifecycleEvent(input.event.eventType)
    requires EntryRaises(input.answers, message)
    ensures Process(strict, s, input)
         == Step(s.(eventLedger := s.eventLedger + [EventLine(input.event)]), Some(message))
  {
    InformationAcceptedIff(strict, input);
  }

  // ----- Expirations -----

  ghost predicate ExpirationRecords(
    records: seq<LedgerRecord>, event: DeterministicEvent, open: seq<Position>, expired: nat -> Answer<Position>,
    n: nat)
  {
    && n <= |open| && |records| == n
    && forall i: nat :: i < n ==>
         && expired(i).Ok?
         && IsRecord(records[i], event, Some(open[i].id), ExpirationRecord, "expiration_processing",
                     OfExpiration(expired(i).value.legs))
  }

  ghost predicate RefreshIs(
    refresh: Refresh, event: DeterministicEvent, open: seq<Position>, expired: nat -> Answer<Position>, n: nat)
  {
    && refresh.error.None? && |refresh.refreshed| == n
    && ExpirationRecords(refresh.records, event, open, expired, n)
    && forall i: nat :: i < n ==> refresh.refreshed[i] == expired(i).value
  }

  lemma RefreshIsNext(event: DeterministicEvent, open: seq<Position>, expired: nat -> Answer<Position>, n: nat)
    requires n < |open| && expired(n).Ok? && RefreshIs(RefreshTo(event, open, expired, n), event, open, expired, n)
    ensures RefreshIs(RefreshTo(event, open, expired, n + 1), event, open, expired, n + 1)
  {
  }

  lemma {:induction false} RefreshIsExact(
    event: DeterministicEvent, open: seq<Position>, expired: nat -> Answer<Position>, n: nat)
    requires n <= |open| && forall i: nat :: i < n ==> expired(i).Ok?
    ensures RefreshIs(RefreshTo(event, open, expired, n), event, open, expired, n)
  {
    if n > 0 {
      RefreshIsExact(event, open, expired, n - 1);
      RefreshIsNext(event, open, expired, n - 1);
    }
  }

  lemma {:induction false} RefreshRaises(
    event: DeterministicEvent, open: seq<Position>, expired: nat -> Answer<Position>, k: nat, n: nat)
    requires k < n <= |open| && (forall i: nat :: i < k ==> expired(i).Ok?) && expired(k).Err?
    ensures RefreshTo(event, open, expired, n).error == Some(expired(k).error)
    ensures ExpirationRecords(RefreshTo(event, open, expired, n).records, event, open, expired, k)
    decreases n
  {
    if n == k + 1 {
      RefreshIsExact(event, open, expired, k);
    } else {
      RefreshRaises(event, open, expired, k, n - 1);
    }
  }

  /** An expiration event at which no hook raises replaces every open position by what the strategy makes of it, and
      records each under the id it had. */
  lemma ExpirationCommits(strict: bool, s: State, input: Input) returns (records: seq<LedgerRecord>)
    requires InformationAccepted(strict, input) && input.event.eventType == "option_expiration"
    requires forall i: nat :: i < |s.open| ==> input.answers.expired(i).Ok?
    ensures ExpirationRecords(records, input.event, s.open, input.answers.expired, |s.open|)
    ensures var t := Process(strict, s, input).state;
      && Process(strict, s, input).error.None?
      && |t.open| == |s.open| && (forall i: nat :: i < |s.open| ==> t.open[i] == input.answers.expired(i).value)
      && t == s.(open := t.open, eventLedger := s.eventLedger + [EventLine(input.event)] + records,
                 positionHistory := s.positionHistory + t.open)
  {
    InformationAcceptedIff(strict, input);
    RefreshIsExact(input.event, s.open, input.answers.expired, |s.open|);
    records := RefreshTo(input.event, s.open, input.answers.expired, |s.open|).records;
  }

  /** One at which the hook raises for position `k` keeps the records written before, and the open positions. */
  lemma ExpirationFails(strict: bool, s: State, input: Input, k: nat) returns (records: seq<LedgerRecord>)
    requires InformationAccepted(strict, input) && input.event.eventType == "option_expiration"
    requires k < |s.open| && (forall i: nat :: i < k ==> input.answers.expired(i).Ok?) && input.answers.expired(k).Err?
    ensures ExpirationRecords(records, input.event, s.open, input.answers.expired, k)
    ensures Process(strict, s, input)
         == Step(s.(eventLedger := s.eventLedger + [EventLine(input.event)] + records),
                 Some(input.answers.expired(k).error))
  {
    InformationAcceptedIff(strict, input);
    RefreshRaises(input.event, s.open, input.answers.expired, k, |s.open|);
    records := RefreshTo(input.event, s.open, input.answers.expired, |s.open|).records;
  }

  // ----- All other events, and failures -----

  /** A valuation adds a snapshot, a corporate action a record, a risk event a warning; every other event is only
      announced. None of them can fail, and the open positions are added to the history. */
  lemma OtherEvents(strict: bool, s: State, input: Input) returns (record: LedgerRecord)
    requires InformationAccepted(strict, input)
    requires !IsLifecycleEvent(input.event.eventType) && input.event.eventType != "option_expiration"
    ensures IsRecord(record, input.event, None, CorporateAction, "applied", OfEvent(input.event.payload))
    ensures var event := input.event;
      Process(strict, s, input)
      == Step(s.(eventLedger := s.eventLedger + [EventLine(event)]
                   + (if event.eventType == "corporate_action" then [record] else []),
                 snapshots := s.snapshots
                   + (if event.eventType == "valuation"
                      then [Snapshot(event.timestamp, s.cash, s.realizedPnl, s.unrealizedPnl)] else []),
                 warnings := s.warnings
                   + (if event.eventType == "risk_event" then [RiskWarning(event.timestamp, event.payload)] else []),
                 positionHistory := s.positionHistory + s.open), None)
  {
    InformationAcceptedIff(strict, input);
    record := Ledger(input.event, None, CorporateAction, "applied", OfEvent(input.event.payload));
    var announced := Announced(s, input.event);
    assert announced.eventLedger + [] == announced.eventLedger;
    assert s.snapshots + [] == s.snapshots && s.warnings + [] == s.warnings;
  }

  /** An event whose information is refused leaves the state as it was, not even announced. */
  lemma RefusedInformationChangesNothing(strict: bool, s: State, input: Input)
    requires !InformationAccepted(strict, input)
    ensures Process(strict, s, input).state == s && Process(strict, s, input).error.Some?
  {
    InformationAcceptedIff(strict, input);
  }

  /** A failed event is listed with its message and recorded; one that does not fail adds neither. */
  lemma FailuresAreReported(strict: bool, s: State, input: Input) returns (record: LedgerRecord)
    ensures var step, event := Process(strict, s, input), input.event;
      if step.error.None? then After(strict, s, input) == step.state
      else
        && IsRecord(record, event, None, FailureRecord, "event_failure", OfError(step.error.value))
        && After(strict, s, input)
           == step.state.(failures := step.state.failures
                            + [FailedEvent(event.eventId, event.timestamp, event.eventType, step.error.value)],
                          eventLedger := step.state.eventLedger + [record])
  {
    var error := Process(strict, s, input).error;
    record := Ledger(input.event, None, FailureRecord, "event_failure", OfError(error.GetOr("")));
  }
}
