/** The historical event clock (`backend/backtesting/clock.py`): session events and timed events
    are merged, normalised, deduplicated, ordered and numbered. */
module Clock {
  import opened Results
  import opened Seqs
  import opened InsertionDict
  import opened StringOrder
  import opened StableSort

  datatype DuplicatePolicy = KeepFirst | KeepLast | KeepAll | Raise

  datatype MissingSessionPolicy = RaiseMissing | SkipMissing

  /** `priorities` overrides an event's own priority by event type. */
  datatype Config = Config(
    duplicates: DuplicatePolicy, missing: MissingSessionPolicy, priorities: map<string, int>)

  datatype Session = Session(tradeDate: int, open: int, close: int, isTradingDay: bool)

  datatype PayloadValue = Day(day: int) | Text(text: string)

  type Payload = map<string, PayloadValue>

  datatype ClockEvent = ClockEvent(
    timestamp: int, eventType: string, priority: int, hint: int, payload: Payload)

  /** The SHA-256 of the event's fields, as an injective constructor. */
  datatype EventId = EventDigest(sequence: nat, event: ClockEvent)

  datatype DeterministicEvent = DeterministicEvent(
    eventId: EventId, timestamp: int, eventType: string, priority: int, sequenceNumber: nat, payload: Payload)

  datatype ClockError =
    | NoSessions
    | InvalidSession(tradeDate: int)
    | DuplicateEvent(timestamp: int, eventType: string)

  const SESSION_OPEN: string := "session_open"
  const SESSION_CLOSE: string := "session_close"
  const SESSION_OPEN_PRIORITY := 20
  const SESSION_CLOSE_PRIORITY := 110

  function Priority(config: Config, eventType: string, fallback: int): int {
    if eventType in config.priorities then config.priorities[eventType] else fallback
  }

  // ----- Sessions -----

  predicate ByTradeDate(a: Session, b: Session) { a.tradeDate <= b.tradeDate }

  predicate OpensBeforeClose(s: Session) { s.open < s.close }

  /** The trade date of the first session in `s` that does not open before it closes. */
  function FirstInvalid(s: seq<Session>): Option<int> {
    if s == [] then None
    else if FirstInvalid(Front(s)).Some? then FirstInvalid(Front(s))
    else if OpensBeforeClose(Last(s)) then None
    else Some(Last(s).tradeDate)
  }

  function ValidSessions(config: Config, sessions: seq<Session>): Result<seq<Session>, ClockError> {
    if sessions == [] then
      if config.missing.RaiseMissing? then Err(NoSessions) else Ok([])
    else
      var ordered := Sorted(ByTradeDate, sessions);
      match FirstInvalid(ordered)
      case Some(d) => Err(InvalidSession(d))
      case None => Ok(ordered)
  }

  lemma {:induction false} FirstInvalidSticks(s: seq<Session>, i: nat)
    requires i <= |s| && FirstInvalid(s[..i]).Some?
    ensures FirstInvalid(s) == FirstInvalid(s[..i])
    decreases |s| - i
  {
    if i == |s| {
      assert s[..i] == s;
    } else {
      TakeNext(s, i);
      FirstInvalidSticks(s, i + 1);
    }
  }

  method ValidateSessions(config: Config, sessions: seq<Session>) returns (r: Result<seq<Session>, ClockError>)
    ensures r == ValidSessions(config, sessions)
  {
    if sessions == [] {
      return if config.missing.RaiseMissing? then Err(NoSessions) else Ok([]);
    }
    var ordered := Sorted(ByTradeDate, sessions);
    for i := 0 to |ordered|
      invariant FirstInvalid(ordered[..i]).None?
    {
      TakeNext(ordered, i);
      if ordered[i].open >= ordered[i].close {
        FirstInvalidSticks(ordered, i + 1);
        return Err(InvalidSession(ordered[i].tradeDate));
      }
    }
    assert ordered[..|ordered|] == ordered;
    return Ok(ordered);
  }

  function SessionEvents(config: Config): Session -> seq<ClockEvent> {
    (s: Session) =>
      if !s.isTradingDay then []
      else [
        ClockEvent(s.open, SESSION_OPEN, Priority(config, SESSION_OPEN, SESSION_OPEN_PRIORITY), 0,
                   map["trade_date" := Day(s.tradeDate)]),
        ClockEvent(s.close, SESSION_CLOSE, Priority(config, SESSION_CLOSE, SESSION_CLOSE_PRIORITY), 0,
                   map["trade_date" := Day(s.tradeDate)])]
  }

  method DefaultSessionEvents(config: Config, sessions: seq<Session>) returns (events: seq<ClockEvent>)
    ensures events == FlatMap(SessionEvents(config), sessions)
  {
    events := [];
    for i := 0 to |sessions|
      invariant events == FlatMap(SessionEvents(config), sessions[..i])
    {
      TakeNext(sessions, i);
      var session := sessions[i];
      if session.isTradingDay {
        events := events + [ClockEvent(
          session.open, SESSION_OPEN, Priority(config, SESSION_OPEN, SESSION_OPEN_PRIORITY), 0,
          map["trade_date" := Day(session.tradeDate)])];
        events := events + [ClockEvent(
          session.close, SESSION_CLOSE, Priority(config, SESSION_CLOSE, SESSION_CLOSE_PRIORITY), 0,
          map["trade_date" := Day(session.tradeDate)])];
      }
    }
    assert sessions[..|sessions|] == sessions;
  }

  // ----- Deduplication -----

  datatype EventKey = EventKey(timestamp: int, eventType: string, hint: int)

  function Key(e: ClockEvent): EventKey {
    EventKey(e.timestamp, e.eventType, e.hint)
  }

  ghost predicate UniqueKeys(events: seq<ClockEvent>) {
    forall i, j :: 0 <= i < j < |events| ==> Key(events[i]) != Key(events[j])
  }

  function ByKey(policy: DuplicatePolicy, events: seq<ClockEvent>): (r: Result<Dict<EventKey, ClockEvent>, ClockError>)
    ensures r.Ok? ==> r.value.Valid()
    ensures r.Ok? ==> forall k :: k in r.value.entries <==> exists i :: 0 <= i < |events| && Key(events[i]) == k
    ensures r.Ok? ==> forall k :: k in r.value.entries ==> Key(r.value.entries[k]) == k
    ensures policy.KeepFirst? || policy.KeepLast? ==> r.Ok?
  {
    if events == [] then Ok(Empty())
    else
      match ByKey(policy, Front(events))
      case Err(error) => Err(error)
      case Ok(d) =>
        var e := Last(events);
        if Key(e) !in d.entries || policy.KeepLast? then Ok(d.Put(Key(e), e))
        else if policy.KeepFirst? then Ok(d)
        else Err(DuplicateEvent(e.timestamp, e.eventType))
  }

  function Deduped(policy: DuplicatePolicy, events: seq<ClockEvent>): Result<seq<ClockEvent>, ClockError> {
    if policy.KeepAll? then Ok(events)
    else
      match ByKey(policy, events)
      case Err(error) => Err(error)
      case Ok(d) => Ok(d.Values())
  }

  lemma {:induction false} ByKeyErrorSticks(policy: DuplicatePolicy, events: seq<ClockEvent>, i: nat)
    requires i <= |events| && ByKey(policy, events[..i]).Err?
    ensures ByKey(policy, events) == ByKey(policy, events[..i])
    decreases |events| - i
  {
    if i == |events| {
      assert events[..i] == events;
    } else {
      TakeNext(events, i);
      ByKeyErrorSticks(policy, events, i + 1);
    }
  }

  method Dedupe(policy: DuplicatePolicy, events: seq<ClockEvent>) returns (r: Result<seq<ClockEvent>, ClockError>)
    ensures r == Deduped(policy, events)
  {
    if policy.KeepAll? {
      return Ok(events);
    }
    var byKey: Dict<EventKey, ClockEvent> := Empty();
    for i := 0 to |events|
      invariant ByKey(policy, events[..i]) == Ok(byKey)
    {
      TakeNext(events, i);
      var item := events[i];
      var key := Key(item);
      if key !in byKey.entries {
        byKey := byKey.Put(key, item);
      } else if policy.KeepFirst? {
      } else if policy.KeepLast? {
        byKey := byKey.Put(key, item);
      } else {
        ByKeyErrorSticks(policy, events, i + 1);
        return Err(DuplicateEvent(item.timestamp, item.eventType));
      }
    }
    assert events[..|events|] == events;
    return Ok(byKey.Values());
  }

  // ----- Building the stream -----

  function Normalize(config: Config): ClockEvent -> ClockEvent {
    (e: ClockEvent) => e.(priority := Priority(config, e.eventType, e.priority))
  }

  predicate EventLeq(a: ClockEvent, b: ClockEvent) {
    if a.timestamp != b.timestamp then a.timestamp < b.timestamp
    else if a.priority != b.priority then a.priority < b.priority
    else if a.eventType != b.eventType then StrLeq(a.eventType, b.eventType)
    else a.hint <= b.hint
  }

  function Numbered(e: ClockEvent, sequence: nat): DeterministicEvent {
    DeterministicEvent(EventDigest(sequence, e), e.timestamp, e.eventType, e.priority, sequence, e.payload)
  }

  function NumberAll(events: seq<ClockEvent>): (r: seq<DeterministicEvent>)
    ensures |r| == |events|
  {
    seq(|events|, i requires 0 <= i < |events| => Numbered(events[i], i + 1))
  }

  /** The normalised events in the order in which `build` feeds them to the deduplication. */
  function Stream(config: Config, sessions: seq<Session>, timed: seq<ClockEvent>): seq<ClockEvent> {
    Map(Normalize(config), FlatMap(SessionEvents(config), sessions) + timed)
  }

  function Built(config: Config, sessions: seq<Session>, timed: seq<ClockEvent>)
    : Result<seq<DeterministicEvent>, ClockError>
  {
    match ValidSessions(config, sessions)
    case Err(error) => Err(error)
    case Ok(valid) =>
      match Deduped(config.duplicates, Stream(config, valid, timed))
      case Err(error) => Err(error)
      case Ok(deduped) => Ok(NumberAll(Sorted(EventLeq, deduped)))
  }

  method Build(config: Config, sessions: seq<Session>, timed: seq<ClockEvent>)
    returns (r: Result<seq<DeterministicEvent>, ClockError>)
    ensures r == Built(config, sessions, timed)
  {
    var valid := ValidateSessions(config, sessions);
    if valid.Err? {
      return Err(valid.error);
    }
    var clockEvents := DefaultSessionEvents(config, valid.value);
    clockEvents := clockEvents + timed;
    var normalized := Map(Normalize(config), clockEvents);
    var deduped := Dedupe(config.duplicates, normalized);
    if deduped.Err? {
      return Err(deduped.error);
    }
    var ordered := Sorted(EventLeq, deduped.value);
    var output := NumberEvents(ordered);
    return Ok(output);
  }

  method NumberEvents(ordered: seq<ClockEvent>) returns (output: seq<DeterministicEvent>)
    ensures output == NumberAll(ordered)
  {
    output := [];
    for i := 0 to |ordered|
      invariant output == NumberAll(ordered)[..i]
    {
      output := output + [Numbered(ordered[i], i + 1)];
    }
  }

  // ----- What the deduplication keeps -----

  ghost predicate FirstAt(events: seq<ClockEvent>, i: nat)
    requires i < |events|
  {
    forall j :: 0 <= j < i ==> Key(events[j]) != Key(events[i])
  }

  ghost predicate LastAt(events: seq<ClockEvent>, i: nat)
    requires i < |events|
  {
    forall j :: i < j < |events| ==> Key(events[j]) != Key(events[i])
  }

  /** KEEP_FIRST keeps, per key, the event that comes first. */
  lemma {:induction false} KeepFirstKeepsFirst(events: seq<ClockEvent>, i: nat)
    requires i < |events| && FirstAt(events, i)
    ensures ByKey(KeepFirst, events).value.entries[Key(events[i])] == events[i]
  {
    if i < |events| - 1 {
      assert FirstAt(Front(events), i);
      KeepFirstKeepsFirst(Front(events), i);
    }
  }

  /** KEEP_LAST keeps, per key, the event that comes last. */
  lemma {:induction false} KeepLastKeepsLast(events: seq<ClockEvent>, i: nat)
    requires i < |events| && LastAt(events, i)
    ensures ByKey(KeepLast, events).value.entries[Key(events[i])] == events[i]
  {
    if i < |events| - 1 {
      assert LastAt(Front(events), i);
      KeepLastKeepsLast(Front(events), i);
    }
  }

  lemma {:induction false} LastIndex(events: seq<ClockEvent>, k: EventKey) returns (i: nat)
    requires exists j :: 0 <= j < |events| && Key(events[j]) == k
    ensures i < |events| && Key(events[i]) == k && LastAt(events, i)
  {
    i := |events| - 1;
    while Key(events[i]) != k
      invariant i < |events|
      invariant forall j :: i < j < |events| ==> Key(events[j]) != k
      decreases i
    {
      i := i - 1;
    }
  }

  lemma ValueIsEntry(d: Dict<EventKey, ClockEvent>, e: ClockEvent)
    requires d.Valid() && forall k :: k in d.entries ==> Key(d.entries[k]) == k
    ensures e in d.Values() <==> Key(e) in d.entries && d.entries[Key(e)] == e
  {
    if Key(e) in d.entries && d.entries[Key(e)] == e {
      assert Key(e) in (set k | k in d.keys);
      var i :| 0 <= i < |d.keys| && d.keys[i] == Key(e);
      assert d.Values()[i] == e;
    }
  }

  lemma KeptEventsDistinct(d: Dict<EventKey, ClockEvent>)
    requires d.Valid() && forall k :: k in d.entries ==> Key(d.entries[k]) == k
    ensures multiset(d.Values()) == multiset(d.entries.Values)
    ensures UniqueKeys(d.Values())
  {
    var values := d.Values();
    forall i, j | 0 <= i < j < |values| ensures Key(values[i]) != Key(values[j]) {}
    DistinctMultiset(values);
    forall e ensures e in values <==> e in d.entries.Values {
      ValueIsEntry(d, e);
    }
    assert (set e | e in values) == d.entries.Values;
  }

  lemma EventLeqIsPreorder()
    ensures Preorder(EventLeq)
  {
    StrIsLinear();
  }

  lemma UniqueKeysSeparate(events: seq<ClockEvent>)
    requires UniqueKeys(events)
    ensures Separates(EventLeq, events)
  {
    StrIsLinear();
  }

  lemma SameKept(events: seq<ClockEvent>, k: EventKey)
    ensures k in ByKey(KeepLast, events).value.entries <==> k in ByKey(KeepFirst, Reverse(events)).value.entries
    ensures k in ByKey(KeepLast, events).value.entries ==>
      ByKey(KeepLast, events).value.entries[k] == ByKey(KeepFirst, Reverse(events)).value.entries[k]
  {
    ReverseKeys(events, k);
    if k in ByKey(KeepLast, events).value.entries {
      var i := LastIndex(events, k);
      KeepLastKeepsLast(events, i);
      LastIsFirstReversed(events, i);
    }
  }

  lemma LastIsFirstReversed(events: seq<ClockEvent>, i: nat)
    requires i < |events| && LastAt(events, i)
    ensures Key(events[i]) in ByKey(KeepFirst, Reverse(events)).value.entries
    ensures ByKey(KeepFirst, Reverse(events)).value.entries[Key(events[i])] == events[i]
  {
    var reversed, j := Reverse(events), |events| - 1 - i;
    assert reversed[j] == events[i];
    forall m | 0 <= m < j ensures Key(reversed[m]) != Key(reversed[j]) {
      assert reversed[m] == events[|events| - 1 - m];
    }
    KeepFirstKeepsFirst(reversed, j);
  }

  lemma SameKeptEvents(events: seq<ClockEvent>)
    ensures ByKey(KeepLast, events).value.entries == ByKey(KeepFirst, Reverse(events)).value.entries
  {
    var last, first := ByKey(KeepLast, events).value.entries, ByKey(KeepFirst, Reverse(events)).value.entries;
    forall k ensures (k in last <==> k in first) && (k in last ==> last[k] == first[k]) {
      SameKept(events, k);
    }
    SameMap(last, first);
  }

  /** Keeping the last of each key is keeping the first of each key in the reversed stream,
      once the result is ordered. */
  lemma KeepLastIsKeepFirstReversed(events: seq<ClockEvent>)
    ensures Sorted(EventLeq, Deduped(KeepLast, events).value)
         == Sorted(EventLeq, Deduped(KeepFirst, Reverse(events)).value)
  {
    SameKeptEvents(events);
    var last, first := ByKey(KeepLast, events).value, ByKey(KeepFirst, Reverse(events)).value;
    KeptEventsDistinct(last);
    KeptEventsDistinct(first);
    SortedCanonicalEvents(last.Values(), first.Values());
  }

  lemma ReverseKeys(events: seq<ClockEvent>, k: EventKey)
    ensures (exists i :: 0 <= i < |events| && Key(events[i]) == k)
       <==> (exists i :: 0 <= i < |Reverse(events)| && Key(Reverse(events)[i]) == k)
  {
    var n := |events|;
    if i :| 0 <= i < n && Key(events[i]) == k {
      assert Key(Reverse(events)[n - 1 - i]) == k;
    }
    if i :| 0 <= i < n && Key(Reverse(events)[i]) == k {
      assert Key(events[n - 1 - i]) == k;
    }
  }

  lemma SortedCanonicalEvents(a: seq<ClockEvent>, b: seq<ClockEvent>)
    requires multiset(a) == multiset(b) && UniqueKeys(a)
    ensures Sorted(EventLeq, a) == Sorted(EventLeq, b)
  {
    EventLeqIsPreorder();
    UniqueKeysSeparate(a);
    SortedCanonical(EventLeq, a, b);
  }

  /** RAISE fails exactly when some key occurs twice; otherwise it changes nothing. */
  lemma {:induction false} RaiseIffDuplicate(events: seq<ClockEvent>)
    ensures Deduped(Raise, events).Ok? <==> UniqueKeys(events)
    ensures Deduped(Raise, events).Ok? ==> Deduped(Raise, events).value == events
  {
    UniqueStreamIsKept(Raise, events);
    if ByKey(Raise, events).Ok? {
      RaiseOkIsUnique(events);
    }
  }

  lemma {:induction false} RaiseOkIsUnique(events: seq<ClockEvent>)
    requires ByKey(Raise, events).Ok?
    ensures UniqueKeys(events)
  {
    if events != [] {
      var rest, e := Front(events), Last(events);
      RaiseOkIsUnique(rest);
      forall i | 0 <= i < |rest| ensures Key(rest[i]) != Key(e) {
        RaiseAcceptsNewKeys(events, i);
      }
      UniqueSnoc(rest, e);
      SplitLast(events);
    }
  }

  lemma UniqueSnoc(events: seq<ClockEvent>, e: ClockEvent)
    requires UniqueKeys(events) && forall i :: 0 <= i < |events| ==> Key(events[i]) != Key(e)
    ensures UniqueKeys(events + [e])
  {
  }

  lemma RaiseAcceptsNewKeys(events: seq<ClockEvent>, i: nat)
    requires events != [] && ByKey(Raise, events).Ok? && i < |events| - 1
    ensures Key(events[i]) != Key(Last(events))
  {
    var seen := ByKey(Raise, Front(events)).value.entries;
    assert Key(Front(events)[i]) in seen;
    assert Key(Last(events)) !in seen;
  }

  /** Without duplicate keys every policy keeps the stream as it is. */
  lemma UniqueStreamIsKept(policy: DuplicatePolicy, events: seq<ClockEvent>)
    ensures UniqueKeys(events) ==> Deduped(policy, events) == Ok(events)
  {
    if UniqueKeys(events) && !policy.KeepAll? {
      UniqueByKey(policy, events);
    }
  }

  lemma {:induction false} UniqueByKey(policy: DuplicatePolicy, events: seq<ClockEvent>)
    requires UniqueKeys(events) && !policy.KeepAll?
    ensures ByKey(policy, events).Ok? && ByKey(policy, events).value.Values() == events
  {
    if events != [] {
      UniqueByKey(policy, Front(events));
      var d := ByKey(policy, Front(events)).value;
      assert Key(Last(events)) !in d.entries;
      SplitLast(events);
      assert d.Put(Key(Last(events)), Last(events)).Values() == d.Values() + [Last(events)];
    }
  }

  // ----- Order and numbering of the output -----

  function Origin(e: DeterministicEvent): ClockEvent { e.eventId.event }

  lemma SortedEvents(events: seq<ClockEvent>)
    ensures Ordered(EventLeq, Sorted(EventLeq, events))
    ensures multiset(Sorted(EventLeq, events)) == multiset(events)
  {
    assert Preorder(EventLeq) by { EventLeqIsPreorder(); }
    SortedOrders(EventLeq, events);
    SortedPermutes(EventLeq, events);
  }

  /** The output is the deduplicated stream, reordered by (timestamp, priority, type, hint) and
      numbered from 1 without gaps. */
  lemma BuildOrdersAndNumbers(config: Config, sessions: seq<Session>, timed: seq<ClockEvent>)
    requires Built(config, sessions, timed).Ok?
    ensures var out := Built(config, sessions, timed).value;
      var deduped := Deduped(config.duplicates, Stream(config, ValidSessions(config, sessions).value, timed)).value;
      && (forall i :: 0 <= i < |out| ==> out[i] == Numbered(Origin(out[i]), i + 1))
      && Ordered(EventLeq, Map(Origin, out))
      && multiset(Map(Origin, out)) == multiset(deduped)
  {
    var deduped := Deduped(config.duplicates, Stream(config, ValidSessions(config, sessions).value, timed)).value;
    OrderedAndNumbered(deduped);
  }

  lemma NumberingKeepsEvents(events: seq<ClockEvent>)
    ensures Map(Origin, NumberAll(events)) == events
  {
  }

  lemma OrderedAndNumbered(events: seq<ClockEvent>)
    ensures var out := NumberAll(Sorted(EventLeq, events));
      && (forall i :: 0 <= i < |out| ==> out[i] == Numbered(Origin(out[i]), i + 1))
      && Ordered(EventLeq, Map(Origin, out))
      && multiset(Map(Origin, out)) == multiset(events)
  {
    SortedEvents(events);
    NumberingKeepsEvents(Sorted(EventLeq, events));
  }

  // ----- Determinism -----

  lemma {:induction false} FirstInvalidIsEarliest(s: seq<Session>, i: nat)
    requires Ordered(ByTradeDate, s) && i < |s| && !OpensBeforeClose(s[i])
    ensures FirstInvalid(s).Some? && FirstInvalid(s).value <= s[i].tradeDate
  {
    if i < |s| - 1 {
      FirstInvalidIsEarliest(Front(s), i);
    } else if FirstInvalid(Front(s)).Some? {
      var w := FirstInvalidWitness(Front(s));
      assert ByTradeDate(s[w], s[i]);
    }
  }

  lemma {:induction false} FirstInvalidWitness(s: seq<Session>) returns (i: nat)
    requires FirstInvalid(s).Some?
    ensures i < |s| && !OpensBeforeClose(s[i]) && s[i].tradeDate == FirstInvalid(s).value
  {
    if FirstInvalid(Front(s)).Some? {
      i := FirstInvalidWitness(Front(s));
    } else {
      i := |s| - 1;
    }
  }

  /** Which session is reported does not depend on the order of sessions on one trade date. */
  lemma FirstInvalidCanonical(a: seq<Session>, b: seq<Session>)
    requires Ordered(ByTradeDate, a) && Ordered(ByTradeDate, b) && multiset(a) == multiset(b)
    ensures FirstInvalid(a) == FirstInvalid(b)
  {
    if FirstInvalid(a).Some? {
      FirstInvalidAtMost(a, b);
    }
    if FirstInvalid(b).Some? {
      FirstInvalidAtMost(b, a);
    }
  }

  lemma FirstInvalidAtMost(a: seq<Session>, b: seq<Session>)
    requires Ordered(ByTradeDate, a) && Ordered(ByTradeDate, b) && multiset(a) == multiset(b)
    requires FirstInvalid(a).Some?
    ensures FirstInvalid(b).Some? && FirstInvalid(b).value <= FirstInvalid(a).value
  {
    var i := FirstInvalidWitness(a);
    assert a[i] in multiset(b);
    var j :| 0 <= j < |b| && b[j] == a[i];
    FirstInvalidIsEarliest(b, j);
  }

  lemma ValidSessionsCanonical(config: Config, a: seq<Session>, b: seq<Session>)
    requires multiset(a) == multiset(b)
    ensures ValidSessions(config, a).Err? ==> ValidSessions(config, b) == ValidSessions(config, a)
    ensures ValidSessions(config, a).Ok? ==>
      && ValidSessions(config, b).Ok?
      && multiset(ValidSessions(config, a).value) == multiset(ValidSessions(config, b).value)
  {
    SameSize(a, b);
    SortedPermutes(ByTradeDate, a);
    SortedPermutes(ByTradeDate, b);
    SortedOrders(ByTradeDate, a);
    SortedOrders(ByTradeDate, b);
    FirstInvalidCanonical(Sorted(ByTradeDate, a), Sorted(ByTradeDate, b));
  }

  lemma StreamPermutation(
    config: Config, s1: seq<Session>, t1: seq<ClockEvent>, s2: seq<Session>, t2: seq<ClockEvent>)
    requires multiset(s1) == multiset(s2) && multiset(t1) == multiset(t2)
    ensures multiset(Stream(config, s1, t1)) == multiset(Stream(config, s2, t2))
  {
    FlatMapPermutation(SessionEvents(config), s1, s2);
    MapPermutation(
      Normalize(config), FlatMap(SessionEvents(config), s1) + t1, FlatMap(SessionEvents(config), s2) + t2);
  }

  lemma UniqueKeysPermutation(a: seq<ClockEvent>, b: seq<ClockEvent>)
    requires multiset(a) == multiset(b) && UniqueKeys(a)
    ensures UniqueKeys(b)
  {
    forall i, j | 0 <= i < j < |b| ensures Key(b[i]) != Key(b[j]) {
      if Key(b[i]) == Key(b[j]) {
        var x, y := b[i], b[j];
        assert x in multiset(a) && y in multiset(a);
        assert x == y;
        assert Without(b, j)[i] == x;
        WithoutMultiset(b, j);
        AtMostOnce(a, x);
      }
    }
  }

  lemma AtMostOnce(events: seq<ClockEvent>, e: ClockEvent)
    requires UniqueKeys(events)
    ensures multiset(events)[e] <= 1
  {
    DistinctMultiset(events);
  }

  /** What `build` numbers, or the error of the deduplication. */
  function Outcome(policy: DuplicatePolicy, events: seq<ClockEvent>): Result<seq<ClockEvent>, ClockError> {
    match Deduped(policy, events)
    case Err(error) => Err(error)
    case Ok(deduped) => Ok(Sorted(EventLeq, deduped))
  }

  /** The order of the events cannot be told from the outcome. */
  ghost predicate OrderBlind(policy: DuplicatePolicy, events: seq<ClockEvent>) {
    forall other | multiset(other) == multiset(events) :: Outcome(policy, other) == Outcome(policy, events)
  }

  ghost predicate EqualKeysEqualEvents(events: seq<ClockEvent>) {
    forall a, b :: a in events && b in events && Key(a) == Key(b) ==> a == b
  }

  function KeyIs(k: EventKey): ClockEvent -> bool {
    (e: ClockEvent) => Key(e) == k
  }

  predicate Shared(events: seq<ClockEvent>, k: EventKey) {
    |Filter(KeyIs(k), events)| >= 2
  }

  /** All keys that occur twice have one timestamp and one type, which are what the error reports. */
  ghost predicate OneError(events: seq<ClockEvent>) {
    forall k, l :: Shared(events, k) && Shared(events, l) ==> k.timestamp == l.timestamp && k.eventType == l.eventType
  }

  ghost predicate OrderInsensitive(policy: DuplicatePolicy, events: seq<ClockEvent>) {
    match policy
    case KeepFirst => EqualKeysEqualEvents(events)
    case KeepLast => EqualKeysEqualEvents(events)
    case KeepAll => Separates(EventLeq, events)
    case Raise => OneError(events)
  }

  // ----- KEEP_FIRST and KEEP_LAST -----

  lemma {:induction false} EntryIsEvent(policy: DuplicatePolicy, events: seq<ClockEvent>, k: EventKey)
    requires ByKey(policy, events).Ok? && k in ByKey(policy, events).value.entries
    ensures ByKey(policy, events).value.entries[k] in events
  {
    SplitLast(events);
    if k in ByKey(policy, Front(events)).value.entries {
      EntryIsEvent(policy, Front(events), k);
    }
  }

  lemma KeyOccurs(a: seq<ClockEvent>, b: seq<ClockEvent>, k: EventKey)
    requires multiset(a) == multiset(b) && exists i :: 0 <= i < |a| && Key(a[i]) == k
    ensures exists i :: 0 <= i < |b| && Key(b[i]) == k
  {
    var i :| 0 <= i < |a| && Key(a[i]) == k;
    assert a[i] in multiset(b);
    var j :| 0 <= j < |b| && b[j] == a[i];
  }

  lemma SameEntry(policy: DuplicatePolicy, a: seq<ClockEvent>, b: seq<ClockEvent>, k: EventKey)
    requires policy.KeepFirst? || policy.KeepLast?
    requires multiset(a) == multiset(b) && EqualKeysEqualEvents(a) && k in ByKey(policy, a).value.entries
    ensures k in ByKey(policy, b).value.entries
    ensures ByKey(policy, b).value.entries[k] == ByKey(policy, a).value.entries[k]
  {
    KeyOccurs(a, b, k);
    EntryIsEvent(policy, a, k);
    EntryIsEvent(policy, b, k);
    assert ByKey(policy, b).value.entries[k] in multiset(a);
  }

  lemma EqualKeysAnyOrder(a: seq<ClockEvent>, b: seq<ClockEvent>)
    requires multiset(a) == multiset(b) && EqualKeysEqualEvents(a)
    ensures EqualKeysEqualEvents(b)
  {
    forall e | e in b ensures e in a {
      assert e in multiset(a);
    }
  }

  lemma SameEntries(policy: DuplicatePolicy, a: seq<ClockEvent>, b: seq<ClockEvent>)
    requires policy.KeepFirst? || policy.KeepLast?
    requires multiset(a) == multiset(b) && EqualKeysEqualEvents(a)
    ensures ByKey(policy, a).value.entries == ByKey(policy, b).value.entries
  {
    var first, second := ByKey(policy, a).value.entries, ByKey(policy, b).value.entries;
    EqualKeysAnyOrder(a, b);
    forall k | k in first ensures k in second && second[k] == first[k] {
      SameEntry(policy, a, b, k);
    }
    forall k | k in second ensures k in first {
      SameEntry(policy, b, a, k);
    }
    SameMap(first, second);
  }

  lemma SameMap(a: map<EventKey, ClockEvent>, b: map<EventKey, ClockEvent>)
    requires forall k :: k in a ==> k in b && b[k] == a[k]
    requires forall k :: k in b ==> k in a
    ensures a == b
  {
  }

  lemma KeptIsBlind(policy: DuplicatePolicy, a: seq<ClockEvent>, b: seq<ClockEvent>)
    requires policy.KeepFirst? || policy.KeepLast?
    requires multiset(a) == multiset(b) && EqualKeysEqualEvents(a)
    ensures Outcome(policy, a) == Outcome(policy, b)
  {
    var first, second := ByKey(policy, a).value, ByKey(policy, b).value;
    assert first.entries == second.entries by { SameEntries(policy, a, b); }
    KeptEventsDistinct(first);
    KeptEventsDistinct(second);
    SortedCanonicalEvents(first.Values(), second.Values());
  }

  /** Some order of the events makes the policy keep `e`. */
  lemma KeepThis(policy: DuplicatePolicy, events: seq<ClockEvent>, e: ClockEvent) returns (other: seq<ClockEvent>)
    requires policy.KeepFirst? || policy.KeepLast?
    requires e in events
    ensures multiset(other) == multiset(events)
    ensures Key(e) in ByKey(policy, other).value.entries && ByKey(policy, other).value.entries[Key(e)] == e
  {
    var front := MoveToFront(events, e);
    if policy.KeepFirst? {
      other := front;
      KeepFirstKeepsFirst(other, 0);
    } else {
      other := front[1..] + [e];
      assert front == [e] + front[1..];
      assert Key(other[|other| - 1]) == Key(e);
      KeepLastKeepsLast(other, |other| - 1);
    }
  }

  /** The outcome holds one event per key, the kept one. */
  lemma OutcomeHoldsKept(policy: DuplicatePolicy, events: seq<ClockEvent>, e: ClockEvent)
    requires policy.KeepFirst? || policy.KeepLast?
    ensures e in Outcome(policy, events).value <==>
            Key(e) in ByKey(policy, events).value.entries && ByKey(policy, events).value.entries[Key(e)] == e
  {
    SortedElements(EventLeq, ByKey(policy, events).value.Values());
    ValueIsEntry(ByKey(policy, events).value, e);
  }

  lemma BlindKeepsEqual(policy: DuplicatePolicy, events: seq<ClockEvent>, a: ClockEvent, b: ClockEvent)
    requires policy.KeepFirst? || policy.KeepLast?
    requires OrderBlind(policy, events) && a in events && b in events && Key(a) == Key(b)
    ensures a == b
  {
    var first := KeepThis(policy, events, a);
    var second := KeepThis(policy, events, b);
    assert Outcome(policy, first) == Outcome(policy, events) == Outcome(policy, second);
    OutcomeHoldsKept(policy, first, a);
    OutcomeHoldsKept(policy, second, a);
  }

  // ----- RAISE -----

  lemma {:induction false} RaiseReportsShared(events: seq<ClockEvent>) returns (k: EventKey)
    requires ByKey(Raise, events).Err?
    ensures Shared(events, k) && ByKey(Raise, events).error == DuplicateEvent(k.timestamp, k.eventType)
  {
    var rest, e := Front(events), Last(events);
    if ByKey(Raise, rest).Err? {
      k := RaiseReportsShared(rest);
    } else {
      k := Key(e);
      var i :| 0 <= i < |rest| && Key(rest[i]) == k;
      FilterElements(KeyIs(k), rest, rest[i]);
    }
  }

  lemma {:induction false} FilterParts(k: EventKey, s: seq<ClockEvent>)
    ensures multiset(Filter(KeyIs(k), s)) + multiset(Filter((e: ClockEvent) => Key(e) != k, s)) == multiset(s)
  {
    if s != [] {
      FilterParts(k, Front(s));
      SplitLast(s);
    }
  }

  /** Some order of the events makes RAISE report any given shared key. */
  lemma ReportThis(events: seq<ClockEvent>, k: EventKey) returns (other: seq<ClockEvent>)
    requires Shared(events, k)
    ensures multiset(other) == multiset(events)
    ensures Deduped(Raise, other) == Err(DuplicateEvent(k.timestamp, k.eventType))
  {
    var same := Filter(KeyIs(k), events);
    other := same + Filter((e: ClockEvent) => Key(e) != k, events);
    FilterParts(k, events);
    FilterElements(KeyIs(k), events, same[0]);
    FilterElements(KeyIs(k), events, same[1]);
    assert other[..2] == [same[0], same[1]];
    ReportOfTwo(same[0], same[1]);
    ByKeyErrorSticks(Raise, other, 2);
  }

  lemma ReportOfTwo(a: ClockEvent, b: ClockEvent)
    requires Key(a) == Key(b)
    ensures ByKey(Raise, [a, b]) == Err(DuplicateEvent(b.timestamp, b.eventType))
  {
    assert Front([a, b]) == [a] && Front([a]) == [];
    assert ByKey(Raise, [a]) == Ok(Empty<EventKey, ClockEvent>().Put(Key(a), a));
  }

  lemma SharedAnyOrder(a: seq<ClockEvent>, b: seq<ClockEvent>, k: EventKey)
    requires multiset(a) == multiset(b)
    ensures Shared(a, k) <==> Shared(b, k)
  {
    FilterPermutation(KeyIs(k), a, b);
  }

  lemma RaiseIsBlind(a: seq<ClockEvent>, b: seq<ClockEvent>)
    requires multiset(a) == multiset(b) && OneError(a)
    ensures Outcome(Raise, a) == Outcome(Raise, b)
  {
    RaiseIffDuplicate(a);
    RaiseIffDuplicate(b);
    if UniqueKeys(a) {
      UniqueKeysPermutation(a, b);
      SortedCanonicalEvents(a, b);
    } else {
      if UniqueKeys(b) {
        UniqueKeysPermutation(b, a);
      }
      var k := RaiseReportsShared(a);
      var l := RaiseReportsShared(b);
      SharedAnyOrder(a, b, l);
    }
  }

  lemma BlindHasOneError(events: seq<ClockEvent>, k: EventKey, l: EventKey)
    requires OrderBlind(Raise, events) && Shared(events, k) && Shared(events, l)
    ensures k.timestamp == l.timestamp && k.eventType == l.eventType
  {
    var first := ReportThis(events, k);
    var second := ReportThis(events, l);
    assert Outcome(Raise, first) == Outcome(Raise, events) == Outcome(Raise, second);
  }

  // ----- All four policies -----

  lemma KeepAllBlindIff(events: seq<ClockEvent>)
    ensures OrderBlind(KeepAll, events) <==> Separates(EventLeq, events)
  {
    assert OrderFree(EventLeq, events) <==> Separates(EventLeq, events) by {
      EventLeqIsPreorder();
      OrderFreeIffSeparates(EventLeq, events);
    }
    if OrderBlind(KeepAll, events) {
      forall other | multiset(other) == multiset(events) ensures Sorted(EventLeq, other) == Sorted(EventLeq, events) {
        assert Outcome(KeepAll, other) == Outcome(KeepAll, events);
      }
    }
  }

  lemma InsensitiveIsBlind(policy: DuplicatePolicy, events: seq<ClockEvent>)
    requires OrderInsensitive(policy, events)
    ensures OrderBlind(policy, events)
  {
    if policy.KeepAll? {
      KeepAllBlindIff(events);
    } else {
      forall other | multiset(other) == multiset(events) ensures Outcome(policy, other) == Outcome(policy, events) {
        if policy.Raise? {
          RaiseIsBlind(events, other);
        } else {
          KeptIsBlind(policy, events, other);
        }
      }
    }
  }

  lemma BlindIsInsensitive(policy: DuplicatePolicy, events: seq<ClockEvent>)
    requires OrderBlind(policy, events)
    ensures OrderInsensitive(policy, events)
  {
    match policy
    case KeepAll =>
      KeepAllBlindIff(events);
    case Raise =>
      forall k, l | Shared(events, k) && Shared(events, l)
        ensures k.timestamp == l.timestamp && k.eventType == l.eventType
      {
        BlindHasOneError(events, k, l);
      }
    case _ =>
      forall a, b | a in events && b in events && Key(a) == Key(b) ensures a == b {
        BlindKeepsEqual(policy, events, a, b);
      }
  }

  /** When exactly the order of the stream does not matter: under KEEP_FIRST and KEEP_LAST, when events with one key
      are equal; under KEEP_ALL, when the sort key tells the events apart; under RAISE, when all keys that occur
      twice have one timestamp and type. */
  lemma OrderBlindIff(policy: DuplicatePolicy, events: seq<ClockEvent>)
    ensures OrderBlind(policy, events) <==> OrderInsensitive(policy, events)
  {
    if OrderInsensitive(policy, events) {
      InsensitiveIsBlind(policy, events);
    }
    if OrderBlind(policy, events) {
      BlindIsInsensitive(policy, events);
    }
  }

  /** Determinism: under that condition, neither the order of the sessions nor the order of the timed events can be
      told from the result, which includes the error raised for an invalid session. */
  lemma BuildIsDeterministic(
    config: Config, s1: seq<Session>, t1: seq<ClockEvent>, s2: seq<Session>, t2: seq<ClockEvent>)
    requires multiset(s1) == multiset(s2) && multiset(t1) == multiset(t2)
    requires ValidSessions(config, s1).Ok? ==>
      OrderInsensitive(config.duplicates, Stream(config, ValidSessions(config, s1).value, t1))
    ensures Built(config, s1, t1) == Built(config, s2, t2)
  {
    ValidSessionsCanonical(config, s1, s2);
    if ValidSessions(config, s1).Ok? {
      var v1, v2 := ValidSessions(config, s1).value, ValidSessions(config, s2).value;
      StreamPermutation(config, v1, t1, v2, t2);
      InsensitiveIsBlind(config.duplicates, Stream(config, v1, t1));
      BuiltFromOutcome(config, s1, t1);
      BuiltFromOutcome(config, s2, t2);
    }
  }

  lemma BuiltFromOutcome(config: Config, sessions: seq<Session>, timed: seq<ClockEvent>)
    requires ValidSessions(config, sessions).Ok?
    ensures Built(config, sessions, timed) ==
      match Outcome(config.duplicates, Stream(config, ValidSessions(config, sessions).value, timed))
      case Err(error) => Err(error)
      case Ok(ordered) => Ok(NumberAll(ordered))
  {
  }

  /** Without shared keys every policy is insensitive to the order. */
  lemma UniqueKeysAreInsensitive(policy: DuplicatePolicy, events: seq<ClockEvent>)
    requires UniqueKeys(events)
    ensures OrderInsensitive(policy, events)
  {
    UniqueKeysSeparate(events);
    forall other | multiset(other) == multiset(events) ensures Outcome(policy, other) == Outcome(policy, events) {
      UniqueKeysPermutation(events, other);
      UniqueStreamIsKept(policy, events);
      UniqueStreamIsKept(policy, other);
      SortedCanonicalEvents(events, other);
    }
    BlindIsInsensitive(policy, events);
  }
}
