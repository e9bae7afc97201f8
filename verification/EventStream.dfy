/** What the event clock's stream says (`backend/backtesting/clock.py`), in the fields of its events. */
module EventStream {
  import opened Results
  import opened Seqs
  import opened InsertionDict
  import opened StringOrder
  import opened StableSort
  import opened Clock

  function HintOf(e: DeterministicEvent): int { Origin(e).hint }

  /** The stream is in order of time; at one time, of priority; then of event type, by the alphabet; then of hint. */
  lemma BuildIsChronological(config: Config, sessions: seq<Session>, timed: seq<ClockEvent>, i: nat, j: nat)
    requires Built(config, sessions, timed).Ok? && i < j < |Built(config, sessions, timed).value|
    ensures var out := Built(config, sessions, timed).value;
      && out[i].timestamp <= out[j].timestamp
      && (out[i].timestamp == out[j].timestamp ==> out[i].priority <= out[j].priority)
      && (out[i].timestamp == out[j].timestamp && out[i].priority == out[j].priority ==>
            StrLeq(out[i].eventType, out[j].eventType))
      && ((out[i].timestamp == out[j].timestamp && out[i].priority == out[j].priority
           && out[i].eventType == out[j].eventType) ==> HintOf(out[i]) <= HintOf(out[j]))
  {
    var out := Built(config, sessions, timed).value;
    BuildOrdersAndNumbers(config, sessions, timed);
    var origins := Map(Origin, out);
    assert EventLeq(origins[i], origins[j]);
    assert out[i] == Numbered(origins[i], i + 1) && out[j] == Numbered(origins[j], j + 1);
    StrTotal(out[i].eventType, out[i].eventType);
  }

  /** Events are numbered from one, and the id is derived from the number and the event's own fields. */
  lemma EventsAreNumbered(config: Config, sessions: seq<Session>, timed: seq<ClockEvent>, i: nat)
    requires Built(config, sessions, timed).Ok? && i < |Built(config, sessions, timed).value|
    ensures var e := Built(config, sessions, timed).value[i];
      && e.sequenceNumber == i + 1
      && e.eventId == EventDigest(i + 1, ClockEvent(e.timestamp, e.eventType, e.priority, HintOf(e), e.payload))
  {
    BuildOrdersAndNumbers(config, sessions, timed);
    var e := Built(config, sessions, timed).value[i];
    assert e == Numbered(Origin(e), i + 1);
  }

  // ----- Where the events come from -----

  predicate HasPriority(config: Config, e: ClockEvent, own: int) {
    e.priority == if e.eventType in config.priorities then config.priorities[e.eventType] else own
  }

  /** `e` is the timed event `t`, up to a configured priority. */
  predicate IsTimed(config: Config, t: ClockEvent, e: ClockEvent) {
    && e.timestamp == t.timestamp && e.eventType == t.eventType && e.hint == t.hint && e.payload == t.payload
    && HasPriority(config, e, t.priority)
  }

  /** `e` is the opening or the closing of session `s`. */
  predicate IsSession(config: Config, s: Session, e: ClockEvent) {
    && s.isTradingDay && e.hint == 0 && e.payload == map["trade_date" := Day(s.tradeDate)]
    && (|| (e.timestamp == s.open && e.eventType == "session_open" && HasPriority(config, e, 20))
        || (e.timestamp == s.close && e.eventType == "session_close" && HasPriority(config, e, 110)))
  }

  ghost predicate HasSource(config: Config, sessions: seq<Session>, timed: seq<ClockEvent>, e: ClockEvent) {
    || (exists t :: t in timed && IsTimed(config, t, e))
    || (exists s :: s in sessions && IsSession(config, s, e))
  }

  lemma InMap<T, U>(f: T -> U, s: seq<T>, u: U)
    ensures u in Map(f, s) <==> exists x :: x in s && f(x) == u
  {
    if x :| x in s && f(x) == u {
      var i :| 0 <= i < |s| && s[i] == x;
      assert Map(f, s)[i] == u;
    }
  }

  lemma NormalizedSession(config: Config, s: Session, y: ClockEvent, e: ClockEvent)
    requires y in SessionEvents(config)(s) && e == Normalize(config)(y)
    ensures IsSession(config, s, e)
  {
  }

  lemma StreamHasSources(config: Config, sessions: seq<Session>, timed: seq<ClockEvent>, e: ClockEvent)
    requires e in Stream(config, sessions, timed)
    ensures HasSource(config, sessions, timed, e)
  {
    var made := FlatMap(SessionEvents(config), sessions);
    InMap(Normalize(config), made + timed, e);
    var y :| y in made + timed && Normalize(config)(y) == e;
    if y in timed {
      assert IsTimed(config, y, e);
    } else {
      InFlatMap(SessionEvents(config), sessions, y);
      var s :| s in sessions && y in SessionEvents(config)(s);
      NormalizedSession(config, s, y, e);
    }
  }

  lemma TimedInStream(config: Config, sessions: seq<Session>, timed: seq<ClockEvent>, t: ClockEvent)
    returns (e: ClockEvent)
    requires t in timed
    ensures e in Stream(config, sessions, timed) && IsTimed(config, t, e)
  {
    e := Normalize(config)(t);
    var made := FlatMap(SessionEvents(config), sessions);
    assert t in made + timed;
    InMap(Normalize(config), made + timed, e);
  }

  lemma SessionInStream(config: Config, sessions: seq<Session>, timed: seq<ClockEvent>, s: Session)
    returns (first: ClockEvent, last: ClockEvent)
    requires s in sessions && s.isTradingDay
    ensures first in Stream(config, sessions, timed) && last in Stream(config, sessions, timed)
    ensures Key(first) == EventKey(s.open, "session_open", 0) && Key(last) == EventKey(s.close, "session_close", 0)
  {
    var made := FlatMap(SessionEvents(config), sessions);
    var a, b := SessionEvents(config)(s)[0], SessionEvents(config)(s)[1];
    InFlatMap(SessionEvents(config), sessions, a);
    InFlatMap(SessionEvents(config), sessions, b);
    assert a in made + timed && b in made + timed;
    first, last := Normalize(config)(a), Normalize(config)(b);
    InMap(Normalize(config), made + timed, first);
    InMap(Normalize(config), made + timed, last);
  }

  // ----- What is kept -----

  lemma DedupedIsPart(policy: DuplicatePolicy, events: seq<ClockEvent>, e: ClockEvent)
    requires Deduped(policy, events).Ok? && e in Deduped(policy, events).value
    ensures e in events
  {
    if !policy.KeepAll? {
      var d := ByKey(policy, events).value;
      ValueIsEntry(d, e);
      EntryIsEvent(policy, events, Key(e));
    }
  }

  lemma DedupedHasKey(policy: DuplicatePolicy, events: seq<ClockEvent>, e: ClockEvent) returns (kept: ClockEvent)
    requires Deduped(policy, events).Ok? && e in events
    ensures kept in Deduped(policy, events).value && Key(kept) == Key(e)
  {
    if policy.KeepAll? {
      kept := e;
    } else {
      var d := ByKey(policy, events).value;
      var i :| 0 <= i < |events| && events[i] == e;
      kept := d.entries[Key(e)];
      ValueIsEntry(d, kept);
    }
  }

  lemma DedupedKeysDiffer(policy: DuplicatePolicy, events: seq<ClockEvent>, i: nat, j: nat)
    requires Deduped(policy, events).Ok? && !policy.KeepAll? && i < j < |Deduped(policy, events).value|
    ensures Key(Deduped(policy, events).value[i]) != Key(Deduped(policy, events).value[j])
  {
    var d := ByKey(policy, events).value;
    assert d.keys[i] in d.entries && d.keys[j] in d.entries;
  }

  /** The deduplicated stream behind a result. */
  function Kept(config: Config, sessions: seq<Session>, timed: seq<ClockEvent>): seq<ClockEvent>
    requires Built(config, sessions, timed).Ok?
  {
    Deduped(config.duplicates, Stream(config, ValidSessions(config, sessions).value, timed)).value
  }

  lemma OriginsAreKept(config: Config, sessions: seq<Session>, timed: seq<ClockEvent>, e: ClockEvent)
    requires Built(config, sessions, timed).Ok?
    ensures e in Map(Origin, Built(config, sessions, timed).value) <==> e in Kept(config, sessions, timed)
  {
    BuildOrdersAndNumbers(config, sessions, timed);
    assert e in multiset(Map(Origin, Built(config, sessions, timed).value)) <==>
           e in multiset(Kept(config, sessions, timed));
  }

  lemma ValidSessionsAreSessions(config: Config, sessions: seq<Session>, s: Session)
    requires ValidSessions(config, sessions).Ok?
    ensures s in ValidSessions(config, sessions).value <==> s in sessions
  {
    SortedElements(ByTradeDate, sessions);
  }

  /** Nothing is made up: every event of the stream is a timed event or the opening or closing of a trading session,
      with the priority that is configured for its type, if one is. */
  lemma EveryEventHasSource(config: Config, sessions: seq<Session>, timed: seq<ClockEvent>, i: nat)
    requires Built(config, sessions, timed).Ok? && i < |Built(config, sessions, timed).value|
    ensures HasSource(config, sessions, timed, Origin(Built(config, sessions, timed).value[i]))
  {
    var out, valid := Built(config, sessions, timed).value, ValidSessions(config, sessions).value;
    var e := Origin(out[i]);
    assert Map(Origin, out)[i] == e;
    OriginsAreKept(config, sessions, timed, e);
    DedupedIsPart(config.duplicates, Stream(config, valid, timed), e);
    StreamHasSources(config, valid, timed, e);
    forall s ensures s in valid <==> s in sessions {
      ValidSessionsAreSessions(config, sessions, s);
    }
  }

  ghost predicate Occurs(out: seq<DeterministicEvent>, timestamp: int, eventType: string, hint: int) {
    exists e :: e in out && e.timestamp == timestamp && e.eventType == eventType && HintOf(e) == hint
  }

  lemma KeyOccurs(config: Config, sessions: seq<Session>, timed: seq<ClockEvent>, e: ClockEvent)
    requires Built(config, sessions, timed).Ok? && e in Stream(config, ValidSessions(config, sessions).value, timed)
    ensures Occurs(Built(config, sessions, timed).value, e.timestamp, e.eventType, e.hint)
  {
    var out := Built(config, sessions, timed).value;
    var kept := DedupedHasKey(config.duplicates, Stream(config, ValidSessions(config, sessions).value, timed), e);
    OriginsAreKept(config, sessions, timed, kept);
    var i :| 0 <= i < |out| && Map(Origin, out)[i] == kept;
    BuildOrdersAndNumbers(config, sessions, timed);
    assert out[i] == Numbered(kept, i + 1);
    assert out[i] in out;
  }

  /** Nothing is lost: for every timed event, and for the opening and closing of every trading session, the stream has
      an event at that time, of that type and with that hint. */
  lemma EverySourceOccurs(config: Config, sessions: seq<Session>, timed: seq<ClockEvent>)
    requires Built(config, sessions, timed).Ok?
    ensures forall t :: t in timed ==> Occurs(Built(config, sessions, timed).value, t.timestamp, t.eventType, t.hint)
    ensures forall s :: s in sessions && s.isTradingDay ==>
              && Occurs(Built(config, sessions, timed).value, s.open, "session_open", 0)
              && Occurs(Built(config, sessions, timed).value, s.close, "session_close", 0)
  {
    var valid := ValidSessions(config, sessions).value;
    forall t | t in timed ensures Occurs(Built(config, sessions, timed).value, t.timestamp, t.eventType, t.hint) {
      var e := TimedInStream(config, valid, timed, t);
      KeyOccurs(config, sessions, timed, e);
    }
    forall s | s in sessions && s.isTradingDay
      ensures Occurs(Built(config, sessions, timed).value, s.open, "session_open", 0)
      ensures Occurs(Built(config, sessions, timed).value, s.close, "session_close", 0)
    {
      ValidSessionsAreSessions(config, sessions, s);
      var first, last := SessionInStream(config, valid, timed, s);
      KeyOccurs(config, sessions, timed, first);
      KeyOccurs(config, sessions, timed, last);
    }
  }

  /** Unless all duplicates are kept, no two events of the stream share time, type and hint. */
  lemma NoDuplicates(config: Config, sessions: seq<Session>, timed: seq<ClockEvent>, i: nat, j: nat)
    requires Built(config, sessions, timed).Ok? && !config.duplicates.KeepAll?
    requires i < j < |Built(config, sessions, timed).value|
    ensures var out := Built(config, sessions, timed).value;
      !(out[i].timestamp == out[j].timestamp && out[i].eventType == out[j].eventType
        && HintOf(out[i]) == HintOf(out[j]))
  {
    var out, kept := Built(config, sessions, timed).value, Kept(config, sessions, timed);
    BuildOrdersAndNumbers(config, sessions, timed);
    forall x: nat, y: nat | x < y < |kept| ensures Key(kept[x]) != Key(kept[y]) {
      DedupedKeysDiffer(config.duplicates, Stream(config, ValidSessions(config, sessions).value, timed), x, y);
    }
    UniqueKeysPermutation(kept, Map(Origin, out));
    assert Key(Map(Origin, out)[i]) != Key(Map(Origin, out)[j]);
    assert out[i] == Numbered(Origin(out[i]), i + 1) && out[j] == Numbered(Origin(out[j]), j + 1);
  }

  /** When all duplicates are kept, there is one event for each source. */
  lemma KeepAllKeepsCount(config: Config, sessions: seq<Session>, timed: seq<ClockEvent>)
    requires config.duplicates.KeepAll? && Built(config, sessions, timed).Ok?
    ensures |Built(config, sessions, timed).value|
         == 2 * |Filter((s: Session) => s.isTradingDay, sessions)| + |timed|
  {
    var valid := ValidSessions(config, sessions).value;
    SortedPermutes(ByTradeDate, sessions);
    FilterPermutation((s: Session) => s.isTradingDay, valid, sessions);
    TwoPerSession(config, valid);
  }

  lemma {:induction false} TwoPerSession(config: Config, sessions: seq<Session>)
    ensures |FlatMap(SessionEvents(config), sessions)| == 2 * |Filter((s: Session) => s.isTradingDay, sessions)|
  {
    if sessions != [] {
      TwoPerSession(config, Front(sessions));
    }
  }
}
