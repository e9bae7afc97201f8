/** When exactly the event clock's result depends on the order of its inputs (`backend/backtesting/clock.py`). The
    session events always precede the timed ones and come in trade-date order, so not every order of the merged
    stream is an order of the inputs. */
module ClockDeterminism {
  import opened Results
  import opened Seqs
  import opened InsertionDict
  import opened StringOrder
  import opened StableSort
  import opened Clock

  function SessionStream(config: Config, valid: seq<Session>): seq<ClockEvent> {
    Map(Normalize(config), FlatMap(SessionEvents(config), valid))
  }

  function TimedStream(config: Config, timed: seq<ClockEvent>): seq<ClockEvent> {
    Map(Normalize(config), timed)
  }

  lemma StreamParts(config: Config, valid: seq<Session>, timed: seq<ClockEvent>)
    ensures Stream(config, valid, timed) == SessionStream(config, valid) + TimedStream(config, timed)
  {
  }

  /** The order of neither input can be told from the result. */
  ghost predicate BuildOrderBlind(config: Config, sessions: seq<Session>, timed: seq<ClockEvent>) {
    forall s, t | multiset(s) == multiset(sessions) && multiset(t) == multiset(timed) ::
      Built(config, s, t) == Built(config, sessions, timed)
  }

  predicate HasKey(events: seq<ClockEvent>, k: EventKey) {
    Filter(KeyIs(k), events) != []
  }

  /** The condition, on the normalised session events and timed events. */
  ghost predicate OrderHidden(policy: DuplicatePolicy, fixed: seq<ClockEvent>, timed: seq<ClockEvent>) {
    match policy
    case KeepFirst => forall a, b | a in timed && b in timed && Key(a) == Key(b) :: a == b || HasKey(fixed, Key(a))
    case KeepLast => EqualKeysEqualEvents(timed)
    case KeepAll => Separates(EventLeq, timed)
    case Raise => OneError(fixed + timed)
  }

  // ----- Session events of one key -----

  function DayOf(e: ClockEvent): int {
    if "trade_date" in e.payload && e.payload["trade_date"].Day? then e.payload["trade_date"].day else 0
  }

  predicate ByDay(a: ClockEvent, b: ClockEvent) { DayOf(a) <= DayOf(b) }

  /** The normalised event of a session's opening or closing. */
  function Made(config: Config, eventType: string, fallback: int, timestamp: int, day: int): ClockEvent {
    Normalize(config)(ClockEvent(
      timestamp, eventType, Priority(config, eventType, fallback), 0, map["trade_date" := Day(day)]))
  }

  predicate IsSessionEvent(config: Config, e: ClockEvent) {
    || e == Made(config, SESSION_OPEN, SESSION_OPEN_PRIORITY, e.timestamp, DayOf(e))
    || e == Made(config, SESSION_CLOSE, SESSION_CLOSE_PRIORITY, e.timestamp, DayOf(e))
  }

  /** On one trade date, session events with one key are equal. */
  lemma KeyAndDayDecide(config: Config, a: ClockEvent, b: ClockEvent)
    requires IsSessionEvent(config, a) && IsSessionEvent(config, b)
    requires Key(a) == Key(b) && DayOf(a) == DayOf(b)
    ensures a == b
  {
    assert |SESSION_OPEN| == 12 && |SESSION_CLOSE| == 13;
  }

  lemma EventsOfSession(config: Config, s: Session, e: ClockEvent)
    requires e in Map(Normalize(config), SessionEvents(config)(s))
    ensures IsSessionEvent(config, e) && DayOf(e) == s.tradeDate
  {
  }

  lemma SessionStreamNext(config: Config, valid: seq<Session>)
    requires valid != []
    ensures SessionStream(config, valid)
         == SessionStream(config, Front(valid)) + Map(Normalize(config), SessionEvents(config)(Last(valid)))
  {
  }

  lemma {:induction false} SessionStreamShape(config: Config, valid: seq<Session>, e: ClockEvent)
    requires e in SessionStream(config, valid)
    ensures IsSessionEvent(config, e) && exists s :: s in valid && s.tradeDate == DayOf(e)
  {
    SessionStreamNext(config, valid);
    SplitLast(valid);
    if e in SessionStream(config, Front(valid)) {
      SessionStreamShape(config, Front(valid), e);
    } else {
      EventsOfSession(config, Last(valid), e);
    }
  }

  lemma OrderedAppend(a: seq<ClockEvent>, b: seq<ClockEvent>, day: int)
    requires Ordered(ByDay, a)
    requires (forall e :: e in a ==> DayOf(e) <= day) && forall e :: e in b ==> DayOf(e) == day
    ensures Ordered(ByDay, a + b)
  {
    var all := a + b;
    forall i, j | 0 <= i < j < |all| ensures ByDay(all[i], all[j]) {
      assert i < |a| ==> all[i] in a;
      assert i >= |a| ==> all[i] in b;
      assert j >= |a| ==> all[j] in b;
    }
  }

  lemma {:induction false} SessionStreamByDay(config: Config, valid: seq<Session>)
    requires Ordered(ByTradeDate, valid)
    ensures Ordered(ByDay, SessionStream(config, valid))
  {
    if valid != [] {
      var front, last := Front(valid), Last(valid);
      SessionStreamByDay(config, front);
      SessionStreamNext(config, valid);
      forall e | e in SessionStream(config, front) ensures DayOf(e) <= last.tradeDate {
        SessionStreamShape(config, front, e);
        var s :| s in front && s.tradeDate == DayOf(e);
        assert ByTradeDate(s, last);
      }
      var events := Map(Normalize(config), SessionEvents(config)(last));
      forall e | e in events ensures DayOf(e) == last.tradeDate {
        EventsOfSession(config, last, e);
      }
      OrderedAppend(SessionStream(config, front), events, last.tradeDate);
    }
  }

  lemma SessionStreamPermutes(config: Config, a: seq<Session>, b: seq<Session>)
    requires multiset(a) == multiset(b)
    ensures multiset(SessionStream(config, a)) == multiset(SessionStream(config, b))
  {
    FlatMapPermutation(SessionEvents(config), a, b);
    MapPermutation(Normalize(config), FlatMap(SessionEvents(config), a), FlatMap(SessionEvents(config), b));
  }

  /** `p` holds of events of one key only. */
  ghost predicate WithinKey(p: ClockEvent -> bool) {
    forall a, b :: p(a) && p(b) ==> Key(a) == Key(b)
  }

  /** Whatever the order of the sessions, the session events of one key come in the same order. */
  lemma SameSessionEvents(config: Config, a: seq<Session>, b: seq<Session>, p: ClockEvent -> bool)
    requires multiset(a) == multiset(b) && Ordered(ByTradeDate, a) && Ordered(ByTradeDate, b) && WithinKey(p)
    ensures Filter(p, SessionStream(config, a)) == Filter(p, SessionStream(config, b))
  {
    var first, second := Filter(p, SessionStream(config, a)), Filter(p, SessionStream(config, b));
    SessionStreamPermutes(config, a, b);
    FilterPermutation(p, SessionStream(config, a), SessionStream(config, b));
    SessionStreamByDay(config, a);
    SessionStreamByDay(config, b);
    FilterOrdered(ByDay, p, SessionStream(config, a));
    FilterOrdered(ByDay, p, SessionStream(config, b));
    forall x, y | x in first && y in first && ByDay(x, y) && ByDay(y, x) ensures x == y {
      FilterElements(p, SessionStream(config, a), x);
      FilterElements(p, SessionStream(config, a), y);
      SessionStreamShape(config, a, x);
      SessionStreamShape(config, a, y);
      KeyAndDayDecide(config, x, y);
    }
    OrderedUnique(ByDay, first, second);
  }

  lemma KeyIsWithinKey(k: EventKey)
    ensures WithinKey(KeyIs(k))
  {
  }

  lemma TiedWithinKey(e: ClockEvent)
    ensures WithinKey(Tied(EventLeq, e))
  {
    forall a, b | Tied(EventLeq, e)(a) && Tied(EventLeq, e)(b) ensures Key(a) == Key(b) {
      TiedHaveKey(a, e);
      TiedHaveKey(b, e);
    }
  }

  lemma TiedHaveKey(a: ClockEvent, e: ClockEvent)
    requires EventLeq(a, e) && EventLeq(e, a)
    ensures Key(a) == Key(e)
  {
    if a.eventType != e.eventType {
      StrAntisymmetric(a.eventType, e.eventType);
    }
  }

  // ----- What KEEP_FIRST and KEEP_LAST keep -----

  lemma {:induction false} FirstOfKey(events: seq<ClockEvent>, k: EventKey)
    ensures var entries := ByKey(KeepFirst, events).value.entries;
      && (k in entries <==> HasKey(events, k))
      && (k in entries ==> entries[k] == Filter(KeyIs(k), events)[0])
  {
    if events != [] {
      FirstOfKey(Front(events), k);
    }
  }

  lemma {:induction false} LastOfKey(events: seq<ClockEvent>, k: EventKey)
    ensures var entries := ByKey(KeepLast, events).value.entries;
      && (k in entries <==> HasKey(events, k))
      && (k in entries ==> entries[k] == Last(Filter(KeyIs(k), events)))
  {
    if events != [] {
      LastOfKey(Front(events), k);
      LastEntryNext(events, k);
      assert Filter(KeyIs(k), events)
          == Filter(KeyIs(k), Front(events)) + if Key(Last(events)) == k then [Last(events)] else [];
    }
  }

  lemma LastEntryNext(events: seq<ClockEvent>, k: EventKey)
    requires events != []
    ensures var entries, before := ByKey(KeepLast, events).value.entries, ByKey(KeepLast, Front(events)).value.entries;
      entries == before[Key(Last(events)) := Last(events)]
  {
  }

  /** What the policy keeps of a key. */
  function Kept(policy: DuplicatePolicy, events: seq<ClockEvent>, k: EventKey): ClockEvent
    requires HasKey(events, k)
  {
    var same := Filter(KeyIs(k), events);
    if policy.KeepFirst? then same[0] else Last(same)
  }

  lemma KeptIsEntry(policy: DuplicatePolicy, events: seq<ClockEvent>, k: EventKey)
    requires policy.KeepFirst? || policy.KeepLast?
    ensures var entries := ByKey(policy, events).value.entries;
      (k in entries <==> HasKey(events, k)) && (k in entries ==> entries[k] == Kept(policy, events, k))
  {
    if policy.KeepFirst? {
      FirstOfKey(events, k);
    } else {
      LastOfKey(events, k);
    }
  }

  lemma SameKeptSameOutcome(policy: DuplicatePolicy, a: seq<ClockEvent>, b: seq<ClockEvent>)
    requires policy.KeepFirst? || policy.KeepLast?
    requires forall k :: HasKey(a, k) <==> HasKey(b, k)
    requires forall k :: HasKey(a, k) && HasKey(b, k) ==> Kept(policy, a, k) == Kept(policy, b, k)
    ensures Outcome(policy, a) == Outcome(policy, b)
  {
    var first, second := ByKey(policy, a).value, ByKey(policy, b).value;
    forall k ensures (k in first.entries <==> k in second.entries)
                  && (k in first.entries ==> second.entries[k] == first.entries[k])
    {
      KeptIsEntry(policy, a, k);
      KeptIsEntry(policy, b, k);
    }
    SameMap(first.entries, second.entries);
    KeptEventsDistinct(first);
    KeptEventsDistinct(second);
    SortedCanonicalEvents(first.Values(), second.Values());
  }

  lemma KeptInOutcome(policy: DuplicatePolicy, a: seq<ClockEvent>, b: seq<ClockEvent>, k: EventKey)
    requires policy.KeepFirst? || policy.KeepLast?
    requires Outcome(policy, a) == Outcome(policy, b) && HasKey(a, k) && HasKey(b, k)
    ensures Kept(policy, a, k) == Kept(policy, b, k)
  {
    KeptIsEntry(policy, a, k);
    KeptIsEntry(policy, b, k);
    var e := Kept(policy, a, k);
    KeyOfKept(policy, a, k);
    OutcomeHoldsKept(policy, a, e);
    OutcomeHoldsKept(policy, b, e);
  }

  lemma KeyOfKept(policy: DuplicatePolicy, events: seq<ClockEvent>, k: EventKey)
    requires HasKey(events, k)
    ensures Key(Kept(policy, events, k)) == k && Kept(policy, events, k) in events
  {
    FilterElements(KeyIs(k), events, Kept(policy, events, k));
  }

  /** In the merged stream: the first session event, or else the first timed one; the last timed event, or else the
      last session one. */
  lemma KeptOfParts(policy: DuplicatePolicy, fixed: seq<ClockEvent>, timed: seq<ClockEvent>, k: EventKey)
    requires HasKey(fixed + timed, k)
    ensures HasKey(fixed, k) || HasKey(timed, k)
    ensures policy.KeepFirst? ==>
      Kept(policy, fixed + timed, k) == if HasKey(fixed, k) then Kept(policy, fixed, k) else Kept(policy, timed, k)
    ensures !policy.KeepFirst? ==>
      Kept(policy, fixed + timed, k) == if HasKey(timed, k) then Kept(policy, timed, k) else Kept(policy, fixed, k)
  {
    FilterAppend(KeyIs(k), fixed, timed);
  }

  lemma HasKeyParts(fixed: seq<ClockEvent>, timed: seq<ClockEvent>, k: EventKey)
    ensures HasKey(fixed + timed, k) <==> HasKey(fixed, k) || HasKey(timed, k)
  {
    FilterAppend(KeyIs(k), fixed, timed);
  }

  lemma HasKeyAnyOrder(a: seq<ClockEvent>, b: seq<ClockEvent>, k: EventKey)
    requires multiset(a) == multiset(b)
    ensures HasKey(a, k) <==> HasKey(b, k)
  {
    FilterPermutation(KeyIs(k), a, b);
  }

  /** `a` and `b` are the session events of two orders of the sessions. */
  ghost predicate SameByKey(a: seq<ClockEvent>, b: seq<ClockEvent>) {
    && multiset(a) == multiset(b)
    && (forall k :: Filter(KeyIs(k), a) == Filter(KeyIs(k), b))
    && (forall e :: Filter(Tied(EventLeq, e), a) == Filter(Tied(EventLeq, e), b))
  }

  lemma SessionsAreSameByKey(config: Config, a: seq<Session>, b: seq<Session>)
    requires multiset(a) == multiset(b) && Ordered(ByTradeDate, a) && Ordered(ByTradeDate, b)
    ensures SameByKey(SessionStream(config, a), SessionStream(config, b))
  {
    SessionStreamPermutes(config, a, b);
    forall k ensures Filter(KeyIs(k), SessionStream(config, a)) == Filter(KeyIs(k), SessionStream(config, b)) {
      KeyIsWithinKey(k);
      SameSessionEvents(config, a, b, KeyIs(k));
    }
    forall e ensures
      Filter(Tied(EventLeq, e), SessionStream(config, a)) == Filter(Tied(EventLeq, e), SessionStream(config, b))
    {
      TiedWithinKey(e);
      SameSessionEvents(config, a, b, Tied(EventLeq, e));
    }
  }

  lemma TimedKeptAgree(policy: DuplicatePolicy, t: seq<ClockEvent>, u: seq<ClockEvent>, k: EventKey)
    requires multiset(t) == multiset(u) && HasKey(t, k)
    requires forall a, b | a in t && b in t && Key(a) == Key(b) && Key(a) == k :: a == b
    ensures HasKey(u, k) && Kept(policy, t, k) == Kept(policy, u, k)
  {
    HasKeyAnyOrder(t, u, k);
    KeyOfKept(policy, t, k);
    KeyOfKept(policy, u, k);
    assert Kept(policy, u, k) in multiset(t);
  }

  lemma SameKept(
    policy: DuplicatePolicy, fixed: seq<ClockEvent>, t: seq<ClockEvent>, other: seq<ClockEvent>, u: seq<ClockEvent>,
    k: EventKey)
    requires policy.KeepFirst? || policy.KeepLast?
    requires SameByKey(fixed, other) && multiset(t) == multiset(u) && OrderHidden(policy, fixed, t)
    requires HasKey(fixed + t, k)
    ensures HasKey(other + u, k) && Kept(policy, fixed + t, k) == Kept(policy, other + u, k)
  {
    assert Filter(KeyIs(k), fixed) == Filter(KeyIs(k), other);
    HasKeyParts(fixed, t, k);
    HasKeyParts(other, u, k);
    HasKeyAnyOrder(t, u, k);
    KeptOfParts(policy, fixed, t, k);
    KeptOfParts(policy, other, u, k);
    if HasKey(t, k) && (policy.KeepLast? || !HasKey(fixed, k)) {
      TimedKeptAgree(policy, t, u, k);
    }
  }

  lemma HiddenKeepsOutcome(
    policy: DuplicatePolicy, fixed: seq<ClockEvent>, t: seq<ClockEvent>, other: seq<ClockEvent>, u: seq<ClockEvent>)
    requires policy.KeepFirst? || policy.KeepLast?
    requires SameByKey(fixed, other) && multiset(t) == multiset(u) && OrderHidden(policy, fixed, t)
    ensures Outcome(policy, fixed + t) == Outcome(policy, other + u)
  {
    forall k ensures (HasKey(fixed + t, k) <==> HasKey(other + u, k))
                  && (HasKey(fixed + t, k) ==> Kept(policy, fixed + t, k) == Kept(policy, other + u, k))
    {
      HasKeyAnyOrder(fixed + t, other + u, k);
      if HasKey(fixed + t, k) {
        SameKept(policy, fixed, t, other, u, k);
      }
    }
    SameKeptSameOutcome(policy, fixed + t, other + u);
  }

  // ----- KEEP_ALL -----

  lemma SeparatedTies(t: seq<ClockEvent>, u: seq<ClockEvent>, e: ClockEvent)
    requires multiset(t) == multiset(u) && Separates(EventLeq, t)
    ensures Filter(Tied(EventLeq, e), t) == Filter(Tied(EventLeq, e), u)
  {
    assert Preorder(EventLeq) by { EventLeqIsPreorder(); }
    SortedCanonical(EventLeq, t, u);
    TiedKeepOrder(EventLeq, t, e);
    TiedKeepOrder(EventLeq, u, e);
  }

  lemma SeparatedKeepsOutcome(
    fixed: seq<ClockEvent>, t: seq<ClockEvent>, other: seq<ClockEvent>, u: seq<ClockEvent>)
    requires SameByKey(fixed, other) && multiset(t) == multiset(u) && Separates(EventLeq, t)
    ensures Outcome(KeepAll, fixed + t) == Outcome(KeepAll, other + u)
  {
    forall e ensures Filter(Tied(EventLeq, e), fixed + t) == Filter(Tied(EventLeq, e), other + u) {
      SeparatedTies(t, u, e);
      FilterAppend(Tied(EventLeq, e), fixed, t);
      FilterAppend(Tied(EventLeq, e), other, u);
    }
    assert Preorder(EventLeq) by { EventLeqIsPreorder(); }
    SameTiesSameSort(EventLeq, fixed + t, other + u);
  }

  // ----- The condition suffices -----

  lemma HiddenOutcome(
    policy: DuplicatePolicy, fixed: seq<ClockEvent>, t: seq<ClockEvent>, other: seq<ClockEvent>, u: seq<ClockEvent>)
    requires SameByKey(fixed, other) && multiset(t) == multiset(u) && OrderHidden(policy, fixed, t)
    ensures Outcome(policy, fixed + t) == Outcome(policy, other + u)
  {
    match policy
    case KeepAll => SeparatedKeepsOutcome(fixed, t, other, u);
    case Raise => RaiseIsBlind(fixed + t, other + u);
    case _ => HiddenKeepsOutcome(policy, fixed, t, other, u);
  }

  lemma ValidSessionsOrdered(config: Config, sessions: seq<Session>)
    requires ValidSessions(config, sessions).Ok?
    ensures Ordered(ByTradeDate, ValidSessions(config, sessions).value)
  {
    SortedOrders(ByTradeDate, sessions);
  }

  lemma OutcomeDecides(config: Config, s: seq<Session>, t: seq<ClockEvent>, v: seq<Session>, u: seq<ClockEvent>)
    requires ValidSessions(config, s).Ok? && ValidSessions(config, v).Ok?
    ensures Built(config, s, t) == Built(config, v, u) <==>
      Outcome(config.duplicates, SessionStream(config, ValidSessions(config, s).value) + TimedStream(config, t))
      == Outcome(config.duplicates, SessionStream(config, ValidSessions(config, v).value) + TimedStream(config, u))
  {
    BuiltFromOutcome(config, s, t);
    BuiltFromOutcome(config, v, u);
    StreamParts(config, ValidSessions(config, s).value, t);
    StreamParts(config, ValidSessions(config, v).value, u);
    if Built(config, s, t) == Built(config, v, u) && Built(config, s, t).Ok? {
      var first := Outcome(config.duplicates, Stream(config, ValidSessions(config, s).value, t)).value;
      var second := Outcome(config.duplicates, Stream(config, ValidSessions(config, v).value, u)).value;
      NumberingKeepsEvents(first);
      NumberingKeepsEvents(second);
    }
  }

  /** Determinism: under the condition, neither the order of the sessions nor the order of the timed events can be told
      from the result, which includes the error raised. */
  lemma HiddenIsBlind(config: Config, sessions: seq<Session>, timed: seq<ClockEvent>)
    requires ValidSessions(config, sessions).Ok? ==>
      OrderHidden(config.duplicates, SessionStream(config, ValidSessions(config, sessions).value),
                  TimedStream(config, timed))
    ensures BuildOrderBlind(config, sessions, timed)
  {
    forall s, t | multiset(s) == multiset(sessions) && multiset(t) == multiset(timed)
      ensures Built(config, s, t) == Built(config, sessions, timed)
    {
      ValidSessionsCanonical(config, sessions, s);
      if ValidSessions(config, sessions).Ok? {
        var v, w := ValidSessions(config, sessions).value, ValidSessions(config, s).value;
        ValidSessionsOrdered(config, sessions);
        ValidSessionsOrdered(config, s);
        SessionsAreSameByKey(config, v, w);
        MapPermutation(Normalize(config), timed, t);
        HiddenOutcome(config.duplicates, SessionStream(config, v), TimedStream(config, timed),
                      SessionStream(config, w), TimedStream(config, t));
        OutcomeDecides(config, sessions, timed, s, t);
      }
    }
  }

  // ----- The condition is necessary -----

  /** `u` is the timed stream of some order of the timed events. */
  ghost predicate TimedOrder(config: Config, timed: seq<ClockEvent>, u: seq<ClockEvent>) {
    exists t | multiset(t) == multiset(timed) :: TimedStream(config, t) == u
  }

  lemma TimedFirst(config: Config, timed: seq<ClockEvent>, a: ClockEvent) returns (u: seq<ClockEvent>)
    requires a in TimedStream(config, timed)
    ensures TimedOrder(config, timed, u) && u != [] && u[0] == a
  {
    var i :| 0 <= i < |timed| && TimedStream(config, timed)[i] == a;
    var t := MoveToFront(timed, timed[i]);
    u := TimedStream(config, t);
  }

  lemma TimedLast(config: Config, timed: seq<ClockEvent>, a: ClockEvent) returns (u: seq<ClockEvent>)
    requires a in TimedStream(config, timed)
    ensures TimedOrder(config, timed, u) && u != [] && Last(u) == a
  {
    var i :| 0 <= i < |timed| && TimedStream(config, timed)[i] == a;
    var t := MoveToFront(timed, timed[i]);
    assert t == [t[0]] + t[1..];
    var moved := t[1..] + [t[0]];
    assert multiset(moved) == multiset(t);
    u := TimedStream(config, moved);
  }

  ghost predicate OutcomeBlind(config: Config, fixed: seq<ClockEvent>, timed: seq<ClockEvent>) {
    forall u | TimedOrder(config, timed, u) :: SameOutcome(config, fixed + u, fixed + TimedStream(config, timed))
  }

  ghost predicate SameOutcome(config: Config, a: seq<ClockEvent>, b: seq<ClockEvent>) {
    Outcome(config.duplicates, a) == Outcome(config.duplicates, b)
  }

  lemma BlindOutcome(config: Config, sessions: seq<Session>, timed: seq<ClockEvent>)
    requires ValidSessions(config, sessions).Ok? && BuildOrderBlind(config, sessions, timed)
    ensures OutcomeBlind(config, SessionStream(config, ValidSessions(config, sessions).value), timed)
  {
    var fixed := SessionStream(config, ValidSessions(config, sessions).value);
    forall u | TimedOrder(config, timed, u)
      ensures SameOutcome(config, fixed + u, fixed + TimedStream(config, timed))
    {
      var t :| multiset(t) == multiset(timed) && TimedStream(config, t) == u;
      assert Built(config, sessions, t) == Built(config, sessions, timed);
      OutcomeDecides(config, sessions, t, sessions, timed);
    }
  }

  lemma KeepsFirstTimed(fixed: seq<ClockEvent>, u: seq<ClockEvent>)
    requires u != [] && !HasKey(fixed, Key(u[0]))
    ensures HasKey(fixed + u, Key(u[0])) && Kept(KeepFirst, fixed + u, Key(u[0])) == u[0]
  {
    FilterAppend(KeyIs(Key(u[0])), fixed, u);
    FilterFirst(KeyIs(Key(u[0])), u);
  }

  lemma KeepsLastTimed(fixed: seq<ClockEvent>, u: seq<ClockEvent>)
    requires u != []
    ensures HasKey(fixed + u, Key(Last(u))) && Kept(KeepLast, fixed + u, Key(Last(u))) == Last(u)
  {
    assert Front(fixed + u) == fixed + Front(u) && Last(fixed + u) == Last(u);
  }

  lemma BlindFirst(config: Config, fixed: seq<ClockEvent>, timed: seq<ClockEvent>, a: ClockEvent, b: ClockEvent)
    requires config.duplicates.KeepFirst? && OutcomeBlind(config, fixed, timed)
    requires a in TimedStream(config, timed) && b in TimedStream(config, timed) && Key(a) == Key(b)
    requires !HasKey(fixed, Key(a))
    ensures a == b
  {
    var u := TimedFirst(config, timed, a);
    var v := TimedFirst(config, timed, b);
    KeepsFirstTimed(fixed, u);
    KeepsFirstTimed(fixed, v);
    assert Outcome(KeepFirst, fixed + u) == Outcome(KeepFirst, fixed + v);
    KeptInOutcome(KeepFirst, fixed + u, fixed + v, Key(a));
  }

  lemma BlindLast(config: Config, fixed: seq<ClockEvent>, timed: seq<ClockEvent>, a: ClockEvent, b: ClockEvent)
    requires config.duplicates.KeepLast? && OutcomeBlind(config, fixed, timed)
    requires a in TimedStream(config, timed) && b in TimedStream(config, timed) && Key(a) == Key(b)
    ensures a == b
  {
    var u := TimedLast(config, timed, a);
    var v := TimedLast(config, timed, b);
    KeepsLastTimed(fixed, u);
    KeepsLastTimed(fixed, v);
    assert Outcome(KeepLast, fixed + u) == Outcome(KeepLast, fixed + v);
    KeptInOutcome(KeepLast, fixed + u, fixed + v, Key(a));
  }

  /** Behind the session events that tie with it, the first timed event is the next one. */
  lemma TieShowsFirst(fixed: seq<ClockEvent>, u: seq<ClockEvent>, a: ClockEvent)
    requires u != [] && EventLeq(u[0], a) && EventLeq(a, u[0])
    ensures var n, ties := |Filter(Tied(EventLeq, a), fixed)|, Filter(Tied(EventLeq, a), Sorted(EventLeq, fixed + u));
      n < |ties| && ties[n] == u[0]
  {
    assert Preorder(EventLeq) by { EventLeqIsPreorder(); }
    TiedKeepOrder(EventLeq, fixed + u, a);
    FilterAppend(Tied(EventLeq, a), fixed, u);
    FilterFirst(Tied(EventLeq, a), u);
  }

  lemma BlindTies(config: Config, fixed: seq<ClockEvent>, timed: seq<ClockEvent>, a: ClockEvent, b: ClockEvent)
    requires config.duplicates.KeepAll? && OutcomeBlind(config, fixed, timed)
    requires a in TimedStream(config, timed) && b in TimedStream(config, timed) && EventLeq(a, b) && EventLeq(b, a)
    ensures a == b
  {
    var u := TimedFirst(config, timed, a);
    var v := TimedFirst(config, timed, b);
    StrTotal(a.eventType, a.eventType);
    TieShowsFirst(fixed, u, a);
    TieShowsFirst(fixed, v, a);
    assert Outcome(KeepAll, fixed + u) == Outcome(KeepAll, fixed + v);
  }

  // ----- RAISE -----

  lemma LastKeyIsNew(events: seq<ClockEvent>)
    requires events != [] && UniqueKeys(events)
    ensures !HasKey(Front(events), Key(Last(events)))
  {
    forall e | e in Front(events) ensures Key(e) != Key(Last(events)) {
      var i :| 0 <= i < |events| - 1 && events[i] == e;
    }
    FilterNone(KeyIs(Key(Last(events))), Front(events));
  }

  lemma {:induction false} AtMostOneOfKey(events: seq<ClockEvent>, k: EventKey)
    requires UniqueKeys(events)
    ensures |Filter(KeyIs(k), events)| <= 1
  {
    if events != [] {
      AtMostOneOfKey(Front(events), k);
      LastKeyIsNew(events);
    }
  }

  /** A new event whose key has been seen is reported. */
  lemma ReportsSeen(events: seq<ClockEvent>, e: ClockEvent, rest: seq<ClockEvent>)
    requires ByKey(Raise, events).Ok? && HasKey(events, Key(e))
    ensures Deduped(Raise, events + [e] + rest) == Err(DuplicateEvent(e.timestamp, e.eventType))
  {
    var seen := Filter(KeyIs(Key(e)), events)[0];
    FilterElements(KeyIs(Key(e)), events, seen);
    assert Front(events + [e]) == events;
    var all := events + [e] + rest;
    assert all[..|events| + 1] == events + [e];
    ByKeyErrorSticks(Raise, all, |events| + 1);
  }

  lemma {:induction false} KeyCountOfTimed(config: Config, timed: seq<ClockEvent>, k: EventKey)
    ensures TimedStream(config, Filter(KeyIs(k), timed)) == Filter(KeyIs(k), TimedStream(config, timed))
  {
    if timed != [] {
      KeyCountOfTimed(config, Front(timed), k);
      assert Front(TimedStream(config, timed)) == TimedStream(config, Front(timed));
      assert Key(Last(TimedStream(config, timed))) == Key(Last(timed));
    }
  }

  lemma TimedAppend(config: Config, a: seq<ClockEvent>, b: seq<ClockEvent>)
    ensures TimedStream(config, a + b) == TimedStream(config, a) + TimedStream(config, b)
  {
  }

  /** The timed events of one key, moved to the front. */
  lemma KeyFirst(config: Config, timed: seq<ClockEvent>, k: EventKey) returns (rest: seq<ClockEvent>)
    ensures TimedOrder(config, timed, Filter(KeyIs(k), TimedStream(config, timed)) + rest)
  {
    var same, others := Filter(KeyIs(k), timed), Filter((e: ClockEvent) => Key(e) != k, timed);
    FilterParts(k, timed);
    KeyCountOfTimed(config, timed, k);
    TimedAppend(config, same, others);
    rest := TimedStream(config, others);
    OrderOfTimed(config, timed, same + others);
  }

  lemma OrderOfTimed(config: Config, timed: seq<ClockEvent>, t: seq<ClockEvent>)
    requires multiset(t) == multiset(timed)
    ensures TimedOrder(config, timed, TimedStream(config, t))
  {
  }

  lemma SameHaveKey(events: seq<ClockEvent>, k: EventKey)
    ensures forall e :: e in Filter(KeyIs(k), events) ==> Key(e) == k
  {
    forall e | e in Filter(KeyIs(k), events) ensures Key(e) == k {
      FilterElements(KeyIs(k), events, e);
    }
  }

  /** The order `u` of the timed events makes RAISE report the key. */
  ghost predicate Reports(
    config: Config, fixed: seq<ClockEvent>, timed: seq<ClockEvent>, u: seq<ClockEvent>, k: EventKey)
  {
    TimedOrder(config, timed, u) && Deduped(Raise, fixed + u) == Err(DuplicateEvent(k.timestamp, k.eventType))
  }

  lemma ReportWithSession(config: Config, fixed: seq<ClockEvent>, timed: seq<ClockEvent>, k: EventKey)
    returns (u: seq<ClockEvent>)
    requires ByKey(Raise, fixed).Ok? && HasKey(fixed, k) && HasKey(TimedStream(config, timed), k)
    ensures Reports(config, fixed, timed, u, k)
  {
    var same := Filter(KeyIs(k), TimedStream(config, timed));
    SameHaveKey(TimedStream(config, timed), k);
    var rest := KeyFirst(config, timed, k);
    u := same + rest;
    assert u[0] == same[0] && same[0] in same;
    ReportsSessionKey(fixed, u);
  }

  lemma ReportWithTimed(config: Config, fixed: seq<ClockEvent>, timed: seq<ClockEvent>, k: EventKey)
    returns (u: seq<ClockEvent>)
    requires ByKey(Raise, fixed).Ok? && !HasKey(fixed, k) && Shared(TimedStream(config, timed), k)
    ensures Reports(config, fixed, timed, u, k)
  {
    var same := Filter(KeyIs(k), TimedStream(config, timed));
    SameHaveKey(TimedStream(config, timed), k);
    var rest := KeyFirst(config, timed, k);
    u := same + rest;
    assert same[0] in same && same[1] in same;
    SplitTwo(fixed, same, rest);
    ReportsTimedKey(fixed, same[0], same[1], same[2..] + rest);
  }

  lemma SplitTwo(fixed: seq<ClockEvent>, same: seq<ClockEvent>, rest: seq<ClockEvent>)
    requires |same| >= 2
    ensures fixed + (same + rest) == fixed + [same[0]] + [same[1]] + (same[2..] + rest)
  {
  }

  /** When the session events have distinct keys, some order of the timed events makes RAISE report any shared key. */
  lemma ReportTimed(config: Config, fixed: seq<ClockEvent>, timed: seq<ClockEvent>, k: EventKey)
    returns (u: seq<ClockEvent>)
    requires UniqueKeys(fixed) && Shared(fixed + TimedStream(config, timed), k)
    ensures Reports(config, fixed, timed, u, k)
  {
    UniqueByKey(Raise, fixed);
    SharedParts(fixed, TimedStream(config, timed), k);
    if HasKey(fixed, k) {
      u := ReportWithSession(config, fixed, timed, k);
    } else {
      u := ReportWithTimed(config, fixed, timed, k);
    }
  }

  lemma SharedParts(fixed: seq<ClockEvent>, t: seq<ClockEvent>, k: EventKey)
    requires UniqueKeys(fixed) && Shared(fixed + t, k)
    ensures HasKey(t, k) && (HasKey(fixed, k) || Shared(t, k))
  {
    FilterAppend(KeyIs(k), fixed, t);
    AtMostOneOfKey(fixed, k);
  }

  lemma ReportsSessionKey(fixed: seq<ClockEvent>, u: seq<ClockEvent>)
    requires ByKey(Raise, fixed).Ok? && u != [] && HasKey(fixed, Key(u[0]))
    ensures Deduped(Raise, fixed + u) == Err(DuplicateEvent(u[0].timestamp, u[0].eventType))
  {
    var e, rest := u[0], u[1..];
    assert fixed + u == fixed + [e] + rest;
    assert Deduped(Raise, fixed + [e] + rest) == Err(DuplicateEvent(e.timestamp, e.eventType)) by {
      ReportsSeen(fixed, e, rest);
    }
  }

  lemma ReportsTimedKey(fixed: seq<ClockEvent>, a: ClockEvent, b: ClockEvent, rest: seq<ClockEvent>)
    requires ByKey(Raise, fixed).Ok? && Key(a) == Key(b) && !HasKey(fixed, Key(a))
    ensures Deduped(Raise, fixed + [a] + [b] + rest) == Err(DuplicateEvent(a.timestamp, a.eventType))
  {
    NewKeyIsAccepted(fixed, a);
    ReportsSeen(fixed + [a], b, rest);
  }

  lemma NewKeyIsAccepted(events: seq<ClockEvent>, e: ClockEvent)
    requires ByKey(Raise, events).Ok? && !HasKey(events, Key(e))
    ensures ByKey(Raise, events + [e]).Ok? && HasKey(events + [e], Key(e))
  {
    assert Front(events + [e]) == events;
    if i :| 0 <= i < |events| && Key(events[i]) == Key(e) {
      FilterElements(KeyIs(Key(e)), events, events[i]);
    }
  }

  ghost predicate Raises(events: seq<ClockEvent>, k: EventKey) {
    Outcome(Raise, events) == Err(DuplicateEvent(k.timestamp, k.eventType))
  }

  lemma BlindError(config: Config, fixed: seq<ClockEvent>, timed: seq<ClockEvent>, k: EventKey)
    requires config.duplicates.Raise? && OutcomeBlind(config, fixed, timed) && UniqueKeys(fixed)
    requires Shared(fixed + TimedStream(config, timed), k)
    ensures Raises(fixed + TimedStream(config, timed), k)
  {
    var u := ReportTimed(config, fixed, timed, k);
    assert SameOutcome(config, fixed + u, fixed + TimedStream(config, timed));
  }

  lemma RaisesOneError(events: seq<ClockEvent>)
    requires forall k :: Shared(events, k) ==> Raises(events, k)
    ensures OneError(events)
  {
    forall k, l | Shared(events, k) && Shared(events, l)
      ensures k.timestamp == l.timestamp && k.eventType == l.eventType
    {
      assert Raises(events, k) && Raises(events, l);
    }
  }

  /** When session events share a key, RAISE reports one of them, and the timed events play no part. */
  lemma SessionsAreReportedFirst(
    config: Config, sessions: seq<Session>, timed: seq<ClockEvent>, other: seq<ClockEvent>)
    requires config.duplicates.Raise? && ValidSessions(config, sessions).Ok?
    requires !UniqueKeys(SessionStream(config, ValidSessions(config, sessions).value))
    ensures Built(config, sessions, timed).Err? && Built(config, sessions, timed) == Built(config, sessions, other)
  {
    var fixed := SessionStream(config, ValidSessions(config, sessions).value);
    RaiseIffDuplicate(fixed);
    StreamParts(config, ValidSessions(config, sessions).value, timed);
    StreamParts(config, ValidSessions(config, sessions).value, other);
    ReportedAlready(fixed, TimedStream(config, timed));
    ReportedAlready(fixed, TimedStream(config, other));
  }

  lemma ReportedAlready(fixed: seq<ClockEvent>, u: seq<ClockEvent>)
    requires ByKey(Raise, fixed).Err?
    ensures ByKey(Raise, fixed + u) == ByKey(Raise, fixed)
  {
    assert (fixed + u)[..|fixed|] == fixed;
    ByKeyErrorSticks(Raise, fixed + u, |fixed|);
  }

  // ----- The order of the sessions -----

  lemma SameKeysSeen(a: seq<ClockEvent>, b: seq<ClockEvent>, k: EventKey)
    requires multiset(a) == multiset(b) && ByKey(Raise, a).Ok? && ByKey(Raise, b).Ok?
    ensures k in ByKey(Raise, a).value.entries <==> k in ByKey(Raise, b).value.entries
  {
    if k in ByKey(Raise, a).value.entries {
      KeyOccurs(a, b, k);
    }
    if k in ByKey(Raise, b).value.entries {
      KeyOccurs(b, a, k);
    }
  }

  /** RAISE accepts both, or fails on both alike. */
  ghost predicate RaisesAlike(a: seq<ClockEvent>, b: seq<ClockEvent>) {
    && (ByKey(Raise, a).Ok? <==> ByKey(Raise, b).Ok?)
    && (ByKey(Raise, a).Err? ==> ByKey(Raise, a) == ByKey(Raise, b))
  }

  lemma RaisesAlikeNext(a: seq<ClockEvent>, b: seq<ClockEvent>, e: ClockEvent)
    requires multiset(a) == multiset(b) && RaisesAlike(a, b)
    ensures RaisesAlike(a + [e], b + [e])
  {
    assert Front(a + [e]) == a && Front(b + [e]) == b;
    if ByKey(Raise, a).Ok? {
      SameKeysSeen(a, b, Key(e));
    }
  }

  /** Behind session events that it accepts, RAISE reports the same timed event for every order of the sessions. */
  lemma {:induction false} SameDuplicate(fixed: seq<ClockEvent>, other: seq<ClockEvent>, t: seq<ClockEvent>)
    requires multiset(fixed) == multiset(other) && RaisesAlike(fixed, other)
    ensures RaisesAlike(fixed + t, other + t)
  {
    if t == [] {
      assert fixed + t == fixed && other + t == other;
    } else {
      var a, b := fixed + Front(t), other + Front(t);
      AppendLast(fixed, t);
      AppendLast(other, t);
      assert RaisesAlike(a, b) by {
        SameDuplicate(fixed, other, Front(t));
      }
      assert RaisesAlike(a + [Last(t)], b + [Last(t)]) by {
        RaisesAlikeNext(a, b, Last(t));
      }
    }
  }

  lemma AppendLast(a: seq<ClockEvent>, t: seq<ClockEvent>)
    requires t != []
    ensures a + t == a + Front(t) + [Last(t)]
  {
  }

  lemma SameRaised(fixed: seq<ClockEvent>, other: seq<ClockEvent>, t: seq<ClockEvent>)
    requires multiset(fixed) == multiset(other) && UniqueKeys(fixed)
    ensures Outcome(Raise, fixed + t) == Outcome(Raise, other + t)
  {
    UniqueKeysPermutation(fixed, other);
    UniqueByKey(Raise, fixed);
    UniqueByKey(Raise, other);
    SameDuplicate(fixed, other, t);
    if ByKey(Raise, fixed + t).Ok? {
      RaiseOkIsUnique(fixed + t);
      UniqueKeysAreInsensitive(Raise, fixed + t);
      RaiseIsBlind(fixed + t, other + t);
    }
  }

  lemma SameSelected(p: ClockEvent -> bool, fixed: seq<ClockEvent>, other: seq<ClockEvent>, t: seq<ClockEvent>)
    requires Filter(p, fixed) == Filter(p, other)
    ensures Filter(p, fixed + t) == Filter(p, other + t)
  {
    FilterAppend(p, fixed, t);
    FilterAppend(p, other, t);
  }

  lemma SameKeptEvent(policy: DuplicatePolicy, a: seq<ClockEvent>, b: seq<ClockEvent>)
    requires policy.KeepFirst? || policy.KeepLast?
    requires forall k :: Filter(KeyIs(k), a) == Filter(KeyIs(k), b)
    ensures Outcome(policy, a) == Outcome(policy, b)
  {
    forall k ensures (HasKey(a, k) <==> HasKey(b, k)) && (HasKey(a, k) ==> Kept(policy, a, k) == Kept(policy, b, k)) {
      assert Filter(KeyIs(k), a) == Filter(KeyIs(k), b);
    }
    SameKeptSameOutcome(policy, a, b);
  }

  lemma SessionsOutcome(policy: DuplicatePolicy, fixed: seq<ClockEvent>, other: seq<ClockEvent>, t: seq<ClockEvent>)
    requires SameByKey(fixed, other) && (policy.Raise? ==> UniqueKeys(fixed))
    ensures Outcome(policy, fixed + t) == Outcome(policy, other + t)
  {
    match policy
    case KeepAll =>
      forall e ensures Filter(Tied(EventLeq, e), fixed + t) == Filter(Tied(EventLeq, e), other + t) {
        SameSelected(Tied(EventLeq, e), fixed, other, t);
      }
      assert Preorder(EventLeq) by { EventLeqIsPreorder(); }
      SameTiesSameSort(EventLeq, fixed + t, other + t);
    case Raise => SameRaised(fixed, other, t);
    case _ =>
      forall k ensures Filter(KeyIs(k), fixed + t) == Filter(KeyIs(k), other + t) {
        SameSelected(KeyIs(k), fixed, other, t);
      }
      SameKeptEvent(policy, fixed + t, other + t);
  }

  /** The order of the sessions never shows, whatever keys the events share, except that RAISE may report another one
      of several keys that session events share. */
  lemma SessionOrderNeverShows(config: Config, s1: seq<Session>, s2: seq<Session>, timed: seq<ClockEvent>)
    requires multiset(s1) == multiset(s2)
    requires config.duplicates.Raise? && ValidSessions(config, s1).Ok? ==>
      UniqueKeys(SessionStream(config, ValidSessions(config, s1).value))
    ensures Built(config, s1, timed) == Built(config, s2, timed)
  {
    ValidSessionsCanonical(config, s1, s2);
    if ValidSessions(config, s1).Ok? {
      var v, w := ValidSessions(config, s1).value, ValidSessions(config, s2).value;
      ValidSessionsOrdered(config, s1);
      ValidSessionsOrdered(config, s2);
      SessionsAreSameByKey(config, v, w);
      SessionsOutcome(config.duplicates, SessionStream(config, v), SessionStream(config, w),
                      TimedStream(config, timed));
      OutcomeDecides(config, s1, timed, s2, timed);
    }
  }

  // ----- All four policies -----

  lemma BlindIsHidden(config: Config, fixed: seq<ClockEvent>, timed: seq<ClockEvent>)
    requires OutcomeBlind(config, fixed, timed)
    requires config.duplicates.Raise? ==> UniqueKeys(fixed)
    ensures OrderHidden(config.duplicates, fixed, TimedStream(config, timed))
  {
    match config.duplicates
    case KeepFirst => BlindHidesFirst(config, fixed, timed);
    case KeepLast => BlindHidesLast(config, fixed, timed);
    case KeepAll => BlindHidesTies(config, fixed, timed);
    case Raise => BlindHidesErrors(config, fixed, timed);
  }

  lemma BlindHidesFirst(config: Config, fixed: seq<ClockEvent>, timed: seq<ClockEvent>)
    requires config.duplicates.KeepFirst? && OutcomeBlind(config, fixed, timed)
    ensures OrderHidden(KeepFirst, fixed, TimedStream(config, timed))
  {
    var t := TimedStream(config, timed);
    forall a, b | a in t && b in t && Key(a) == Key(b) ensures a == b || HasKey(fixed, Key(a)) {
      if !HasKey(fixed, Key(a)) {
        BlindFirst(config, fixed, timed, a, b);
      }
    }
  }

  lemma BlindHidesLast(config: Config, fixed: seq<ClockEvent>, timed: seq<ClockEvent>)
    requires config.duplicates.KeepLast? && OutcomeBlind(config, fixed, timed)
    ensures EqualKeysEqualEvents(TimedStream(config, timed))
  {
    var t := TimedStream(config, timed);
    forall a, b | a in t && b in t && Key(a) == Key(b) ensures a == b {
      BlindLast(config, fixed, timed, a, b);
    }
  }

  lemma BlindHidesTies(config: Config, fixed: seq<ClockEvent>, timed: seq<ClockEvent>)
    requires config.duplicates.KeepAll? && OutcomeBlind(config, fixed, timed)
    ensures Separates(EventLeq, TimedStream(config, timed))
  {
    var t := TimedStream(config, timed);
    forall a, b | a in t && b in t && EventLeq(a, b) && EventLeq(b, a) ensures a == b {
      BlindTies(config, fixed, timed, a, b);
    }
  }

  lemma BlindHidesErrors(config: Config, fixed: seq<ClockEvent>, timed: seq<ClockEvent>)
    requires config.duplicates.Raise? && OutcomeBlind(config, fixed, timed) && UniqueKeys(fixed)
    ensures OneError(fixed + TimedStream(config, timed))
  {
    forall k | Shared(fixed + TimedStream(config, timed), k) ensures Raises(fixed + TimedStream(config, timed), k) {
      BlindError(config, fixed, timed, k);
    }
    RaisesOneError(fixed + TimedStream(config, timed));
  }

  /** When exactly the order of the inputs of `build` does not matter, provided the sessions are valid. KEEP_FIRST:
      timed events with one key are equal, unless a session event has that key. KEEP_LAST: timed events with one key are
      equal. KEEP_ALL: the sort key tells the timed events apart. RAISE, if the session events have distinct keys: all
      keys that occur twice have one timestamp and type. */
  lemma BuildOrderBlindIff(config: Config, sessions: seq<Session>, timed: seq<ClockEvent>)
    requires config.duplicates.Raise? && ValidSessions(config, sessions).Ok? ==>
      UniqueKeys(SessionStream(config, ValidSessions(config, sessions).value))
    ensures BuildOrderBlind(config, sessions, timed) <==>
      (ValidSessions(config, sessions).Ok? ==>
         OrderHidden(config.duplicates, SessionStream(config, ValidSessions(config, sessions).value),
                     TimedStream(config, timed)))
  {
    if BuildOrderBlind(config, sessions, timed) && ValidSessions(config, sessions).Ok? {
      BlindOutcome(config, sessions, timed);
      BlindIsHidden(config, SessionStream(config, ValidSessions(config, sessions).value), timed);
    }
    if ValidSessions(config, sessions).Ok? ==>
         OrderHidden(config.duplicates, SessionStream(config, ValidSessions(config, sessions).value),
                     TimedStream(config, timed))
    {
      HiddenIsBlind(config, sessions, timed);
    }
  }
}
