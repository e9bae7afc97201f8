/** The reconstruction of trades applied to the trade ledger that a run of the event loop leaves
    (`backend/backtesting/engine.py`, `backend/backtesting/reconstruction.py`). */
module EngineReconstruction {
  import opened Results
  import opened Seqs
  import opened Engine
  import opened EngineAccounting
  import Grouping
  import Reconstruction
  import StableSort
  import TradeContents

  /** How a record of the event loop becomes one of the reconstruction: its strategy id, and how the entries that
      its payload has are read. */
  datatype Export = Export(
    strategyId: string, number: (LedgerRecord, string) -> real, text: LedgerRecord -> string,
    checksum: LedgerRecord -> string)

  /** The keys of the payload dictionary that the event loop writes. */
  function Keys(r: LedgerRecord): set<string> {
    match r.payload
    case OfEvent(payload) => if r.kind.CorporateAction? then {"raw"} else payload.Keys
    case OfError(_) => {"error"}
    case OfEntry(_) => {"metadata"}
    case OfClose(_, _) => {"management_reason", "roll_eligible"}
    case OfExpiration(_) => {"exercise_style", "settlement_pending"}
  }

  function NumberAt(x: Export, r: LedgerRecord, key: string): Option<real> {
    if key in Keys(r) then Some(x.number(r, key)) else None
  }

  function TypeName(kind: RecordKind): string {
    match kind
    case EventRecord => "event"
    case FailureRecord => "failure"
    case PositionOpen => "position_open"
    case PositionClose => "position_close"
    case ExpirationRecord => "expiration"
    case CorporateAction => "corporate_action"
  }

  function Exported(x: Export): LedgerRecord -> Reconstruction.LedgerRecord {
    (r: LedgerRecord) =>
      Reconstruction.LedgerRecord(
        r.timestamp, x.strategyId, r.positionId, TypeName(r.kind), r.sequenceNumber,
        Reconstruction.Payload(
          NumberAt(x, r, "realized_pnl"), NumberAt(x, r, "fees"), NumberAt(x, r, "cash_movement"),
          NumberAt(x, r, "capital_usage"), if "event_id" in Keys(r) then x.text(r) else "", x.text(r)),
        x.checksum(r))
  }

  function ExportedLedger(x: Export, s: State): seq<Reconstruction.LedgerRecord> {
    Map(Exported(x), s.tradeLedger)
  }

  function TradesOf(x: Export, s: State): seq<Reconstruction.Trade> {
    Reconstruction.Trades(ExportedLedger(x, s))
  }

  // ----- The trade ledger holds openings and closings of positions, and nothing else -----

  ghost predicate IsTradeLedger(ledger: seq<LedgerRecord>) {
    forall r :: r in ledger ==> && (r.kind.PositionOpen? || r.kind.PositionClose?) && r.positionId.Some?
                                && (r.payload.OfEntry? || r.payload.OfClose?)
  }

  lemma {:induction false} SweepWritesCloses(s: State, input: Input, n: nat)
    ensures IsTradeLedger(SweepTo(input.event, input.answers.visits, n).records)
  {
    if n > 0 {
      SweepWritesCloses(s, input, n - 1);
    }
  }

  lemma EventKeepsTradeLedger(strict: bool, s: State, input: Input)
    requires IsTradeLedger(s.tradeLedger)
    ensures IsTradeLedger(After(strict, s, input).tradeLedger)
  {
    if input.event.eventType in LIFECYCLE_EVENTS && EntryError(input.answers).None? {
      SweepWritesCloses(s, input, |Entered(Announced(s, input.event), input).open|);
    }
  }

  lemma {:induction false} RunKeepsTradeLedger(strict: bool, capital: real, inputs: seq<Input>)
    ensures IsTradeLedger(Run(strict, capital, inputs).tradeLedger)
  {
    if inputs != [] {
      RunKeepsTradeLedger(strict, capital, Front(inputs));
      EventKeepsTradeLedger(strict, Run(strict, capital, Front(inputs)), Last(inputs));
    }
  }

  // ----- What the reconstruction says about the run -----

  lemma RecordOfKind(kind: RecordKind, ledger: seq<LedgerRecord>, p: string)
    requires IsTradeLedger(ledger)
    ensures p in RecordIds(OfKind(kind, ledger)) <==>
            exists r :: r in ledger && r.kind == kind && r.positionId == Some(p)
  {
    var chosen := OfKind(kind, ledger);
    forall r ensures r in chosen <==> r in ledger && r.kind == kind {
      FilterElements((x: LedgerRecord) => x.kind == kind, ledger, r);
    }
    if p in RecordIds(chosen) {
      var i :| 0 <= i < |chosen| && RecordIds(chosen)[i] == p;
      assert chosen[i] in ledger && chosen[i].positionId == Some(p);
    }
    if r :| r in ledger && r.kind == kind && r.positionId == Some(p) {
      var i :| 0 <= i < |chosen| && chosen[i] == r;
      assert RecordIds(chosen)[i] == p;
    }
  }

  lemma ClosingIsCloseRecord(x: Export, s: State, p: string)
    requires IsTradeLedger(s.tradeLedger)
    ensures Reconstruction.HasClosingRecord(ExportedLedger(x, s), p) <==>
            p in RecordIds(OfKind(PositionClose, s.tradeLedger))
  {
    RecordOfKind(PositionClose, s.tradeLedger, p);
    if r :| r in ExportedLedger(x, s) && r.positionId == Some(p) && Reconstruction.IsClosing(r) {
      var origin := Origin(x, s, r);
      ClosingKind(x, origin);
    }
    if r :| r in s.tradeLedger && r.kind == PositionClose && r.positionId == Some(p) {
      ClosingKind(x, r);
      ExportedIsListed(x, s, r);
    }
  }

  lemma Origin(x: Export, s: State, r: Reconstruction.LedgerRecord) returns (origin: LedgerRecord)
    requires r in ExportedLedger(x, s)
    ensures origin in s.tradeLedger && Exported(x)(origin) == r
  {
    var i :| 0 <= i < |ExportedLedger(x, s)| && ExportedLedger(x, s)[i] == r;
    origin := s.tradeLedger[i];
  }

  lemma ExportedIsListed(x: Export, s: State, r: LedgerRecord)
    requires r in s.tradeLedger
    ensures Exported(x)(r) in ExportedLedger(x, s)
  {
    var i :| 0 <= i < |s.tradeLedger| && s.tradeLedger[i] == r;
    assert ExportedLedger(x, s)[i] == Exported(x)(r);
  }

  lemma ClosingKind(x: Export, r: LedgerRecord)
    ensures Reconstruction.IsClosing(Exported(x)(r)) <==> r.kind == PositionClose
    ensures Exported(x)(r).positionId == r.positionId
  {
    var text := TypeName(r.kind);
    assert |text| == 14 <==> r.kind == PositionClose;
    assert |text| != 12;
    assert |"position_close"| == 14 && |"closing_fill"| == 12;
  }

  /** In every run a reconstructed trade is closed exactly when the engine holds a closed position of that id, or a
      failed event left a close record of it behind. */
  lemma TradeClosedIff(x: Export, strict: bool, capital: real, inputs: seq<Input>, i: nat)
    requires i < |TradesOf(x, Run(strict, capital, inputs))|
    ensures var s := Run(strict, capital, inputs);
            var p := TradesOf(x, s)[i].positionId;
            TradesOf(x, s)[i].closed <==>
            p in Ids(s.closed) || p in RecordIds(OrphanCloses(strict, capital, inputs))
  {
    var s := Run(strict, capital, inputs);
    var p := TradesOf(x, s)[i].positionId;
    RunKeepsTradeLedger(strict, capital, inputs);
    Reconstruction.TradeClosedIff(ExportedLedger(x, s), i);
    ClosingIsCloseRecord(x, s, p);
    ClosesNameClosedOrOrphaned(strict, capital, inputs);
    assert p in multiset(RecordIds(OfKind(PositionClose, s.tradeLedger))) <==>
           p in multiset(Ids(s.closed)) + multiset(RecordIds(OrphanCloses(strict, capital, inputs)));
  }

  // ----- One entry and one closing for each record -----

  function Named(kind: RecordKind, p: string): LedgerRecord -> bool {
    (r: LedgerRecord) => r.kind == kind && r.positionId == Some(p)
  }

  lemma TypesOfKinds(x: Export, r: LedgerRecord)
    ensures Exported(x)(r).recordType in {"position_open", "entry_plan"} <==> r.kind == PositionOpen
    ensures Exported(x)(r).recordType in {"position_close", "closing_fill"} <==> r.kind == PositionClose
    ensures Exported(x)(r).positionId == r.positionId
  {
    var text := TypeName(r.kind);
    assert |text| == 13 <==> r.kind == PositionOpen;
    assert |text| == 10 ==> text[1] == 'x';
    assert |"position_open"| == 13 && |"entry_plan"| == 10 && "entry_plan"[1] == 'n';
    ClosingKind(x, r);
  }

  function TypedAt(types: set<string>, p: string): Reconstruction.LedgerRecord -> bool {
    (r: Reconstruction.LedgerRecord) => r.recordType in types && r.positionId == Some(p)
  }

  lemma CountInRecords(ledger: seq<Reconstruction.LedgerRecord>, types: set<string>, p: string)
    ensures |Filter(TradeContents.OfTypes(types), TradeContents.RecordsOf(ledger, p))|
         == |Filter(TypedAt(types, p), ledger)|
  {
    var ofTypes, mine := TradeContents.OfTypes(types), Reconstruction.OfPosition(p);
    StableSort.SortedPermutes(Reconstruction.InLedgerOrder, Filter(mine, ledger));
    FilterPermutation(ofTypes, TradeContents.RecordsOf(ledger, p), Filter(mine, ledger));
    FilterFilter(ofTypes, mine, TypedAt(types, p), ledger);
  }

  lemma CountExported(x: Export, s: State, types: set<string>, kind: RecordKind, p: string)
    requires forall r :: TypedAt(types, p)(Exported(x)(r)) == Named(kind, p)(r)
    ensures |Filter(TypedAt(types, p), ExportedLedger(x, s))| == |Filter(Named(kind, p), s.tradeLedger)|
  {
    FilterMap(TypedAt(types, p), Exported(x), Named(kind, p), s.tradeLedger);
  }

  /** A reconstructed trade has one entry for each recorded opening of its position and one closing for each recorded
      closing. */
  lemma EntriesAreOpenings(x: Export, s: State, i: nat)
    requires i < |TradesOf(x, s)|
    ensures var t := TradesOf(x, s)[i];
      && |t.entryIntents| == |Filter(Named(PositionOpen, t.positionId), s.tradeLedger)|
      && |t.closingFills| == |Filter(Named(PositionClose, t.positionId), s.tradeLedger)|
  {
    var t := TradesOf(x, s)[i];
    PartSizes(ExportedLedger(x, s), i);
    KindCounts(x, s, t.positionId);
  }

  lemma PartSizes(ledger: seq<Reconstruction.LedgerRecord>, i: nat)
    requires i < |Reconstruction.Trades(ledger)|
    ensures var t := Reconstruction.Trades(ledger)[i];
      && |t.entryIntents| == |Filter(TypedAt({"position_open", "entry_plan"}, t.positionId), ledger)|
      && |t.closingFills| == |Filter(TypedAt({"position_close", "closing_fill"}, t.positionId), ledger)|
  {
    var p := Reconstruction.Trades(ledger)[i].positionId;
    TradeContents.PartsAreByType(ledger, i);
    CountInRecords(ledger, {"position_open", "entry_plan"}, p);
    CountInRecords(ledger, {"position_close", "closing_fill"}, p);
  }

  lemma KindCounts(x: Export, s: State, p: string)
    ensures |Filter(TypedAt({"position_open", "entry_plan"}, p), ExportedLedger(x, s))|
         == |Filter(Named(PositionOpen, p), s.tradeLedger)|
    ensures |Filter(TypedAt({"position_close", "closing_fill"}, p), ExportedLedger(x, s))|
         == |Filter(Named(PositionClose, p), s.tradeLedger)|
  {
    forall r
      ensures TypedAt({"position_open", "entry_plan"}, p)(Exported(x)(r)) == Named(PositionOpen, p)(r)
      ensures TypedAt({"position_close", "closing_fill"}, p)(Exported(x)(r)) == Named(PositionClose, p)(r)
    {
      TypesOfKinds(x, r);
    }
    CountExported(x, s, {"position_open", "entry_plan"}, PositionOpen, p);
    CountExported(x, s, {"position_close", "closing_fill"}, PositionClose, p);
  }

  ghost predicate HasTrade(trades: seq<Reconstruction.Trade>, p: string) {
    exists t :: t in trades && t.positionId == p
  }

  lemma KeyIffRecorded(ledger: seq<Reconstruction.LedgerRecord>, p: string)
    ensures p in Reconstruction.ByPosition(ledger).entries <==>
            p != "" && exists r :: r in ledger && r.positionId == Some(p)
  {
    var kept := Filter(Reconstruction.HasPosition, ledger);
    var group := Filter(Grouping.HasKey(Reconstruction.PositionOf, p), kept);
    Grouping.GroupIsFilter(Reconstruction.PositionOf, kept, p);
    if group != [] {
      FilterElements(Grouping.HasKey(Reconstruction.PositionOf, p), kept, group[0]);
      FilterElements(Reconstruction.HasPosition, ledger, group[0]);
    }
    if r :| r in ledger && r.positionId == Some(p) {
      FilterElements(Reconstruction.HasPosition, ledger, r);
      FilterElements(Grouping.HasKey(Reconstruction.PositionOf, p), kept, r);
    }
  }

  lemma TradePositionsAreKeys(ledger: seq<Reconstruction.LedgerRecord>)
    ensures Map(Reconstruction.TradePosition, Reconstruction.Trades(ledger)) == Reconstruction.ByPosition(ledger).keys
  {
    var trades := Reconstruction.Trades(ledger);
    forall i | 0 <= i < |trades| ensures trades[i].positionId == Reconstruction.ByPosition(ledger).keys[i] {
      Reconstruction.TradeAt(ledger, i);
    }
  }

  lemma HasTradeByPosition(trades: seq<Reconstruction.Trade>, p: string)
    ensures HasTrade(trades, p) <==> p in Map(Reconstruction.TradePosition, trades)
  {
    var positions := Map(Reconstruction.TradePosition, trades);
    if t :| t in trades && t.positionId == p {
      var i :| 0 <= i < |trades| && trades[i] == t;
      assert positions[i] == p;
    }
    if p in positions {
      var i :| 0 <= i < |positions| && positions[i] == p;
      assert trades[i] in trades;
    }
  }

  lemma TradeIffKey(ledger: seq<Reconstruction.LedgerRecord>, p: string)
    ensures HasTrade(Reconstruction.Trades(ledger), p) <==> p in Reconstruction.ByPosition(ledger).entries
  {
    HasTradeByPosition(Reconstruction.Trades(ledger), p);
    TradePositionsAreKeys(ledger);
    var groups := Reconstruction.ByPosition(ledger);
    assert p in groups.keys <==> p in (set k | k in groups.keys);
  }

  lemma TradeIffRecorded(ledger: seq<Reconstruction.LedgerRecord>, p: string)
    ensures HasTrade(Reconstruction.Trades(ledger), p) <==>
            p != "" && exists r :: r in ledger && r.positionId == Some(p)
  {
    TradeIffKey(ledger, p);
    KeyIffRecorded(ledger, p);
  }

  lemma TradeIffNamed(x: Export, s: State, p: string)
    requires IsTradeLedger(s.tradeLedger)
    ensures HasTrade(TradesOf(x, s), p) <==>
            p != "" && (p in RecordIds(OfKind(PositionOpen, s.tradeLedger))
                        || p in RecordIds(OfKind(PositionClose, s.tradeLedger)))
  {
    TradeIffRecorded(ExportedLedger(x, s), p);
    RecordOfKind(PositionOpen, s.tradeLedger, p);
    RecordOfKind(PositionClose, s.tradeLedger, p);
    ExportKeepsIds(x, s, p);
  }

  /** Under a strategy that keeps identities there is a trade for exactly the named positions that are open or
      closed, whatever events fail. */
  lemma TradesArePositions(x: Export, strict: bool, capital: real, inputs: seq<Input>, p: string)
    requires FaithfulRun(strict, capital, inputs)
    ensures var s := Run(strict, capital, inputs);
            HasTrade(TradesOf(x, s), p) <==> p != "" && (p in Ids(s.open) || p in Ids(s.closed))
  {
    var s, orphans := Run(strict, capital, inputs), OrphanCloses(strict, capital, inputs);
    RunKeepsTradeLedger(strict, capital, inputs);
    TradeIffNamed(x, s, p);
    InOpenings(strict, capital, inputs, p);
    ClosesNameClosedOrOrphaned(strict, capital, inputs);
    assert p in multiset(RecordIds(OfKind(PositionClose, s.tradeLedger))) <==>
           p in multiset(Ids(s.closed)) + multiset(RecordIds(orphans));
    if p in RecordIds(orphans) {
      OrphansNameOpenings(strict, capital, inputs, p);
    }
  }

  /** The reconstruction shows as closed what the engine holds as closed. */
  ghost predicate Agrees(x: Export, s: State) {
    forall t :: t in TradesOf(x, s) ==> (t.closed <==> t.positionId in Ids(s.closed))
  }

  lemma TradeClosedIffAt(x: Export, strict: bool, capital: real, inputs: seq<Input>, t: Reconstruction.Trade)
    requires t in TradesOf(x, Run(strict, capital, inputs))
    ensures t.closed <==> t.positionId in Ids(Run(strict, capital, inputs).closed)
                          || t.positionId in RecordIds(OrphanCloses(strict, capital, inputs))
  {
    var trades := TradesOf(x, Run(strict, capital, inputs));
    var i :| 0 <= i < |trades| && trades[i] == t;
    TradeClosedIff(x, strict, capital, inputs, i);
  }

  lemma OrphanHasTrade(x: Export, strict: bool, capital: real, inputs: seq<Input>, p: string)
    requires p != "" && p in RecordIds(OrphanCloses(strict, capital, inputs))
    ensures HasTrade(TradesOf(x, Run(strict, capital, inputs)), p)
  {
    var s := Run(strict, capital, inputs);
    RunKeepsTradeLedger(strict, capital, inputs);
    TradeIffNamed(x, s, p);
    ClosesNameClosedOrOrphaned(strict, capital, inputs);
    assert p in multiset(RecordIds(OfKind(PositionClose, s.tradeLedger)));
  }

  /** Engine and reconstruction agree on what is closed exactly when every named close record that a failed event left
      behind is of a position that has been closed since. */
  lemma AgreesIff(x: Export, strict: bool, capital: real, inputs: seq<Input>)
    ensures Agrees(x, Run(strict, capital, inputs)) <==>
            forall p :: p != "" && p in RecordIds(OrphanCloses(strict, capital, inputs)) ==>
                          p in Ids(Run(strict, capital, inputs).closed)
  {
    var s, orphans := Run(strict, capital, inputs), RecordIds(OrphanCloses(strict, capital, inputs));
    forall t | t in TradesOf(x, s)
      ensures t.positionId != "" && (t.closed <==> t.positionId in Ids(s.closed) || t.positionId in orphans)
    {
      TradeClosedIffAt(x, strict, capital, inputs, t);
      TradeIffRecorded(ExportedLedger(x, s), t.positionId);
    }
    forall p | p != "" && p in orphans ensures HasTrade(TradesOf(x, s), p) {
      OrphanHasTrade(x, strict, capital, inputs, p);
    }
  }

  lemma ExportKeepsIds(x: Export, s: State, p: string)
    requires IsTradeLedger(s.tradeLedger)
    ensures (exists r :: r in ExportedLedger(x, s) && r.positionId == Some(p)) <==>
            exists r :: r in s.tradeLedger && (r.kind.PositionOpen? || r.kind.PositionClose?) && r.positionId == Some(p)
  {
    var ledger := ExportedLedger(x, s);
    if r :| r in ledger && r.positionId == Some(p) {
      var i :| 0 <= i < |ledger| && ledger[i] == r;
      assert s.tradeLedger[i] in s.tradeLedger;
    }
    if r :| r in s.tradeLedger && r.positionId == Some(p) {
      var i :| 0 <= i < |ledger| && s.tradeLedger[i] == r;
      assert ledger[i] in ledger;
    }
  }

  lemma {:induction false} SumOfZeros<T>(f: T -> real, s: seq<T>)
    requires forall t :: t in s ==> f(t) == 0.0
    ensures Sum(f, s) == 0.0
  {
    if s != [] {
      SplitLast(s);
      SumOfZeros(f, Front(s));
    }
  }

  lemma NoNumbers(x: Export, r: LedgerRecord)
    requires r.payload.OfEntry? || r.payload.OfClose?
    ensures Reconstruction.PnlOf(Exported(x)(r)) == 0.0 == Reconstruction.FeesOf(Exported(x)(r))
    ensures Reconstruction.CashOf(Exported(x)(r)) == 0.0
  {
    forall key | key in Keys(r) ensures |key| >= 8 && key[0] in {'m', 'r'} && key != "realized_pnl" {
      assert |"metadata"| == 8 && |"management_reason"| == 17 && |"roll_eligible"| == 13 && |"realized_pnl"| == 12;
    }
    assert |"fees"| == 4 && "cash_movement"[0] == 'c';
  }

  /** No cycle reconstructed from a run shows any profit, fee or cash, however payload entries are read: no handler
      writes such an entry. */
  lemma NoMoneyInCycles(x: Export, strict: bool, capital: real, inputs: seq<Input>)
    ensures var cycles := Reconstruction.Cycles(TradesOf(x, Run(strict, capital, inputs)));
            && Sum(Reconstruction.CyclePnl, cycles) == 0.0
            && Sum(Reconstruction.CycleFees, cycles) == 0.0
            && Sum(Reconstruction.CycleCash, cycles) == 0.0
  {
    var s := Run(strict, capital, inputs);
    var ledger := ExportedLedger(x, s);
    var kept := Filter(Reconstruction.HasPosition, ledger);
    RunKeepsTradeLedger(strict, capital, inputs);
    Reconstruction.MoneyIsConserved(ledger);
    forall r | r in kept
      ensures Reconstruction.PnlOf(r) == 0.0 && Reconstruction.FeesOf(r) == 0.0 && Reconstruction.CashOf(r) == 0.0
    {
      FilterElements(Reconstruction.HasPosition, ledger, r);
      var origin := Origin(x, s, r);
      NoNumbers(x, origin);
    }
    SumOfZeros(Reconstruction.PnlOf, kept);
    SumOfZeros(Reconstruction.FeesOf, kept);
    SumOfZeros(Reconstruction.CashOf, kept);
  }

  /** Such a run: after a failed event a position that is still open counts as closed. */
  lemma FailureShowsOpenPositionAsClosed(x: Export, capital: real)
    ensures var s := Run(true, capital, ClosedTwice()[..2]);
            && "a" in Ids(s.open) && s.closed == []
            && Reconstruction.HasClosingRecord(ExportedLedger(x, s), "a")
  {
    var e := ClosedTwice();
    assert e[..2] == [] + [e[0]] + [e[1]];
    RunNext(true, capital, [], e[0]);
    RunNext(true, capital, [] + [e[0]], e[1]);
    FirstEvent(capital);
    SecondEvent(Run(true, capital, [] + [e[0]]));
    var s := Run(true, capital, e[..2]);
    RunKeepsTradeLedger(true, capital, e[..2]);
    ClosingIsCloseRecord(x, s, "a");
    assert Ids(s.open)[0] == "a";
    assert RecordIds(OfKind(PositionClose, s.tradeLedger))[0] == "a";
  }
}
