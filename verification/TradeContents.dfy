/** What a reconstructed trade and cycle say, in the fields of their records
    (`backend/backtesting/reconstruction.py`). */
module TradeContents {
  import opened Results
  import opened Seqs
  import opened StringOrder
  import opened StableSort
  import opened Grouping
  import opened Reconstruction

  /** The records of a position in ledger order. */
  function RecordsOf(ledgers: seq<LedgerRecord>, positionId: string): seq<LedgerRecord> {
    Sorted(InLedgerOrder, Filter(OfPosition(positionId), ledgers))
  }

  /** Ledger order is by time, then by sequence number. */
  lemma LedgerOrderIsChronological(ledgers: seq<LedgerRecord>, positionId: string, i: nat, j: nat)
    requires i < j < |RecordsOf(ledgers, positionId)|
    ensures var a, b := RecordsOf(ledgers, positionId)[i], RecordsOf(ledgers, positionId)[j];
      a.timestamp < b.timestamp || (a.timestamp == b.timestamp && a.sequenceNumber <= b.sequenceNumber)
  {
    assert Preorder(InLedgerOrder);
    SortedOrders(InLedgerOrder, Filter(OfPosition(positionId), ledgers));
    assert InLedgerOrder(RecordsOf(ledgers, positionId)[i], RecordsOf(ledgers, positionId)[j]);
  }

  function OfTypes(types: set<string>): LedgerRecord -> bool {
    (r: LedgerRecord) => r.recordType in types
  }

  function RollType(): LedgerRecord -> bool {
    (r: LedgerRecord) => |r.recordType| >= 4 && r.recordType[..4] == "roll"
  }

  /** The payloads of the chosen records. */
  ghost predicate PayloadsAre(payloads: seq<Payload>, chosen: seq<LedgerRecord>) {
    |payloads| == |chosen| && forall i :: 0 <= i < |chosen| ==> payloads[i] == chosen[i].payload
  }

  lemma PayloadsWhereAre(p: LedgerRecord -> bool, q: LedgerRecord -> bool, records: seq<LedgerRecord>)
    requires forall r :: p(r) == q(r)
    ensures PayloadsAre(PayloadsWhere(p, records), Filter(q, records))
  {
    FilterSame(p, q, records);
  }

  /** The parts of the trade are the payloads of the records, by record type and in order; it is closed exactly when one
      of them closes the position. */
  ghost predicate PartsAre(t: Trade, records: seq<LedgerRecord>) {
    && PayloadsAre(t.entryIntents, Filter(OfTypes({"position_open", "entry_plan"}), records))
    && PayloadsAre(t.fills, Filter(OfTypes({"fill", "partial_fill"}), records))
    && PayloadsAre(t.managementActions, Filter(OfTypes({"management"}), records))
    && PayloadsAre(t.rolls, Filter(RollType(), records))
    && PayloadsAre(t.adjustments, Filter(OfTypes({"adjustment"}), records))
    && PayloadsAre(t.expirationEvents, Filter(OfTypes({"expiration"}), records))
    && PayloadsAre(t.closingFills, Filter(OfTypes({"position_close", "closing_fill"}), records))
    && (t.closed <==> t.closingFills != [])
  }

  lemma PartsOfTrade(positionId: string, records: seq<LedgerRecord>)
    requires records != []
    ensures PartsAre(TradeOf(positionId, records), Sorted(InLedgerOrder, records))
  {
    var ordered := Sorted(InLedgerOrder, records);
    PayloadsWhereAre(IsEntry, OfTypes({"position_open", "entry_plan"}), ordered);
    PayloadsWhereAre(IsFill, OfTypes({"fill", "partial_fill"}), ordered);
    PayloadsWhereAre(IsManagement, OfTypes({"management"}), ordered);
    PayloadsWhereAre(IsRoll, RollType(), ordered);
    PayloadsWhereAre(IsAdjustment, OfTypes({"adjustment"}), ordered);
    PayloadsWhereAre(IsExpiration, OfTypes({"expiration"}), ordered);
    PayloadsWhereAre(IsClosing, OfTypes({"position_close", "closing_fill"}), ordered);
  }

  /** Every trade shows what the ledger has of its position, each record in the part of its type. */
  lemma PartsAreByType(ledgers: seq<LedgerRecord>, i: nat)
    requires i < |Trades(ledgers)|
    ensures PartsAre(Trades(ledgers)[i], RecordsOf(ledgers, Trades(ledgers)[i].positionId))
  {
    var positionId := Trades(ledgers)[i].positionId;
    TradeIsOf(ledgers, i);
    PartsOfTrade(positionId, Filter(OfPosition(positionId), ledgers));
  }

  lemma TradeIsOf(ledgers: seq<LedgerRecord>, i: nat)
    requires i < |Trades(ledgers)|
    ensures var t := Trades(ledgers)[i];
      var records := Filter(OfPosition(t.positionId), ledgers);
      records != [] && t == TradeOf(t.positionId, records)
  {
    var groups := ByPosition(ledgers);
    TradeAt(ledgers, i);
    GroupOfPosition(ledgers, groups.keys[i]);
    TradeFields(groups.keys[i], groups.entries[groups.keys[i]]);
  }

  ghost predicate AmountsAre(amounts: seq<real>, entries: seq<Option<real>>) {
    && |amounts| == |entries|
    && forall i :: 0 <= i < |entries| ==> amounts[i] == if entries[i].Some? then entries[i].value else 0.0
  }

  function Total(amounts: seq<real>): real {
    Sum((x: real) => x, amounts)
  }

  lemma {:induction false} SumIsTotal(f: LedgerRecord -> real, records: seq<LedgerRecord>)
    ensures Sum(f, records) == Total(Map(f, records))
  {
    if records != [] {
      SumIsTotal(f, Front(records));
      assert Front(Map(f, records)) == Map(f, Front(records));
    }
  }

  /** The trade's money is the total of what the records say, a missing entry counting as zero. */
  ghost predicate TotalsAre(t: Trade, records: seq<LedgerRecord>, pnl: seq<real>, fees: seq<real>, cash: seq<real>) {
    && t.realizedPnl == Total(pnl) && AmountsAre(pnl, Map((r: LedgerRecord) => r.payload.realizedPnl, records))
    && t.fees == Total(fees) && AmountsAre(fees, Map((r: LedgerRecord) => r.payload.fees, records))
    && t.cashMovements == Total(cash) && AmountsAre(cash, Map((r: LedgerRecord) => r.payload.cashMovement, records))
  }

  lemma TotalsOfTrade(positionId: string, records: seq<LedgerRecord>)
    requires records != []
    ensures var ordered := Sorted(InLedgerOrder, records);
      TotalsAre(TradeOf(positionId, records), ordered, Map(PnlOf, ordered), Map(FeesOf, ordered), Map(CashOf, ordered))
  {
    SumIsTotal(PnlOf, Sorted(InLedgerOrder, records));
    SumIsTotal(FeesOf, Sorted(InLedgerOrder, records));
    SumIsTotal(CashOf, Sorted(InLedgerOrder, records));
  }

  lemma TradeTotals(ledgers: seq<LedgerRecord>, i: nat) returns (pnl: seq<real>, fees: seq<real>, cash: seq<real>)
    requires i < |Trades(ledgers)|
    ensures TotalsAre(Trades(ledgers)[i], RecordsOf(ledgers, Trades(ledgers)[i].positionId), pnl, fees, cash)
  {
    var positionId := Trades(ledgers)[i].positionId;
    var records := RecordsOf(ledgers, positionId);
    TradeIsOf(ledgers, i);
    TotalsOfTrade(positionId, Filter(OfPosition(positionId), ledgers));
    pnl, fees, cash := Map(PnlOf, records), Map(FeesOf, records), Map(CashOf, records);
  }

  /** A trade belongs to the strategy of its position's first record, and its id is made of the two. */
  lemma TradeIsNamed(ledgers: seq<LedgerRecord>, i: nat)
    requires i < |Trades(ledgers)|
    ensures var t := Trades(ledgers)[i];
      var records := RecordsOf(ledgers, t.positionId);
      records != [] && t.strategyId == records[0].strategyId && t.tradeId == t.strategyId + ":" + t.positionId
  {
    TradeIsOf(ledgers, i);
  }

  // ----- Cycles -----

  /** The trades of a strategy by trade id. */
  function TradesOf(trades: seq<Trade>, strategyId: string): seq<Trade> {
    Sorted(ByTradeId, Filter((t: Trade) => t.strategyId == strategyId, trades))
  }

  lemma CycleIsOf(trades: seq<Trade>, k: nat)
    requires k < |Cycles(trades)|
    ensures var c := Cycles(trades)[k];
      var rows := Filter((t: Trade) => t.strategyId == c.strategyId, trades);
      rows != [] && c == CycleOf(c.strategyId, rows)
  {
    var groups := GroupBy(StrategyOf, trades);
    var strategyId := groups.keys[k];
    CycleAt(trades, k);
    GroupIsFilter(StrategyOf, trades, strategyId);
    CycleFields(strategyId, groups.entries[strategyId]);
    FilterSame(HasKey(StrategyOf, strategyId), (t: Trade) => t.strategyId == strategyId, trades);
  }

  lemma TradesByTradeId(trades: seq<Trade>, strategyId: string, i: nat, j: nat)
    requires i < j < |TradesOf(trades, strategyId)|
    ensures StrLeq(TradesOf(trades, strategyId)[i].tradeId, TradesOf(trades, strategyId)[j].tradeId)
  {
    assert Preorder(ByTradeId) by { StrIsLinear(); }
    SortedOrders(ByTradeId, Filter((t: Trade) => t.strategyId == strategyId, trades));
    assert ByTradeId(TradesOf(trades, strategyId)[i], TradesOf(trades, strategyId)[j]);
  }

  lemma TradesOfStrategy(trades: seq<Trade>, strategyId: string, t: Trade)
    ensures t in TradesOf(trades, strategyId) <==> t in trades && t.strategyId == strategyId
  {
    SortedElements(ByTradeId, Filter((x: Trade) => x.strategyId == strategyId, trades));
    FilterElements((x: Trade) => x.strategyId == strategyId, trades, t);
  }

  /** A cycle starts with the position of the trade whose id is first in the alphabet; the others follow in that
      order. */
  lemma CyclePositionsAre(trades: seq<Trade>, k: nat)
    requires k < |Cycles(trades)|
    ensures var c := Cycles(trades)[k];
      var rows := TradesOf(trades, c.strategyId);
      && (forall i, j :: 0 <= i < j < |rows| ==> StrLeq(rows[i].tradeId, rows[j].tradeId))
      && c.tradeCount == |rows| == 1 + |c.childPositions| && c.initialPosition == rows[0].positionId
      && (forall i :: 1 <= i < |rows| ==> c.childPositions[i - 1] == rows[i].positionId)
  {
    var c := Cycles(trades)[k];
    var rows := TradesOf(trades, c.strategyId);
    forall i, j | 0 <= i < j < |rows| ensures StrLeq(rows[i].tradeId, rows[j].tradeId) {
      TradesByTradeId(trades, c.strategyId, i, j);
    }
    CycleIsOf(trades, k);
  }

  /** It lists the ids of the trades that have rolls, and is closed when all of its trades are. */
  lemma CycleRollsAndCloses(trades: seq<Trade>, k: nat)
    requires k < |Cycles(trades)|
    ensures var c := Cycles(trades)[k];
      && c.rollChain
         == Map((t: Trade) => t.tradeId, Filter((t: Trade) => |t.rolls| > 0, TradesOf(trades, c.strategyId)))
      && (c.closed <==> forall t :: t in trades && t.strategyId == c.strategyId ==> t.closed)
  {
    var c := Cycles(trades)[k];
    var rows := TradesOf(trades, c.strategyId);
    CycleIsOf(trades, k);
    forall t ensures t in rows <==> t in trades && t.strategyId == c.strategyId {
      TradesOfStrategy(trades, c.strategyId, t);
    }
    FilterSame(HasRolls, (t: Trade) => |t.rolls| > 0, rows);
    assert Map(TradeIdOf, Filter(HasRolls, rows)) == Map((t: Trade) => t.tradeId, Filter(HasRolls, rows));
  }

  ghost predicate Uses(trades: seq<Trade>, strategyId: string, usage: real) {
    exists t, p :: t in trades && t.strategyId == strategyId && p in t.entryIntents
                && usage == if p.capitalUsage.Some? then p.capitalUsage.value else 0.0
  }

  /** The maximum capital usage of a cycle is the largest that an entry of its trades states, and zero without any. */
  lemma MaximumUsageIsExact(trades: seq<Trade>, k: nat)
    requires k < |Cycles(trades)|
    ensures var c := Cycles(trades)[k];
      && (forall usage :: Uses(trades, c.strategyId, usage) ==> usage <= c.maximumCapitalUsage)
      && (Uses(trades, c.strategyId, c.maximumCapitalUsage)
          || (c.maximumCapitalUsage == 0.0 && forall usage :: !Uses(trades, c.strategyId, usage)))
  {
    var c := Cycles(trades)[k];
    CycleIsOf(trades, k);
    var rows := TradesOf(trades, c.strategyId);
    var usages := Map(UsageOf, FlatMap(EntryIntents, rows));
    forall usage ensures usage in usages <==> Uses(trades, c.strategyId, usage) {
      UsageIff(trades, c.strategyId, usage);
    }
    if usages != [] {
      assert usages[0] in usages;
    }
  }

  lemma UsageIff(trades: seq<Trade>, strategyId: string, usage: real)
    ensures usage in Map(UsageOf, FlatMap(EntryIntents, TradesOf(trades, strategyId)))
       <==> Uses(trades, strategyId, usage)
  {
    var rows := TradesOf(trades, strategyId);
    var entries := FlatMap(EntryIntents, rows);
    forall t ensures t in rows <==> t in trades && t.strategyId == strategyId {
      TradesOfStrategy(trades, strategyId, t);
    }
    if usage in Map(UsageOf, entries) {
      var i :| 0 <= i < |entries| && Map(UsageOf, entries)[i] == usage;
      InFlatMap(EntryIntents, rows, entries[i]);
    }
    if Uses(trades, strategyId, usage) {
      var t, p :| t in trades && t.strategyId == strategyId && p in t.entryIntents
               && usage == if p.capitalUsage.Some? then p.capitalUsage.value else 0.0;
      InFlatMap(EntryIntents, rows, p);
      var i :| 0 <= i < |entries| && entries[i] == p;
      assert Map(UsageOf, entries)[i] == usage;
    }
  }
}
