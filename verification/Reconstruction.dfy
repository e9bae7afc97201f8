/** Trades and strategy cycles from immutable ledgers (`backend/backtesting/reconstruction.py`). */
module Reconstruction {
  import opened Results
  import opened Seqs
  import opened InsertionDict
  import opened StringOrder
  import opened StableSort
  import opened Grouping

  /** The entries of a record's payload that the reconstruction reads; a missing number counts as 0. */
  datatype Payload = Payload(
    realizedPnl: Option<real>, fees: Option<real>, cashMovement: Option<real>, capitalUsage: Option<real>,
    eventId: string, body: string)

  datatype LedgerRecord = LedgerRecord(
    timestamp: int, strategyId: string, positionId: Option<string>, recordType: string,
    sequenceNumber: int, payload: Payload, rowChecksum: string)

  datatype Trade = Trade(
    tradeId: string, strategyId: string, positionId: string,
    entryIntents: seq<Payload>, fills: seq<Payload>, managementActions: seq<Payload>, rolls: seq<Payload>,
    adjustments: seq<Payload>, expirationEvents: seq<Payload>, closingFills: seq<Payload>,
    realizedPnl: real, fees: real, cashMovements: real, closed: bool,
    sourceEventIds: seq<string>, sourceChecksums: seq<string>)

  datatype Cycle = Cycle(
    strategyId: string, initialPosition: string, childPositions: seq<string>, rollChain: seq<string>,
    cumulativeDebitCredit: real, cumulativeFees: real, cumulativePnl: real, maximumCapitalUsage: real,
    tradeCount: nat, closed: bool)

  // ----- Trades -----

  /** Neither None nor the empty string. */
  predicate HasPosition(r: LedgerRecord) {
    r.positionId.Some? && r.positionId.value != ""
  }

  function PositionOf(r: LedgerRecord): string { r.positionId.GetOr("") }

  predicate InLedgerOrder(a: LedgerRecord, b: LedgerRecord) {
    a.timestamp < b.timestamp || (a.timestamp == b.timestamp && a.sequenceNumber <= b.sequenceNumber)
  }

  function PnlOf(r: LedgerRecord): real { r.payload.realizedPnl.GetOr(0.0) }

  function FeesOf(r: LedgerRecord): real { r.payload.fees.GetOr(0.0) }

  function CashOf(r: LedgerRecord): real { r.payload.cashMovement.GetOr(0.0) }

  function PayloadOf(r: LedgerRecord): Payload { r.payload }

  function EventIdOf(r: LedgerRecord): string { r.payload.eventId }

  function ChecksumOf(r: LedgerRecord): string { r.rowChecksum }

  predicate IsEntry(r: LedgerRecord) { r.recordType == "position_open" || r.recordType == "entry_plan" }

  predicate IsFill(r: LedgerRecord) { r.recordType == "fill" || r.recordType == "partial_fill" }

  predicate IsManagement(r: LedgerRecord) { r.recordType == "management" }

  predicate IsRoll(r: LedgerRecord) { "roll" <= r.recordType }

  predicate IsAdjustment(r: LedgerRecord) { r.recordType == "adjustment" }

  predicate IsExpiration(r: LedgerRecord) { r.recordType == "expiration" }

  predicate IsClosing(r: LedgerRecord) { r.recordType == "position_close" || r.recordType == "closing_fill" }

  function PayloadsWhere(p: LedgerRecord -> bool, records: seq<LedgerRecord>): seq<Payload> {
    Map(PayloadOf, Filter(p, records))
  }

  /** The trade of one position's records. */
  function TradeOf(positionId: string, records: seq<LedgerRecord>): Trade
    requires records != []
  {
    var ordered := Sorted(InLedgerOrder, records);
    var strategyId := ordered[0].strategyId;
    Trade(strategyId + ":" + positionId, strategyId, positionId,
          PayloadsWhere(IsEntry, ordered), PayloadsWhere(IsFill, ordered), PayloadsWhere(IsManagement, ordered),
          PayloadsWhere(IsRoll, ordered), PayloadsWhere(IsAdjustment, ordered),
          PayloadsWhere(IsExpiration, ordered), PayloadsWhere(IsClosing, ordered),
          Sum(PnlOf, ordered), Sum(FeesOf, ordered), Sum(CashOf, ordered),
          PayloadsWhere(IsClosing, ordered) != [],
          Map(EventIdOf, ordered), Map(ChecksumOf, ordered))
  }

  function ByPosition(ledgers: seq<LedgerRecord>): Dict<string, seq<LedgerRecord>> {
    GroupBy(PositionOf, Filter(HasPosition, ledgers))
  }

  /** No group is empty. */
  lemma GroupsNotEmpty<T>(key: T -> string, items: seq<T>)
    ensures forall k :: k in GroupBy(key, items).entries ==> GroupBy(key, items).entries[k] != []
  {
    forall k | k in GroupBy(key, items).entries ensures GroupBy(key, items).entries[k] != [] {
      GroupIsFilter(key, items, k);
    }
  }

  function Trades(ledgers: seq<LedgerRecord>): (r: seq<Trade>)
    ensures |r| == |ByPosition(ledgers).keys|
  {
    var groups := ByPosition(ledgers);
    GroupsNotEmpty(PositionOf, Filter(HasPosition, ledgers));
    seq(|groups.keys|, i requires 0 <= i < |groups.keys| => TradeOf(groups.keys[i], groups.Values()[i]))
  }

  method GroupRecords(ledgers: seq<LedgerRecord>) returns (byPosition: Dict<string, seq<LedgerRecord>>)
    ensures byPosition == ByPosition(ledgers)
  {
    byPosition := Empty();
    for i := 0 to |ledgers|
      invariant byPosition == ByPosition(ledgers[..i])
    {
      TakeNext(ledgers, i);
      ByPositionStep(ledgers[..i], ledgers[i]);
      if HasPosition(ledgers[i]) {
        byPosition := AddToGroup(byPosition, PositionOf(ledgers[i]), ledgers[i]);
      }
      assert ledgers[..i] + [ledgers[i]] == ledgers[..i + 1];
    }
    assert ledgers[..|ledgers|] == ledgers;
  }

  lemma ByPositionStep(ledgers: seq<LedgerRecord>, r: LedgerRecord)
    ensures ByPosition(ledgers + [r]) ==
      if HasPosition(r) then AddToGroup(ByPosition(ledgers), PositionOf(r), r) else ByPosition(ledgers)
  {
    var kept := Filter(HasPosition, ledgers);
    FilterSnoc(HasPosition, ledgers, r);
    assert Front(kept + [r]) == kept;
    assert kept + [] == kept;
  }

  lemma TradeAt(ledgers: seq<LedgerRecord>, i: nat)
    requires i < |ByPosition(ledgers).keys|
    ensures var groups := ByPosition(ledgers);
      && groups.keys[i] in groups.entries && groups.entries[groups.keys[i]] != []
      && Trades(ledgers)[i] == TradeOf(groups.keys[i], groups.entries[groups.keys[i]])
  {
    var groups := ByPosition(ledgers);
    assert groups.Values()[i] == groups.entries[groups.keys[i]];
    GroupsNotEmpty(PositionOf, Filter(HasPosition, ledgers));
  }

  lemma TradesNext(ledgers: seq<LedgerRecord>, i: nat)
    requires i < |ByPosition(ledgers).keys|
    ensures var groups := ByPosition(ledgers);
      && groups.keys[i] in groups.entries && groups.entries[groups.keys[i]] != []
      && Trades(ledgers)[..i + 1] == Trades(ledgers)[..i] + [TradeOf(groups.keys[i], groups.entries[groups.keys[i]])]
  {
    TradeAt(ledgers, i);
    var groups := ByPosition(ledgers);
    SliceNext(Trades(ledgers), i, TradeOf(groups.keys[i], groups.entries[groups.keys[i]]));
  }

  method ReconstructTrades(ledgers: seq<LedgerRecord>) returns (output: seq<Trade>)
    ensures output == Trades(ledgers)
  {
    var byPosition := GroupRecords(ledgers);
    output := [];
    for i := 0 to |byPosition.keys|
      invariant output == Trades(ledgers)[..i]
    {
      TradesNext(ledgers, i);
      var positionId := byPosition.keys[i];
      output := output + [TradeOf(positionId, byPosition.entries[positionId])];
    }
  }

  // ----- Cycles -----

  function StrategyOf(t: Trade): string { t.strategyId }

  predicate ByTradeId(a: Trade, b: Trade) { StrLeq(a.tradeId, b.tradeId) }

  function TradePnl(t: Trade): real { t.realizedPnl }

  function TradeFees(t: Trade): real { t.fees }

  function TradeCash(t: Trade): real { t.cashMovements }

  function TradePosition(t: Trade): string { t.positionId }

  function TradeIdOf(t: Trade): string { t.tradeId }

  function EntryIntents(t: Trade): seq<Payload> { t.entryIntents }

  function UsageOf(p: Payload): real { p.capitalUsage.GetOr(0.0) }

  predicate HasRolls(t: Trade) { t.rolls != [] }

  function MaxOf(xs: seq<real>): (m: real)
    requires xs != []
    ensures m in xs && forall x :: x in xs ==> x <= m
  {
    if |xs| == 1 then xs[0]
    else
      var m := MaxOf(Front(xs));
      assert xs == Front(xs) + [Last(xs)];
      if m >= Last(xs) then m else Last(xs)
  }

  function CycleOf(strategyId: string, rows: seq<Trade>): Cycle
    requires rows != []
  {
    var ordered := Sorted(ByTradeId, rows);
    var usages := Map(UsageOf, FlatMap(EntryIntents, ordered));
    Cycle(strategyId, ordered[0].positionId, Map(TradePosition, ordered[1..]),
          Map(TradeIdOf, Filter(HasRolls, ordered)),
          Sum(TradeCash, ordered), Sum(TradeFees, ordered), Sum(TradePnl, ordered),
          MaxOf(if usages == [] then [0.0] else usages), |ordered|,
          forall t :: t in ordered ==> t.closed)
  }

  function Cycles(trades: seq<Trade>): (r: seq<Cycle>)
    ensures |r| == |GroupBy(StrategyOf, trades).keys|
  {
    var groups := GroupBy(StrategyOf, trades);
    GroupsNotEmpty(StrategyOf, trades);
    seq(|groups.keys|, i requires 0 <= i < |groups.keys| => CycleOf(groups.keys[i], groups.Values()[i]))
  }

  method GroupTrades(trades: seq<Trade>) returns (byStrategy: Dict<string, seq<Trade>>)
    ensures byStrategy == GroupBy(StrategyOf, trades)
  {
    byStrategy := Empty();
    for i := 0 to |trades|
      invariant byStrategy == GroupBy(StrategyOf, trades[..i])
    {
      TakeNext(trades, i);
      byStrategy := AddToGroup(byStrategy, trades[i].strategyId, trades[i]);
    }
    assert trades[..|trades|] == trades;
  }

  lemma CycleAt(trades: seq<Trade>, i: nat)
    requires i < |GroupBy(StrategyOf, trades).keys|
    ensures var groups := GroupBy(StrategyOf, trades);
      && groups.keys[i] in groups.entries && groups.entries[groups.keys[i]] != []
      && Cycles(trades)[i] == CycleOf(groups.keys[i], groups.entries[groups.keys[i]])
  {
    var groups := GroupBy(StrategyOf, trades);
    assert groups.Values()[i] == groups.entries[groups.keys[i]];
    GroupsNotEmpty(StrategyOf, trades);
  }

  lemma CyclesNext(trades: seq<Trade>, i: nat)
    requires i < |GroupBy(StrategyOf, trades).keys|
    ensures var groups := GroupBy(StrategyOf, trades);
      && groups.keys[i] in groups.entries && groups.entries[groups.keys[i]] != []
      && Cycles(trades)[..i + 1] == Cycles(trades)[..i] + [CycleOf(groups.keys[i], groups.entries[groups.keys[i]])]
  {
    CycleAt(trades, i);
    var groups := GroupBy(StrategyOf, trades);
    SliceNext(Cycles(trades), i, CycleOf(groups.keys[i], groups.entries[groups.keys[i]]));
  }

  method ReconstructCycles(trades: seq<Trade>) returns (cycles: seq<Cycle>)
    ensures cycles == Cycles(trades)
  {
    var byStrategy := GroupTrades(trades);
    cycles := [];
    for i := 0 to |byStrategy.keys|
      invariant cycles == Cycles(trades)[..i]
    {
      CyclesNext(trades, i);
      var strategyId := byStrategy.keys[i];
      cycles := cycles + [CycleOf(strategyId, byStrategy.entries[strategyId])];
    }
  }

  // ----- Money is conserved -----

  function CyclePnl(c: Cycle): real { c.cumulativePnl }

  function CycleFees(c: Cycle): real { c.cumulativeFees }

  function CycleCash(c: Cycle): real { c.cumulativeDebitCredit }

  /** Two sequences of results that agree position by position have the same sum. */
  lemma {:induction false} SumPointwise<S, T>(f: S -> real, a: seq<S>, g: T -> real, b: seq<T>)
    requires |a| == |b| && forall i :: 0 <= i < |a| ==> f(a[i]) == g(b[i])
    ensures Sum(f, a) == Sum(g, b)
  {
    if a != [] {
      SumPointwise(f, Front(a), g, Front(b));
    }
  }

  lemma TradesConserve(ledgers: seq<LedgerRecord>)
    ensures Sum(TradePnl, Trades(ledgers)) == Sum(PnlOf, Filter(HasPosition, ledgers))
    ensures Sum(TradeFees, Trades(ledgers)) == Sum(FeesOf, Filter(HasPosition, ledgers))
    ensures Sum(TradeCash, Trades(ledgers)) == Sum(CashOf, Filter(HasPosition, ledgers))
  {
    var kept := Filter(HasPosition, ledgers);
    var trades, groups := Trades(ledgers), ByPosition(ledgers).Values();
    forall i | 0 <= i < |trades|
      ensures trades[i].realizedPnl == SumOfGroup(PnlOf)(groups[i])
      ensures trades[i].fees == SumOfGroup(FeesOf)(groups[i])
      ensures trades[i].cashMovements == SumOfGroup(CashOf)(groups[i])
    {
      SortedSums(groups[i]);
    }
    SumPointwise(TradePnl, trades, SumOfGroup(PnlOf), groups);
    SumPointwise(TradeFees, trades, SumOfGroup(FeesOf), groups);
    SumPointwise(TradeCash, trades, SumOfGroup(CashOf), groups);
    GroupingConserves(PositionOf, kept, PnlOf);
    GroupingConserves(PositionOf, kept, FeesOf);
    GroupingConserves(PositionOf, kept, CashOf);
  }

  lemma SortedSums(records: seq<LedgerRecord>)
    ensures var ordered := Sorted(InLedgerOrder, records);
      && Sum(PnlOf, ordered) == Sum(PnlOf, records)
      && Sum(FeesOf, ordered) == Sum(FeesOf, records)
      && Sum(CashOf, ordered) == Sum(CashOf, records)
  {
    var ordered := Sorted(InLedgerOrder, records);
    SortedPermutes(InLedgerOrder, records);
    SumPermutation(PnlOf, ordered, records);
    SumPermutation(FeesOf, ordered, records);
    SumPermutation(CashOf, ordered, records);
  }

  lemma CyclesConserve(trades: seq<Trade>)
    ensures Sum(CyclePnl, Cycles(trades)) == Sum(TradePnl, trades)
    ensures Sum(CycleFees, Cycles(trades)) == Sum(TradeFees, trades)
    ensures Sum(CycleCash, Cycles(trades)) == Sum(TradeCash, trades)
  {
    var cycles, groups := Cycles(trades), GroupBy(StrategyOf, trades).Values();
    forall i | 0 <= i < |cycles|
      ensures cycles[i].cumulativePnl == SumOfGroup(TradePnl)(groups[i])
      ensures cycles[i].cumulativeFees == SumOfGroup(TradeFees)(groups[i])
      ensures cycles[i].cumulativeDebitCredit == SumOfGroup(TradeCash)(groups[i])
    {
      SortedPermutes(ByTradeId, groups[i]);
      SumPermutation(TradePnl, Sorted(ByTradeId, groups[i]), groups[i]);
      SumPermutation(TradeFees, Sorted(ByTradeId, groups[i]), groups[i]);
      SumPermutation(TradeCash, Sorted(ByTradeId, groups[i]), groups[i]);
    }
    SumPointwise(CyclePnl, cycles, SumOfGroup(TradePnl), groups);
    SumPointwise(CycleFees, cycles, SumOfGroup(TradeFees), groups);
    SumPointwise(CycleCash, cycles, SumOfGroup(TradeCash), groups);
    GroupingConserves(StrategyOf, trades, TradePnl);
    GroupingConserves(StrategyOf, trades, TradeFees);
    GroupingConserves(StrategyOf, trades, TradeCash);
  }

  /** From the ledger through both group-bys no money is gained or lost. */
  lemma MoneyIsConserved(ledgers: seq<LedgerRecord>)
    ensures var cycles, kept := Cycles(Trades(ledgers)), Filter(HasPosition, ledgers);
      && Sum(CyclePnl, cycles) == Sum(PnlOf, kept)
      && Sum(CycleFees, cycles) == Sum(FeesOf, kept)
      && Sum(CycleCash, cycles) == Sum(CashOf, kept)
  {
    TradesConserve(ledgers);
    CyclesConserve(Trades(ledgers));
  }

  // ----- Every record in one trade, every trade in one cycle -----

  function ChecksumsOf(t: Trade): seq<string> { t.sourceChecksums }

  function PositionsOf(c: Cycle): seq<string> { [c.initialPosition] + c.childPositions }

  lemma {:induction false} FlatMapPointwise<S, T, U>(f: S -> seq<U>, a: seq<S>, g: T -> seq<U>, b: seq<T>)
    requires |a| == |b| && forall i :: 0 <= i < |a| ==> multiset(f(a[i])) == multiset(g(b[i]))
    ensures multiset(FlatMap(f, a)) == multiset(FlatMap(g, b))
  {
    if a != [] {
      FlatMapPointwise(f, Front(a), g, Front(b));
    }
  }

  lemma {:induction false} MapFlatten<T, U>(f: T -> U, groups: seq<seq<T>>)
    ensures FlatMap((g: seq<T>) => Map(f, g), groups) == Map(f, Flatten(groups))
  {
    if groups != [] {
      MapFlatten(f, Front(groups));
    }
  }

  /** The row checksums of all trades together are those of the records with a position id. */
  lemma RecordsLandOnce(ledgers: seq<LedgerRecord>)
    ensures multiset(FlatMap(ChecksumsOf, Trades(ledgers))) == multiset(Map(ChecksumOf, Filter(HasPosition, ledgers)))
    ensures forall i, j :: 0 <= i < j < |Trades(ledgers)| ==>
      Trades(ledgers)[i].positionId != Trades(ledgers)[j].positionId
  {
    var kept := Filter(HasPosition, ledgers);
    var trades, groups := Trades(ledgers), ByPosition(ledgers).Values();
    var checksums := (g: seq<LedgerRecord>) => Map(ChecksumOf, g);
    forall i | 0 <= i < |trades| ensures multiset(ChecksumsOf(trades[i])) == multiset(checksums(groups[i])) {
      SortedPermutes(InLedgerOrder, groups[i]);
      MapPermutation(ChecksumOf, Sorted(InLedgerOrder, groups[i]), groups[i]);
    }
    FlatMapPointwise(ChecksumsOf, trades, checksums, groups);
    MapFlatten(ChecksumOf, groups);
    GroupsPartition(PositionOf, kept);
    MapPermutation(ChecksumOf, Flatten(groups), kept);
  }

  /** The positions of all cycles together are the positions of the trades. */
  lemma TradesLandOnce(trades: seq<Trade>)
    ensures multiset(FlatMap(PositionsOf, Cycles(trades))) == multiset(Map(TradePosition, trades))
    ensures forall i, j :: 0 <= i < j < |Cycles(trades)| ==> Cycles(trades)[i].strategyId != Cycles(trades)[j].strategyId
  {
    var cycles, groups := Cycles(trades), GroupBy(StrategyOf, trades).Values();
    var positions := (g: seq<Trade>) => Map(TradePosition, g);
    GroupsNotEmpty(StrategyOf, trades);
    forall i | 0 <= i < |cycles| ensures multiset(PositionsOf(cycles[i])) == multiset(positions(groups[i])) {
      CyclePositions(groups[i], cycles[i].strategyId);
    }
    FlatMapPointwise(PositionsOf, cycles, positions, groups);
    MapFlatten(TradePosition, groups);
    GroupsPartition(StrategyOf, trades);
    MapPermutation(TradePosition, Flatten(groups), trades);
  }

  lemma CyclePositions(rows: seq<Trade>, strategyId: string)
    requires rows != []
    ensures multiset(PositionsOf(CycleOf(strategyId, rows))) == multiset(Map(TradePosition, rows))
  {
    var ordered := Sorted(ByTradeId, rows);
    SortedPermutes(ByTradeId, rows);
    MapPermutation(TradePosition, ordered, rows);
    assert Map(TradePosition, ordered) == [ordered[0].positionId] + Map(TradePosition, ordered[1..]);
  }

  // ----- Each trade holds its own records, each cycle its own trades -----

  function OfPosition(p: string): LedgerRecord -> bool {
    (r: LedgerRecord) => r.positionId == Some(p)
  }

  lemma {:induction false} FilterTwice(ledgers: seq<LedgerRecord>, p: string)
    requires p != ""
    ensures Filter(HasKey(PositionOf, p), Filter(HasPosition, ledgers)) == Filter(OfPosition(p), ledgers)
  {
    if ledgers != [] {
      FilterTwice(Front(ledgers), p);
      FilterAppend(HasKey(PositionOf, p), Filter(HasPosition, Front(ledgers)),
                   if HasPosition(Last(ledgers)) then [Last(ledgers)] else []);
      if HasPosition(Last(ledgers)) {
        FilterSnoc(HasKey(PositionOf, p), [], Last(ledgers));
        assert [] + [Last(ledgers)] == [Last(ledgers)];
      }
    }
  }

  lemma GroupOfPosition(ledgers: seq<LedgerRecord>, p: string)
    requires p in ByPosition(ledgers).entries
    ensures p != "" && ByPosition(ledgers).entries[p] == Filter(OfPosition(p), ledgers)
  {
    var kept := Filter(HasPosition, ledgers);
    GroupIsFilter(PositionOf, kept, p);
    var first := Filter(HasKey(PositionOf, p), kept)[0];
    FilterElements(HasKey(PositionOf, p), kept, first);
    FilterElements(HasPosition, ledgers, first);
    FilterTwice(ledgers, p);
  }

  lemma TradeFields(p: string, records: seq<LedgerRecord>)
    requires records != []
    ensures var t, ordered := TradeOf(p, records), Sorted(InLedgerOrder, records);
      && t.positionId == p && t.strategyId == ordered[0].strategyId
      && t.tradeId == t.strategyId + ":" + p
      && t.sourceChecksums == Map(ChecksumOf, ordered) && t.sourceEventIds == Map(EventIdOf, ordered)
      && t.realizedPnl == Sum(PnlOf, ordered) && t.fees == Sum(FeesOf, ordered)
      && t.cashMovements == Sum(CashOf, ordered)
      && t.entryIntents == PayloadsWhere(IsEntry, ordered) && t.fills == PayloadsWhere(IsFill, ordered)
      && t.managementActions == PayloadsWhere(IsManagement, ordered) && t.rolls == PayloadsWhere(IsRoll, ordered)
      && t.adjustments == PayloadsWhere(IsAdjustment, ordered)
      && t.expirationEvents == PayloadsWhere(IsExpiration, ordered)
      && t.closingFills == PayloadsWhere(IsClosing, ordered) && (t.closed <==> t.closingFills != [])
  {
  }

  /** The trade of a position is made of exactly the ledger records of that position, in ledger order. */
  lemma TradeHoldsItsRecords(ledgers: seq<LedgerRecord>, i: nat)
    requires i < |Trades(ledgers)|
    ensures var t := Trades(ledgers)[i];
      var ordered := Sorted(InLedgerOrder, Filter(OfPosition(t.positionId), ledgers));
      && ordered != [] && t.strategyId == ordered[0].strategyId
      && t.sourceChecksums == Map(ChecksumOf, ordered) && t.sourceEventIds == Map(EventIdOf, ordered)
      && t.realizedPnl == Sum(PnlOf, ordered) && t.fees == Sum(FeesOf, ordered)
      && t.cashMovements == Sum(CashOf, ordered)
      && t.closingFills == PayloadsWhere(IsClosing, ordered) && (t.closed <==> t.closingFills != [])
  {
    var groups := ByPosition(ledgers);
    var p := groups.keys[i];
    TradeAt(ledgers, i);
    GroupOfPosition(ledgers, p);
    TradeFields(p, groups.entries[p]);
  }

  /** Every record with a position id has a trade of that position. */
  lemma EveryRecordHasTrade(ledgers: seq<LedgerRecord>, r: LedgerRecord)
    requires r in ledgers && HasPosition(r)
    ensures exists i :: 0 <= i < |Trades(ledgers)| && Trades(ledgers)[i].positionId == PositionOf(r)
  {
    var kept, groups, p := Filter(HasPosition, ledgers), ByPosition(ledgers), PositionOf(r);
    FilterElements(HasPosition, ledgers, r);
    FilterElements(HasKey(PositionOf, p), kept, r);
    GroupIsFilter(PositionOf, kept, p);
    assert p in (set k | k in groups.keys);
    var i :| 0 <= i < |groups.keys| && groups.keys[i] == p;
    TradeAt(ledgers, i);
    TradeFields(p, groups.entries[p]);
    assert Trades(ledgers)[i].positionId == p;
  }

  lemma CycleFields(strategyId: string, rows: seq<Trade>)
    requires rows != []
    ensures var c, ordered := CycleOf(strategyId, rows), Sorted(ByTradeId, rows);
      && c.strategyId == strategyId && c.tradeCount == |ordered|
      && PositionsOf(c) == Map(TradePosition, ordered)
      && c.rollChain == Map(TradeIdOf, Filter(HasRolls, ordered))
      && c.cumulativePnl == Sum(TradePnl, ordered) && c.cumulativeFees == Sum(TradeFees, ordered)
      && c.cumulativeDebitCredit == Sum(TradeCash, ordered)
  {
  }

  /** The cycle of a strategy is made of exactly the trades of that strategy, in trade-id order. */
  lemma CycleHoldsItsTrades(trades: seq<Trade>, k: nat)
    requires k < |Cycles(trades)|
    ensures var c := Cycles(trades)[k];
      var ordered := Sorted(ByTradeId, Filter(HasKey(StrategyOf, c.strategyId), trades));
      && ordered != [] && c.tradeCount == |ordered|
      && PositionsOf(c) == Map(TradePosition, ordered)
      && c.rollChain == Map(TradeIdOf, Filter(HasRolls, ordered))
      && c.cumulativePnl == Sum(TradePnl, ordered) && c.cumulativeFees == Sum(TradeFees, ordered)
      && c.cumulativeDebitCredit == Sum(TradeCash, ordered)
  {
    var groups := GroupBy(StrategyOf, trades);
    var strategyId := groups.keys[k];
    CycleAt(trades, k);
    GroupIsFilter(StrategyOf, trades, strategyId);
    CycleFields(strategyId, groups.entries[strategyId]);
  }

  /** Every trade has a cycle of its own strategy. */
  lemma EveryTradeHasCycle(trades: seq<Trade>, t: Trade)
    requires t in trades
    ensures exists k :: 0 <= k < |Cycles(trades)| && Cycles(trades)[k].strategyId == t.strategyId
  {
    var groups := GroupBy(StrategyOf, trades);
    FilterElements(HasKey(StrategyOf, t.strategyId), trades, t);
    GroupIsFilter(StrategyOf, trades, t.strategyId);
    assert t.strategyId in (set s | s in groups.keys);
    var k :| 0 <= k < |groups.keys| && groups.keys[k] == t.strategyId;
    CycleAt(trades, k);
    CycleFields(t.strategyId, groups.entries[t.strategyId]);
    assert Cycles(trades)[k].strategyId == t.strategyId;
  }

  // ----- When a cycle is closed -----

  ghost predicate HasClosingRecord(ledgers: seq<LedgerRecord>, positionId: string) {
    exists r :: r in ledgers && r.positionId == Some(positionId) && IsClosing(r)
  }

  lemma TradeClosedIff(ledgers: seq<LedgerRecord>, i: nat)
    requires i < |Trades(ledgers)|
    ensures Trades(ledgers)[i].closed <==> HasClosingRecord(ledgers, Trades(ledgers)[i].positionId)
  {
    var kept := Filter(HasPosition, ledgers);
    var groups := ByPosition(ledgers);
    var p, group := groups.keys[i], groups.Values()[i];
    assert p in groups.entries;
    GroupIsFilter(PositionOf, kept, p);
    ClosingInGroup(ledgers, group, p);
    var ordered := Sorted(InLedgerOrder, group);
    SortedElements(InLedgerOrder, group);
    ClosingFilter(ordered);
  }

  lemma ClosingFilter(records: seq<LedgerRecord>)
    ensures PayloadsWhere(IsClosing, records) != [] <==> exists r :: r in records && IsClosing(r)
  {
    var closing := Filter(IsClosing, records);
    if closing != [] {
      FilterElements(IsClosing, records, closing[0]);
    }
    if r :| r in records && IsClosing(r) {
      FilterElements(IsClosing, records, r);
    }
  }

  lemma ClosingInGroup(ledgers: seq<LedgerRecord>, group: seq<LedgerRecord>, p: string)
    requires group != [] && group == Filter(HasKey(PositionOf, p), Filter(HasPosition, ledgers))
    ensures (exists r :: r in group && IsClosing(r)) <==> HasClosingRecord(ledgers, p)
  {
    var kept := Filter(HasPosition, ledgers);
    forall r ensures r in group <==> r in ledgers && HasPosition(r) && PositionOf(r) == p {
      FilterElements(HasKey(PositionOf, p), kept, r);
      FilterElements(HasPosition, ledgers, r);
    }
    assert group[0] in group;
  }

  /** A cycle is closed exactly when every one of its positions has a closing record in the ledger. */
  lemma CycleClosedIff(ledgers: seq<LedgerRecord>, k: nat)
    requires k < |Cycles(Trades(ledgers))|
    ensures var c := Cycles(Trades(ledgers))[k];
      c.closed <==> forall p :: p in PositionsOf(c) ==> HasClosingRecord(ledgers, p)
  {
    var groups := GroupBy(StrategyOf, Trades(ledgers));
    CycleAt(Trades(ledgers), k);
    var rows := groups.entries[groups.keys[k]];
    forall t | t in rows ensures t.closed <==> HasClosingRecord(ledgers, t.positionId) {
      RowIsClosedIff(ledgers, groups.keys[k], t);
    }
    PositionsAreRows(rows, groups.keys[k]);
  }

  lemma RowIsClosedIff(ledgers: seq<LedgerRecord>, strategyId: string, t: Trade)
    requires strategyId in GroupBy(StrategyOf, Trades(ledgers)).entries
    requires t in GroupBy(StrategyOf, Trades(ledgers)).entries[strategyId]
    ensures t.closed <==> HasClosingRecord(ledgers, t.positionId)
  {
    var trades := Trades(ledgers);
    GroupIsFilter(StrategyOf, trades, strategyId);
    FilterElements(HasKey(StrategyOf, strategyId), trades, t);
    var i :| 0 <= i < |trades| && trades[i] == t;
    TradeClosedIff(ledgers, i);
  }

  lemma PositionsAreRows(rows: seq<Trade>, strategyId: string)
    requires rows != []
    ensures var c := CycleOf(strategyId, rows);
      && (c.closed <==> forall t :: t in rows ==> t.closed)
      && (forall p :: p in PositionsOf(c) <==> exists t :: t in rows && t.positionId == p)
  {
    var ordered := Sorted(ByTradeId, rows);
    SortedElements(ByTradeId, rows);
    forall p ensures p in PositionsOf(CycleOf(strategyId, rows)) <==> exists t :: t in rows && t.positionId == p {
      var positions := Map(TradePosition, ordered);
      assert positions == PositionsOf(CycleOf(strategyId, rows));
      if t :| t in rows && t.positionId == p {
        var i :| 0 <= i < |ordered| && ordered[i] == t;
        assert positions[i] == p;
      }
      if p in positions {
        var i :| 0 <= i < |positions| && positions[i] == p;
        assert ordered[i] in ordered;
      }
    }
  }
}
