/** Historical quote selection (`backend/backtesting/quote_selection.py`). */
module QuoteSelection {
  import opened Results
  import opened Seqs
  import opened StableSort
  import opened AsOfQueries

  datatype PriceSelection = Bid | Ask | Midpoint | LastTrade | ThroughSpread

  datatype Policy = Policy(
    mode: string, priceSelection: PriceSelection, throughSpreadPct: real, theoreticalFallbackEnabled: bool)

  datatype Quote = Quote(
    timestamp: Option<int>, bid: Option<real>, ask: Option<real>, last: Option<real>, manifest: Option<string>,
    qualityFlags: seq<string>)

  datatype Selection = Selection(
    quote: Option<Quote>, price: Option<real>, age: Option<int>, spread: Option<real>, flags: seq<string>,
    stale: bool, crossed: bool)

  const EPOCH := 0

  function Ts(q: Quote): int { q.timestamp.GetOr(EPOCH) }

  predicate ByTimestamp(a: Quote, b: Quote) { Ts(a) <= Ts(b) }

  function AtLeastZero(n: int): nat { if n > 0 then n else 0 }

  function Clamp(x: real): real {
    if x <= 0.0 then 0.0 else if x >= 1.0 then 1.0 else x
  }

  function Price(policy: Policy, q: Quote): Option<real> {
    match policy.priceSelection
    case Bid => q.bid
    case Ask => q.ask
    case LastTrade => q.last
    case Midpoint =>
      if q.bid.None? || q.ask.None? then None else Some((q.bid.value + q.ask.value) / 2.0)
    case ThroughSpread =>
      if q.bid.None? || q.ask.None? then None
      else Some(q.bid.value + Clamp(policy.throughSpreadPct) * (q.ask.value - q.bid.value))
  }

  /** The first row that satisfies `p`. */
  function First(p: Quote -> bool, rows: seq<Quote>): Option<Quote> {
    if rows == [] then None
    else if First(p, Front(rows)).Some? then First(p, Front(rows))
    else if p(Last(rows)) then Some(Last(rows))
    else None
  }

  /** The row before the first one that is later than `ts`. */
  function ScanUntilLater(ts: int, rows: seq<Quote>): Option<Quote> {
    var later := FirstLater(ts, rows);
    if later == 0 then None else Some(rows[later - 1])
  }

  function FirstLater(ts: int, rows: seq<Quote>): (n: nat)
    ensures n <= |rows|
    ensures forall i :: 0 <= i < n ==> Ts(rows[i]) <= ts
    ensures n < |rows| ==> Ts(rows[n]) > ts
  {
    if rows == [] then 0
    else if FirstLater(ts, Front(rows)) < |rows| - 1 then FirstLater(ts, Front(rows))
    else if Ts(Last(rows)) <= ts then |rows| else |rows| - 1
  }

  /** The three selection modes, on the rows ordered by timestamp. */
  function Picked(mode: string, ts: int, delayed: int, rows: seq<Quote>): Option<Quote> {
    var sorted := Sorted(ByTimestamp, rows);
    if mode == "exact" then First((q: Quote) => Ts(q) == ts, sorted)
    else if mode == "next_after_delay" then First((q: Quote) => Ts(q) >= delayed, sorted)
    else ScanUntilLater(ts, sorted)
  }

  method FirstMatch(p: Quote -> bool, rows: seq<Quote>) returns (r: Option<Quote>)
    ensures r == First(p, rows)
  {
    r := None;
    for i := 0 to |rows|
      invariant r.None? && First(p, rows[..i]).None?
    {
      TakeNext(rows, i);
      if p(rows[i]) {
        r := Some(rows[i]);
        FirstStays(p, rows, i + 1);
        return;
      }
    }
    assert rows[..|rows|] == rows;
  }

  lemma {:induction false} FirstStays(p: Quote -> bool, rows: seq<Quote>, i: nat)
    requires i <= |rows| && First(p, rows[..i]).Some?
    ensures First(p, rows) == First(p, rows[..i])
  {
    if i < |rows| {
      assert Front(rows)[..i] == rows[..i];
      FirstStays(p, Front(rows), i);
    } else {
      assert rows[..i] == rows;
    }
  }

  /** The scan of the default mode, which stops at the first later row. */
  method Scan(ts: int, rows: seq<Quote>) returns (selected: Option<Quote>)
    ensures selected == ScanUntilLater(ts, rows)
  {
    selected := None;
    var i := 0;
    while i < |rows|
      invariant 0 <= i <= |rows|
      invariant forall j :: 0 <= j < i ==> Ts(rows[j]) <= ts
      invariant selected == if i == 0 then None else Some(rows[i - 1])
    {
      if Ts(rows[i]) <= ts {
        selected := Some(rows[i]);
      } else {
        break;
      }
      i := i + 1;
    }
    assert i == FirstLater(ts, rows);
  }

  const FALLBACK_MANIFEST: string := "theoretical_fallback"

  function Fallback(delayed: int): Quote {
    Quote(Some(delayed), None, None, None, Some(FALLBACK_MANIFEST), [FALLBACK_MANIFEST])
  }

  function Chosen(policy: Policy, ts: int, delayed: int, rows: seq<Quote>): Option<Quote> {
    var picked := Picked(policy.mode, ts, delayed, rows);
    if picked.None? && policy.theoreticalFallbackEnabled then Some(Fallback(delayed)) else picked
  }

  method Choose(ts: int, rows: seq<Quote>, policy: Policy, delayed: int) returns (selected: Option<Quote>)
    ensures selected == Chosen(policy, ts, delayed, rows)
  {
    var sorted := Sorted(ByTimestamp, rows);
    if policy.mode == "exact" {
      selected := FirstMatch((q: Quote) => Ts(q) == ts, sorted);
    } else if policy.mode == "next_after_delay" {
      selected := FirstMatch((q: Quote) => Ts(q) >= delayed, sorted);
    } else {
      selected := Scan(ts, sorted);
    }
    if selected.None? && policy.theoreticalFallbackEnabled {
      selected := Some(Fallback(delayed));
    }
  }

  function Spread(q: Quote): Option<real> {
    if q.bid.None? || q.ask.None? then None
    else if q.ask.value - q.bid.value > 0.0 then Some(q.ask.value - q.bid.value)
    else Some(0.0)
  }

  predicate Crossed(q: Quote) {
    q.bid.Some? && q.ask.Some? && q.bid.value > q.ask.value
  }

  method Select(ts: int, rows: seq<Quote>, policy: Policy, delay: int, staleQuoteSeconds: int) returns (r: Selection)
    ensures r.quote == Chosen(policy, ts, if delay > 0 then ts + delay else ts, rows)
    ensures r.quote.None? ==> r == Selection(None, None, None, None, ["missing_quote"], true, false)
    ensures r.quote.Some? ==>
              var q := r.quote.value;
              var written := if q.timestamp.Some? then q.timestamp.value else 0;
              var age := if ts > written then ts - written else 0;
              r == Selection(
                     Some(q), Price(policy, q), Some(age), Spread(q),
                     q.qualityFlags + (if age > staleQuoteSeconds then ["stale_quote"] else [])
                     + (if Crossed(q) then ["crossed_market"] else []),
                     age > staleQuoteSeconds, Crossed(q))
  {
    var selected := Choose(ts, rows, policy, ts + AtLeastZero(delay));
    if selected.None? {
      return Selection(None, None, None, None, ["missing_quote"], true, false);
    }
    var q := selected.value;
    var age := AtLeastZero(ts - Ts(q));
    var stale := age > staleQuoteSeconds;
    var flags := q.qualityFlags;
    if stale {
      flags := flags + ["stale_quote"];
    }
    if Crossed(q) {
      flags := flags + ["crossed_market"];
    }
    r := Selection(selected, Price(policy, q), Some(age), Spread(q), flags, stale, Crossed(q));
  }

  // ----- What the modes select -----

  lemma TimestampIsPreorder()
    ensures Preorder(ByTimestamp)
  {
  }

  lemma {:induction false} LastOfSorted(ts: int, rows: seq<Quote>)
    requires forall q :: q in rows ==> Ts(q) <= ts
    ensures Nearest(Ts, ts, rows) == if rows == [] then None else Some(Last(Sorted(ByTimestamp, rows)))
  {
    if rows != [] {
      SplitLast(rows);
      LastOfSorted(ts, Front(rows));
    }
  }

  lemma LaterRowsAreLater(ts: int, sorted: seq<Quote>, q: Quote)
    requires Ordered(ByTimestamp, sorted) && q in sorted[FirstLater(ts, sorted)..]
    ensures Ts(q) > ts
  {
    var n := FirstLater(ts, sorted);
    var j :| n <= j < |sorted| && sorted[j] == q;
    assert n < j ==> ByTimestamp(sorted[n], sorted[j]);
  }

  lemma FilterPrefix(p: Quote -> bool, rows: seq<Quote>, n: nat)
    requires n <= |rows| && (forall q :: q in rows[..n] ==> p(q)) && forall q :: q in rows[n..] ==> !p(q)
    ensures Filter(p, rows) == rows[..n]
  {
    assert rows == rows[..n] + rows[n..];
    FilterAppend(p, rows[..n], rows[n..]);
    FilterAll(p, rows[..n]);
    FilterNone(p, rows[n..]);
  }

  lemma ScanIsLastVisible(ts: int, sorted: seq<Quote>)
    requires Ordered(ByTimestamp, sorted)
    ensures var visible := Filter(VisibleAt(Ts, ts), sorted);
            ScanUntilLater(ts, sorted) == if visible == [] then None else Some(Last(visible))
  {
    var n := FirstLater(ts, sorted);
    forall q | q in sorted[n..] ensures !VisibleAt(Ts, ts)(q) {
      LaterRowsAreLater(ts, sorted, q);
    }
    FilterPrefix(VisibleAt(Ts, ts), sorted, n);
  }

  lemma SortedByTimestamp(ts: int, rows: seq<Quote>)
    ensures Ordered(ByTimestamp, Sorted(ByTimestamp, rows))
    ensures Filter(VisibleAt(Ts, ts), Sorted(ByTimestamp, rows))
         == Sorted(ByTimestamp, Filter(VisibleAt(Ts, ts), rows))
  {
    TimestampIsPreorder();
    SortedOrders(ByTimestamp, rows);
    SortedFilter(ByTimestamp, VisibleAt(Ts, ts), rows);
  }

  lemma NearestIsLastOfSorted(ts: int, rows: seq<Quote>)
    ensures var visible := Filter(VisibleAt(Ts, ts), rows);
            Nearest(Ts, ts, rows) == if visible == [] then None else Some(Last(Sorted(ByTimestamp, visible)))
  {
    NearestSeesOnlyVisible(Ts, ts, rows);
    forall q | q in Filter(VisibleAt(Ts, ts), rows) ensures Ts(q) <= ts {
      FilterElements(VisibleAt(Ts, ts), rows, q);
    }
    LastOfSorted(ts, Filter(VisibleAt(Ts, ts), rows));
  }

  /** The default mode, which sorts stably and scans, picks the same row as the unsorted one-pass lookup. */
  lemma DefaultModeIsNearest(ts: int, rows: seq<Quote>)
    ensures ScanUntilLater(ts, Sorted(ByTimestamp, rows)) == Nearest(Ts, ts, rows)
  {
    SortedByTimestamp(ts, rows);
    ScanIsLastVisible(ts, Sorted(ByTimestamp, rows));
    NearestIsLastOfSorted(ts, rows);
  }

  lemma {:induction false} FirstIsFirstOfFilter(p: Quote -> bool, rows: seq<Quote>)
    ensures First(p, rows) == if Filter(p, rows) == [] then None else Some(Filter(p, rows)[0])
  {
    if rows != [] {
      FirstIsFirstOfFilter(p, Front(rows));
    }
  }

  /** The exact mode picks the first row of the input with that timestamp. */
  lemma ExactModeIsFirst(ts: int, rows: seq<Quote>)
    ensures First((q: Quote) => Ts(q) == ts, Sorted(ByTimestamp, rows)) == First((q: Quote) => Ts(q) == ts, rows)
  {
    var p := (q: Quote) => Ts(q) == ts;
    TimestampIsPreorder();
    SortedFilter(ByTimestamp, p, rows);
    forall q | q in Filter(p, rows) ensures Ts(q) == ts {
      FilterElements(p, rows, q);
    }
    SortedFixed(ByTimestamp, Filter(p, rows));
    FirstIsFirstOfFilter(p, rows);
    FirstIsFirstOfFilter(p, Sorted(ByTimestamp, rows));
  }

  /** The delayed mode picks the earliest row from the delayed time on, and the first of the input among equals. */
  lemma DelayedModeIsEarliest(delayed: int, rows: seq<Quote>)
    ensures var picked := First((q: Quote) => Ts(q) >= delayed, Sorted(ByTimestamp, rows));
            && (picked.None? <==> forall q :: q in rows ==> Ts(q) < delayed)
            && (picked.Some? ==>
                  && Ts(picked.value) >= delayed
                  && (forall q :: q in rows && Ts(q) >= delayed ==> Ts(q) >= Ts(picked.value))
                  && picked == First((q: Quote) => Ts(q) == Ts(picked.value), rows))
  {
    var p := (q: Quote) => Ts(q) >= delayed;
    var sorted := Sorted(ByTimestamp, rows);
    TimestampIsPreorder();
    SortedOrders(ByTimestamp, rows);
    SortedElements(ByTimestamp, rows);
    FirstOfOrdered(delayed, sorted);
    var picked := First(p, sorted);
    if picked.Some? {
      ExactModeIsFirst(Ts(picked.value), rows);
    }
  }

  lemma {:induction false} FirstOfOrdered(delayed: int, sorted: seq<Quote>)
    requires Ordered(ByTimestamp, sorted)
    ensures var picked := First((q: Quote) => Ts(q) >= delayed, sorted);
            && (picked.None? <==> forall q :: q in sorted ==> Ts(q) < delayed)
            && (picked.Some? ==>
                  && picked.value in sorted && Ts(picked.value) >= delayed
                  && (forall q :: q in sorted && Ts(q) >= delayed ==> Ts(q) >= Ts(picked.value))
                  && picked == First((q: Quote) => Ts(q) == Ts(picked.value), sorted))
  {
    if sorted != [] {
      FirstOfOrdered(delayed, Front(sorted));
      SplitLast(sorted);
      var before := First((q: Quote) => Ts(q) >= delayed, Front(sorted));
      if before.Some? {
        assert ByTimestamp(before.value, Last(sorted));
      } else if Ts(Last(sorted)) >= delayed {
        FirstFinds((q: Quote) => Ts(q) == Ts(Last(sorted)), Front(sorted));
      }
    }
  }

  lemma {:induction false} FirstFinds(p: Quote -> bool, rows: seq<Quote>)
    ensures First(p, rows).None? <==> forall q :: q in rows ==> !p(q)
    ensures First(p, rows).Some? ==> First(p, rows).value in rows && p(First(p, rows).value)
  {
    if rows != [] {
      FirstFinds(p, Front(rows));
      SplitLast(rows);
    }
  }

  /** What each mode looks for. */
  predicate Eligible(mode: string, ts: int, delayed: int, q: Quote) {
    if mode == "exact" then Ts(q) == ts
    else if mode == "next_after_delay" then Ts(q) >= delayed
    else Ts(q) <= ts
  }

  lemma PickedIsEligible(mode: string, ts: int, delayed: int, rows: seq<Quote>)
    ensures var picked := Picked(mode, ts, delayed, rows);
            && (picked.None? <==> forall q :: q in rows ==> !Eligible(mode, ts, delayed, q))
            && (picked.Some? ==> picked.value in rows && Eligible(mode, ts, delayed, picked.value))
  {
    if mode == "exact" {
      ExactModeIsFirst(ts, rows);
      FirstFinds((q: Quote) => Ts(q) == ts, rows);
    } else if mode == "next_after_delay" {
      SortedElements(ByTimestamp, rows);
      FirstFinds((q: Quote) => Ts(q) >= delayed, Sorted(ByTimestamp, rows));
    } else {
      DefaultModeIsNearest(ts, rows);
      NearestIsLatest(Ts, ts, rows);
    }
  }

  /** A quote of the input that the mode looks for is chosen whenever there is one. Otherwise the fallback is, if it is
      enabled, and nothing if it is not. */
  lemma ChosenIsEligible(policy: Policy, ts: int, delayed: int, rows: seq<Quote>)
    ensures var chosen := Chosen(policy, ts, delayed, rows);
            if exists q :: q in rows && Eligible(policy.mode, ts, delayed, q)
            then chosen.Some? && chosen.value in rows && Eligible(policy.mode, ts, delayed, chosen.value)
            else chosen == if policy.theoreticalFallbackEnabled then Some(Fallback(delayed)) else None
  {
    PickedIsEligible(policy.mode, ts, delayed, rows);
  }

  /** No look-ahead: apart from the delayed mode, rows later than the request, put in anywhere, never change
      what is selected. */
  lemma LaterQuotesNeverMatter(policy: Policy, ts: int, delayed: int, a: seq<Quote>, later: seq<Quote>, b: seq<Quote>)
    requires policy.mode != "next_after_delay" && forall q :: q in later ==> Ts(q) > ts
    ensures Chosen(policy, ts, delayed, a + later + b) == Chosen(policy, ts, delayed, a + b)
  {
    if policy.mode == "exact" {
      var p := (q: Quote) => Ts(q) == ts;
      ExactModeIsFirst(ts, a + later + b);
      ExactModeIsFirst(ts, a + b);
      FirstIsFirstOfFilter(p, a + later + b);
      FirstIsFirstOfFilter(p, a + b);
      FilterAppend(p, a + later, b);
      FilterAppend(p, a, later);
      FilterNone(p, later);
      FilterAppend(p, a, b);
      assert Filter(p, a) + [] == Filter(p, a);
    } else {
      DefaultModeIsNearest(ts, a + later + b);
      DefaultModeIsNearest(ts, a + b);
      InsertedLater(Ts, ts, a, later, b);
    }
  }

  /** The delayed mode does look ahead: a row after the request is chosen where there was none. */
  lemma DelayedModeLooksAhead(policy: Policy, ts: int, delayed: int, q: Quote)
    requires policy.mode == "next_after_delay" && Ts(q) > ts && Ts(q) >= delayed && q != Fallback(delayed)
    ensures Chosen(policy, ts, delayed, [q]) == Some(q) && Chosen(policy, ts, delayed, []) != Some(q)
  {
    SortedOne(ByTimestamp, q);
    assert Front([q]) == [];
    FirstIsFirstOfFilter((r: Quote) => Ts(r) >= delayed, [q]);
  }

  /** Rows later than the request, put in anywhere, never change what is selected. */
  ghost predicate NoLookAhead(policy: Policy, ts: int, delayed: int) {
    forall a, later, b | (forall q :: q in later ==> Ts(q) > ts) ::
      Chosen(policy, ts, delayed, a + later + b) == Chosen(policy, ts, delayed, a + b)
  }

  /** The selection never looks ahead exactly in the modes other than the delayed one, whatever the delay. */
  lemma NoLookAheadIff(policy: Policy, ts: int, delayed: int)
    ensures NoLookAhead(policy, ts, delayed) <==> policy.mode != "next_after_delay"
  {
    if policy.mode != "next_after_delay" {
      forall a, later, b | (forall q :: q in later ==> Ts(q) > ts)
        ensures Chosen(policy, ts, delayed, a + later + b) == Chosen(policy, ts, delayed, a + b)
      {
        LaterQuotesNeverMatter(policy, ts, delayed, a, later, b);
      }
    } else {
      var q := Quote(Some(if ts >= delayed then ts + 1 else delayed), None, None, None, None, []);
      DelayedModeLooksAhead(policy, ts, delayed, q);
      assert [] + [q] + [] == [q];
      assert Chosen(policy, ts, delayed, [] + [q] + []) != Chosen(policy, ts, delayed, [] + []);
    }
  }

  // ----- No quote from the future -----

  function WrittenAt(q: Quote): int {
    if q.timestamp.Some? then q.timestamp.value else 0
  }

  /** The exact mode chooses a quote of exactly that time; a row without a timestamp counts as written at the epoch. */
  lemma ExactModeIsExact(policy: Policy, ts: int, delayed: int, rows: seq<Quote>)
    requires policy.mode == "exact"
    ensures var chosen := Chosen(policy, ts, delayed, rows);
      chosen.Some? && chosen.value != Fallback(delayed) ==> chosen.value in rows && WrittenAt(chosen.value) == ts
  {
    PickedIsEligible("exact", ts, delayed, rows);
  }

  /** The delayed mode chooses the earliest of the quotes from the delayed time on. */
  lemma DelayedModeIsNotEarlier(policy: Policy, ts: int, delayed: int, rows: seq<Quote>)
    requires policy.mode == "next_after_delay"
    ensures var chosen := Chosen(policy, ts, delayed, rows);
      chosen.Some? && chosen.value != Fallback(delayed) ==>
        && chosen.value in rows && WrittenAt(chosen.value) >= delayed
        && forall q :: q in rows && WrittenAt(q) >= delayed ==> WrittenAt(q) >= WrittenAt(chosen.value)
  {
    PickedIsEligible("next_after_delay", ts, delayed, rows);
    DelayedModeIsEarliest(delayed, rows);
  }

  /** Every other mode chooses the latest of the quotes that are not later than the request. */
  lemma DefaultModeIsLatest(policy: Policy, ts: int, delayed: int, rows: seq<Quote>)
    requires policy.mode != "exact" && policy.mode != "next_after_delay"
    ensures var chosen := Chosen(policy, ts, delayed, rows);
      chosen.Some? && chosen.value != Fallback(delayed) ==>
        && chosen.value in rows && WrittenAt(chosen.value) <= ts
        && forall q :: q in rows && WrittenAt(q) <= ts ==> WrittenAt(q) <= WrittenAt(chosen.value)
  {
    DefaultModeIsNearest(ts, rows);
    NearestIsGreatest(ts, rows);
  }

  lemma NearestIsGreatest(ts: int, rows: seq<Quote>)
    ensures var nearest := Nearest(Ts, ts, rows);
      nearest.Some? ==>
        && nearest.value in rows && WrittenAt(nearest.value) <= ts
        && forall q :: q in rows && WrittenAt(q) <= ts ==> WrittenAt(q) <= WrittenAt(nearest.value)
  {
    NearestIsLatest(Ts, ts, rows);
    if Nearest(Ts, ts, rows).Some? {
      var k :| LatestAt(Ts, ts, rows, k) && rows[k] == Nearest(Ts, ts, rows).value;
      forall q | q in rows && WrittenAt(q) <= ts ensures WrittenAt(q) <= WrittenAt(rows[k]) {
        var i :| 0 <= i < |rows| && rows[i] == q;
      }
    }
  }

  // ----- Prices -----

  /** Each price selection: the side it names, the price halfway between the sides, or the price that lies the clamped
      fraction of the way from the bid to the ask. Without both sides the last two have no price. */
  lemma PriceIsExact(policy: Policy, q: Quote)
    ensures policy.priceSelection.Bid? ==> Price(policy, q) == q.bid
    ensures policy.priceSelection.Ask? ==> Price(policy, q) == q.ask
    ensures policy.priceSelection.LastTrade? ==> Price(policy, q) == q.last
    ensures policy.priceSelection.Midpoint? || policy.priceSelection.ThroughSpread? ==>
              (Price(policy, q).Some? <==> q.bid.Some? && q.ask.Some?)
    ensures policy.priceSelection.Midpoint? && q.bid.Some? && q.ask.Some? ==>
              Price(policy, q).value - q.bid.value == q.ask.value - Price(policy, q).value
    ensures policy.priceSelection.ThroughSpread? && q.bid.Some? && q.ask.Some? ==>
              && (policy.throughSpreadPct <= 0.0 ==> Price(policy, q) == q.bid)
              && (policy.throughSpreadPct >= 1.0 ==> Price(policy, q) == q.ask)
              && (0.0 <= policy.throughSpreadPct <= 1.0 ==>
                    Price(policy, q).value == q.bid.value + policy.throughSpreadPct * (q.ask.value - q.bid.value))
  {
  }

  /** The spread is known when both sides are. In a crossed market, where the bid is above the ask, it counts as zero. */
  lemma SpreadIsExact(q: Quote)
    ensures Spread(q).Some? <==> q.bid.Some? && q.ask.Some?
    ensures q.bid.Some? && q.ask.Some? ==>
              && (Crossed(q) <==> q.bid.value > q.ask.value)
              && Spread(q).value == if q.bid.value > q.ask.value then 0.0 else q.ask.value - q.bid.value
    ensures !(q.bid.Some? && q.ask.Some?) ==> !Crossed(q)
  {
  }

  /** Unless the market is crossed, a midpoint or through-spread price lies within the spread. */
  lemma PriceWithinSpread(policy: Policy, q: Quote)
    requires q.bid.Some? && q.ask.Some? && q.bid.value <= q.ask.value
    requires policy.priceSelection.Midpoint? || policy.priceSelection.ThroughSpread?
    ensures Price(policy, q).Some? && q.bid.value <= Price(policy, q).value <= q.ask.value
  {
    var width, c := q.ask.value - q.bid.value, Clamp(policy.throughSpreadPct);
    ProductNotNegative(c, width);
    ProductNotNegative(1.0 - c, width);
    assert (1.0 - c) * width == width - c * width;
  }

  lemma ProductNotNegative(a: real, b: real)
    requires a >= 0.0 && b >= 0.0
    ensures a * b >= 0.0
  {
  }

  /** The theoretical fallback carries no price that any price selection reads, and its age is zero. */
  lemma FallbackHasNoPrice(policy: Policy, ts: int, delay: int)
    ensures Price(policy, Fallback(ts + AtLeastZero(delay))).None?
    ensures Fallback(ts) == Quote(Some(ts), None, None, None, Some("theoretical_fallback"), ["theoretical_fallback"])
    ensures AtLeastZero(ts - Ts(Fallback(ts + AtLeastZero(delay)))) == 0
  {
  }
}
