/** Maximum drawdown, as the engine computes it in one pass (`backend/backtesting/engine.py`) and
    as the analytics read it off a history (`backend/backtesting/analytics.py`). */
module Drawdown {
  import opened Seqs

  datatype EquityPoint = EquityPoint(timestamp: int, equity: real)

  datatype DrawdownPoint = DrawdownPoint(timestamp: int, equity: real, runningPeak: real, drawdown: real)

  function Larger(a: real, b: real): real {
    if b > a then b else a
  }

  /** The fall from `peak` to `equity`, as a fraction of `peak`. */
  function Fall(peak: real, equity: real): real
    requires peak > 0.0
  {
    (peak - equity) / peak
  }

  function FallIfPositive(peak: real, equity: real): real {
    if peak <= 0.0 then 0.0 else Fall(peak, equity)
  }

  // ----- What the two loops compute -----

  function PointAfter(earlier: seq<DrawdownPoint>, p: EquityPoint): DrawdownPoint {
    var peak := if earlier == [] then p.equity else Larger(Last(earlier).runningPeak, p.equity);
    DrawdownPoint(p.timestamp, p.equity, peak, FallIfPositive(peak, p.equity))
  }

  function History(curve: seq<EquityPoint>): (h: seq<DrawdownPoint>)
    ensures |h| == |curve|
  {
    if curve == [] then [] else
    var earlier := History(Front(curve));
    earlier + [PointAfter(earlier, Last(curve))]
  }

  function Drawdowns(h: seq<DrawdownPoint>): (r: seq<real>)
    ensures |r| == |h|
  {
    Map((p: DrawdownPoint) => p.drawdown, h)
  }

  function Maximum(s: seq<real>): (m: real)
    requires s != []
    ensures m in s && forall x :: x in s ==> x <= m
  {
    if |s| == 1 then s[0] else
    SplitLast(s);
    Larger(Maximum(Front(s)), Last(s))
  }

  /** The maximum-drawdown entry of the performance analytics. */
  function MaximumDrawdown(curve: seq<EquityPoint>): real {
    if curve == [] then 0.0 else Maximum(Drawdowns(History(curve)))
  }

  method DrawdownHistory(curve: seq<EquityPoint>) returns (output: seq<DrawdownPoint>)
    ensures output == History(curve)
  {
    output := [];
    var runningPeak := 0.0; // negative infinity in the source, replaced by the first value
    for i := 0 to |curve|
      invariant output == History(curve[..i])
      invariant i > 0 ==> runningPeak == Last(output).runningPeak
    {
      TakeNext(curve, i);
      var equity := curve[i].equity;
      runningPeak := if i == 0 then equity else Larger(runningPeak, equity);
      var drawdown := if runningPeak <= 0.0 then 0.0 else (runningPeak - equity) / runningPeak;
      output := output + [DrawdownPoint(curve[i].timestamp, equity, runningPeak, drawdown)];
    }
    assert curve[..|curve|] == curve;
  }

  lemma {:induction false} NeverNegative(curve: seq<EquityPoint>, i: nat)
    requires i < |curve|
    ensures History(curve)[i].runningPeak >= curve[i].equity
    ensures History(curve)[i].drawdown >= 0.0
  {
    if i < |curve| - 1 {
      NeverNegative(Front(curve), i);
    } else {
      var p := Last(History(curve));
      if p.runningPeak > 0.0 {
        FallSign(p.runningPeak, p.equity);
      }
    }
  }

  lemma FallSign(peak: real, equity: real)
    requires peak > 0.0
    ensures equity < peak ==> Fall(peak, equity) > 0.0
    ensures equity == peak ==> Fall(peak, equity) == 0.0
    ensures equity > peak ==> Fall(peak, equity) < 0.0
  {
    var f := Fall(peak, equity);
    assert f * peak == peak - equity;
    assert f <= 0.0 ==> f * peak <= 0.0;
    assert f >= 0.0 ==> f * peak >= 0.0;
  }

  lemma MaximumSnoc(s: seq<real>, x: real)
    requires s != []
    ensures Maximum(s + [x]) == Larger(Maximum(s), x)
  {
    assert Front(s + [x]) == s;
  }

  lemma MaximumDrawdownStep(curve: seq<EquityPoint>)
    requires curve != []
    ensures MaximumDrawdown(curve) == Larger(MaximumDrawdown(Front(curve)), Last(History(curve)).drawdown)
  {
    var h := History(curve);
    NeverNegative(curve, |curve| - 1);
    if |curve| > 1 {
      assert Drawdowns(h) == Drawdowns(Front(h)) + [Last(h).drawdown];
      assert Front(h) == History(Front(curve));
      MaximumSnoc(Drawdowns(Front(h)), Last(h).drawdown);
    }
  }

  /** What one more point does to the running peak and to the maximum drawdown. */
  lemma PassStep(curve: seq<EquityPoint>, i: nat)
    requires i < |curve|
    ensures var peak := Last(History(curve[..i + 1])).runningPeak;
            && peak == (if i == 0 then curve[0].equity
                        else Larger(Last(History(curve[..i])).runningPeak, curve[i].equity))
            && MaximumDrawdown(curve[..i + 1])
               == if peak > 0.0 then Larger(MaximumDrawdown(curve[..i]), Fall(peak, curve[i].equity))
                  else MaximumDrawdown(curve[..i])
  {
    TakeNext(curve, i);
    MaximumDrawdownStep(curve[..i + 1]);
    NeverNegativeSoFar(curve[..i]);
  }

  /** The engine's single pass returns the largest entry of the analytics' drawdown history. */
  method EngineMaxDrawdown(curve: seq<EquityPoint>) returns (maxDrawdown: real)
    ensures maxDrawdown == MaximumDrawdown(curve)
  {
    var peak := 0.0; // negative infinity in the source, replaced by the first value
    maxDrawdown := 0.0;
    for i := 0 to |curve|
      invariant maxDrawdown == MaximumDrawdown(curve[..i])
      invariant i > 0 ==> peak == Last(History(curve[..i])).runningPeak
    {
      PassStep(curve, i);
      var value := curve[i].equity;
      peak := if i == 0 then value else Larger(peak, value);
      if peak > 0.0 {
        maxDrawdown := Larger(maxDrawdown, (peak - value) / peak);
      }
    }
    assert curve[..|curve|] == curve;
  }

  lemma NeverNegativeSoFar(curve: seq<EquityPoint>)
    ensures MaximumDrawdown(curve) >= 0.0
  {
    if curve != [] {
      NeverNegative(curve, 0);
      assert Drawdowns(History(curve))[0] >= 0.0;
    }
  }

  // ----- What the number means -----

  lemma {:induction false} HistoryPrefix(curve: seq<EquityPoint>, n: nat)
    requires n <= |curve|
    ensures History(curve)[..n] == History(curve[..n])
  {
    if n < |curve| {
      HistoryPrefix(Front(curve), n);
      assert Front(curve)[..n] == curve[..n];
    } else {
      assert curve[..n] == curve;
    }
  }

  /** The running peak is the largest value so far. */
  lemma {:induction false} PeakIsLargest(curve: seq<EquityPoint>, j: nat)
    requires j < |curve|
    ensures forall i :: 0 <= i <= j ==> curve[i].equity <= History(curve)[j].runningPeak
    ensures exists i :: 0 <= i <= j && curve[i].equity == History(curve)[j].runningPeak
    decreases |curve|, 1
  {
    if j < |curve| - 1 {
      PeakIsLargest(Front(curve), j);
      var i :| 0 <= i <= j && Front(curve)[i].equity == History(Front(curve))[j].runningPeak;
      assert curve[i].equity == History(curve)[j].runningPeak;
      forall i | 0 <= i <= j ensures curve[i].equity <= History(curve)[j].runningPeak {
        assert Front(curve)[i].equity <= History(Front(curve))[j].runningPeak;
      }
    } else if j == 0 {
      assert curve[0].equity == History(curve)[0].runningPeak;
    } else {
      LastPeakIsLargest(curve);
    }
  }

  lemma {:induction false} LastPeakIsLargest(curve: seq<EquityPoint>)
    requires |curve| > 1
    ensures forall i :: 0 <= i < |curve| ==> curve[i].equity <= Last(History(curve)).runningPeak
    ensures exists i :: 0 <= i < |curve| && curve[i].equity == Last(History(curve)).runningPeak
    decreases |curve|, 0
  {
    var j := |curve| - 2;
    PeakIsLargest(Front(curve), j);
    var i :| 0 <= i <= j && Front(curve)[i].equity == History(Front(curve))[j].runningPeak;
    var peak := Last(History(curve)).runningPeak;
    assert curve[i].equity == peak || curve[|curve| - 1].equity == peak;
    forall k | 0 <= k < |curve| ensures curve[k].equity <= peak {
      if k <= j {
        assert Front(curve)[k].equity <= History(Front(curve))[j].runningPeak;
      }
    }
  }

  lemma DrawdownAt(curve: seq<EquityPoint>, j: nat)
    requires j < |curve|
    ensures History(curve)[j].drawdown == FallIfPositive(History(curve)[j].runningPeak, curve[j].equity)
  {
    HistoryPrefix(curve, j + 1);
    assert History(curve)[j] == Last(History(curve[..j + 1]));
    TakeNext(curve, j);
  }

  lemma FallAsRatio(peak: real, equity: real)
    requires peak > 0.0
    ensures Fall(peak, equity) == 1.0 - equity / peak
  {
    var f, r := Fall(peak, equity), equity / peak;
    assert f * peak == peak - equity && r * peak == equity;
    Spread(1.0 - r, f, peak);
    Spread(1.0, r, peak);
    NoZeroDivisor(1.0 - r - f, peak);
  }

  lemma Spread(a: real, b: real, c: real)
    ensures (a - b) * c == a * c - b * c
  {
  }

  lemma NoZeroDivisor(a: real, b: real)
    requires a * b == 0.0 && b > 0.0
    ensures a == 0.0
  {
  }

  lemma ProductGrows(l: real, h: real, low: real, high: real)
    requires 0.0 <= l < h && 0.0 < low <= high
    ensures l * low < h * high
  {
    Spread(h, l, low);
    assert (h - l) * low > 0.0;
    Spread(high, low, h);
    assert (high - low) * h >= 0.0;
    assert high * h == h * high && low * h == h * low;
  }

  lemma RatioSign(equity: real, peak: real)
    requires peak > 0.0
    ensures equity / peak >= 0.0 <==> equity >= 0.0
  {
    var r := equity / peak;
    assert r * peak == equity;
    assert r >= 0.0 ==> r * peak >= 0.0;
    assert r < 0.0 ==> r * peak < 0.0;
  }

  /** Measured against a higher peak, a non-negative value has fallen further. */
  lemma FallGrowsWithPeak(low: real, high: real, equity: real)
    requires 0.0 < low <= high && equity >= 0.0
    ensures Fall(low, equity) <= Fall(high, equity)
  {
    FallAsRatio(low, equity);
    FallAsRatio(high, equity);
    var l, h := equity / low, equity / high;
    RatioSign(equity, low);
    assert l * low == equity == h * high;
    if l < h {
      ProductGrows(l, h, low, high);
    }
  }

  /** There is a fall of size `f` between two points of the curve, from a positive value. */
  ghost predicate FallsBy(curve: seq<EquityPoint>, i: int, j: int, f: real) {
    0 <= i <= j < |curve| && curve[i].equity > 0.0 && Fall(curve[i].equity, curve[j].equity) == f
  }

  /** The maximum drawdown is zero or the size of some fall, and no fall to a non-negative value is larger. */
  lemma WorstFall(curve: seq<EquityPoint>)
    ensures MaximumDrawdown(curve) == 0.0 || exists i, j :: FallsBy(curve, i, j, MaximumDrawdown(curve))
    ensures forall i, j, f :: FallsBy(curve, i, j, f) && curve[j].equity >= 0.0 ==> f <= MaximumDrawdown(curve)
  {
    if MaximumDrawdown(curve) != 0.0 {
      WorstFallExists(curve);
    }
    forall i, j, f | FallsBy(curve, i, j, f) && curve[j].equity >= 0.0 ensures f <= MaximumDrawdown(curve) {
      PeakIsLargest(curve, j);
      DrawdownAt(curve, j);
      FallGrowsWithPeak(curve[i].equity, History(curve)[j].runningPeak, curve[j].equity);
      MaximumBounds(curve, j);
    }
  }

  lemma MaximumBounds(curve: seq<EquityPoint>, j: nat)
    requires j < |curve|
    ensures History(curve)[j].drawdown <= MaximumDrawdown(curve)
  {
    assert Drawdowns(History(curve))[j] == History(curve)[j].drawdown;
    assert Drawdowns(History(curve))[j] in Drawdowns(History(curve));
  }

  lemma WorstFallExists(curve: seq<EquityPoint>)
    requires MaximumDrawdown(curve) != 0.0
    ensures exists i, j :: FallsBy(curve, i, j, MaximumDrawdown(curve))
  {
    var all := Drawdowns(History(curve));
    var j :| 0 <= j < |all| && all[j] == MaximumDrawdown(curve);
    DrawdownAt(curve, j);
    PeakIsLargest(curve, j);
    var i :| 0 <= i <= j && curve[i].equity == History(curve)[j].runningPeak;
    assert FallsBy(curve, i, j, MaximumDrawdown(curve));
  }

  ghost predicate NonNegative(curve: seq<EquityPoint>) {
    forall p :: p in curve ==> p.equity >= 0.0
  }

  /** On curves that never go negative the maximum drawdown is the worst fall over all pairs of points,
      and it lies between 0 and 1. */
  lemma WorstFallOfNonNegativeCurve(curve: seq<EquityPoint>)
    requires NonNegative(curve)
    ensures forall i, j, f :: FallsBy(curve, i, j, f) ==> f <= MaximumDrawdown(curve)
    ensures MaximumDrawdown(curve) == 0.0 || exists i, j :: FallsBy(curve, i, j, MaximumDrawdown(curve))
    ensures 0.0 <= MaximumDrawdown(curve) <= 1.0
  {
    WorstFall(curve);
    NeverNegativeSoFar(curve);
    AtMostOneIff(curve);
  }

  /** It is zero exactly when no value falls below an earlier positive one. */
  lemma ZeroIff(curve: seq<EquityPoint>)
    ensures MaximumDrawdown(curve) == 0.0 <==>
            forall i, j :: 0 <= i < j < |curve| && curve[i].equity > 0.0 ==> curve[j].equity >= curve[i].equity
  {
    if exists i, j :: 0 <= i < j < |curve| && curve[i].equity > 0.0 && curve[j].equity < curve[i].equity {
      var i, j :| 0 <= i < j < |curve| && curve[i].equity > 0.0 && curve[j].equity < curve[i].equity;
      PeakIsLargest(curve, j);
      DrawdownAt(curve, j);
      FallSign(History(curve)[j].runningPeak, curve[j].equity);
      MaximumBounds(curve, j);
    }
    if MaximumDrawdown(curve) != 0.0 {
      NeverNegativeSoFar(curve);
      WorstFallExists(curve);
      var i, j :| FallsBy(curve, i, j, MaximumDrawdown(curve));
      FallSign(curve[i].equity, curve[j].equity);
      assert i < j && curve[j].equity < curve[i].equity;
    }
  }

  lemma FallAtMostOne(peak: real, equity: real)
    requires peak > 0.0
    ensures Fall(peak, equity) <= 1.0 <==> equity >= 0.0
  {
    FallAsRatio(peak, equity);
    RatioSign(equity, peak);
  }

  /** It is at most one exactly when no value is negative once a value has been positive. */
  lemma AtMostOneIff(curve: seq<EquityPoint>)
    ensures MaximumDrawdown(curve) <= 1.0 <==>
            forall i, j :: 0 <= i < j < |curve| && curve[i].equity > 0.0 ==> curve[j].equity >= 0.0
  {
    if exists i, j :: 0 <= i < j < |curve| && curve[i].equity > 0.0 && curve[j].equity < 0.0 {
      var i, j :| 0 <= i < j < |curve| && curve[i].equity > 0.0 && curve[j].equity < 0.0;
      PeakIsLargest(curve, j);
      DrawdownAt(curve, j);
      FallAtMostOne(History(curve)[j].runningPeak, curve[j].equity);
      MaximumBounds(curve, j);
    }
    if MaximumDrawdown(curve) > 1.0 {
      WorstFallExists(curve);
      var i, j :| FallsBy(curve, i, j, MaximumDrawdown(curve));
      FallAtMostOne(curve[i].equity, curve[j].equity);
      assert i < j && curve[j].equity < 0.0;
    }
  }

  // ----- When exactly the drawdown bounds every fall -----

  lemma ScaleOrder(a: real, b: real, w: real)
    requires w > 0.0
    ensures a >= b <==> a * w >= b * w
  {
    Spread(a, b, w);
    assert a - b >= 0.0 ==> (a - b) * w >= 0.0;
    assert a - b < 0.0 ==> (a - b) * w < 0.0;
  }

  lemma RatioOrder(r: real, q: real, a: real, b: real)
    requires a > 0.0 && b > 0.0
    ensures r >= q <==> (r * a) * b >= (q * b) * a
  {
    assert a * b > 0.0;
    ScaleOrder(r, q, a * b);
    Regroup(r, a, b);
    Regroup(q, b, a);
  }

  lemma Regroup(r: real, a: real, b: real)
    ensures (r * a) * b == r * (a * b)
  {
  }

  /** Two falls compare as their values do, each scaled by the other's peak. */
  lemma FallOrder(a: real, x: real, b: real, y: real)
    requires a > 0.0 && b > 0.0
    ensures Fall(a, x) <= Fall(b, y) <==> -x * b <= -y * a
  {
    FallAsRatio(a, x);
    FallAsRatio(b, y);
    var r, q := x / a, y / b;
    assert r * a == x && q * b == y;
    RatioOrder(r, q, a, b);
    Negated(x, b);
    Negated(y, a);
  }

  lemma Negated(x: real, b: real)
    ensures -x * b == -(x * b)
  {
  }

  /** To a negative value, the fall from a lower peak is larger. */
  lemma FallToNegative(low: real, high: real, equity: real)
    requires 0.0 < low <= high && equity < 0.0
    ensures Fall(low, equity) <= Fall(high, equity) <==> low == high
  {
    FallOrder(low, equity, high, equity);
    ScaleOrder(low, high, -equity);
    Commute(low, -equity);
    Commute(high, -equity);
  }

  lemma Commute(a: real, b: real)
    ensures a * b == b * a
  {
  }

  /** No fall to point `j` is larger than the drawdown recorded there. */
  ghost predicate BoundsFallsTo(curve: seq<EquityPoint>, j: nat)
    requires j < |curve|
  {
    forall i | 0 <= i <= j && curve[i].equity > 0.0 ::
      Fall(curve[i].equity, curve[j].equity) <= History(curve)[j].drawdown
  }

  ghost predicate OnePositiveValue(curve: seq<EquityPoint>, j: nat)
    requires j < |curve|
  {
    forall i, k | 0 <= i <= j && 0 <= k <= j && curve[i].equity > 0.0 && curve[k].equity > 0.0 ::
      curve[i].equity == curve[k].equity
  }

  lemma FallAgainstPeak(curve: seq<EquityPoint>, i: nat, j: nat)
    requires i <= j < |curve| && curve[i].equity > 0.0
    ensures var peak := History(curve)[j].runningPeak;
            && peak >= curve[i].equity
            && History(curve)[j].drawdown == Fall(peak, curve[j].equity)
            && (Fall(curve[i].equity, curve[j].equity) <= History(curve)[j].drawdown
                <==> curve[j].equity >= 0.0 || curve[i].equity == peak)
  {
    PeakIsLargest(curve, j);
    DrawdownAt(curve, j);
    var peak := History(curve)[j].runningPeak;
    if curve[j].equity >= 0.0 {
      FallGrowsWithPeak(curve[i].equity, peak, curve[j].equity);
    } else {
      FallToNegative(curve[i].equity, peak, curve[j].equity);
    }
  }

  /** The drawdown recorded at a point bounds all falls to it exactly when its value is not negative, or all positive
      values so far are one. */
  lemma BoundsFallsToIff(curve: seq<EquityPoint>, j: nat)
    requires j < |curve|
    ensures BoundsFallsTo(curve, j) <==> curve[j].equity >= 0.0 || OnePositiveValue(curve, j)
  {
    var peak := History(curve)[j].runningPeak;
    forall i | 0 <= i <= j && curve[i].equity > 0.0
      ensures Fall(curve[i].equity, curve[j].equity) <= History(curve)[j].drawdown
         <==> curve[j].equity >= 0.0 || curve[i].equity == peak
    {
      FallAgainstPeak(curve, i, j);
    }
    PeakIsLargest(curve, j);
    var top :| 0 <= top <= j && curve[top].equity == peak;
    assert forall i :: 0 <= i <= j && curve[i].equity > 0.0 ==> curve[top].equity > 0.0;
  }

  ghost predicate BoundsAllFalls(curve: seq<EquityPoint>) {
    forall i, j, f :: FallsBy(curve, i, j, f) ==> f <= MaximumDrawdown(curve)
  }

  ghost predicate NegativeAfterPositive(curve: seq<EquityPoint>, i: int, j: int) {
    0 <= i < j < |curve| && curve[i].equity > 0.0 > curve[j].equity
  }

  /** From the largest value so far to a negative one, and no other fall to a negative value is larger. */
  ghost predicate DeepestFall(curve: seq<EquityPoint>, k: int, l: int) {
    && NegativeAfterPositive(curve, k, l)
    && (forall i :: 0 <= i <= l ==> curve[i].equity <= curve[k].equity)
    && (forall i, j :: NegativeAfterPositive(curve, i, j) ==>
          -curve[j].equity * curve[k].equity <= -curve[l].equity * curve[i].equity)
  }

  lemma DeepestFallIsRecorded(curve: seq<EquityPoint>, k: int, l: int)
    requires DeepestFall(curve, k, l)
    ensures Fall(curve[k].equity, curve[l].equity) <= MaximumDrawdown(curve)
  {
    assert History(curve)[l].runningPeak == curve[k].equity by {
      PeakIsLargest(curve, l);
    }
    DrawdownAt(curve, l);
    MaximumBounds(curve, l);
  }

  lemma NoDeeperFall(curve: seq<EquityPoint>, k: int, l: int, i: int, j: int)
    requires DeepestFall(curve, k, l) && NegativeAfterPositive(curve, i, j)
    ensures Fall(curve[i].equity, curve[j].equity) <= Fall(curve[k].equity, curve[l].equity)
  {
    FallOrder(curve[i].equity, curve[j].equity, curve[k].equity, curve[l].equity);
  }

  lemma DeepestFallBounds(curve: seq<EquityPoint>, k: int, l: int)
    requires DeepestFall(curve, k, l)
    ensures BoundsAllFalls(curve)
  {
    DeepestFallIsRecorded(curve, k, l);
    WorstFall(curve);
    forall i, j, f | FallsBy(curve, i, j, f) ensures f <= MaximumDrawdown(curve) {
      if curve[j].equity < 0.0 {
        NoDeeperFall(curve, k, l, i, j);
      }
    }
  }

  /** The maximum drawdown is the fall from the running peak at some point. */
  lemma WorstFallFromPeak(curve: seq<EquityPoint>) returns (k: int, l: int)
    requires MaximumDrawdown(curve) != 0.0
    ensures FallsBy(curve, k, l, MaximumDrawdown(curve))
    ensures forall i :: 0 <= i <= l ==> curve[i].equity <= curve[k].equity
  {
    var all := Drawdowns(History(curve));
    l :| 0 <= l < |all| && all[l] == MaximumDrawdown(curve);
    DrawdownAt(curve, l);
    PeakIsLargest(curve, l);
    k :| 0 <= k <= l && curve[k].equity == History(curve)[l].runningPeak;
  }

  lemma BoundsGiveDeepestFall(curve: seq<EquityPoint>) returns (k: int, l: int)
    requires BoundsAllFalls(curve) && MaximumDrawdown(curve) > 1.0
    ensures DeepestFall(curve, k, l)
  {
    k, l := WorstFallFromPeak(curve);
    FallAtMostOne(curve[k].equity, curve[l].equity);
    forall i, j | NegativeAfterPositive(curve, i, j)
      ensures -curve[j].equity * curve[k].equity <= -curve[l].equity * curve[i].equity
    {
      assert FallsBy(curve, i, j, Fall(curve[i].equity, curve[j].equity));
      FallOrder(curve[i].equity, curve[j].equity, curve[k].equity, curve[l].equity);
    }
  }

  /** The maximum drawdown bounds every fall exactly when no value is negative after a positive one, or the deepest
      fall to a negative value starts from the largest value so far. */
  lemma BoundsAllFallsIff(curve: seq<EquityPoint>)
    ensures BoundsAllFalls(curve) <==>
            (forall i, j :: !NegativeAfterPositive(curve, i, j)) || exists k, l :: DeepestFall(curve, k, l)
  {
    AtMostOneIff(curve);
    if forall i, j :: !NegativeAfterPositive(curve, i, j) {
      WorstFall(curve);
      forall i, j, f | FallsBy(curve, i, j, f) ensures f <= MaximumDrawdown(curve) {
        assert curve[j].equity >= 0.0 by {
          assert !NegativeAfterPositive(curve, i, j);
        }
      }
    } else {
      if k, l :| DeepestFall(curve, k, l) {
        DeepestFallBounds(curve, k, l);
      }
      if BoundsAllFalls(curve) {
        var i, j :| NegativeAfterPositive(curve, i, j);
        assert MaximumDrawdown(curve) > 1.0;
        var k, l := BoundsGiveDeepestFall(curve);
      }
    }
  }

  /** A curve where it does not: the fall from 1 to -2 is larger than the one from the peak. */
  lemma NegativeEquityHidesAFall() returns (curve: seq<EquityPoint>)
    ensures FallsBy(curve, 1, 2, 3.0) && MaximumDrawdown(curve) < 3.0
  {
    curve := [EquityPoint(0, 4.0), EquityPoint(1, 1.0), EquityPoint(2, -2.0)];
    assert Front(curve) == curve[..2] && Front(curve[..2]) == curve[..1];
    MaximumDrawdownStep(curve);
    MaximumDrawdownStep(curve[..2]);
    MaximumDrawdownStep(curve[..1]);
    assert Last(History(curve[..1])) == DrawdownPoint(0, 4.0, 4.0, 0.0);
    assert Last(History(curve[..2])) == DrawdownPoint(1, 1.0, 4.0, 0.75);
    assert Last(History(curve)) == DrawdownPoint(2, -2.0, 4.0, 1.5);
  }

  /** A longer run never reports a smaller drawdown. */
  lemma {:induction false} LongerRunsOnlyRaise(curve: seq<EquityPoint>, n: nat)
    requires n <= |curve|
    ensures MaximumDrawdown(curve[..n]) <= MaximumDrawdown(curve)
    decreases |curve| - n
  {
    if n == |curve| {
      assert curve[..n] == curve;
    } else {
      LongerRunsOnlyRaise(curve, n + 1);
      TakeNext(curve, n);
      MaximumDrawdownStep(curve[..n + 1]);
    }
  }
}
