/** Expiry payoff of option strategies (`backend/backtesting/strategy_library.py`), over exact reals. */
module Payoff {
  import opened Results
  import opened Seqs
  import opened StableSort

  datatype LegKind = Call | Put | Stock | Cash

  datatype Direction = Buy | Sell

  datatype Leg = Leg(
    kind: LegKind, direction: Direction, quantity: int, strike: Option<real>, premium: Option<real>, multiplier: int)

  datatype PayoffPoint = PayoffPoint(price: real, payoff: real)

  function Max(a: real, b: real): real { if a >= b then a else b }

  function Abs(x: real): real { if x >= 0.0 then x else -x }

  /** A missing strike or premium counts as zero. */
  function Strike(leg: Leg): real { leg.strike.GetOr(0.0) }

  function Premium(leg: Leg): real { leg.premium.GetOr(0.0) }

  function SignedQuantity(leg: Leg): real {
    (if leg.direction.Buy? then 1.0 else -1.0) * leg.quantity as real
  }

  function Multiplier(leg: Leg): real {
    (if leg.multiplier >= 1 then leg.multiplier else 1) as real
  }

  predicate IsOption(leg: Leg) { leg.kind.Call? || leg.kind.Put? }

  function Intrinsic(leg: Leg, price: real): real
    requires IsOption(leg)
  {
    if leg.kind.Call? then Max(0.0, price - Strike(leg)) else Max(0.0, Strike(leg) - price)
  }

  /** What one unit of the leg is worth. */
  function UnitPayoff(leg: Leg, price: real): real {
    match leg.kind
    case Call => Intrinsic(leg, price) - Premium(leg)
    case Put => Intrinsic(leg, price) - Premium(leg)
    case Stock => price - Premium(leg)
    case Cash => Premium(leg)
  }

  /** The signed number of units; only options have a multiplier. */
  function Units(leg: Leg): real {
    if IsOption(leg) then SignedQuantity(leg) * Multiplier(leg) else SignedQuantity(leg)
  }

  function LegPayoff(leg: Leg, price: real): real {
    Units(leg) * UnitPayoff(leg, price)
  }

  function LegAt(price: real): Leg -> real {
    (leg: Leg) => LegPayoff(leg, price)
  }

  function PayoffAt(legs: seq<Leg>, price: real): real {
    Sum(LegAt(price), legs)
  }

  function Curve(legs: seq<Leg>): real -> real {
    (price: real) => PayoffAt(legs, price)
  }

  /** The body of the loop over the legs: one branch per kind. */
  method LegValue(leg: Leg, price: real) returns (value: real)
    ensures value == LegPayoff(leg, price)
  {
    var unit: real;
    match leg.kind {
      case Call => unit := Max(0.0, price - Strike(leg)) - Premium(leg);
      case Put => unit := Max(0.0, Strike(leg) - price) - Premium(leg);
      case Stock => unit := price - Premium(leg);
      case Cash => unit := Premium(leg);
    }
    assert unit == UnitPayoff(leg, price);
    value := Units(leg) * unit;
  }

  method PayoffAtPrice(legs: seq<Leg>, price: real) returns (total: real)
    ensures total == PayoffAt(legs, price)
  {
    total := 0.0;
    for i := 0 to |legs|
      invariant total == PayoffAt(legs[..i], price)
    {
      PayoffStep(legs, price, i);
      var value := LegValue(legs[i], price);
      total := total + value;
    }
    assert legs[..|legs|] == legs;
  }

  lemma PayoffStep(legs: seq<Leg>, price: real, i: nat)
    requires i < |legs|
    ensures PayoffAt(legs[..i + 1], price) == PayoffAt(legs[..i], price) + LegPayoff(legs[i], price)
  {
    TakeNext(legs, i);
  }

  // ----- What a leg pays -----

  /** What `units` of the leg pay, at any price: options by whether they are in the money, stock its price, cash
      nothing but its amount. A missing strike or premium counts as zero. */
  ghost predicate Pays(payoff: real, units: real, leg: Leg, price: real) {
    var strike := if leg.strike.Some? then leg.strike.value else 0.0;
    var premium := if leg.premium.Some? then leg.premium.value else 0.0;
    && (leg.kind.Call? && price >= strike ==> payoff == units * (price - strike - premium))
    && (leg.kind.Call? && price <= strike ==> payoff == units * -premium)
    && (leg.kind.Put? && price <= strike ==> payoff == units * (strike - price - premium))
    && (leg.kind.Put? && price >= strike ==> payoff == units * -premium)
    && (leg.kind.Stock? ==> payoff == units * (price - premium))
    && (leg.kind.Cash? ==> payoff == units * premium)
  }

  /** A bought leg pays for its quantity, an option also for each of the multiplier, which is at least one; a sold leg
      pays the negative of that. */
  lemma SingleLegPays(leg: Leg, price: real)
    ensures leg.direction.Buy? && IsOption(leg) && leg.multiplier >= 1 ==>
              Pays(PayoffAt([leg], price), leg.quantity as real * leg.multiplier as real, leg, price)
    ensures leg.direction.Buy? && (leg.kind.Stock? || leg.kind.Cash? || leg.multiplier <= 1) ==>
              Pays(PayoffAt([leg], price), leg.quantity as real, leg, price)
    ensures leg.direction.Sell? && IsOption(leg) && leg.multiplier >= 1 ==>
              Pays(PayoffAt([leg], price), -(leg.quantity as real * leg.multiplier as real), leg, price)
    ensures leg.direction.Sell? && (leg.kind.Stock? || leg.kind.Cash? || leg.multiplier <= 1) ==>
              Pays(PayoffAt([leg], price), -(leg.quantity as real), leg, price)
  {
    OneLeg(leg, price);
    UnitsAre(leg);
    PaysPerUnit(leg, price);
  }

  lemma UnitsAre(leg: Leg)
    ensures leg.direction.Buy? && IsOption(leg) && leg.multiplier >= 1 ==>
              Units(leg) == leg.quantity as real * leg.multiplier as real
    ensures leg.direction.Buy? && (leg.kind.Stock? || leg.kind.Cash? || leg.multiplier <= 1) ==>
              Units(leg) == leg.quantity as real
    ensures leg.direction.Sell? && IsOption(leg) && leg.multiplier >= 1 ==>
              Units(leg) == -(leg.quantity as real * leg.multiplier as real)
    ensures leg.direction.Sell? && (leg.kind.Stock? || leg.kind.Cash? || leg.multiplier <= 1) ==>
              Units(leg) == -(leg.quantity as real)
  {
    assert -1.0 * leg.quantity as real == -(leg.quantity as real);
    NegatedUnits(leg.quantity as real, leg.multiplier as real, 1.0);
  }

  lemma PaysPerUnit(leg: Leg, price: real)
    ensures Pays(LegPayoff(leg, price), Units(leg), leg, price)
  {
    UnitPays(leg, price, Units(leg));
  }

  lemma UnitPays(leg: Leg, price: real, units: real)
    ensures Pays(units * UnitPayoff(leg, price), units, leg, price)
  {
  }

  /** The payoffs of two strategies held together add up. */
  lemma PayoffsAdd(a: seq<Leg>, b: seq<Leg>, price: real)
    ensures PayoffAt(a + b, price) == PayoffAt(a, price) + PayoffAt(b, price)
  {
    SumAppend(LegAt(price), a, b);
  }

  // ----- Opposite sides and parity -----

  function Opposite(leg: Leg): Leg {
    leg.(direction := if leg.direction.Buy? then Sell else Buy)
  }

  lemma OppositeLegCancels(leg: Leg, price: real)
    ensures LegPayoff(leg, price) + LegPayoff(Opposite(leg), price) == 0.0
  {
    assert UnitPayoff(Opposite(leg), price) == UnitPayoff(leg, price);
    assert SignedQuantity(Opposite(leg)) == -SignedQuantity(leg);
    NegatedUnits(SignedQuantity(leg), Multiplier(leg), UnitPayoff(leg, price));
  }

  lemma NegatedUnits(q: real, m: real, u: real)
    ensures q * m * u + -q * m * u == 0.0 && q * u + -q * u == 0.0
  {
    assert -q * m == -(q * m);
  }

  /** What one side of a strategy gains, the other side loses, at every price. */
  lemma {:induction false} OppositeSidesCancel(legs: seq<Leg>, price: real)
    ensures PayoffAt(legs, price) + PayoffAt(Map(Opposite, legs), price) == 0.0
  {
    if legs != [] {
      OppositeSidesCancel(Front(legs), price);
      OppositeLegCancels(Last(legs), price);
      assert Front(Map(Opposite, legs)) == Map(Opposite, Front(legs));
    }
  }

  /** Put-call parity: a call less the put on the same terms pays the difference to the strike and the premiums, at
      every price. */
  lemma PutCallParity(call: Leg, put: Leg, price: real)
    requires call.kind.Call? && put == call.(kind := Put, premium := put.premium)
    ensures LegPayoff(call, price) - LegPayoff(put, price)
         == Units(call) * ((price - Strike(call)) - (Premium(call) - Premium(put)))
  {
    assert UnitPayoff(call, price) - UnitPayoff(put, price)
      == (price - Strike(call)) - (Premium(call) - Premium(put));
    Difference(Units(call), UnitPayoff(call, price), UnitPayoff(put, price));
  }

  lemma Difference(c: real, a: real, b: real)
    ensures c * a - c * b == c * (a - b)
  {
  }

  // ----- The payoff is affine between strikes -----

  /** No option strike lies strictly between `a` and `b`. */
  ghost predicate NoStrikeBetween(legs: seq<Leg>, a: real, b: real) {
    forall leg :: leg in legs && IsOption(leg) ==> !(a < Strike(leg) < b)
  }

  /** At `x`, the curve through `fx` lies on the chord from `(a, fa)` to `(b, fb)`. */
  ghost predicate OnChord(fx: real, fa: real, fb: real, a: real, b: real, x: real) {
    fx * (b - a) == fa * (b - x) + fb * (x - a)
  }

  /** How far the intrinsic value lies below its chord from `a` to `b`, times the width of the interval. */
  function Bend(leg: Leg, a: real, b: real, x: real): real {
    var k := Strike(leg);
    if !IsOption(leg) || !(a < k < b) then 0.0
    else if x <= k then (x - a) * (b - k)
    else (k - a) * (b - x)
  }

  /** At `x`, the curve through `fx` lies below the chord by `bend`, times the width of the interval. */
  ghost predicate BelowChord(bend: real, fx: real, fa: real, fb: real, a: real, b: real, x: real) {
    fx * (b - a) + bend == fa * (b - x) + fb * (x - a)
  }

  lemma IntrinsicBelowChord(leg: Leg, a: real, b: real, x: real)
    requires IsOption(leg) && a <= x <= b
    ensures BelowChord(Bend(leg, a, b, x), Intrinsic(leg, x), Intrinsic(leg, a), Intrinsic(leg, b), a, b, x)
  {
    var k := Strike(leg);
    if leg.kind.Call? {
      assert (x - k) * (b - a) == (a - k) * (b - x) + (b - k) * (x - a);
    } else {
      assert (k - x) * (b - a) == (k - a) * (b - x) + (k - b) * (x - a);
    }
  }

  lemma ScaledBelowChord(c: real, bend: real, fx: real, fa: real, fb: real, a: real, b: real, x: real)
    requires BelowChord(bend, fx, fa, fb, a, b, x)
    ensures BelowChord(c * bend, c * fx, c * fa, c * fb, a, b, x)
  {
    var w, u, v := b - a, b - x, x - a;
    calc {
      (c * fx) * w + c * bend;
      c * (fx * w + bend);
      c * (fa * u + fb * v);
      c * (fa * u) + c * (fb * v);
      (c * fa) * u + (c * fb) * v;
    }
  }

  lemma UnitBelowChord(leg: Leg, a: real, b: real, x: real)
    requires a <= x <= b
    ensures BelowChord(Bend(leg, a, b, x), UnitPayoff(leg, x), UnitPayoff(leg, a), UnitPayoff(leg, b), a, b, x)
  {
    if IsOption(leg) {
      IntrinsicBelowChord(leg, a, b, x);
    }
  }

  function UnitAt(price: real): Leg -> real {
    (leg: Leg) => UnitPayoff(leg, price)
  }

  function UnitBend(a: real, b: real, x: real): Leg -> real {
    (leg: Leg) => Bend(leg, a, b, x)
  }

  function Weighted(w: Leg -> real, f: Leg -> real): Leg -> real {
    (leg: Leg) => w(leg) * f(leg)
  }

  /** What the strikes between `a` and `b` bend the payoff of a leg by. */
  function BendOf(a: real, b: real, x: real): Leg -> real {
    Weighted(Units, UnitBend(a, b, x))
  }

  lemma {:induction false} SumBelowChord(
    w: Leg -> real, bend: Leg -> real, fx: Leg -> real, fa: Leg -> real, fb: Leg -> real, legs: seq<Leg>,
    a: real, b: real, x: real)
    requires forall leg :: leg in legs ==> BelowChord(bend(leg), fx(leg), fa(leg), fb(leg), a, b, x)
    ensures BelowChord(Sum(Weighted(w, bend), legs), Sum(Weighted(w, fx), legs), Sum(Weighted(w, fa), legs),
                       Sum(Weighted(w, fb), legs), a, b, x)
  {
    if legs != [] {
      SumBelowChord(w, bend, fx, fa, fb, Front(legs), a, b, x);
      var leg, front := Last(legs), Front(legs);
      assert BelowChord(bend(leg), fx(leg), fa(leg), fb(leg), a, b, x);
      var c := w(leg);
      ScaledBelowChord(c, bend(leg), fx(leg), fa(leg), fb(leg), a, b, x);
      AddBelowChord(
        Sum(Weighted(w, bend), front), Sum(Weighted(w, fx), front), Sum(Weighted(w, fa), front),
        Sum(Weighted(w, fb), front), c * bend(leg), c * fx(leg), c * fa(leg), c * fb(leg), a, b, x);
    }
  }

  lemma AddBelowChord(
    bend: real, fx: real, fa: real, fb: real, bend': real, gx: real, ga: real, gb: real, a: real, b: real, x: real)
    requires BelowChord(bend, fx, fa, fb, a, b, x) && BelowChord(bend', gx, ga, gb, a, b, x)
    ensures BelowChord(bend + bend', fx + gx, fa + ga, fb + gb, a, b, x)
  {
  }

  lemma {:induction false} PayoffIsWeighted(legs: seq<Leg>, price: real)
    ensures PayoffAt(legs, price) == Sum(Weighted(Units, UnitAt(price)), legs)
  {
    if legs != [] {
      PayoffIsWeighted(Front(legs), price);
      LegIsWeighted(Last(legs), price);
    }
  }

  lemma LegIsWeighted(leg: Leg, price: real)
    ensures LegAt(price)(leg) == Weighted(Units, UnitAt(price))(leg)
  {
  }

  /** The payoff of any legs between any two prices: the chord less what the strikes in between bend it by. */
  lemma PayoffBelowChord(legs: seq<Leg>, a: real, b: real, x: real)
    requires a <= x <= b
    ensures BelowChord(Sum(BendOf(a, b, x), legs), PayoffAt(legs, x), PayoffAt(legs, a), PayoffAt(legs, b), a, b, x)
  {
    forall leg | leg in legs ensures
      BelowChord(UnitBend(a, b, x)(leg), UnitAt(x)(leg), UnitAt(a)(leg), UnitAt(b)(leg), a, b, x)
    {
      UnitBelowChord(leg, a, b, x);
    }
    SumBelowChord(Units, UnitBend(a, b, x), UnitAt(x), UnitAt(a), UnitAt(b), legs, a, b, x);
    PayoffIsWeighted(legs, x);
    PayoffIsWeighted(legs, a);
    PayoffIsWeighted(legs, b);
  }

  lemma {:induction false} NothingBends(legs: seq<Leg>, a: real, b: real, x: real)
    requires NoStrikeBetween(legs, a, b)
    ensures Sum(BendOf(a, b, x), legs) == 0.0
  {
    if legs != [] {
      NothingBends(Front(legs), a, b, x);
      assert Last(legs) in legs;
    }
  }

  ghost predicate AffineOn(f: real -> real, a: real, b: real) {
    forall x :: a <= x <= b ==> OnChord(f(x), f(a), f(b), a, b, x)
  }

  /** Between two prices with no strike strictly between them the payoff is affine. */
  lemma PayoffIsAffine(legs: seq<Leg>, a: real, b: real)
    requires NoStrikeBetween(legs, a, b)
    ensures AffineOn(Curve(legs), a, b)
  {
    forall x | a <= x <= b ensures OnChord(Curve(legs)(x), Curve(legs)(a), Curve(legs)(b), a, b, x) {
      PayoffOnChord(legs, a, b, x);
    }
  }

  lemma PayoffOnChord(legs: seq<Leg>, a: real, b: real, x: real)
    requires NoStrikeBetween(legs, a, b) && a <= x <= b
    ensures OnChord(PayoffAt(legs, x), PayoffAt(legs, a), PayoffAt(legs, b), a, b, x)
  {
    PayoffBelowChord(legs, a, b, x);
    NothingBends(legs, a, b, x);
    StraightChord(Sum(BendOf(a, b, x), legs), PayoffAt(legs, x), PayoffAt(legs, a), PayoffAt(legs, b), a, b, x);
  }

  lemma StraightChord(bend: real, fx: real, fa: real, fb: real, a: real, b: real, x: real)
    requires BelowChord(bend, fx, fa, fb, a, b, x) && bend == 0.0
    ensures OnChord(fx, fa, fb, a, b, x)
  {
  }

  // ----- The price grid -----

  predicate Ascending(grid: seq<real>) {
    forall i, j :: 0 <= i < j < |grid| ==> grid[i] <= grid[j]
  }

  predicate RealLeq(a: real, b: real) { a <= b }

  /** `sorted(price_grid)`. */
  function SortedGrid(grid: seq<real>): (r: seq<real>)
    ensures |r| == |grid| && Ascending(r) && multiset(r) == multiset(grid)
  {
    SortedOrders(RealLeq, grid);
    SortedPermutes(RealLeq, grid);
    Sorted(RealLeq, grid)
  }

  function PointsOf(f: real -> real, grid: seq<real>): (r: seq<PayoffPoint>)
    ensures |r| == |grid|
    ensures forall i :: 0 <= i < |grid| ==> r[i] == PayoffPoint(grid[i], f(grid[i]))
  {
    seq(|grid|, i requires 0 <= i < |grid| => PayoffPoint(grid[i], f(grid[i])))
  }

  /** No strike lies strictly inside a grid interval. */
  ghost predicate Covers(legs: seq<Leg>, grid: seq<real>) {
    forall i :: 0 <= i < |grid| - 1 ==> NoStrikeBetween(legs, grid[i], grid[i + 1])
  }

  ghost predicate PiecewiseAffine(f: real -> real, grid: seq<real>) {
    forall i :: 0 <= i < |grid| - 1 ==> AffineOn(f, grid[i], grid[i + 1])
  }

  lemma CoveredIsPiecewiseAffine(legs: seq<Leg>, grid: seq<real>)
    requires Covers(legs, grid)
    ensures PiecewiseAffine(Curve(legs), grid)
  {
    forall i | 0 <= i < |grid| - 1 ensures AffineOn(Curve(legs), grid[i], grid[i + 1]) {
      PayoffIsAffine(legs, grid[i], grid[i + 1]);
    }
  }

  /** A grid that contains every strike in its range covers the legs. */
  lemma GridWithStrikesCovers(legs: seq<Leg>, grid: seq<real>)
    requires Ascending(grid)
    requires forall leg :: leg in legs && IsOption(leg) && grid != [] && grid[0] <= Strike(leg) <= Last(grid) ==>
      Strike(leg) in grid
    ensures Covers(legs, grid)
  {
    forall i, leg | 0 <= i < |grid| - 1 && leg in legs && IsOption(leg)
      ensures !(grid[i] < Strike(leg) < grid[i + 1])
    {
      GridPriceNotInside(grid, i, Strike(leg));
    }
  }

  lemma GridPriceNotInside(grid: seq<real>, i: nat, k: real)
    requires Ascending(grid) && i < |grid| - 1
    requires grid[0] <= k <= Last(grid) ==> k in grid
    ensures !(grid[i] < k < grid[i + 1])
  {
    if k in grid {
      var j :| 0 <= j < |grid| && grid[j] == k;
      assert if j <= i then grid[j] <= grid[i] else grid[i + 1] <= grid[j];
    } else {
      assert grid[0] <= grid[i] && grid[i + 1] <= Last(grid);
    }
  }

  method Points(legs: seq<Leg>, priceGrid: seq<real>) returns (points: seq<PayoffPoint>)
    ensures points == PointsOf(Curve(legs), SortedGrid(priceGrid))
  {
    points := [];
    var ordered := SortedGrid(priceGrid);
    for i := 0 to |ordered|
      invariant points == PointsOf(Curve(legs), ordered)[..i]
    {
      var payoff := PayoffAtPrice(legs, ordered[i]);
      points := points + [PayoffPoint(ordered[i], payoff)];
    }
  }

  // ----- Extrema -----

  /** `x` lies in one of the grid's intervals. */
  lemma Locate(grid: seq<real>, x: real) returns (i: nat)
    requires |grid| >= 2 && Ascending(grid) && grid[0] <= x <= Last(grid)
    ensures i < |grid| - 1 && grid[i] <= x <= grid[i + 1]
  {
    i := 0;
    while x > grid[i + 1]
      invariant i < |grid| - 1 && grid[i] <= x
      decreases |grid| - i
    {
      i := i + 1;
    }
  }

  lemma BetweenChordEnds(fx: real, fa: real, fb: real, a: real, b: real, x: real, lo: real, hi: real)
    requires OnChord(fx, fa, fb, a, b, x) && a <= x <= b && a < b
    requires lo <= fa <= hi && lo <= fb <= hi
    ensures lo <= fx <= hi
  {
    var u, v, w := b - x, x - a, b - a;
    Average(lo, fa, lo, fb, u, v);
    Average(fa, hi, fb, hi, u, v);
    assert lo * w == lo * u + lo * v && hi * w == hi * u + hi * v;
    DivideWeak(lo, fx, w);
    DivideWeak(fx, hi, w);
  }

  lemma Average(p: real, q: real, r: real, s: real, u: real, v: real)
    requires p <= q && r <= s && u >= 0.0 && v >= 0.0
    ensures p * u + r * v <= q * u + s * v
  {
    MultiplyWeak(p, q, u);
    MultiplyWeak(r, s, v);
  }

  lemma MultiplyWeak(p: real, q: real, w: real)
    requires p <= q && w >= 0.0
    ensures p * w <= q * w
  {
  }

  lemma DivideWeak(p: real, q: real, w: real)
    requires p * w <= q * w && w > 0.0
    ensures p <= q
  {
    MultiplyStrict(q, p, w);
  }

  lemma MultiplyStrict(p: real, q: real, w: real)
    requires w > 0.0
    ensures p < q ==> p * w < q * w
  {
  }

  lemma GridBounds(f: real -> real, grid: seq<real>, lo: real, hi: real, x: real)
    requires grid != [] && Ascending(grid) && PiecewiseAffine(f, grid) && grid[0] <= x <= Last(grid)
    requires forall i :: 0 <= i < |grid| ==> lo <= f(grid[i]) <= hi
    ensures lo <= f(x) <= hi
  {
    if |grid| >= 2 {
      var i := Locate(grid, x);
      var a, b := grid[i], grid[i + 1];
      assert AffineOn(f, a, b);
      if a < b {
        BetweenChordEnds(f(x), f(a), f(b), a, b, x, lo, hi);
      }
    }
  }

  datatype Extrema = Extrema(maximumProfit: real, maximumLoss: real)

  ghost predicate AreExtrema(e: Extrema, points: seq<PayoffPoint>) {
    && (exists i :: 0 <= i < |points| && points[i].payoff == e.maximumProfit)
    && (exists i :: 0 <= i < |points| && points[i].payoff == e.maximumLoss)
    && (forall i :: 0 <= i < |points| ==> e.maximumLoss <= points[i].payoff <= e.maximumProfit)
  }

  /** `max(payoffs)` and `min(payoffs)`; `None` for an empty grid. */
  method GridExtrema(points: seq<PayoffPoint>) returns (r: Option<Extrema>)
    ensures r.None? <==> points == []
    ensures r.Some? ==> AreExtrema(r.value, points)
  {
    if points == [] {
      return None;
    }
    var top, bottom := 0, 0;
    for i := 1 to |points|
      invariant 0 <= top < |points| && 0 <= bottom < |points|
      invariant forall j :: 0 <= j < i ==> points[bottom].payoff <= points[j].payoff <= points[top].payoff
    {
      if points[i].payoff > points[top].payoff {
        top := i;
      }
      if points[i].payoff < points[bottom].payoff {
        bottom := i;
      }
    }
    r := Some(Extrema(points[top].payoff, points[bottom].payoff));
  }

  /** The grid's extrema are the extrema over the whole price range: they bound the payoff at
      every price between the smallest and the largest, and are attained there. */
  lemma GridExtremaAreExtrema(legs: seq<Leg>, grid: seq<real>, e: Extrema, x: real)
    requires grid != [] && Ascending(grid) && Covers(legs, grid) && grid[0] <= x <= Last(grid)
    requires AreExtrema(e, PointsOf(Curve(legs), grid))
    ensures e.maximumLoss <= PayoffAt(legs, x) <= e.maximumProfit
    ensures exists y :: grid[0] <= y <= Last(grid) && Curve(legs)(y) == e.maximumProfit
    ensures exists y :: grid[0] <= y <= Last(grid) && Curve(legs)(y) == e.maximumLoss
  {
    CoveredIsPiecewiseAffine(legs, grid);
    ExtremaOfCurve(Curve(legs), grid, e, x);
  }

  lemma ExtremaOfCurve(f: real -> real, grid: seq<real>, e: Extrema, x: real)
    requires grid != [] && Ascending(grid) && PiecewiseAffine(f, grid) && grid[0] <= x <= Last(grid)
    requires AreExtrema(e, PointsOf(f, grid))
    ensures e.maximumLoss <= f(x) <= e.maximumProfit
    ensures exists y :: grid[0] <= y <= Last(grid) && f(y) == e.maximumProfit
    ensures exists y :: grid[0] <= y <= Last(grid) && f(y) == e.maximumLoss
  {
    var points := PointsOf(f, grid);
    forall i | 0 <= i < |grid| ensures e.maximumLoss <= f(grid[i]) <= e.maximumProfit {
      assert points[i].payoff == f(grid[i]);
    }
    GridBounds(f, grid, e.maximumLoss, e.maximumProfit, x);
    var t :| 0 <= t < |points| && points[t].payoff == e.maximumProfit;
    assert grid[0] <= grid[t] <= Last(grid) && f(grid[t]) == e.maximumProfit;
    var b :| 0 <= b < |points| && points[b].payoff == e.maximumLoss;
    assert grid[0] <= grid[b] <= Last(grid) && f(grid[b]) == e.maximumLoss;
  }

  // ----- Breakevens -----

  predicate SignChange(left: PayoffPoint, right: PayoffPoint) {
    left.payoff < 0.0 < right.payoff || left.payoff > 0.0 > right.payoff
  }

  /** Where the chord from `left` to `right` crosses zero. */
  function Crossing(left: PayoffPoint, right: PayoffPoint): real
    requires SignChange(left, right)
  {
    left.price + (right.price - left.price) * (Abs(left.payoff) / (Abs(left.payoff) + Abs(right.payoff)))
  }

  /** What a pair of neighbours contributes. */
  function PairBreakevens(left: PayoffPoint, right: PayoffPoint): seq<real> {
    if left.payoff == 0.0 then [left.price]
    else if SignChange(left, right) && right.price != left.price then [Crossing(left, right)]
    else []
  }

  ghost predicate ReportedBy(points: seq<PayoffPoint>, i: nat, x: real) {
    i + 1 < |points| && x in PairBreakevens(points[i], points[i + 1])
  }

  ghost predicate Reported(points: seq<PayoffPoint>, x: real) {
    exists i: nat :: ReportedBy(points, i, x)
  }

  predicate StrictlyAscending(s: seq<real>) {
    forall i, j :: 0 <= i < j < |s| ==> s[i] < s[j]
  }

  /** `tuple(sorted(set(out)))`. */
  method SortedSet(out: seq<real>) returns (r: seq<real>)
    ensures StrictlyAscending(r) && forall x :: x in r <==> x in out
  {
    SortedOrders(RealLeq, out);
    SortedElements(RealLeq, out);
    var ordered := Sorted(RealLeq, out);
    r := [];
    for i := 0 to |ordered|
      invariant StrictlyAscending(r)
      invariant r != [] ==> i > 0 && Last(r) == ordered[i - 1]
      invariant forall x :: x in r <==> x in ordered[..i]
    {
      assert ordered[..i + 1] == ordered[..i] + [ordered[i]];
      if r == [] || Last(r) != ordered[i] {
        r := r + [ordered[i]];
      }
    }
    assert ordered[..|ordered|] == ordered;
  }

  /** The contributions of the first `n` pairs, in loop order. */
  function Contributions(points: seq<PayoffPoint>, n: nat): seq<real>
    requires n < |points| || n == 0
  {
    if n == 0 then []
    else Contributions(points, n - 1) + PairBreakevens(points[n - 1], points[n])
  }

  lemma {:induction false} ContributionsAreReported(points: seq<PayoffPoint>, n: nat, x: real)
    requires n < |points| || n == 0
    ensures x in Contributions(points, n) <==> exists i: nat :: i < n && ReportedBy(points, i, x)
  {
    if n > 0 {
      ContributionsAreReported(points, n - 1, x);
      if x in PairBreakevens(points[n - 1], points[n]) {
        assert ReportedBy(points, n - 1, x);
      }
    }
  }

  method BreakevenPoints(points: seq<PayoffPoint>) returns (r: seq<real>)
    ensures StrictlyAscending(r)
    ensures forall x :: x in r <==> Reported(points, x)
  {
    var out: seq<real> := [];
    var n := if points == [] then 0 else |points| - 1;
    for i := 0 to n
      invariant out == Contributions(points, i)
    {
      var left, right := points[i], points[i + 1];
      if left.payoff == 0.0 {
        out := out + [left.price];
      } else if SignChange(left, right) {
        var span := right.price - left.price;
        if span != 0.0 {
          var ratio := Abs(left.payoff) / (Abs(left.payoff) + Abs(right.payoff));
          var crossing := left.price + span * ratio;
          assert crossing == Crossing(left, right);
          out := out + [crossing];
        }
      }
      assert out == Contributions(points, i) + PairBreakevens(left, right);
    }
    r := SortedSet(out);
    forall x ensures x in out <==> Reported(points, x) {
      ContributionsAreReported(points, n, x);
    }
  }

  lemma CrossingIsBetween(left: PayoffPoint, right: PayoffPoint)
    requires SignChange(left, right) && left.price < right.price
    ensures left.price < Crossing(left, right) < right.price
    ensures OnChord(0.0, left.payoff, right.payoff, left.price, right.price, Crossing(left, right))
  {
    var p, q := Abs(left.payoff), Abs(right.payoff);
    var t, span := p / (p + q), right.price - left.price;
    assert t * (p + q) == p;
    assert 0.0 < t < 1.0;
    var x := Crossing(left, right);
    assert x - left.price == span * t && right.price - x == span * (1.0 - t);
    assert span * t > 0.0 && span * (1.0 - t) > 0.0;
    assert p * (1.0 - t) == q * t;
    calc {
      left.payoff * (span * (1.0 - t)) + right.payoff * (span * t);
      span * (left.payoff * (1.0 - t) + right.payoff * t);
      0.0;
    }
  }

  lemma ChordRootUnique(pa: real, pb: real, a: real, b: real, x: real, y: real)
    requires OnChord(0.0, pa, pb, a, b, x) && OnChord(0.0, pa, pb, a, b, y) && pa != pb
    ensures x == y
  {
    assert (pb - pa) * (x - y) == 0.0;
  }

  lemma ChordIsFunction(p: real, q: real, pa: real, pb: real, a: real, b: real, x: real)
    requires OnChord(p, pa, pb, a, b, x) && OnChord(q, pa, pb, a, b, x) && a < b
    ensures p == q
  {
    assert (p - q) * (b - a) == 0.0;
  }

  /** Every reported breakeven is an exact root. */
  lemma ReportedIsRoot(f: real -> real, grid: seq<real>, i: nat, x: real)
    requires Ascending(grid) && PiecewiseAffine(f, grid) && ReportedBy(PointsOf(f, grid), i, x)
    ensures f(x) == 0.0
    ensures x == grid[i] || grid[i] < x < grid[i + 1]
  {
    var left, right := PointsOf(f, grid)[i], PointsOf(f, grid)[i + 1];
    if left.payoff != 0.0 {
      CrossingIsBetween(left, right);
      assert AffineOn(f, grid[i], grid[i + 1]);
      ChordIsFunction(f(x), 0.0, left.payoff, right.payoff, grid[i], grid[i + 1], x);
    }
  }

  lemma SameSignChord(pa: real, pb: real, u: real, v: real)
    requires u > 0.0 && v > 0.0 && !(pa == 0.0 && pb == 0.0)
    ensures (pa >= 0.0 && pb >= 0.0) || (pa <= 0.0 && pb <= 0.0) ==> pa * u + pb * v != 0.0
  {
    if pa > 0.0 && pb >= 0.0 {
      assert pa * u > 0.0 && pb * v >= 0.0;
    } else if pa < 0.0 && pb <= 0.0 {
      assert pa * u < 0.0 && pb * v <= 0.0;
    } else if pa == 0.0 {
      assert pb * v != 0.0;
    }
  }

  /** Every root inside a grid interval is reported, unless the curve is zero at both ends. */
  lemma InnerRootIsReported(f: real -> real, grid: seq<real>, i: nat, x: real)
    requires Ascending(grid) && PiecewiseAffine(f, grid)
    requires i < |grid| - 1 && grid[i] < x < grid[i + 1] && f(x) == 0.0
    requires !(f(grid[i]) == 0.0 && f(grid[i + 1]) == 0.0)
    ensures ReportedBy(PointsOf(f, grid), i, x)
  {
    var left, right := PointsOf(f, grid)[i], PointsOf(f, grid)[i + 1];
    var pa, pb, a, b := left.payoff, right.payoff, grid[i], grid[i + 1];
    assert AffineOn(f, a, b);
    assert OnChord(0.0, pa, pb, a, b, x);
    SameSignChord(pa, pb, b - x, x - a);
    assert SignChange(left, right);
    CrossingIsBetween(left, right);
    ChordRootUnique(pa, pb, a, b, x, Crossing(left, right));
  }

  /** `x` is strictly inside a grid interval at both ends of which the curve is zero. */
  ghost predicate InFlatZero(f: real -> real, grid: seq<real>, x: real) {
    exists i :: 0 <= i < |grid| - 1 && grid[i] < x < grid[i + 1] && f(grid[i]) == 0.0 && f(grid[i + 1]) == 0.0
  }

  /** There the curve is zero throughout. */
  lemma FlatZeroIsZero(f: real -> real, grid: seq<real>, x: real)
    requires PiecewiseAffine(f, grid) && InFlatZero(f, grid, x)
    ensures f(x) == 0.0
  {
    var i :| 0 <= i < |grid| - 1 && grid[i] < x < grid[i + 1] && f(grid[i]) == 0.0 && f(grid[i + 1]) == 0.0;
    assert AffineOn(f, grid[i], grid[i + 1]);
    ChordIsFunction(f(x), 0.0, 0.0, 0.0, grid[i], grid[i + 1], x);
  }

  /** A price strictly inside one interval is in no other and is no grid price. */
  lemma StrictlyInside(grid: seq<real>, i: nat, x: real)
    requires Ascending(grid) && i < |grid| - 1 && grid[i] < x < grid[i + 1]
    ensures x !in grid && grid[0] < x < Last(grid)
    ensures forall j :: 0 <= j < |grid| - 1 && grid[j] < x < grid[j + 1] ==> j == i
  {
  }

  lemma ReportedExactly(f: real -> real, grid: seq<real>, x: real)
    requires Ascending(grid) && PiecewiseAffine(f, grid)
    ensures Reported(PointsOf(f, grid), x) <==>
      && f(x) == 0.0
      && grid != []
      && (x in Front(grid) || (grid[0] < x < Last(grid) && x !in grid && !InFlatZero(f, grid, x)))
  {
    var points := PointsOf(f, grid);
    if Reported(points, x) {
      var i: nat :| ReportedBy(points, i, x);
      ReportedIsRoot(f, grid, i, x);
      if x == grid[i] {
        assert Front(grid)[i] == x;
      } else {
        StrictlyInside(grid, i, x);
      }
    }
    if f(x) == 0.0 && grid != [] {
      if x in Front(grid) {
        var i :| 0 <= i < |grid| - 1 && grid[i] == x;
        assert ReportedBy(points, i, x);
      } else if grid[0] < x < Last(grid) && x !in grid && !InFlatZero(f, grid, x) {
        var i := Locate(grid, x);
        assert grid[i] in grid && grid[i + 1] in grid;
        InnerRootIsReported(f, grid, i, x);
      }
    }
  }

  /** What `_breakeven_points` reports, exactly: the roots that are grid prices other than the last
      one, and the roots inside grid intervals on which the payoff is not zero throughout. */
  lemma BreakevensAreExact(legs: seq<Leg>, grid: seq<real>, x: real)
    requires Ascending(grid) && Covers(legs, grid)
    ensures Reported(PointsOf(Curve(legs), grid), x) <==>
      && PayoffAt(legs, x) == 0.0
      && grid != []
      && (x in Front(grid) || (grid[0] < x < Last(grid) && x !in grid && !InFlatZero(Curve(legs), grid, x)))
  {
    CoveredIsPiecewiseAffine(legs, grid);
    ReportedExactly(Curve(legs), grid, x);
  }

  // ----- A strike inside an interval -----

  /** At `x` the payoff is short of zero by the total bend over the width of the interval. So `x` is a breakeven
      exactly when the bends of all legs cancel. */
  ghost predicate MissesByBend(legs: seq<Leg>, a: real, b: real, x: real) {
    var payoff, bend := PayoffAt(legs, x), Sum(BendOf(a, b, x), legs);
    payoff * (b - a) == -bend && (payoff == 0.0 <==> bend == 0.0)
  }

  /** What the grid reports between two neighbours with payoffs of opposite signs, whatever strikes lie in between. */
  lemma ReportedCrossingMisses(legs: seq<Leg>, grid: seq<real>, i: nat) returns (x: real)
    requires i + 1 < |grid| && grid[i] < grid[i + 1]
    requires SignChange(PointsOf(Curve(legs), grid)[i], PointsOf(Curve(legs), grid)[i + 1])
    ensures x == Crossing(PointsOf(Curve(legs), grid)[i], PointsOf(Curve(legs), grid)[i + 1])
    ensures Reported(PointsOf(Curve(legs), grid), x) && grid[i] < x < grid[i + 1]
    ensures MissesByBend(legs, grid[i], grid[i + 1], x)
  {
    var points := PointsOf(Curve(legs), grid);
    x := CrossingMisses(legs, points[i], points[i + 1]);
    assert ReportedBy(points, i, x);
  }

  lemma CrossingMisses(legs: seq<Leg>, left: PayoffPoint, right: PayoffPoint) returns (x: real)
    requires SignChange(left, right) && left.price < right.price
    requires left.payoff == PayoffAt(legs, left.price) && right.payoff == PayoffAt(legs, right.price)
    ensures x == Crossing(left, right) && left.price < x < right.price
    ensures MissesByBend(legs, left.price, right.price, x)
  {
    x := Crossing(left, right);
    CrossingIsBetween(left, right);
    ChordRootMisses(legs, left.price, right.price, x);
  }

  lemma ChordRootMisses(legs: seq<Leg>, a: real, b: real, x: real)
    requires a < x < b && OnChord(0.0, PayoffAt(legs, a), PayoffAt(legs, b), a, b, x)
    ensures MissesByBend(legs, a, b, x)
  {
    PayoffBelowChord(legs, a, b, x);
    RootOfChord(Sum(BendOf(a, b, x), legs), PayoffAt(legs, x), PayoffAt(legs, a), PayoffAt(legs, b), a, b, x);
  }

  lemma RootOfChord(bend: real, fx: real, fa: real, fb: real, a: real, b: real, x: real)
    requires BelowChord(bend, fx, fa, fb, a, b, x) && OnChord(0.0, fa, fb, a, b, x) && a < b
    ensures fx * (b - a) == -bend && (fx == 0.0 <==> bend == 0.0)
  {
    ZeroProductIff(fx, b - a);
  }

  lemma ZeroProductIff(u: real, w: real)
    requires w != 0.0
    ensures u * w == 0.0 <==> u == 0.0
  {
  }

  lemma PositiveProduct(u: real, v: real)
    requires u > 0.0 && v > 0.0
    ensures u * v > 0.0
  {
  }

  lemma ZeroUnits(leg: Leg, price: real)
    ensures Units(leg) == 0.0 ==> LegPayoff(leg, price) == 0.0
  {
  }

  lemma BendsIff(leg: Leg, a: real, b: real, x: real)
    requires IsOption(leg) && a < x < b && Units(leg) != 0.0
    ensures BendOf(a, b, x)(leg) == 0.0 <==> !(a < Strike(leg) < b)
  {
    if a < Strike(leg) < b {
      if x <= Strike(leg) {
        PositiveProduct(x - a, b - Strike(leg));
      } else {
        PositiveProduct(Strike(leg) - a, b - x);
      }
      assert Bend(leg, a, b, x) > 0.0;
      ZeroProductIff(Units(leg), Bend(leg, a, b, x));
    }
  }

  /** A single option leg on any grid: the reported crossing is a breakeven exactly when the strike is not strictly
      inside the interval. */
  lemma CrossingIsRootIff(leg: Leg, grid: seq<real>, i: nat) returns (x: real)
    requires IsOption(leg) && i + 1 < |grid| && grid[i] < grid[i + 1]
    requires SignChange(PointsOf(Curve([leg]), grid)[i], PointsOf(Curve([leg]), grid)[i + 1])
    ensures x == Crossing(PointsOf(Curve([leg]), grid)[i], PointsOf(Curve([leg]), grid)[i + 1])
    ensures Reported(PointsOf(Curve([leg]), grid), x)
    ensures PayoffAt([leg], x) == 0.0 <==> !(grid[i] < Strike(leg) < grid[i + 1])
  {
    x := ReportedCrossingMisses([leg], grid, i);
    OneLeg(leg, grid[i]);
    ZeroUnits(leg, grid[i]);
    BendsIff(leg, grid[i], grid[i + 1], x);
    OneTerm(BendOf(grid[i], grid[i + 1], x), leg);
  }

  lemma OneLeg(leg: Leg, price: real)
    ensures PayoffAt([leg], price) == LegPayoff(leg, price)
  {
    OneTerm(LegAt(price), leg);
  }

  lemma OneTerm(f: Leg -> real, leg: Leg)
    ensures Sum(f, [leg]) == f(leg)
  {
    assert Front([leg]) == [];
  }

  // ----- Slope regions -----

  datatype Slope = Increasing | Decreasing | Flat

  function SlopeOf(left: PayoffPoint, right: PayoffPoint): Slope {
    if right.payoff - left.payoff > 0.0 then Increasing
    else if right.payoff - left.payoff < 0.0 then Decreasing
    else Flat
  }

  function Labels(points: seq<PayoffPoint>): (r: seq<Slope>)
    ensures |r| == if points == [] then 0 else |points| - 1
  {
    seq(if points == [] then 0 else |points| - 1,
        i requires 0 <= i < |points| - 1 => SlopeOf(points[i], points[i + 1]))
  }

  /** Drops every label that repeats the one before it. */
  function Compress(labels: seq<Slope>): (r: seq<Slope>)
    ensures r == [] <==> labels == []
    ensures labels != [] ==> Last(r) == Last(labels)
  {
    if labels == [] then []
    else
      var c := Compress(Front(labels));
      if c != [] && Last(c) == Last(labels) then c else c + [Last(labels)]
  }

  method SlopeRegions(points: seq<PayoffPoint>) returns (r: seq<Slope>)
    ensures r == Compress(Labels(points))
  {
    if |points| < 2 {
      return [];
    }
    var labels: seq<Slope> := [];
    for i := 0 to |points| - 1
      invariant labels == Labels(points)[..i]
    {
      labels := labels + [SlopeOf(points[i], points[i + 1])];
    }
    assert labels == Labels(points);
    r := [];
    for i := 0 to |labels|
      invariant r == Compress(labels[..i])
    {
      TakeNext(labels, i);
      if r == [] || Last(r) != labels[i] {
        r := r + [labels[i]];
      }
    }
    assert labels[..|labels|] == labels;
  }

  /** `at` puts every label into a region, in order and without skipping one. */
  ghost predicate Runs(r: seq<Slope>, labels: seq<Slope>, at: seq<nat>) {
    && |at| == |labels|
    && (labels != [] ==> at[0] == 0 && Last(at) + 1 == |r|)
    && (forall i :: 0 <= i < |at| - 1 ==> at[i + 1] == at[i] || at[i + 1] == at[i] + 1)
    && (forall i :: 0 <= i < |at| ==> at[i] < |r| && r[at[i]] == labels[i])
  }

  lemma {:induction false} CompressedRuns(labels: seq<Slope>) returns (at: seq<nat>)
    ensures Runs(Compress(labels), labels, at)
    ensures forall k :: 0 <= k < |Compress(labels)| - 1 ==> Compress(labels)[k] != Compress(labels)[k + 1]
  {
    at := [];
    if labels != [] {
      at := CompressedRuns(Front(labels));
      SplitLast(labels);
      RunsSnoc(Compress(Front(labels)), Compress(labels), Front(labels), Last(labels), at);
      at := at + [|Compress(labels)| - 1];
    }
  }

  lemma RunsSnoc(before: seq<Slope>, r: seq<Slope>, labels: seq<Slope>, d: Slope, at: seq<nat>)
    requires Runs(before, labels, at) && (labels == [] ==> before == [])
    requires (r == before || r == before + [d]) && r != [] && Last(r) == d
    ensures Runs(r, labels + [d], at + [|r| - 1])
  {
  }

  /** `d` says whether the payoff rises, falls or stays from `left` to `right`. */
  predicate Describes(d: Slope, left: PayoffPoint, right: PayoffPoint) {
    && (d == Increasing <==> left.payoff < right.payoff)
    && (d == Decreasing <==> left.payoff > right.payoff)
    && (d == Flat <==> left.payoff == right.payoff)
  }

  lemma LabelDescribes(points: seq<PayoffPoint>, i: nat)
    requires i + 1 < |points|
    ensures Describes(Labels(points)[i], points[i], points[i + 1])
  {
  }

  /** The regions are exactly the runs: neighbouring regions differ, and each pair of neighbouring points lies in the
      region that says whether the payoff rises, falls or stays between them. */
  lemma RegionsAreRuns(points: seq<PayoffPoint>) returns (at: seq<nat>)
    ensures Runs(Compress(Labels(points)), Labels(points), at)
    ensures var r := Compress(Labels(points)); forall k :: 0 <= k < |r| - 1 ==> r[k] != r[k + 1]
    ensures forall i :: 0 <= i < |points| - 1 ==>
              at[i] < |Compress(Labels(points))| && Describes(Compress(Labels(points))[at[i]], points[i], points[i + 1])
  {
    at := CompressedRuns(Labels(points));
    forall i | 0 <= i < |points| - 1
      ensures at[i] < |Compress(Labels(points))|
      ensures Describes(Compress(Labels(points))[at[i]], points[i], points[i + 1])
    {
      LabelDescribes(points, i);
    }
  }

  lemma {:induction false} CompressSingle(labels: seq<Slope>, d: Slope)
    ensures Compress(labels) == [d] <==> labels != [] && forall i :: 0 <= i < |labels| ==> labels[i] == d
  {
    if labels != [] {
      CompressSingle(Front(labels), d);
    }
  }

  lemma ChordRises(pa: real, pb: real, px: real, py: real, a: real, b: real, x: real, y: real)
    requires a < b && x < y && pa < pb && OnChord(px, pa, pb, a, b, x) && OnChord(py, pa, pb, a, b, y)
    ensures px < py
  {
    assert (py - px) * (b - a) == (pb - pa) * (y - x);
    assert (pb - pa) * (y - x) > 0.0;
  }

  lemma {:induction false} RisesAcross(f: real -> real, grid: seq<real>, x: real, y: real, i: nat, j: nat)
    requires Ascending(grid) && PiecewiseAffine(f, grid) && x < y
    requires forall k :: 0 <= k < |grid| - 1 ==> f(grid[k]) < f(grid[k + 1])
    requires i < |grid| - 1 && grid[i] <= x <= grid[i + 1]
    requires j < |grid| - 1 && grid[j] <= y <= grid[j + 1]
    ensures f(x) < f(y)
    decreases |grid| - i
  {
    var a, b := grid[i], grid[i + 1];
    assert AffineOn(f, a, b);
    var z := if y <= b then y else b;
    if x < z {
      ChordRises(f(a), f(b), f(x), f(z), a, b, x, z);
    }
    if b < y {
      RisesAcross(f, grid, b, y, i + 1, j);
    }
  }

  /** On a covering grid, "increasing" as the only region means that the payoff is strictly
      increasing at every price of the grid's range, not just on the grid. */
  lemma OnlyIncreasing(legs: seq<Leg>, grid: seq<real>, x: real, y: real)
    requires Ascending(grid) && Covers(legs, grid)
    requires Compress(Labels(PointsOf(Curve(legs), grid))) == [Increasing]
    requires grid[0] <= x < y <= Last(grid)
    ensures PayoffAt(legs, x) < PayoffAt(legs, y)
  {
    CoveredIsPiecewiseAffine(legs, grid);
    IncreasingEverywhere(Curve(legs), grid, x, y);
  }

  lemma IncreasingStep(f: real -> real, grid: seq<real>, i: nat)
    requires Compress(Labels(PointsOf(f, grid))) == [Increasing] && i < |grid| - 1
    ensures f(grid[i]) < f(grid[i + 1])
  {
    CompressSingle(Labels(PointsOf(f, grid)), Increasing);
    assert Labels(PointsOf(f, grid))[i] == Increasing;
  }

  lemma IncreasingEverywhere(f: real -> real, grid: seq<real>, x: real, y: real)
    requires Ascending(grid) && PiecewiseAffine(f, grid)
    requires Compress(Labels(PointsOf(f, grid))) == [Increasing]
    requires grid[0] <= x < y <= Last(grid)
    ensures f(x) < f(y)
  {
    forall i | 0 <= i < |grid| - 1 ensures f(grid[i]) < f(grid[i + 1]) {
      IncreasingStep(f, grid, i);
    }
    var i := Locate(grid, x);
    var j := Locate(grid, y);
    RisesAcross(f, grid, x, y, i, j);
  }
}
