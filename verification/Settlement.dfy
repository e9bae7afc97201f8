/** Expiration, assignment and settlement postings (`backend/backtesting/settlement.py`). */
module Settlement {
  import opened Results
  import opened Seqs

  // ----- Data -----

  /** The contract metadata that settlement reads; anything but "call" is a put, anything but "cash" physical. */
  datatype Contract = Contract(optionType: string, settlementType: string) {
    predicate IsCall() { optionType == "call" }

    predicate IsCash() { settlementType == "cash" }
  }

  datatype Expiration = Expiration(intrinsicValue: real, inTheMoney: bool, cashSettled: bool, physicallySettled: bool)

  datatype Exercise = Exercise(decision: string)

  datatype Assignment = Assignment(decision: string, partialAssignment: bool, quantity: int)

  datatype PostingType = ExpirationWorthless | CashSettlement | StockPositionChange | StrikeCashMovement | Fees

  datatype Posting = Posting(kind: PostingType, amount: real, quantity: int)

  datatype Settled = Settled(
    postings: seq<Posting>, realizedPnl: real, stockPositionChange: int, costBasisChange: real,
    residualContracts: int, reconciled: bool)

  /** Everything `settle` is called with, apart from the timestamp. */
  datatype Terms = Terms(
    contract: Contract, underlying: real, strike: real, quantity: int, multiplier: real, isLong: bool,
    expiration: Expiration, exercise: Option<Exercise>, assignment: Option<Assignment>, fees: real)

  function Max(a: real, b: real): real { if b > a then b else a }

  function AtLeastZero(n: int): nat { if n > 0 then n else 0 }

  function Abs(x: real): real { if x < 0.0 then -x else x }

  /** Python's `int`: truncation toward zero. */
  function Truncated(x: real): int {
    if x >= 0.0 then x.Floor else -((-x).Floor)
  }

  predicate Integral(x: real) {
    x.Floor as real == x
  }

  /** How far the option is in the money; negative when it is out of the money. */
  function Moneyness(c: Contract, underlying: real, strike: real): real {
    if c.IsCall() then underlying - strike else strike - underlying
  }

  function Intrinsic(c: Contract, underlying: real, strike: real): real {
    Max(0.0, Moneyness(c, underlying, strike))
  }

  // ----- Decisions -----

  function ExpirationDecision(
    c: Contract, underlying: real, strike: real, quantity: int, threshold: real): (e: Expiration)
    ensures threshold > 0.0 ==> (e.inTheMoney <==> Moneyness(c, underlying, strike) >= threshold)
    ensures threshold <= 0.0 ==> e.inTheMoney
    ensures (e.cashSettled <==> c.settlementType == "cash") && (e.physicallySettled <==> c.settlementType != "cash")
    ensures var m := if c.optionType == "call" then underlying - strike else strike - underlying;
            e.intrinsicValue == (if m > 0.0 then m else 0.0) * (if quantity < 1 then 1 else quantity) as real
  {
    var intrinsic := Intrinsic(c, underlying, strike);
    Expiration(
      intrinsic * (if quantity > 1 then quantity else 1) as real, intrinsic >= Max(0.0, threshold),
      c.IsCash(), !c.IsCash())
  }

  function AssignmentRisk(c: Contract, underlying: real, strike: real, extrinsic: real, dividend: Option<real>): real {
    var intrinsic := Intrinsic(c, underlying, strike);
    var paid := dividend.GetOr(0.0);
    intrinsic - Max(0.0, extrinsic)
    + (if c.IsCall() && paid > 0.0 && extrinsic < paid then paid else 0.0)
    + (if c.optionType == "put" && intrinsic > strike * 0.1 then 1.0 else 0.0)
  }

  /** The option pays more when exercised than it is worth otherwise; or it is a call whose dividend exceeds its extrinsic
      value; or it is a put that is more than a tenth of the strike, and not by one or more less than its extrinsic
      value, in the money. */
  predicate WillBeAssigned(c: Contract, underlying: real, strike: real, extrinsic: real, dividend: Option<real>) {
    var m := if c.optionType == "call" then underlying - strike else strike - underlying;
    var intrinsic := if m > 0.0 then m else 0.0;
    || (intrinsic > 0.0 && intrinsic > extrinsic)
    || (c.optionType == "call" && dividend.Some? && dividend.value > 0.0 && dividend.value > extrinsic)
    || (c.optionType == "put" && intrinsic > strike / 10.0 && intrinsic + 1.0 > extrinsic)
  }

  lemma AssignedIff(c: Contract, underlying: real, strike: real, extrinsic: real, dividend: Option<real>)
    ensures AssignmentRisk(c, underlying, strike, extrinsic, dividend) > 0.0
       <==> WillBeAssigned(c, underlying, strike, extrinsic, dividend)
  {
  }

  /** `half` is the draw of the seeded generator: half of the contracts are assigned, or all of them. */
  method ShortAssignmentDecision(
    c: Contract, underlying: real, strike: real, quantity: int, extrinsic: real, dividend: Option<real>, half: bool)
    returns (a: Assignment)
    ensures a.decision == "assign" <==> WillBeAssigned(c, underlying, strike, extrinsic, dividend)
    ensures a.decision != "assign" ==> a.decision == "no_assignment" && a.quantity == 0 && !a.partialAssignment
    ensures a.decision == "assign" ==> a.quantity == if half then AtLeastZero(quantity) / 2 else AtLeastZero(quantity)
    ensures 0 <= a.quantity <= AtLeastZero(quantity)
    ensures a.partialAssignment <==> 0 < a.quantity < quantity
  {
    AssignedIff(c, underlying, strike, extrinsic, dividend);
    var intrinsic := Intrinsic(c, underlying, strike);
    var risk := intrinsic - Max(0.0, extrinsic);
    if c.IsCall() && dividend.GetOr(0.0) > 0.0 && extrinsic < dividend.GetOr(0.0) {
      risk := risk + dividend.GetOr(0.0);
    }
    if c.optionType == "put" && intrinsic > strike * 0.1 {
      risk := risk + 1.0;
    }
    var partialRatio := if half then 0.5 else 1.0;
    var assignQty := Truncated(AtLeastZero(quantity) as real * partialRatio);
    var isPartial := 0 < assignQty < quantity;
    if risk <= 0.0 {
      return Assignment("no_assignment", false, 0);
    }
    return Assignment("assign", isPartial, assignQty);
  }

  // ----- Settling -----

  predicate ShouldSettle(t: Terms) {
    && t.expiration.inTheMoney
    && (|| (t.exercise.Some? && t.exercise.value.decision == "exercise")
        || (t.assignment.Some? && t.assignment.value.decision == "assign")
        || (t.exercise.None? && t.assignment.None?))
  }

  function SettleQuantity(t: Terms): int {
    if t.assignment.Some? then t.assignment.value.quantity else AtLeastZero(t.quantity)
  }

  function Side(t: Terms): int { if t.isLong then 1 else -1 }

  function Shares(t: Terms): int {
    SharesOf(SettleQuantity(t), t.multiplier)
  }

  /** The shares of `contracts` contracts, before truncation. */
  function Units(contracts: int, multiplier: real): real {
    contracts as real * multiplier
  }

  function SharesOf(contracts: int, multiplier: real): int {
    Truncated(Units(contracts, multiplier))
  }

  function Amounts(postings: seq<Posting>): real {
    Sum((p: Posting) => p.amount, postings)
  }

  /** The cash that a cash settlement moves. */
  function CashMove(t: Terms): real {
    Intrinsic(t.contract, t.underlying, t.strike) * AtLeastZero(t.quantity) as real * t.multiplier * Side(t) as real
  }

  function StockFor(t: Terms, shares: int): int {
    if t.contract.IsCall() then shares * Side(t) else -shares * Side(t)
  }

  function StrikeCashFor(t: Terms, shares: int): real {
    if t.contract.IsCall() then -t.strike * shares as real * Side(t) as real
    else t.strike * shares as real * Side(t) as real
  }

  function StockChange(t: Terms): int { StockFor(t, Shares(t)) }

  function StrikeCash(t: Terms): real { StrikeCashFor(t, Shares(t)) }

  /** What the settlement itself posts, before the fees. */
  function Legs(t: Terms): seq<Posting> {
    if t.contract.IsCash() then [Posting(CashSettlement, CashMove(t), SettleQuantity(t))]
    else [Posting(StockPositionChange, 0.0, StockChange(t)),
          Posting(StrikeCashMovement, StrikeCash(t), SettleQuantity(t))]
  }

  function Postings(t: Terms): (r: seq<Posting>)
    ensures r != []
  {
    if !ShouldSettle(t) then [Posting(ExpirationWorthless, 0.0, AtLeastZero(t.quantity))]
    else Legs(t) + [Posting(Fees, -Abs(t.fees), SettleQuantity(t))]
  }

  /** The realized profit of the postings. */
  function Realized(t: Terms): real {
    if !ShouldSettle(t) then 0.0
    else (if t.contract.IsCash() then CashMove(t) else StrikeCash(t)) - Abs(t.fees)
  }

  method PostLegs(t: Terms) returns (postings: seq<Posting>, stockChange: int)
    ensures postings == Legs(t)
    ensures stockChange == if t.contract.IsCash() then 0 else StockChange(t)
  {
    var signed := Side(t);
    var settleQty := SettleQuantity(t);
    stockChange := 0;
    if t.contract.IsCash() {
      var cashIntrinsic :=
        Intrinsic(t.contract, t.underlying, t.strike) * AtLeastZero(t.quantity) as real * t.multiplier;
      var cashMove := cashIntrinsic * signed as real;
      assert cashMove == CashMove(t);
      postings := [Posting(CashSettlement, cashMove, settleQty)];
    } else {
      var shares := SharesOf(settleQty, t.multiplier);
      var strikeCash: real;
      if t.contract.IsCall() {
        stockChange := shares * signed;
        strikeCash := -t.strike * shares as real * signed as real;
      } else {
        stockChange := -shares * signed;
        strikeCash := t.strike * shares as real * signed as real;
      }
      assert stockChange == StockChange(t) && strikeCash == StrikeCash(t);
      postings := [Posting(StockPositionChange, 0.0, stockChange)];
      postings := postings + [Posting(StrikeCashMovement, strikeCash, settleQty)];
    }
  }

  method Settle(t: Terms) returns (r: Settled)
    ensures r.postings == Postings(t)
    ensures r.realizedPnl == Amounts(r.postings) == r.costBasisChange == Realized(t)
    ensures r.stockPositionChange == if ShouldSettle(t) && !t.contract.IsCash() then StockChange(t) else 0
    ensures r.residualContracts ==
      if ShouldSettle(t) then AtLeastZero(AtLeastZero(t.quantity) - SettleQuantity(t)) else AtLeastZero(t.quantity)
    ensures r.reconciled
    ensures ShouldSettle(t) ==>
              (Last(r.postings).quantity + r.residualContracts == AtLeastZero(t.quantity)
               <==> SettleQuantity(t) <= AtLeastZero(t.quantity))
  {
    RealizedIsSum(t);
    var qty := AtLeastZero(t.quantity);
    if !ShouldSettle(t) {
      r := Settled([Posting(ExpirationWorthless, 0.0, qty)], 0.0, 0, 0.0, qty, true);
    } else {
      var settleQty := SettleQuantity(t);
      var postings, stockChange := PostLegs(t);
      postings := postings + [Posting(Fees, -Abs(t.fees), settleQty)];
      var realized := Amounts(postings);
      var residual := AtLeastZero(qty - settleQty);
      r := Settled(postings, realized, stockChange, realized, residual, residual >= 0);
    }
  }

  // ----- What is posted -----

  lemma TruncatedTowardZero(x: real)
    ensures x >= 0.0 ==> 0.0 <= Truncated(x) as real <= x < Truncated(x) as real + 1.0
    ensures x <= 0.0 ==> Truncated(x) as real - 1.0 < x <= Truncated(x) as real <= 0.0
  {
  }

  /** An option expires worthless when it is not in the money, or when there are decisions and none of them is to
      exercise or to assign. */
  lemma WorthlessIff(t: Terms)
    ensures Postings(t)[0].kind == ExpirationWorthless <==>
      || !t.expiration.inTheMoney
      || (&& (t.exercise.Some? || t.assignment.Some?)
          && !(t.exercise.Some? && t.exercise.value.decision == "exercise")
          && !(t.assignment.Some? && t.assignment.value.decision == "assign"))
    ensures Postings(t)[0].kind == ExpirationWorthless ==>
      Postings(t) == [Posting(ExpirationWorthless, 0.0, if t.quantity > 0 then t.quantity else 0)]
  {
  }

  function FeesOf(t: Terms, contracts: int): Posting {
    Posting(Fees, if t.fees < 0.0 then t.fees else -t.fees, contracts)
  }

  /** The contracts that are settled: those assigned, or all of them. */
  function Settling(t: Terms): int {
    if t.assignment.Some? then t.assignment.value.quantity else if t.quantity > 0 then t.quantity else 0
  }

  /** A long call and a short put receive the stock; a short call and a long put deliver it. */
  predicate Receives(t: Terms) {
    (t.contract.optionType == "call") == t.isLong
  }

  function StockMoved(t: Terms, shares: int): int {
    if Receives(t) then shares else -shares
  }

  function StrikePaid(t: Terms, shares: int): real {
    if Receives(t) then -(t.strike * shares as real) else t.strike * shares as real
  }

  lemma StockIs(t: Terms, shares: int)
    ensures StockFor(t, shares) == StockMoved(t, shares) && StrikeCashFor(t, shares) == StrikePaid(t, shares)
  {
    NegatedProduct(t.strike, shares as real);
  }

  lemma NegatedProduct(a: real, b: real)
    ensures -a * b == -(a * b) && a * b * -1.0 == -(a * b) && -a * b * -1.0 == a * b
  {
  }

  lemma PhysicalPostings(t: Terms, stock: int, cash: real)
    requires ShouldSettle(t) && !t.contract.IsCash() && StockChange(t) == stock && StrikeCash(t) == cash
    ensures Postings(t) == [Posting(StockPositionChange, 0.0, stock), Posting(StrikeCashMovement, cash, Settling(t)),
                            FeesOf(t, Settling(t))]
  {
  }

  lemma SharesAre(t: Terms)
    ensures Shares(t) == Truncated(Settling(t) as real * t.multiplier)
  {
    var n := SettleQuantity(t);
    assert n == Settling(t);
    assert Units(n, t.multiplier) == n as real * t.multiplier;
  }

  /** Delivery moves the whole shares and pays the strike for each of them; then the fees. */
  lemma DeliveryPosts(t: Terms)
    requires Postings(t)[0].kind != ExpirationWorthless && t.contract.settlementType != "cash"
    ensures DeliveryOf(t, Truncated(Settling(t) as real * t.multiplier))
  {
    SharesAre(t);
    SharesPost(t);
  }

  ghost predicate DeliveryOf(t: Terms, shares: int) {
    Postings(t) == [Posting(StockPositionChange, 0.0, StockMoved(t, shares)),
                    Posting(StrikeCashMovement, StrikePaid(t, shares), Settling(t)), FeesOf(t, Settling(t))]
  }

  lemma SharesPost(t: Terms)
    requires ShouldSettle(t) && !t.contract.IsCash()
    ensures DeliveryOf(t, Shares(t))
  {
    StockIs(t, Shares(t));
    PhysicalPostings(t, StockChange(t), StrikeCash(t));
  }

  lemma CashMoveAmount(t: Terms)
    ensures var m := if t.contract.optionType == "call" then t.underlying - t.strike else t.strike - t.underlying;
      var paid := (if m > 0.0 then m else 0.0) * (if t.quantity > 0 then t.quantity else 0) as real * t.multiplier;
      CashMove(t) == if t.isLong then paid else -paid
  {
    var m := if t.contract.optionType == "call" then t.underlying - t.strike else t.strike - t.underlying;
    var paid := (if m > 0.0 then m else 0.0) * (if t.quantity > 0 then t.quantity else 0) as real * t.multiplier;
    assert CashMove(t) == paid * Side(t) as real;
  }

  /** Cash: the long side is paid the intrinsic value of the whole position, the short side pays it; then the fees. */
  lemma CashPosts(t: Terms)
    requires Postings(t)[0].kind != ExpirationWorthless && t.contract.settlementType == "cash"
    ensures var m := if t.contract.optionType == "call" then t.underlying - t.strike else t.strike - t.underlying;
      var paid := (if m > 0.0 then m else 0.0) * (if t.quantity > 0 then t.quantity else 0) as real * t.multiplier;
      Postings(t) == [Posting(CashSettlement, if t.isLong then paid else -paid, Settling(t)), FeesOf(t, Settling(t))]
  {
    CashMoveAmount(t);
  }

  lemma AmountsSnoc(postings: seq<Posting>, p: Posting)
    ensures Amounts(postings + [p]) == Amounts(postings) + p.amount
  {
    assert Front(postings + [p]) == postings;
  }

  lemma RealizedIsSum(t: Terms)
    ensures Amounts(Postings(t)) == Realized(t)
  {
    if ShouldSettle(t) {
      AmountsOfLegs(t);
      AmountsSnoc(Legs(t), Posting(Fees, -Abs(t.fees), SettleQuantity(t)));
    } else {
      AmountsOfTwo(Postings(t)[0], Postings(t)[0]);
    }
  }

  // ----- Physical against cash settlement -----

  /** What a physical settlement is worth at the spot price, before fees. */
  function PhysicalValue(t: Terms): real {
    StockChange(t) as real * t.underlying + StrikeCash(t)
  }

  lemma Multiply3(a: real, b: real, c: real)
    ensures a * b * c == a * (b * c)
  {
  }

  /** Physical settlement is worth the moneyness of every share delivered. */
  lemma PhysicalValueIs(t: Terms)
    ensures PhysicalValue(t)
         == Side(t) as real * (Shares(t) as real * Moneyness(t.contract, t.underlying, t.strike))
  {
    var n := Shares(t) as real;
    if t.isLong {
      assert StrikeCash(t) == if t.contract.IsCall() then -t.strike * n else t.strike * n;
      Distribute(n, t.underlying, t.strike);
    } else {
      assert StrikeCash(t) == if t.contract.IsCall() then t.strike * n else -t.strike * n;
      Distribute(n, t.underlying, t.strike);
    }
  }

  lemma Distribute(n: real, a: real, b: real)
    ensures n * (a - b) == n * a - b * n
    ensures n * (b - a) == b * n - n * a
    ensures -n * a == -(n * a) && -b * n == -(b * n)
  {
  }

  /** As many shares as the whole position stands for. */
  function FullShares(t: Terms): real {
    Units(AtLeastZero(t.quantity), t.multiplier)
  }

  lemma CashMoveIs(t: Terms)
    ensures CashMove(t) == Side(t) as real
         * (Max(0.0, Moneyness(t.contract, t.underlying, t.strike)) * FullShares(t))
  {
    var m := Max(0.0, Moneyness(t.contract, t.underlying, t.strike));
    Multiply3(m, AtLeastZero(t.quantity) as real, t.multiplier);
    assert CashMove(t) == (m * FullShares(t)) * Side(t) as real;
  }

  /** The two ways to settle the same terms agree exactly when the option is at the money, or in the money
      with every contract's shares delivered, or out of the money with none delivered. */
  lemma PhysicalEqualsCashIff(t: Terms)
    ensures var m := Moneyness(t.contract, t.underlying, t.strike);
            PhysicalValue(t) == CashMove(t) <==>
            m == 0.0 || (m > 0.0 && Shares(t) as real == FullShares(t)) || (m < 0.0 && Shares(t) == 0)
  {
    PhysicalValueIs(t);
    CashMoveIs(t);
    SidedIff(Side(t), Shares(t) as real, FullShares(t), Moneyness(t.contract, t.underlying, t.strike));
  }

  /** What a settlement posts, with the stock it moves taken at the spot price, is worth to its side the moneyness of
      the shares delivered; a cash settlement, the intrinsic value of the whole position. */
  lemma LegsAreWorth(t: Terms)
    ensures var m := Moneyness(t.contract, t.underlying, t.strike);
            Amounts(Legs(t)) + (if t.contract.IsCash() then 0.0 else StockChange(t) as real * t.underlying)
            == Side(t) as real * if t.contract.IsCash() then Max(0.0, m) * FullShares(t) else Shares(t) as real * m
  {
    AmountsOfLegs(t);
    if t.contract.IsCash() {
      CashMoveIs(t);
    } else {
      PhysicalValueIs(t);
    }
  }

  lemma AmountsOfTwo(a: Posting, b: Posting)
    ensures Amounts([a]) == a.amount && Amounts([a, b]) == a.amount + b.amount
  {
    AmountsSnoc([], a);
    assert [] + [a] == [a];
    AmountsSnoc([a], b);
    assert [a] + [b] == [a, b];
  }

  lemma AmountsOfLegs(t: Terms)
    ensures Amounts(Legs(t)) == if t.contract.IsCash() then CashMove(t) else StrikeCash(t)
  {
    AmountsOfTwo(Posting(StockPositionChange, 0.0, StockChange(t)),
                 Posting(StrikeCashMovement, StrikeCash(t), SettleQuantity(t)));
    AmountsOfTwo(Posting(CashSettlement, CashMove(t), SettleQuantity(t)), Posting(Fees, 0.0, 0));
  }

  lemma SidedIff(side: int, shares: real, full: real, m: real)
    requires side == 1 || side == -1
    ensures side as real * (shares * m) == side as real * (Max(0.0, m) * full) <==>
            m == 0.0 || (m > 0.0 && shares == full) || (m < 0.0 && shares == 0.0)
  {
    if side == 1 {
      assert side as real * (shares * m) == shares * m && side as real * (Max(0.0, m) * full) == Max(0.0, m) * full;
    } else {
      assert side as real * (shares * m) == -(shares * m) && side as real * (Max(0.0, m) * full) == -(Max(0.0, m) * full);
    }
    SameProduct(shares, full, m);
    SameProduct(shares, 0.0, m);
    assert m <= 0.0 ==> Max(0.0, m) * full == 0.0;
  }

  lemma SameProduct(a: real, b: real, m: real)
    ensures m != 0.0 ==> (a * m == m * b <==> a == b)
    ensures m == 0.0 ==> a * m == 0.0 == m * b
  {
    if m != 0.0 && a * m == m * b {
      assert (a - b) * m == 0.0;
    }
  }

  lemma TruncatedIs(x: real, y: real)
    requires 0.0 <= x <= y
    ensures Truncated(x) as real == y <==> x == y && Integral(y)
  {
  }

  lemma TruncatedProduct(q: nat, whole: nat, multiplier: real)
    requires q <= whole && multiplier > 0.0
    ensures SharesOf(q, multiplier) as real == Units(whole, multiplier) <==>
            q == whole && Integral(Units(whole, multiplier))
  {
    Monotone(q as real, whole as real, multiplier);
    Monotone(0.0, q as real, multiplier);
    TruncatedIs(q as real * multiplier, whole as real * multiplier);
  }

  lemma Monotone(a: real, b: real, m: real)
    requires a <= b && m > 0.0
    ensures a * m <= b * m && (a < b ==> a * m < b * m)
  {
    if a < b {
      assert (b - a) * m > 0.0;
    }
  }

  lemma InTheMoneyIff(t: Terms)
    requires Moneyness(t.contract, t.underlying, t.strike) > 0.0
    ensures PhysicalValue(t) == CashMove(t) <==> Shares(t) as real == FullShares(t)
  {
    PhysicalEqualsCashIff(t);
  }

  lemma AllSharesIff(t: Terms)
    requires t.multiplier > 0.0 && 0 <= SettleQuantity(t) <= AtLeastZero(t.quantity)
    ensures Shares(t) as real == FullShares(t) <==>
            SettleQuantity(t) == AtLeastZero(t.quantity) && Integral(FullShares(t))
  {
    TruncatedProduct(SettleQuantity(t), AtLeastZero(t.quantity), t.multiplier);
  }

  /** At expiry, with a positive exercise threshold: physical settlement is worth exactly the cash settlement
      if and only if all contracts are settled and they come to a whole number of shares. */
  lemma ThresholdMakesPhysicalEqualCash(t: Terms, threshold: real)
    requires threshold > 0.0 && t.multiplier > 0.0
    requires t.expiration == ExpirationDecision(t.contract, t.underlying, t.strike, t.quantity, threshold)
    requires ShouldSettle(t) && 0 <= SettleQuantity(t) <= AtLeastZero(t.quantity)
    ensures PhysicalValue(t) == CashMove(t) <==>
            SettleQuantity(t) == AtLeastZero(t.quantity) && Integral(FullShares(t))
  {
    ghost var delivered := Shares(t) as real == FullShares(t);
    assert PhysicalValue(t) == CashMove(t) <==> delivered by {
      InTheMoneyIff(t);
    }
    assert delivered <==> SettleQuantity(t) == AtLeastZero(t.quantity) && Integral(FullShares(t)) by {
      AllSharesIff(t);
    }
  }

  /** Without a positive threshold an option out of the money is settled: delivery then costs what a cash
      settlement would not. */
  lemma ZeroThresholdExercisesAtALoss() returns (t: Terms)
    ensures t.expiration == ExpirationDecision(t.contract, t.underlying, t.strike, t.quantity, 0.0)
    ensures ShouldSettle(t) && Moneyness(t.contract, t.underlying, t.strike) < 0.0
    ensures CashMove(t) == 0.0 && PhysicalValue(t) == -1000.0
  {
    var c := Contract("call", "physical");
    t := Terms(c, 90.0, 100.0, 1, 100.0, true, ExpirationDecision(c, 90.0, 100.0, 1, 0.0), None, None, 0.0);
    assert Shares(t) == 100;
  }

  // ----- Partial settlement -----

  /** An assignment decided for the same position always leaves its remainder as the residual. */
  method AssignThenSettle(t: Terms, extrinsic: real, dividend: Option<real>, half: bool) returns (a: Assignment, r: Settled)
    ensures r.residualContracts + (if ShouldSettle(t.(assignment := Some(a))) then a.quantity else 0)
         == AtLeastZero(t.quantity)
    ensures r.residualContracts >= 0
  {
    a := ShortAssignmentDecision(t.contract, t.underlying, t.strike, t.quantity, extrinsic, dividend, half);
    r := Settle(t.(assignment := Some(a)));
  }

  /** Settling `first` contracts by assignment, and the residual in full afterwards. */
  function Residual(t: Terms): Terms {
    t.(quantity := AtLeastZero(t.quantity) - SettleQuantity(t), assignment := None)
  }

  function InFull(t: Terms): Terms {
    t.(assignment := None)
  }

  lemma WholeShares(n: nat, multiplier: nat)
    ensures SharesOf(n, multiplier as real) == n * multiplier
  {
    assert n as real * multiplier as real == (n * multiplier) as real;
  }

  lemma SharesOfParts(t: Terms, multiplier: nat)
    requires t.multiplier == multiplier as real && 0 <= SettleQuantity(t) <= AtLeastZero(t.quantity)
    ensures Shares(t) + Shares(Residual(t)) == Shares(InFull(t))
  {
    var a := SettleQuantity(t);
    var b := AtLeastZero(t.quantity) - a;
    assert SettleQuantity(Residual(t)) == b && SettleQuantity(InFull(t)) == a + b;
    SharesAdd(a, b, multiplier);
  }

  lemma PostingsOfShares(t: Terms, u: Terms)
    requires u.contract == t.contract && u.strike == t.strike && u.isLong == t.isLong
    ensures StockChange(u) == StockFor(t, Shares(u)) && StrikeCash(u) == StrikeCashFor(t, Shares(u))
  {
  }

  /** With whole shares per contract, delivering in two parts delivers exactly what delivering at once does. */
  lemma PhysicalSettlementIsAdditive(t: Terms, multiplier: nat)
    requires t.multiplier == multiplier as real && 0 <= SettleQuantity(t) <= AtLeastZero(t.quantity)
    ensures StockChange(t) + StockChange(Residual(t)) == StockChange(InFull(t))
    ensures StrikeCash(t) + StrikeCash(Residual(t)) == StrikeCash(InFull(t))
  {
    var first, second := Shares(t), Shares(Residual(t));
    assert Shares(InFull(t)) == first + second by { SharesOfParts(t, multiplier); }
    PostingsOfShares(t, Residual(t));
    PostingsOfShares(t, InFull(t));
    StockAdds(t, first, second);
    StrikeCashAdds(t, first, second);
  }

  function Fraction(x: real): real { x - x.Floor as real }

  lemma FloorsAdd(x: real, y: real)
    requires x >= 0.0 && y >= 0.0
    ensures Truncated(x) + Truncated(y) == Truncated(x + y) <==> Fraction(x) + Fraction(y) < 1.0
  {
  }

  lemma UnitsAdd(a: nat, b: nat, multiplier: real)
    requires multiplier >= 0.0
    ensures Units(a, multiplier) + Units(b, multiplier) == Units(a + b, multiplier)
    ensures Units(a, multiplier) >= 0.0
  {
    assert (a + b) as real == a as real + b as real;
  }

  lemma PartsAdd(a: nat, b: nat, multiplier: real)
    requires multiplier >= 0.0
    ensures SharesOf(a, multiplier) + SharesOf(b, multiplier) == SharesOf(a + b, multiplier) <==>
            Fraction(Units(a, multiplier)) + Fraction(Units(b, multiplier)) < 1.0
  {
    UnitsAdd(a, b, multiplier);
    UnitsAdd(b, a, multiplier);
    FloorsAdd(Units(a, multiplier), Units(b, multiplier));
  }

  /** For any multiplier, two deliveries add up to one exactly when the fractions of a share that they drop do not
      make up a share. */
  lemma DeliveryIsAdditiveIff(t: Terms)
    requires t.multiplier >= 0.0 && 0 <= SettleQuantity(t) <= AtLeastZero(t.quantity)
    ensures StockChange(t) + StockChange(Residual(t)) == StockChange(InFull(t)) <==>
            Fraction(Units(SettleQuantity(t), t.multiplier))
            + Fraction(Units(AtLeastZero(t.quantity) - SettleQuantity(t), t.multiplier)) < 1.0
  {
    var a := SettleQuantity(t);
    var b := AtLeastZero(t.quantity) - a;
    assert SettleQuantity(Residual(t)) == b && SettleQuantity(InFull(t)) == a + b;
    PartsAdd(a, b, t.multiplier);
    PostingsOfShares(t, Residual(t));
    PostingsOfShares(t, InFull(t));
    StockAdds(t, Shares(t), Shares(Residual(t)));
    SameStock(t, Shares(t) + Shares(Residual(t)), Shares(InFull(t)));
  }

  lemma SameStock(t: Terms, a: int, b: int)
    ensures StockFor(t, a) == StockFor(t, b) <==> a == b
  {
  }

  lemma StockAdds(t: Terms, a: int, b: int)
    ensures StockFor(t, a) + StockFor(t, b) == StockFor(t, a + b)
  {
  }

  lemma SharesAdd(a: nat, b: nat, multiplier: nat)
    ensures SharesOf(a, multiplier as real) + SharesOf(b, multiplier as real) == SharesOf(a + b, multiplier as real)
  {
    WholeShares(a, multiplier);
    WholeShares(b, multiplier);
    WholeShares(a + b, multiplier);
    assert (a + b) * multiplier == a * multiplier + b * multiplier;
  }

  lemma StrikeCashAdds(t: Terms, a: int, b: int)
    ensures StrikeCashFor(t, a) + StrikeCashFor(t, b) == StrikeCashFor(t, a + b)
  {
    var x, y := a as real, b as real;
    assert (a + b) as real == x + y;
    assert t.strike * (x + y) == t.strike * x + t.strike * y;
    assert -t.strike * (x + y) == -t.strike * x + -t.strike * y;
  }

  lemma NoCashIff(t: Terms)
    ensures CashMove(t) == 0.0 <==>
            Moneyness(t.contract, t.underlying, t.strike) <= 0.0 || t.multiplier == 0.0 || t.quantity <= 0
  {
    var m := Max(0.0, Moneyness(t.contract, t.underlying, t.strike));
    CashMoveIs(t);
    NonZeroProduct(AtLeastZero(t.quantity) as real, t.multiplier);
    NonZeroProduct(m, FullShares(t));
    NonZeroProduct(Side(t) as real, m * FullShares(t));
  }

  lemma NonZeroProduct(a: real, b: real)
    ensures a * b == 0.0 <==> a == 0.0 || b == 0.0
  {
  }

  /** A cash settlement does not: the first part already moves the cash of the whole position, so the two parts
      agree with the whole exactly when the option is not in the money, or the multiplier is zero, or nothing is
      left over. */
  lemma CashSettlementIsAdditiveIff(t: Terms)
    ensures CashMove(t) == CashMove(InFull(t))
    ensures CashMove(t) + CashMove(Residual(t)) == CashMove(InFull(t)) <==>
            Moneyness(t.contract, t.underlying, t.strike) <= 0.0 || t.multiplier == 0.0
            || SettleQuantity(t) >= AtLeastZero(t.quantity)
  {
    NoCashIff(Residual(t));
  }

  // ----- The two sides of one contract -----

  /** The same settlement seen from the other side, with its own decisions and fees. */
  ghost predicate Opposite(long: Terms, short: Terms) {
    && long.isLong && !short.isLong
    && long.contract == short.contract && long.underlying == short.underlying && long.strike == short.strike
    && long.quantity == short.quantity && long.multiplier == short.multiplier
  }

  lemma SidesCancel(long: Terms, short: Terms)
    requires Opposite(long, short)
    ensures CashMove(long) + CashMove(short) == 0.0
    ensures StockChange(long) + StockChange(short) == 0 <==> Shares(long) == Shares(short)
    ensures Shares(long) == Shares(short) ==> StrikeCash(long) + StrikeCash(short) == 0.0
  {
    var c := Intrinsic(long.contract, long.underlying, long.strike) * AtLeastZero(long.quantity) as real * long.multiplier;
    assert CashMove(long) == c * 1.0 && CashMove(short) == c * -1.0;
    if Shares(long) == Shares(short) {
      var k := long.strike * Shares(long) as real;
      assert -long.strike * Shares(long) as real == -k;
    }
  }

  /** Both sides settled: what they post nets to minus both fees, and no stock appears or disappears, exactly when
      physical settlement moves the same number of shares on both sides. A cash settlement always nets. */
  method SettleBothSides(long: Terms, short: Terms) returns (l: Settled, s: Settled)
    requires Opposite(long, short) && ShouldSettle(long) && ShouldSettle(short)
    ensures l.stockPositionChange + s.stockPositionChange == 0
      <==> long.contract.IsCash() || Shares(long) == Shares(short)
    ensures l.stockPositionChange + s.stockPositionChange == 0 ==>
              l.realizedPnl + s.realizedPnl == -(Abs(long.fees) + Abs(short.fees))
  {
    l := Settle(long);
    s := Settle(short);
    SidesCancel(long, short);
  }

  /** A long that exercises everything against a short that is only half assigned leaves stock unmatched. */
  lemma HalfAssignmentLeavesStockUnmatched() returns (long: Terms, short: Terms)
    ensures Opposite(long, short) && ShouldSettle(long) && ShouldSettle(short)
    ensures StockChange(long) + StockChange(short) == 100
  {
    var c := Contract("call", "physical");
    var e := ExpirationDecision(c, 110.0, 100.0, 2, 0.01);
    long := Terms(c, 110.0, 100.0, 2, 100.0, true, e, Some(Exercise("exercise")), None, 0.0);
    short := Terms(c, 110.0, 100.0, 2, 100.0, false, e, None, Some(Assignment("assign", true, 1)), 0.0);
    assert Shares(long) == 200 && Shares(short) == 100;
  }
}
