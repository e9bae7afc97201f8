/** Capital arbitration between strategies (`backend/backtesting/arbitration.py`):
    a greedy pass over a stable, policy-chosen ranking. */
module Arbitration {
  import opened Seqs
  import opened StableSort

  datatype Policy =
    | FixedPriority
    | RiskFirst
    | CapitalEfficiency
    | HighestRobustnessScore
    | HighestExpectedValue
    | LowestMarginalRisk
    | StrategyAgePriority
    | Fifo
    | CompositeScore

  datatype CompetingAction = CompetingAction(
    actionId: string,
    strategyInstanceId: string,
    actionType: string,
    mandatory: bool,
    riskPriority: int,
    requiredCapital: real,
    expectedValue: real,
    robustnessScore: real,
    marginalRisk: real,
    ageSeconds: real,
    submittedSequence: int)

  datatype Rejection = Rejection(actionId: string, strategyInstanceId: string, reasonCode: string)

  datatype Decision = Decision(
    policy: Policy,
    accepted: seq<CompetingAction>,
    rejected: seq<Rejection>,
    availableCapital: real,
    remainingCapital: real,
    competingCount: nat)

  // The comparisons of the ranking keys; `not mandatory` sorts mandatory actions first.

  predicate FixedPriorityLeq(a: CompetingAction, b: CompetingAction) {
    a.riskPriority < b.riskPriority ||
    (a.riskPriority == b.riskPriority && a.submittedSequence <= b.submittedSequence)
  }

  predicate RiskFirstLeq(a: CompetingAction, b: CompetingAction) {
    (a.mandatory && !b.mandatory) ||
    (a.mandatory == b.mandatory && a.riskPriority <= b.riskPriority)
  }

  predicate CapitalLeq(a: CompetingAction, b: CompetingAction) {
    a.requiredCapital <= b.requiredCapital
  }

  predicate RobustnessLeq(a: CompetingAction, b: CompetingAction) {
    a.robustnessScore > b.robustnessScore ||
    (a.robustnessScore == b.robustnessScore && a.submittedSequence <= b.submittedSequence)
  }

  predicate ExpectedValueLeq(a: CompetingAction, b: CompetingAction) {
    a.expectedValue > b.expectedValue ||
    (a.expectedValue == b.expectedValue && a.submittedSequence <= b.submittedSequence)
  }

  predicate MarginalRiskLeq(a: CompetingAction, b: CompetingAction) {
    a.marginalRisk < b.marginalRisk ||
    (a.marginalRisk == b.marginalRisk && a.submittedSequence <= b.submittedSequence)
  }

  predicate AgeLeq(a: CompetingAction, b: CompetingAction) {
    a.ageSeconds > b.ageSeconds ||
    (a.ageSeconds == b.ageSeconds && a.submittedSequence <= b.submittedSequence)
  }

  predicate FifoLeq(a: CompetingAction, b: CompetingAction) {
    a.submittedSequence <= b.submittedSequence
  }

  predicate CompositeLeq(a: CompetingAction, b: CompetingAction) {
    if a.mandatory != b.mandatory then a.mandatory
    else if a.expectedValue != b.expectedValue then a.expectedValue > b.expectedValue
    else if a.requiredCapital != b.requiredCapital then a.requiredCapital < b.requiredCapital
    else if a.robustnessScore != b.robustnessScore then a.robustnessScore > b.robustnessScore
    else a.marginalRisk <= b.marginalRisk
  }

  function Ranking(policy: Policy): (CompetingAction, CompetingAction) -> bool {
    match policy
    case FixedPriority => FixedPriorityLeq
    case RiskFirst => RiskFirstLeq
    case CapitalEfficiency => CapitalLeq
    case HighestRobustnessScore => RobustnessLeq
    case HighestExpectedValue => ExpectedValueLeq
    case LowestMarginalRisk => MarginalRiskLeq
    case StrategyAgePriority => AgeLeq
    case Fifo => FifoLeq
    case CompositeScore => CompositeLeq
  }

  function Rank(policy: Policy, actions: seq<CompetingAction>): seq<CompetingAction> {
    Sorted(Ranking(policy), actions)
  }

  lemma RankingIsPreorder(policy: Policy)
    ensures Preorder(Ranking(policy))
  {
  }

  function Need(a: CompetingAction): real { a.requiredCapital }

  predicate IsMandatory(a: CompetingAction) { a.mandatory }

  predicate IsOptional(a: CompetingAction) { !a.mandatory }

  function Reject(a: CompetingAction): Rejection {
    Rejection(a.actionId, a.strategyInstanceId, "insufficient_capital")
  }

  /** What a greedy pass over `ranked` does with the money. */
  datatype Allocation = Allocation(accepted: seq<CompetingAction>, rejected: seq<CompetingAction>, remaining: real)

  function Allocate(ranked: seq<CompetingAction>, available: real): Allocation {
    if ranked == [] then Allocation([], [], available)
    else
      var before, a := Allocate(Front(ranked), available), Last(ranked);
      if a.requiredCapital <= before.remaining
      then Allocation(before.accepted + [a], before.rejected, before.remaining - a.requiredCapital)
      else before.(rejected := before.rejected + [a])
  }

  function Arbitrate(policy: Policy, actions: seq<CompetingAction>, available: real): Allocation {
    Allocate(Rank(policy, actions), available)
  }

  method Decide(policy: Policy, actions: seq<CompetingAction>, available: real) returns (d: Decision)
    ensures d.policy == policy && d.availableCapital == available && d.competingCount == |actions|
    ensures d.accepted == Arbitrate(policy, actions, available).accepted
    ensures d.rejected == Map(Reject, Arbitrate(policy, actions, available).rejected)
    ensures forall i :: 0 <= i < |d.rejected| ==>
              && d.rejected[i].actionId == Arbitrate(policy, actions, available).rejected[i].actionId
              && d.rejected[i].strategyInstanceId == Arbitrate(policy, actions, available).rejected[i].strategyInstanceId
              && d.rejected[i].reasonCode == "insufficient_capital"
    ensures d.remainingCapital == Arbitrate(policy, actions, available).remaining
  {
    var ranked := Rank(policy, actions);
    var accepted: seq<CompetingAction>, rejected: seq<Rejection>, remaining := [], [], available;
    for i := 0 to |ranked|
      invariant accepted == Allocate(ranked[..i], available).accepted
      invariant rejected == Map(Reject, Allocate(ranked[..i], available).rejected)
      invariant remaining == Allocate(ranked[..i], available).remaining
    {
      TakeNext(ranked, i);
      var action := ranked[i];
      if action.requiredCapital <= remaining {
        accepted := accepted + [action];
        remaining := remaining - action.requiredCapital;
      } else {
        rejected := rejected + [Reject(action)];
      }
    }
    assert ranked[..|ranked|] == ranked;
    d := Decision(policy, accepted, rejected, available, remaining, |actions|);
  }

  ghost predicate NonNegativeNeeds(actions: seq<CompetingAction>) {
    forall a :: a in actions ==> a.requiredCapital >= 0.0
  }

  // ----- Accounting -----

  lemma {:induction false} AllocateAccounts(ranked: seq<CompetingAction>, available: real)
    ensures var r := Allocate(ranked, available);
      && multiset(r.accepted) + multiset(r.rejected) == multiset(ranked)
      && r.remaining == available - Sum(Need, r.accepted)
  {
    if ranked != [] {
      AllocateAccounts(Front(ranked), available);
      SplitLast(ranked);
      var before := Allocate(Front(ranked), available).accepted;
      assert Front(before + [Last(ranked)]) == before;
    }
  }

  /** With non-negative needs the account never goes below zero by itself, and everything
      that was turned down is still too expensive at the end. */
  lemma {:induction false} AllocateIsMaximal(ranked: seq<CompetingAction>, available: real)
    requires NonNegativeNeeds(ranked)
    ensures var r := Allocate(ranked, available);
      && r.remaining <= available
      && (r.remaining >= 0.0 <==> available >= 0.0)
      && (forall a :: a in r.rejected ==> a.requiredCapital > r.remaining)
  {
    if ranked != [] {
      SplitLast(ranked);
      AllocateIsMaximal(Front(ranked), available);
    }
  }

  /** Every action is accepted or rejected, exactly as often as it was submitted; the remaining
      capital is what the accepted actions leave. */
  lemma ArbitrationAccounts(policy: Policy, actions: seq<CompetingAction>, available: real)
    ensures var r := Arbitrate(policy, actions, available);
      && multiset(r.accepted) + multiset(r.rejected) == multiset(actions)
      && r.remaining == available - Sum(Need, r.accepted)
  {
    AllocateAccounts(Rank(policy, actions), available);
    SortedPermutes(Ranking(policy), actions);
  }

  lemma ArbitrationIsMaximal(policy: Policy, actions: seq<CompetingAction>, available: real)
    requires NonNegativeNeeds(actions)
    ensures var r := Arbitrate(policy, actions, available);
      && (r.remaining >= 0.0 <==> available >= 0.0)
      && (forall a :: a in r.rejected ==> a.requiredCapital > r.remaining)
  {
    SortedElements(Ranking(policy), actions);
    AllocateIsMaximal(Rank(policy, actions), available);
  }

  // ----- Mandatory actions do not see the optional ones -----

  predicate MandatoryFirst(policy: Policy) {
    policy.RiskFirst? || policy.CompositeScore?
  }

  lemma NoOptionalBeforeMandatory(policy: Policy, ranked: seq<CompetingAction>)
    requires MandatoryFirst(policy) && Ordered(Ranking(policy), ranked)
    requires ranked != [] && Last(ranked).mandatory
    ensures Filter(IsOptional, Front(ranked)) == []
  {
    forall a | a in Front(ranked) ensures a.mandatory {
      assert Ranking(policy)(a, Last(ranked));
    }
    FilterNone(IsOptional, Front(ranked));
  }

  lemma OneMoreRanked(front: seq<CompetingAction>, last: CompetingAction)
    requires front == Filter(IsMandatory, front) + Filter(IsOptional, front)
    requires last.mandatory ==> Filter(IsOptional, front) == []
    ensures front + [last] == Filter(IsMandatory, front + [last]) + Filter(IsOptional, front + [last])
  {
    FilterSnoc(IsMandatory, front, last);
    FilterSnoc(IsOptional, front, last);
    if !last.mandatory {
      Associative(Filter(IsMandatory, front), Filter(IsOptional, front), [last]);
    }
  }

  lemma {:induction false} RankedMandatoryFirst(policy: Policy, ranked: seq<CompetingAction>)
    requires MandatoryFirst(policy) && Ordered(Ranking(policy), ranked)
    ensures ranked == Filter(IsMandatory, ranked) + Filter(IsOptional, ranked)
  {
    if ranked != [] {
      RankedMandatoryFirst(policy, Front(ranked));
      if Last(ranked).mandatory {
        NoOptionalBeforeMandatory(policy, ranked);
      }
      OneMoreRanked(Front(ranked), Last(ranked));
      SplitLast(ranked);
    }
  }

  lemma {:induction false} OptionalTailIsHarmless(
    first: seq<CompetingAction>, rest: seq<CompetingAction>, available: real)
    requires forall a :: a in rest ==> !a.mandatory
    ensures Filter(IsMandatory, Allocate(first + rest, available).accepted)
         == Filter(IsMandatory, Allocate(first, available).accepted)
  {
    if rest == [] {
      assert first + rest == first;
    } else {
      SplitLast(rest);
      assert Front(first + rest) == first + Front(rest) && Last(first + rest) == Last(rest);
      OptionalTailIsHarmless(first, Front(rest), available);
      FilterSnoc(IsMandatory, Allocate(first + Front(rest), available).accepted, Last(rest));
    }
  }

  /** Under the mandatory-first policies, the accepted mandatory actions are, in order, those
      accepted when only the mandatory actions compete. */
  lemma MandatoryNonInterference(policy: Policy, actions: seq<CompetingAction>, available: real)
    requires MandatoryFirst(policy)
    ensures Filter(IsMandatory, Arbitrate(policy, actions, available).accepted)
         == Arbitrate(policy, Filter(IsMandatory, actions), available).accepted
  {
    var ranked := Rank(policy, actions);
    RankingIsPreorder(policy);
    SortedOrders(Ranking(policy), actions);
    SortedFilter(Ranking(policy), IsMandatory, actions);
    RankedMandatoryFirst(policy, ranked);
    var mandatory, optional := Filter(IsMandatory, ranked), Filter(IsOptional, ranked);
    forall a ensures (a in mandatory ==> a.mandatory) && (a in optional ==> !a.mandatory) {
      FilterElements(IsMandatory, ranked, a);
      FilterElements(IsOptional, ranked, a);
    }
    OptionalTailIsHarmless(mandatory, optional, available);
    AllocateAccounts(mandatory, available);
    var alone := Allocate(mandatory, available);
    forall a | a in alone.accepted ensures a.mandatory {
      assert a in multiset(alone.accepted) + multiset(alone.rejected);
      assert a in multiset(mandatory);
    }
    FilterAll(IsMandatory, alone.accepted);
  }

  /** Where a ranking puts an optional action strictly first, it starves a mandatory one that would fit alone
      but not next to it. */
  lemma OptionalStarvesMandatory(policy: Policy, stop: CompetingAction, hedge: CompetingAction, available: real)
    requires stop.mandatory && !hedge.mandatory
    requires Ranking(policy)(hedge, stop) && !Ranking(policy)(stop, hedge)
    requires hedge.requiredCapital <= available && stop.requiredCapital <= available
    requires available - hedge.requiredCapital < stop.requiredCapital
    ensures Filter(IsMandatory, Arbitrate(policy, [stop, hedge], available).accepted) == []
    ensures Arbitrate(policy, Filter(IsMandatory, [stop, hedge]), available).accepted == [stop]
  {
    SortedTwo(Ranking(policy), stop, hedge);
    SortedOne(Ranking(policy), stop);
    AllocateTwo(hedge, stop, available);
    assert Front([stop, hedge]) == [stop] && Filter(IsMandatory, [stop]) == [stop];
    assert Filter(IsMandatory, [hedge]) == [];
  }

  lemma AllocateTwo(a: CompetingAction, b: CompetingAction, available: real)
    requires a.requiredCapital <= available && b.requiredCapital <= available
    requires available - a.requiredCapital < b.requiredCapital
    ensures Allocate([a, b], available).accepted == [a] && Allocate([b], available).accepted == [b]
  {
    assert Front([a, b]) == [a] && Front([a]) == [] && Front([b]) == [];
    assert Allocate([a], available) == Allocation([a], [], available - a.requiredCapital);
  }

  ghost predicate Undisturbed(policy: Policy, actions: seq<CompetingAction>, available: real) {
    Filter(IsMandatory, Arbitrate(policy, actions, available).accepted)
    == Arbitrate(policy, Filter(IsMandatory, actions), available).accepted
  }

  /** An action that is first, or last, under each of the seven rankings that ignore `mandatory`. */
  function Extreme(mandatory: bool, first: bool): CompetingAction {
    if first
    then CompetingAction("first", "", "", mandatory, 0, 1.0, 1.0, 1.0, 0.0, 1.0, 0)
    else CompetingAction("last", "", "", mandatory, 1, 10.0, 0.0, 0.0, 1.0, 0.0, 1)
  }

  /** Optional actions never interfere with mandatory ones under the mandatory-first policies, and under no other. */
  lemma UndisturbedIffMandatoryFirst(policy: Policy)
    ensures (forall actions, available :: Undisturbed(policy, actions, available)) <==> MandatoryFirst(policy)
  {
    if MandatoryFirst(policy) {
      forall actions, available ensures Undisturbed(policy, actions, available) {
        MandatoryNonInterference(policy, actions, available);
      }
    } else {
      var stop, hedge := Extreme(true, false), Extreme(false, true);
      OptionalStarvesMandatory(policy, stop, hedge, 10.0);
      assert !Undisturbed(policy, [stop, hedge], 10.0);
    }
  }

  // ----- Cheapest-first accepts as many actions as any affordable selection -----

  lemma PrefixPlusDearest(ranked: seq<CompetingAction>, k: nat)
    requires Ordered(CapitalLeq, ranked) && k < |ranked|
    ensures Sum(Need, ranked[..k + 1]) <= Sum(Need, Front(ranked)[..k]) + Last(ranked).requiredCapital
  {
    TakeNext(ranked, k);
    assert Front(ranked)[..k] == ranked[..k];
    assert k < |ranked| - 1 ==> CapitalLeq(ranked[k], Last(ranked));
  }

  lemma AddDearest(ranked: seq<CompetingAction>, chosen: seq<CompetingAction>, j: nat)
    requires Ordered(CapitalLeq, ranked) && ranked != [] && j < |chosen| && chosen[j] == Last(ranked)
    requires |chosen| <= |ranked|
    requires Sum(Need, Front(ranked)[..|chosen| - 1]) <= Sum(Need, Without(chosen, j))
    ensures Sum(Need, ranked[..|chosen|]) <= Sum(Need, chosen)
  {
    var k := |chosen| - 1;
    assert Sum(Need, ranked[..k + 1]) <= Sum(Need, Front(ranked)[..k]) + Last(ranked).requiredCapital by {
      PrefixPlusDearest(ranked, k);
    }
    assert Sum(Need, chosen) == Sum(Need, Without(chosen, j)) + Last(ranked).requiredCapital by {
      SumWithout(Need, chosen, j);
    }
  }

  lemma {:induction false} CheapestPrefix(ranked: seq<CompetingAction>, chosen: seq<CompetingAction>)
    requires Ordered(CapitalLeq, ranked) && multiset(chosen) <= multiset(ranked)
    ensures |chosen| <= |ranked| && Sum(Need, ranked[..|chosen|]) <= Sum(Need, chosen)
    decreases |ranked|
  {
    if ranked == [] {
      assert |multiset(chosen)| <= |multiset(ranked)|;
    } else if Last(ranked) in chosen {
      var j :| 0 <= j < |chosen| && chosen[j] == Last(ranked);
      DropDearest(ranked, chosen, j);
      CheapestPrefix(Front(ranked), Without(chosen, j));
      AddDearest(ranked, chosen, j);
    } else {
      assert multiset(chosen) <= multiset(Front(ranked)) by { SplitLast(ranked); }
      CheapestPrefix(Front(ranked), chosen);
      assert Front(ranked)[..|chosen|] == ranked[..|chosen|];
    }
  }

  lemma DropDearest(ranked: seq<CompetingAction>, chosen: seq<CompetingAction>, j: nat)
    requires ranked != [] && j < |chosen| && chosen[j] == Last(ranked)
    requires multiset(chosen) <= multiset(ranked)
    ensures multiset(Without(chosen, j)) <= multiset(Front(ranked))
  {
    SplitLast(ranked);
    WithoutMultiset(chosen, j);
    assert multiset(Without(chosen, j)) == multiset(chosen) - multiset{Last(ranked)};
    assert multiset(Front(ranked)) == multiset(ranked) - multiset{Last(ranked)};
  }

  /** Sums of an ascending list fall before they rise, so no sum in between exceeds both ends. */
  lemma {:induction false} RefundsOnlyLower(ranked: seq<CompetingAction>, k: nat)
    requires Ordered(CapitalLeq, ranked) && k < |ranked| && ranked[k].requiredCapital < 0.0
    ensures Sum(Need, ranked[..k]) <= 0.0
    ensures k > 0 ==> Sum(Need, ranked[..k]) <= ranked[0].requiredCapital
  {
    if k > 0 {
      TakeNext(ranked, k - 1);
      assert CapitalLeq(ranked[k - 1], ranked[k]);
      RefundsOnlyLower(ranked, k - 1);
    }
  }

  lemma OneMoreFits(prefix: seq<CompetingAction>, available: real)
    requires prefix != [] && Sum(Need, prefix) <= available
    requires Allocate(Front(prefix), available).accepted == Front(prefix)
    ensures Allocate(prefix, available).accepted == prefix
  {
    AllocateAccounts(Front(prefix), available);
    SplitLast(prefix);
  }

  /** An affordable prefix of the cheapest-first ranking is accepted whole, unless the capital is a debt that the
      cheapest action does not cover. */
  lemma {:induction false} AffordablePrefix(ranked: seq<CompetingAction>, available: real, k: nat)
    requires Ordered(CapitalLeq, ranked) && k <= |ranked|
    requires k > 0 ==> Sum(Need, ranked[..k]) <= available
    requires k > 0 && available < 0.0 ==> ranked[0].requiredCapital <= available
    ensures Allocate(ranked[..k], available).accepted == ranked[..k]
  {
    if k > 0 {
      TakeNext(ranked, k - 1);
      if ranked[k - 1].requiredCapital < 0.0 {
        RefundsOnlyLower(ranked, k - 1);
      }
      AffordablePrefix(ranked, available, k - 1);
      OneMoreFits(ranked[..k], available);
    }
  }

  lemma {:induction false} LongerRankingAcceptsMore(ranked: seq<CompetingAction>, available: real, k: nat)
    requires k <= |ranked|
    ensures |Allocate(ranked[..k], available).accepted| <= |Allocate(ranked, available).accepted|
    decreases |ranked| - k
  {
    if k < |ranked| {
      TakeNext(ranked, k);
      LongerRankingAcceptsMore(ranked, available, k + 1);
    } else {
      assert ranked[..k] == ranked;
    }
  }

  predicate IsRefund(a: CompetingAction) { a.requiredCapital < 0.0 }

  ghost predicate Fits(actions: seq<CompetingAction>, available: real) {
    exists a :: a in actions && a.requiredCapital <= available
  }

  /** The capital is no debt, or some action covers the debt alone, or all refunds together do not. */
  ghost predicate NoDebtTrap(actions: seq<CompetingAction>, available: real) {
    || available >= 0.0
    || Fits(actions, available)
    || Sum(Need, Filter(IsRefund, actions)) > available
  }

  lemma RefundsOfLast(actions: seq<CompetingAction>)
    requires actions != []
    ensures Sum(Need, Filter(IsRefund, actions)) <= Sum(Need, Filter(IsRefund, Front(actions)))
    ensures Sum(Need, Filter(IsRefund, actions))
         <= Sum(Need, Filter(IsRefund, Front(actions))) + Last(actions).requiredCapital
  {
    var refunds := Filter(IsRefund, Front(actions));
    assert Front(refunds + [Last(actions)]) == refunds;
    assert refunds + [] == refunds;
  }

  /** No selection costs less than all refunds together. */
  lemma {:induction false} RefundsAreCheapest(actions: seq<CompetingAction>, chosen: seq<CompetingAction>)
    requires multiset(chosen) <= multiset(actions)
    ensures Sum(Need, Filter(IsRefund, actions)) <= Sum(Need, chosen)
    decreases |actions|
  {
    if actions == [] {
      assert |multiset(chosen)| <= |multiset(actions)|;
    } else {
      RefundsOfLast(actions);
      if Last(actions) in chosen {
        var j :| 0 <= j < |chosen| && chosen[j] == Last(actions);
        DropDearest(actions, chosen, j);
        RefundsAreCheapest(Front(actions), Without(chosen, j));
        SumWithout(Need, chosen, j);
      } else {
        assert multiset(chosen) <= multiset(Front(actions)) by { SplitLast(actions); }
        RefundsAreCheapest(Front(actions), chosen);
      }
    }
  }

  lemma CheapestCoversDebt(ranked: seq<CompetingAction>, a: CompetingAction)
    requires Ordered(CapitalLeq, ranked) && a in ranked
    ensures ranked[0].requiredCapital <= a.requiredCapital
  {
    var i :| 0 <= i < |ranked| && ranked[i] == a;
    assert i > 0 ==> CapitalLeq(ranked[0], ranked[i]);
  }

  lemma RankedOptimum(ranked: seq<CompetingAction>, available: real, chosen: seq<CompetingAction>)
    requires Ordered(CapitalLeq, ranked) && multiset(chosen) <= multiset(ranked)
    requires Sum(Need, chosen) <= available && (available >= 0.0 || Fits(ranked, available))
    ensures |chosen| <= |Allocate(ranked, available).accepted|
  {
    if available < 0.0 {
      var a :| a in ranked && a.requiredCapital <= available;
      CheapestCoversDebt(ranked, a);
    }
    CheapestPrefix(ranked, chosen);
    AffordablePrefix(ranked, available, |chosen|);
    LongerRankingAcceptsMore(ranked, available, |chosen|);
  }

  lemma FitsIgnoresOrder(a: seq<CompetingAction>, b: seq<CompetingAction>, available: real)
    requires multiset(a) == multiset(b) && Fits(a, available)
    ensures Fits(b, available)
  {
    var x :| x in a && x.requiredCapital <= available;
    assert x in multiset(b);
  }

  /** No affordable selection of the competing actions has more members than cheapest-first accepts. */
  lemma CapitalEfficiencyIsOptimal(actions: seq<CompetingAction>, available: real, chosen: seq<CompetingAction>)
    requires NoDebtTrap(actions, available)
    requires multiset(chosen) <= multiset(actions) && Sum(Need, chosen) <= available
    ensures |chosen| <= |Arbitrate(CapitalEfficiency, actions, available).accepted|
  {
    RankedByCost(actions);
    CanPay(actions, available, chosen);
    RankedOptimum(Rank(CapitalEfficiency, actions), available, chosen);
  }

  lemma RankedByCost(actions: seq<CompetingAction>)
    ensures Ordered(CapitalLeq, Rank(CapitalEfficiency, actions))
    ensures multiset(Rank(CapitalEfficiency, actions)) == multiset(actions)
  {
    RankingIsPreorder(CapitalEfficiency);
    SortedOrders(CapitalLeq, actions);
    SortedPermutes(CapitalLeq, actions);
  }

  lemma CanPay(actions: seq<CompetingAction>, available: real, chosen: seq<CompetingAction>)
    requires NoDebtTrap(actions, available)
    requires multiset(chosen) <= multiset(actions) && Sum(Need, chosen) <= available
    ensures available >= 0.0 || Fits(Rank(CapitalEfficiency, actions), available)
  {
    RefundsAreCheapest(actions, chosen);
    if available < 0.0 {
      SortedPermutes(CapitalLeq, actions);
      FitsIgnoresOrder(actions, Rank(CapitalEfficiency, actions), available);
    }
  }

  lemma {:induction false} NothingFits(ranked: seq<CompetingAction>, available: real)
    requires !Fits(ranked, available)
    ensures Allocate(ranked, available) == Allocation([], ranked, available)
  {
    if ranked != [] {
      SplitLast(ranked);
      NothingFits(Front(ranked), available);
    }
  }

  lemma {:induction false} FilterIsPart(p: CompetingAction -> bool, s: seq<CompetingAction>)
    ensures multiset(Filter(p, s)) <= multiset(s)
  {
    if s != [] {
      SplitLast(s);
      FilterIsPart(p, Front(s));
    }
  }

  /** In the remaining case all refunds together are affordable, but nothing is accepted. */
  lemma DebtTrap(actions: seq<CompetingAction>, available: real)
    requires !NoDebtTrap(actions, available)
    ensures var refunds := Filter(IsRefund, actions);
            && multiset(refunds) <= multiset(actions) && Sum(Need, refunds) <= available && |refunds| > 0
    ensures Arbitrate(CapitalEfficiency, actions, available).accepted == []
  {
    FilterIsPart(IsRefund, actions);
    assert forall a :: a in Sorted(CapitalLeq, actions) <==> a in actions by { SortedElements(CapitalLeq, actions); }
    NothingFits(Sorted(CapitalLeq, actions), available);
  }

  ghost predicate Optimal(actions: seq<CompetingAction>, available: real) {
    forall chosen | multiset(chosen) <= multiset(actions) && Sum(Need, chosen) <= available ::
      |chosen| <= |Arbitrate(CapitalEfficiency, actions, available).accepted|
  }

  /** Cheapest-first accepts the most actions that the capital can pay for, exactly when the capital is no debt, or
      some action covers the debt alone, or all refunds together do not cover it. */
  lemma CapitalEfficiencyIsOptimalIff(actions: seq<CompetingAction>, available: real)
    ensures Optimal(actions, available) <==> NoDebtTrap(actions, available)
  {
    if NoDebtTrap(actions, available) {
      forall chosen | multiset(chosen) <= multiset(actions) && Sum(Need, chosen) <= available
        ensures |chosen| <= |Arbitrate(CapitalEfficiency, actions, available).accepted|
      {
        CapitalEfficiencyIsOptimal(actions, available, chosen);
      }
    } else {
      DebtTrap(actions, available);
    }
  }

  /** In particular it is optimal whenever no action pays in. */
  lemma NoRefundsNoTrap(actions: seq<CompetingAction>, available: real)
    requires NonNegativeNeeds(actions)
    ensures NoDebtTrap(actions, available)
  {
    FilterNone(IsRefund, actions);
  }
}
