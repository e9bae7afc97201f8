/** What each arbitration policy prefers (`backend/backtesting/arbitration.py`), in the fields of the actions. */
module Preference {
  import opened Seqs
  import opened StableSort
  import opened Arbitration

  // ----- Of two competitors -----

  /** Either of the two fits alone, and both together do not. */
  predicate Contest(a: CompetingAction, b: CompetingAction, available: real) {
    && a.requiredCapital <= available && b.requiredCapital <= available
    && a.requiredCapital + b.requiredCapital > available
  }

  /** `a` is accepted and `b` is not, whichever was submitted first. */
  predicate Wins(policy: Policy, a: CompetingAction, b: CompetingAction, available: real) {
    && Arbitrate(policy, [a, b], available).accepted == [a]
    && Arbitrate(policy, [b, a], available).accepted == [a]
  }

  lemma FirstRankedWins(policy: Policy, a: CompetingAction, b: CompetingAction, available: real)
    requires Contest(a, b, available) && Ranking(policy)(a, b)
    ensures Arbitrate(policy, [a, b], available).accepted == [a]
    ensures !Ranking(policy)(b, a) ==> Arbitrate(policy, [b, a], available).accepted == [a]
  {
    SortedTwo(Ranking(policy), a, b);
    SortedTwo(Ranking(policy), b, a);
    AllocateTwo(a, b, available);
  }

  lemma RankedBeforeWins(policy: Policy, a: CompetingAction, b: CompetingAction, available: real)
    requires Contest(a, b, available)
    ensures Ranking(policy)(a, b) && !Ranking(policy)(b, a) ==> Wins(policy, a, b, available)
  {
    if Ranking(policy)(a, b) && !Ranking(policy)(b, a) {
      FirstRankedWins(policy, a, b, available);
    }
  }

  /** Which of two competitors is accepted: the components of each policy's key in turn. */
  lemma BetterWins(policy: Policy, a: CompetingAction, b: CompetingAction, available: real)
    requires Contest(a, b, available)
    ensures policy.FixedPriority? && a.riskPriority < b.riskPriority ==> Wins(policy, a, b, available)
    ensures policy.RiskFirst? && a.mandatory && !b.mandatory ==> Wins(policy, a, b, available)
    ensures policy.RiskFirst? && a.mandatory == b.mandatory && a.riskPriority < b.riskPriority ==>
              Wins(policy, a, b, available)
    ensures policy.CapitalEfficiency? && a.requiredCapital < b.requiredCapital ==> Wins(policy, a, b, available)
    ensures policy.HighestRobustnessScore? && a.robustnessScore > b.robustnessScore ==> Wins(policy, a, b, available)
    ensures policy.HighestExpectedValue? && a.expectedValue > b.expectedValue ==> Wins(policy, a, b, available)
    ensures policy.LowestMarginalRisk? && a.marginalRisk < b.marginalRisk ==> Wins(policy, a, b, available)
    ensures policy.StrategyAgePriority? && a.ageSeconds > b.ageSeconds ==> Wins(policy, a, b, available)
    ensures policy.Fifo? && a.submittedSequence < b.submittedSequence ==> Wins(policy, a, b, available)
    ensures policy.CompositeScore? && a.mandatory && !b.mandatory ==> Wins(policy, a, b, available)
    ensures policy.CompositeScore? && a.mandatory == b.mandatory && a.expectedValue > b.expectedValue ==>
              Wins(policy, a, b, available)
    ensures (policy.CompositeScore? && a.mandatory == b.mandatory && a.expectedValue == b.expectedValue
             && a.requiredCapital < b.requiredCapital) ==> Wins(policy, a, b, available)
    ensures (policy.CompositeScore? && a.mandatory == b.mandatory && a.expectedValue == b.expectedValue
             && a.requiredCapital == b.requiredCapital && a.robustnessScore > b.robustnessScore) ==>
              Wins(policy, a, b, available)
    ensures (policy.CompositeScore? && a.mandatory == b.mandatory && a.expectedValue == b.expectedValue
             && a.requiredCapital == b.requiredCapital && a.robustnessScore == b.robustnessScore
             && a.marginalRisk < b.marginalRisk) ==> Wins(policy, a, b, available)
  {
    RankedBeforeWins(policy, a, b, available);
  }

  /** The five policies that break ties by submission: the earlier sequence number is accepted. */
  lemma EarlierSubmissionWins(policy: Policy, a: CompetingAction, b: CompetingAction, available: real)
    requires Contest(a, b, available) && a.submittedSequence < b.submittedSequence
    ensures policy.FixedPriority? && a.riskPriority == b.riskPriority ==> Wins(policy, a, b, available)
    ensures policy.HighestRobustnessScore? && a.robustnessScore == b.robustnessScore ==> Wins(policy, a, b, available)
    ensures policy.HighestExpectedValue? && a.expectedValue == b.expectedValue ==> Wins(policy, a, b, available)
    ensures policy.LowestMarginalRisk? && a.marginalRisk == b.marginalRisk ==> Wins(policy, a, b, available)
    ensures policy.StrategyAgePriority? && a.ageSeconds == b.ageSeconds ==> Wins(policy, a, b, available)
  {
    RankedBeforeWins(policy, a, b, available);
  }

  /** On a full tie the action that comes first in the input is accepted, whatever the other fields say. */
  lemma TieGoesToInputOrder(policy: Policy, a: CompetingAction, b: CompetingAction, available: real)
    requires Contest(a, b, available)
    ensures policy.RiskFirst? && a.mandatory == b.mandatory && a.riskPriority == b.riskPriority ==>
              Arbitrate(policy, [a, b], available).accepted == [a]
    ensures policy.CapitalEfficiency? && a.requiredCapital == b.requiredCapital ==>
              Arbitrate(policy, [a, b], available).accepted == [a]
    ensures policy.Fifo? && a.submittedSequence == b.submittedSequence ==>
              Arbitrate(policy, [a, b], available).accepted == [a]
    ensures (policy.CompositeScore? && a.mandatory == b.mandatory && a.expectedValue == b.expectedValue
             && a.requiredCapital == b.requiredCapital && a.robustnessScore == b.robustnessScore
             && a.marginalRisk == b.marginalRisk) ==> Arbitrate(policy, [a, b], available).accepted == [a]
  {
    if Ranking(policy)(a, b) {
      FirstRankedWins(policy, a, b, available);
    }
  }

  // ----- Among any number of competitors -----

  lemma {:induction false} AcceptedWasRankedFirst(
    policy: Policy, ranked: seq<CompetingAction>, available: real, a: CompetingAction, b: CompetingAction)
    requires Ordered(Ranking(policy), ranked) && NonNegativeNeeds(ranked)
    requires a in Allocate(ranked, available).rejected && b in Allocate(ranked, available).accepted
    requires a.requiredCapital <= b.requiredCapital
    ensures Ranking(policy)(b, a)
  {
    var front, last := Front(ranked), Last(ranked);
    var before := Allocate(front, available);
    SplitLast(ranked);
    AllocateIsMaximal(front, available);
    if a in before.rejected && b in before.accepted {
      AcceptedWasRankedFirst(policy, front, available, a, b);
    } else if b in before.accepted {
      AllocateAccounts(front, available);
      assert b in multiset(before.accepted) + multiset(before.rejected);
      var i :| 0 <= i < |front| && front[i] == b;
      assert Ranking(policy)(ranked[i], last);
    }
  }

  /** With non-negative needs: an action that was turned down although one that needs at least as much was accepted is
      not better than that one, by the components of the policy's key. */
  lemma NoEnvy(policy: Policy, actions: seq<CompetingAction>, available: real, a: CompetingAction, b: CompetingAction)
    requires NonNegativeNeeds(actions) && a.requiredCapital <= b.requiredCapital
    requires a in Arbitrate(policy, actions, available).rejected && b in Arbitrate(policy, actions, available).accepted
    ensures policy.FixedPriority? ==>
      b.riskPriority < a.riskPriority
      || (b.riskPriority == a.riskPriority && b.submittedSequence <= a.submittedSequence)
    ensures policy.RiskFirst? ==>
      (b.mandatory && !a.mandatory) || (b.mandatory == a.mandatory && b.riskPriority <= a.riskPriority)
    ensures policy.CapitalEfficiency? ==> b.requiredCapital == a.requiredCapital
    ensures policy.HighestRobustnessScore? ==>
      b.robustnessScore > a.robustnessScore
      || (b.robustnessScore == a.robustnessScore && b.submittedSequence <= a.submittedSequence)
    ensures policy.HighestExpectedValue? ==>
      b.expectedValue > a.expectedValue
      || (b.expectedValue == a.expectedValue && b.submittedSequence <= a.submittedSequence)
    ensures policy.LowestMarginalRisk? ==>
      b.marginalRisk < a.marginalRisk
      || (b.marginalRisk == a.marginalRisk && b.submittedSequence <= a.submittedSequence)
    ensures policy.StrategyAgePriority? ==>
      b.ageSeconds > a.ageSeconds
      || (b.ageSeconds == a.ageSeconds && b.submittedSequence <= a.submittedSequence)
    ensures policy.Fifo? ==> b.submittedSequence <= a.submittedSequence
    ensures policy.CompositeScore? ==>
      (b.mandatory || !a.mandatory) && (b.mandatory == a.mandatory ==> b.expectedValue >= a.expectedValue)
  {
    var ranked := Rank(policy, actions);
    RankingIsPreorder(policy);
    SortedOrders(Ranking(policy), actions);
    SortedElements(Ranking(policy), actions);
    AcceptedWasRankedFirst(policy, ranked, available, a, b);
  }
}
