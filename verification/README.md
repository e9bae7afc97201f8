# Verified model of the options backtester's deterministic core

The backtester claims that its results are reproducible, that no decision sees the future, and that money,
events and positions are accounted for. This project models the code behind those claims in Dafny and proves
them over all inputs, all runs and all strategies.

| file | models |
|---|---|
| `Replay.dfy` | the branching replay log: cursor, snapshots, append-only branch timelines, branch comparison, decision graph |
| `Arbitration.dfy`, `Preference.dfy` | capital arbitration between strategies: nine rankings and one greedy allocation; what each ranking prefers |
| `Payoff.dfy` | piecewise-linear payoff analysis on a price grid: extrema, breakevens, slope regions |
| `Clock.dfy` | the event clock: session validation, four duplicate policies, ordering, numbering |
| `EventStream.dfy` | what the built stream says: its order in time, its numbering, where its events come from |
| `ClockDeterminism.dfy` | when exactly the clock's result depends on the order of its inputs |
| `Transport.dfy` | batched collection with retries and continuation tokens |
| `Reconciliation.dfy`, `Consensus.dfy` | merging observations of several providers by precedence and by majority |
| `DivergenceOrder.dfy`, `Precedence.dfy` | the reported divergences for any order of the observations; whose value is chosen and what counts as a divergence |
| `ConsensusReport.dfy` | severity, confidence, dissenting providers and checksum of a consensus |
| `Grouping.dfy`, `Reconstruction.dfy`, `TradeContents.dfy` | trades and strategy cycles rebuilt from the ledger by two group-bys, and what each of them says |
| `Lifecycle.dfy` | the strategy lifecycle state machine |
| `Engine.dfy`, `EngineEvents.dfy`, `EngineAccounting.dfy` | the event loop with an opaque strategy that may raise anywhere, the whole effect of each kind of event, and what every run keeps |
| `EngineReconstruction.dfy` | the reconstruction of trades applied to the ledger that a run leaves |
| `Drawdown.dfy` | the engine's one-pass maximum drawdown and the analytics' drawdown history |
| `Settlement.dfy` | expiration, assignment, settlement postings |
| `AsOfQueries.dfy` | nearest-prior lookup and open positions as of an instant |
| `QuoteSelection.dfy` | historical quote selection in its three modes |
| `Ingestion.dfy` | deduplicate, cut into batches, upsert |
| `Common.dfy`, `Sorting.dfy` | sequence folds, insertion-ordered dictionaries, string order, and one verified stable sort that stands for Python's `sorted` |

**How the code is modelled.** Objects with mutable fields are classes, loops are loops with invariants. Each such
method is proved equal to a specification function of its inputs and the old state, and the results below are
proved about those functions. Exceptions are `Result` or `Option` values; a call that raises states what it left
behind. Instants are integers, floats and Decimals are exact reals, and a SHA-256 over canonical JSON is a
constructor over the hashed fields, that is, an injective function of exactly those fields.

**Where the code does less than one might expect.** The code is modelled as it is; where a plausible claim about it
is false, the exact condition or a concrete witness is proved:

- A branch id that is appended to before it is registered can lose those events; registration is exactly what makes a
  branch append-only (`AppendOnlyIffRegistered`).
- Of the nine arbitration policies exactly the two mandatory-first ones keep optional actions from interfering with
  mandatory ones (`UndisturbedIffMandatoryFirst`). Cheapest-first is optimal exactly outside a debt trap that needs
  negative capital and negative needs (`CapitalEfficiencyIsOptimalIff`).
- A root at the last grid price is not reported unless the grid holds that price twice, and neither is one inside an
  interval on which the payoff is zero; `BreakevensAreExact` is an equivalence. Strikes missing from the grid can make a
  reported breakeven wrong; `ReportedCrossingMisses` says by how much for any legs, and for one option leg it is wrong
  exactly when the strike lies inside the interval (`CrossingIsRootIff`).
- The event clock can depend on the order of the timed events when they share a key, but not on the order of the
  sessions, unless RAISE finds session events sharing a key (`SessionOrderNeverShows`). `BuildOrderBlindIff` says exactly
  when the order of the inputs shows, for each of the four duplicate policies.
- Canonical fields depend on the observation order when observations that may lead a field disagree
  (`FieldsOrderBlindIff`).
- A failed event leaves its close records in the trade ledger although the position lists are not committed, so one
  position can be closed twice (`FailureLeavesSecondClosing`) and an open one be reconstructed as closed
  (`FailureShowsOpenPositionAsClosed`). `ClosesAgreeIff` and `AgreesIff` say exactly when ledger, engine and reconstruction agree.
- No handler of the event loop books cash or profit, so the equity curve of every run is constant, the reported
  maximum drawdown always zero (`EquityNeverMoves`), and no money shows in reconstructed cycles (`NoMoneyInCycles`).
- On a curve that goes negative after it was positive, the maximum drawdown need not be the worst fall
  (`NegativeEquityHidesAFall` is a witness); `BoundsAllFallsIff` says exactly when it bounds every fall.
- With an exercise threshold of zero or less, a physically settled long option out of the money can be exercised at a
  loss (`ZeroThresholdExercisesAtALoss`); on partial assignment a cash settlement moves the cash of the full quantity
  (`CashSettlementIsAdditiveIff`).
- The quote selector's theoretical fallback has no price that any price selection reads (`FallbackHasNoPrice`).

## Model

| member | source | states |
|---|---|---|
| `Replay.EveryRunIsAPrefixTree` | backend/backtesting/replay.py:344-412 | After any sequence of calls, event i of every timeline carries sequence i, and every timeline agrees up to event i with the timeline of the branch that appended event i |
| `Replay.ForkCopiesPrefix` | backend/backtesting/replay.py:344-375 | A new branch is a prefix of its parent: up to the root snapshot's cursor, or all of it |
| `Replay.ForkSharesForever` | backend/backtesting/replay.py:344-412 | Whatever is called later, child and parent keep the events copied at the fork; all differences lie behind them |
| `Replay.RegisteredBranchesAppendOnly` | backend/backtesting/replay.py:344-412 | A registered branch only grows at its end, under all calls |
| `Replay.AppendOnlyIffRegistered` | backend/backtesting/replay.py:344-412 | In every state, no sequence of calls takes events from a branch exactly when the branch is registered or has none |
| `Replay.UnregisteredTimelineIsLost` | backend/backtesting/replay.py:344-412 | For every state and every unregistered id there are calls after which its timeline is empty |
| `Replay.EqualChecksumEqualHistory` | backend/backtesting/replay.py:377-412 | In a prefix tree one equal event checksum implies equal histories up to it, including the fields the checksum omits |
| `Replay.DifferingEventsAreASuffix` | backend/backtesting/replay.py:472-503 | The differing events of two branches are exactly the indices from their longest common prefix to the longer length; they match exactly when the timelines are equal |
| `Replay.CategoriesAreExact` | backend/backtesting/replay.py:483-503 | An index is in a category exactly when the branches differ there and one of them has an event there whose type contains the category's name |
| `Replay.BranchChecksumIsFaithful` | backend/backtesting/replay.py:417-428 | Two branches have equal branch checksums exactly when their timelines are equal |
| `Replay.CursorStaysInRange` | backend/backtesting/replay.py:170-190 | After any sequence of calls the cursor and all snapshot cursors lie on the tape, and the tape is unchanged |
| `Replay.StepBackwardUndoesStepForward` | backend/backtesting/replay.py:170-182 | A step back undoes a step forward exactly when the tape was not at its end, or is empty |
| `Replay.FirstSnapshotWins` | backend/backtesting/replay.py:307-312 | Once an id is taken, no later call changes which snapshot it restores |
| `Replay.RestoreReturnsToSnapshot` | backend/backtesting/replay.py:265-312 | Restoring a new snapshot after any calls returns to the clipped cursor at which it was taken, which is that cursor exactly when the tape was not at its end |
| `Replay.NodeIdsAreDistinct` | backend/backtesting/replay.py:505-529 | No node id of a decision graph occurs twice |
| `Replay.FirstAtOrAfter` | backend/backtesting/replay.py:184-190 | The first event at or after the timestamp, past the end when there is none |
| `Replay.BacktestReplayEngine.constructor` | backend/backtesting/replay.py:151-160 | A new engine stands at the start of the tape with no session, snapshot or branch |
| `Replay.BacktestReplayEngine.StepForward` | backend/backtesting/replay.py:170-175 | Returns the event under the cursor and moves past it; at the end, nothing |
| `Replay.BacktestReplayEngine.StepBackward` | backend/backtesting/replay.py:177-182 | Moves back and returns the event before the new cursor |
| `Replay.BacktestReplayEngine.JumpToTimestamp` | backend/backtesting/replay.py:184-190 | Puts the cursor on the first event at or after the timestamp |
| `Replay.BacktestReplayEngine.CreateSnapshot` | backend/backtesting/replay.py:265-305 | Appends one snapshot at the clipped cursor and changes nothing else; none on an empty tape |
| `Replay.BacktestReplayEngine.RestoreSnapshot` | backend/backtesting/replay.py:307-312 | Moves the cursor to the first snapshot with the id; without one nothing changes |
| `Replay.BacktestReplayEngine.InitializeSession` | backend/backtesting/replay.py:314-342 | Starts a new session and adds the base branch with an empty timeline where absent; every other branch, timeline, snapshot and the cursor stay |
| `Replay.BacktestReplayEngine.CreateBranch` | backend/backtesting/replay.py:344-375 | Unknown parent and existing branch are refused without a change; otherwise the fork is registered |
| `Replay.BacktestReplayEngine.AppendBranchEvent` | backend/backtesting/replay.py:377-412 | Appends to that branch alone one event with the fields of the entry, numbered by the timeline's length, and its checksum |
| `Replay.BacktestReplayEngine.DecisionGraph` | backend/backtesting/replay.py:505-529 | The graph is, event by event, seven nodes in a chain of six edges |
| `Replay.ChainOfEvent` | backend/backtesting/replay.py:505-529 | The nodes and edges of one event: state, policy, decision, execution, portfolio, analytics and next state, with its checksum and payload, and an edge from each to the next |
| `Arbitration.Decide` | backend/backtesting/arbitration.py:48-82 | The loop returns the greedy allocation over the ranking, with rejections in order and the remaining capital |
| `Arbitration.RankingIsPreorder` | backend/backtesting/arbitration.py:84-128 | Each of the nine sort keys is a total preorder |
| `Preference.BetterWins` | backend/backtesting/arbitration.py:84-128 | Of two actions of which either fits alone and not both, the better one is accepted, in either input order: for each policy and each component of its key, in the actions' own fields |
| `Preference.EarlierSubmissionWins` | backend/backtesting/arbitration.py:84-114 | Where the five policies that break ties by submission tie, the action submitted earlier is accepted |
| `Preference.TieGoesToInputOrder` | backend/backtesting/arbitration.py:84-128 | On a full tie of the other four policies, the action that comes first in the input is accepted |
| `Preference.NoEnvy` | backend/backtesting/arbitration.py:55-128 | With non-negative needs, among any actions: one turned down although one that needs at least as much was accepted is not better than it by the policy's key |
| `Arbitration.ArbitrationAccounts` | backend/backtesting/arbitration.py:55-82 | Accepted and rejected partition the submitted actions; remaining capital is available minus the accepted needs |
| `Arbitration.ArbitrationIsMaximal` | backend/backtesting/arbitration.py:55-82 | With non-negative needs the remainder is non-negative exactly when the available capital is, and no rejected action fits it |
| `Arbitration.MandatoryNonInterference` | backend/backtesting/arbitration.py:94-95 | Under RISK_FIRST and COMPOSITE_SCORE the accepted mandatory actions are those accepted when only they compete |
| `Arbitration.UndisturbedIffMandatoryFirst` | backend/backtesting/arbitration.py:84-128 | For each of the nine policies: optional actions never change which mandatory ones are accepted, for all actions and capitals, exactly when the policy is RISK_FIRST or COMPOSITE_SCORE |
| `Arbitration.OptionalStarvesMandatory` | backend/backtesting/arbitration.py:55-71 | Under any ranking that puts an optional action strictly first, it starves a mandatory one that fits alone but not next to it |
| `Arbitration.CheapestPrefix` | backend/backtesting/arbitration.py:96-97 | Of all selections of n actions, the n cheapest need least capital (exchange argument) |
| `Arbitration.AffordablePrefix` | backend/backtesting/arbitration.py:55-71 | An affordable prefix of the cheapest-first order is accepted whole, unless the capital is a debt that the cheapest action does not cover |
| `Arbitration.CapitalEfficiencyIsOptimalIff` | backend/backtesting/arbitration.py:55-71 | CAPITAL_EFFICIENCY accepts as many actions as any affordable selection has, exactly when the capital is no debt, or some action covers the debt alone, or all refunds together do not cover it |
| `Arbitration.CapitalEfficiencyIsOptimal` | backend/backtesting/arbitration.py:55-71 | Under that condition no affordable selection of the competing actions has more members than are accepted |
| `Arbitration.NoRefundsNoTrap` | backend/backtesting/arbitration.py:55-71 | The condition holds whenever all capital needs are non-negative |
| `Arbitration.DebtTrap` | backend/backtesting/arbitration.py:55-71 | Otherwise nothing is accepted although all refunds together are affordable |
| `Payoff.OppositeSidesCancel` | backend/backtesting/strategy_library.py:2362-2383 | The payoffs of a strategy and of the same strategy with all directions reversed add up to zero at every price |
| `Payoff.PutCallParity` | backend/backtesting/strategy_library.py:2362-2383 | A call less the put on the same terms pays the difference to the strike and the premiums at every price |
| `Payoff.PayoffAtPrice` | backend/backtesting/strategy_library.py:2362-2383 | The loop returns the sum of the legs' payoffs |
| `Payoff.SingleLegPays` | backend/backtesting/strategy_library.py:2362-2383 | What a single call, put, stock or cash leg pays at any price, bought or sold, in its own fields: above and below the strike, with a multiplier of at least one, a missing strike or premium as zero |
| `Payoff.PayoffsAdd` | backend/backtesting/strategy_library.py:2362-2383 | The payoffs of two strategies held together add up at every price |
| `Payoff.PayoffIsAffine` | backend/backtesting/strategy_library.py:2362-2383 | Between two prices with no option strike strictly between them the payoff of any legs is affine |
| `Payoff.GridWithStrikesCovers` | backend/backtesting/strategy_library.py:693-703 | A grid that contains every strike in its range has none strictly inside an interval |
| `Payoff.Points` | backend/backtesting/strategy_library.py:693-700 | The points are the payoff curve on the sorted grid |
| `Payoff.GridExtrema` | backend/backtesting/strategy_library.py:701-703 | Maximum and minimum of the points, none for an empty grid |
| `Payoff.GridExtremaAreExtrema` | backend/backtesting/strategy_library.py:693-703 | On a covering grid they bound the payoff at every price of the range, and are attained there |
| `Payoff.SortedSet` | backend/backtesting/strategy_library.py:2386-2398 | The sorted set: strictly ascending, same elements |
| `Payoff.BreakevenPoints` | backend/backtesting/strategy_library.py:2386-2398 | Strictly ascending, and exactly the prices that some pair of neighbours contributes |
| `Payoff.BreakevensAreExact` | backend/backtesting/strategy_library.py:2386-2398 | On a covering grid a price is reported if and only if it is a root and occurs in the sorted grid before its last place, or lies inside an interval on which the payoff is not zero throughout |
| `Payoff.ReportedIsRoot` | backend/backtesting/strategy_library.py:2386-2398 | Every reported breakeven is an exact root in its interval |
| `Payoff.InnerRootIsReported` | backend/backtesting/strategy_library.py:2386-2398 | Every root inside an interval is reported, unless the curve is zero at both ends |
| `Payoff.FlatZeroIsZero` | backend/backtesting/strategy_library.py:2386-2398 | In that excepted case the curve is zero throughout |
| `Payoff.PayoffBelowChord` | backend/backtesting/strategy_library.py:2362-2383 | Between any two prices the payoff of any legs is its chord less the total bend of the strikes in between |
| `Payoff.ReportedCrossingMisses` | backend/backtesting/strategy_library.py:2386-2398 | On any grid, between neighbours with payoffs of opposite signs the crossing of their chord is reported; the payoff there is minus the total bend over the width of the interval, so it is a breakeven exactly when the bends of all legs cancel |
| `Payoff.CrossingIsRootIff` | backend/backtesting/strategy_library.py:2386-2398 | For one option leg that reported crossing is a breakeven exactly when the strike is not strictly inside the interval |
| `Payoff.SlopeRegions` | backend/backtesting/strategy_library.py:2448-2464 | The run-length compressed slope labels of neighbouring points |
| `Payoff.RegionsAreRuns` | backend/backtesting/strategy_library.py:2448-2464 | Neighbouring regions differ, and every pair of neighbouring points lies, in order, in the region that says whether the payoff rises, falls or stays between them |
| `Payoff.OnlyIncreasing` | backend/backtesting/strategy_library.py:2448-2464 | On a covering grid, a single increasing region means strictly increasing at all prices of the range |
| `Clock.ValidateSessions` | backend/backtesting/clock.py:99-114 | No sessions is an error or skipped by policy; the first session by date that does not open before it closes is reported; otherwise all sessions by date |
| `Clock.DefaultSessionEvents` | backend/backtesting/clock.py:74-97 | One open and one close event per session, in order |
| `Clock.Dedupe` | backend/backtesting/clock.py:119-139 | The loop computes the deduplicated events of each of the four policies, or the duplicate it raises for |
| `Clock.KeepFirstKeepsFirst` | backend/backtesting/clock.py:119-139 | KEEP_FIRST keeps the first event of each key |
| `Clock.KeepLastKeepsLast` | backend/backtesting/clock.py:119-139 | KEEP_LAST keeps the last event of each key |
| `Clock.KeepLastIsKeepFirstReversed` | backend/backtesting/clock.py:119-139 | KEEP_LAST then sort equals KEEP_FIRST on the reversed stream then sort |
| `Clock.RaiseIffDuplicate` | backend/backtesting/clock.py:119-139 | RAISE fails exactly when two events share a key, and otherwise changes nothing |
| `Clock.UniqueStreamIsKept` | backend/backtesting/clock.py:119-139 | Without shared keys every policy keeps the stream |
| `Clock.NumberEvents` | backend/backtesting/clock.py:59-72 | The loop numbers the ordered events from 1 and derives their ids |
| `Clock.Build` | backend/backtesting/clock.py:28-72 | Sessions and timed events are merged, given their priorities, deduplicated, sorted and numbered, or the error is returned |
| `Clock.BuildOrdersAndNumbers` | backend/backtesting/clock.py:28-72 | The output is a sorted permutation of the deduplicated stream, numbered 1..n |
| `EventStream.BuildIsChronological` | backend/backtesting/clock.py:49-57 | In the output timestamps never decrease; at one time priorities ascend, then event types by the alphabet, then hints |
| `EventStream.EventsAreNumbered` | backend/backtesting/clock.py:59-72 | Event i has number i + 1, and an id made of that number and the event's own fields |
| `EventStream.EveryEventHasSource` | backend/backtesting/clock.py:34-46 | Every event of the output is a timed event or the opening or closing of a trading session, with the priority configured for its type, or else its own, 20 or 110 |
| `EventStream.EverySourceOccurs` | backend/backtesting/clock.py:34-47 | For every timed event, and for the opening and closing of every trading session, the output has an event of that time, type and hint |
| `EventStream.NoDuplicates` | backend/backtesting/clock.py:119-139 | Unless all duplicates are kept, no two events of the output share time, type and hint |
| `EventStream.KeepAllKeepsCount` | backend/backtesting/clock.py:119-121 | When all are kept, the output has two events per trading session and one per timed event |
| `StringOrder.StrLeqIsLexicographic` | backend/backtesting/clock.py:49-57 | The order on event types: a prefix, or the smaller character at the first difference |
| `Clock.OrderBlindIff` | backend/backtesting/clock.py:48-57 | Deduplicating and sorting an arbitrary stream (not only one in which session events come first) gives the same result or error for all its orders exactly when: KEEP_FIRST and KEEP_LAST, events with equal keys are equal; KEEP_ALL, the sort key tells the events apart; RAISE, all keys that occur twice have one timestamp and type |
| `Clock.BuildIsDeterministic` | backend/backtesting/clock.py:28-72 | When the merged stream meets that condition, the result, an error included, is the same for every order of sessions and timed events |
| `ClockDeterminism.BuildOrderBlindIff` | backend/backtesting/clock.py:28-72 | The result of `build` is the same for every order of sessions and timed events exactly when, the sessions being valid: KEEP_FIRST, timed events with one key are equal unless a session event has that key; KEEP_LAST, timed events with one key are equal; KEEP_ALL, the sort key tells the timed events apart; RAISE, all keys that occur twice have one timestamp and type |
| `ClockDeterminism.HiddenIsBlind` | backend/backtesting/clock.py:28-72 | The condition suffices for every policy and whatever keys the session events have, for results and errors |
| `ClockDeterminism.SessionOrderNeverShows` | backend/backtesting/clock.py:28-72 | The order of the sessions never shows in the result of `build`, whatever keys the events share; under RAISE if the session events have distinct keys |
| `ClockDeterminism.SameSessionEvents` | backend/backtesting/clock.py:74-114 | Whatever the order of the sessions, the session events of one key come in the same order |
| `ClockDeterminism.SessionsAreReportedFirst` | backend/backtesting/clock.py:119-139 | When session events share a key, RAISE fails, and with the same error whatever the timed events are |
| `Clock.UniqueKeysAreInsensitive` | backend/backtesting/clock.py:119-139 | The condition holds for every policy when no two events share (timestamp, type, hint) |
| `Clock.KeepThis` | backend/backtesting/clock.py:119-139 | Under KEEP_FIRST and KEEP_LAST any event of the stream is the kept one in some order |
| `Clock.ReportThis` | backend/backtesting/clock.py:119-139 | Under RAISE any key that occurs twice is the reported one in some order |
| `Clock.FirstInvalidCanonical` | backend/backtesting/clock.py:99-114 | Which session is reported does not depend on the order within a trade date |
| `Transport.FixtureTransport.Request` | backend/data/fixture_transport.py:38-52 | Cancelled: nothing changes; otherwise the call is recorded, one scripted entry is popped and returned or raised |
| `Transport.RequestWithRetry` | backend/data/fixture_transport.py:67-75 | The retry loop for one batch does what the collection prescribes next, whatever the script holds |
| `Transport.CollectBatches` | backend/data/fixture_transport.py:55-88 | Terminates on every script; result, remaining script and recorded calls are those of the specified collection |
| `Transport.CollectionFollowsScript` | backend/data/fixture_transport.py:55-88 | The collector's variables can be read off the consumed prefix alone: batch, continuation, attempt, output, calls |
| `Transport.CallIs` | backend/data/fixture_transport.py:66-88 | Request i asks for the batch after the replies so far, with the last reply's continuation |
| `Transport.SucceedsExactlyWhen` | backend/data/fixture_transport.py:55-88 | It succeeds if and only if some request finishes it and all requests before it go on |
| `Transport.SuccessfulOutput` | backend/data/fixture_transport.py:76-88 | On success the output is the responses of the consumed prefix, numbered 1..n, only the last without `has_more`; the dropped errors were retryable |
| `Transport.CallsPerBatch` | backend/data/fixture_transport.py:67-75 | However the collection ends, at most `attempts` calls per batch; on success at least one for every batch of the output |
| `Transport.CallsAreNotCancelled` | backend/data/fixture_transport.py:38-52 | No call is made once the cancellation callback says so; the result is `cancelled` exactly when it says so before a request that would have been made |
| `Transport.ErrorsAreRetried` | backend/data/fixture_transport.py:67-75 | While attempts are left a retryable error never ends the collection; every other error ends it with itself |
| `Transport.DuplicateBatchIsUnreachable` | backend/data/fixture_transport.py:76-81 | The duplicate_batch failure never occurs |
| `Observations.OneIdentityCount` | backend/data/reconciliation.py:198-208 | The observations have one identity checksum exactly when they all have the same identity |
| `Reconciliation.CompareField` | backend/data/reconciliation.py:265-294 | Reports nothing exactly when a value is absent or the two are equal; otherwise one divergence that holds both values, is critical exactly when the observations conflict on the field, and informational exactly when the difference is tolerated |
| `Reconciliation.ComparisonMirrors` | backend/data/reconciliation.py:265-294 | Exchanging the observations exchanges the sides of what is reported and nothing else |
| `Reconciliation.CompareFields` | backend/data/reconciliation.py:259-295 | The loop over the sorted common field names of a pair |
| `Reconciliation.Divergences` | backend/data/reconciliation.py:259-295 | All pairs of observations in ranked order, each pair once |
| `Reconciliation.SelectFields` | backend/data/reconciliation.py:229-237 | The nested loops compute the selected fields and their provenance |
| `Reconciliation.Reconcile` | backend/data/reconciliation.py:190-249 | Empty input, several identities, critical conflict, single provider and composite each give their preview |
| `Reconciliation.CanonicalFieldsByPrecedence` | backend/data/reconciliation.py:229-249 | A canonical field exists exactly when a fresh observation has a value for it; it comes from one that no other such observation precedes |
| `Precedence.EarliestProviderWins` | backend/data/reconciliation.py:209-237 | A canonical field comes from a fresh observation with a value whose provider the policy's list names no later than that of any other such observation, listed before unlisted; among unlisted providers from the alphabetically first, and of one provider from the smallest source checksum |
| `Precedence.RankIsFirstPlace` | backend/data/reconciliation.py:252-256 | The rank is the first place in the list, and its length for an unlisted provider |
| `Precedence.ComparedInOrder` | backend/data/reconciliation.py:209-217 | Observations are compared in the order of the list, fresh before stale, then by provider and checksum |
| `Precedence.CompositeIff` | backend/data/reconciliation.py:238-240 | A preview is composite exactly when two of its fields come from different providers |
| `Precedence.NumbersDiverge` | backend/data/reconciliation.py:266-282 | Two numbers diverge exactly when they differ; tolerated within the absolute tolerance, or the relative one of the larger magnitude (at least 1e-12); otherwise critical for a critical field and moderate for others |
| `Precedence.TextsDiverge` | backend/data/reconciliation.py:266-282 | Texts diverge exactly when they differ, from numbers always, and are never tolerated |
| `Precedence.EveryPairIsCompared` | backend/data/reconciliation.py:263-295 | The reported divergences are those of every two observations and every field that both have |
| `Reconciliation.ConflictIsSymmetric` | backend/data/reconciliation.py:259-295 | Whether two observations conflict does not depend on which is left |
| `Reconciliation.QuarantineIffConflict` | backend/data/reconciliation.py:209-228 | Observations of one contract are quarantined exactly when two of them, stale ones included, differ beyond tolerance on a critical field |
| `Reconciliation.ReconcileIgnoresOrder` | backend/data/reconciliation.py:190-249 | When provider, freshness and source checksum tell the observations apart, action, fields, provenance and divergences do not depend on the observation order |
| `Reconciliation.PrecedenceOrderFreeIff` | backend/data/reconciliation.py:209-217 | The precedence order is the same for every input order exactly when they tell the observations apart |
| `Reconciliation.ActionIgnoresOrder` | backend/data/reconciliation.py:190-249 | Action and provenance are the same for every input order of any observations |
| `Reconciliation.FieldsOrderBlindIff` | backend/data/reconciliation.py:209-249 | The canonical fields are the same for every input order exactly when nothing is merged, or the observations that may lead a field agree on its value |
| `DivergenceOrder.DivergencesIgnoreOrder` | backend/data/reconciliation.py:259-276 | For any observations, the divergences together with their mirror images are the same multiset for every input order |
| `Consensus.GroupByValue` | backend/data/reconciliation.py:140-144 | One group per value that occurs, holding exactly its carriers in order |
| `Consensus.MaxGroup` | backend/data/reconciliation.py:145-155 | The first group that none beats by size, then rank |
| `Consensus.Elect` | backend/data/reconciliation.py:140-162 | The winner is the carriers of the majority value; none when no value has a strict majority |
| `Consensus.ComputeConsensus` | backend/data/reconciliation.py:126-187 | The loop's result, with the errors for fewer than three observations and several identities |
| `Consensus.MajorityIsUnique` | backend/data/reconciliation.py:156-162 | At most one value of a field has a strict majority |
| `Consensus.LargestGroupDecides` | backend/data/reconciliation.py:145-156 | The largest group has a strict majority exactly when some value has one |
| `Consensus.ConsensusIffMajority` | backend/data/reconciliation.py:139-164 | A field is a consensus field exactly when some value has a strict majority; value, provenance and unresolved list follow |
| `Consensus.AgreeingCarryMajorities` | backend/data/reconciliation.py:156-160 | A provider agrees exactly when one of its observations carries some field's majority value |
| `Consensus.ConfidenceIsFraction` | backend/data/reconciliation.py:164 | The confidence lies between 0 and 1 |
| `ConsensusReport.SeverityIsExact` | backend/data/reconciliation.py:163-175 | Critical, with the one warning, exactly when no value of some critical field has a majority; informational exactly when every field has one; moderate otherwise |
| `ConsensusReport.ConfidenceIsExact` | backend/data/reconciliation.py:164-184 | The confidence is the number of agreeing providers, each listed once, by the number of observations |
| `ConsensusReport.DissentingProvidersAreExact` | backend/data/reconciliation.py:156-160 | A provider dissents exactly when an observation of its is unlike all those that carry the majority value of some field, equal numbers counting as alike |
| `ConsensusReport.ProvenanceIsAscending` | backend/data/reconciliation.py:158 | The provenance of a field lists its carriers' providers in ascending order |
| `ConsensusReport.UnresolvedAscend` | backend/data/reconciliation.py:139-162 | The unresolved fields are listed once each, in ascending order |
| `ConsensusReport.ChecksumIsExact` | backend/data/reconciliation.py:170-186 | Two results share a checksum exactly when consensus fields, unresolved fields and policy version agree |
| `ConsensusReport.RefusedIff` | backend/data/reconciliation.py:130-133 | Fewer than three observations, and more of different contracts, are refused |
| `Consensus.ConsensusIgnoresOrder` | backend/data/reconciliation.py:126-187 | The whole result is independent of the observation order, despite the rank tie-break |
| `Grouping.GroupIsFilter` | backend/backtesting/reconstruction.py:49-60 | The group of a key is the subsequence of items with that key; there is one for each key that occurs |
| `Grouping.GroupsPartition` | backend/backtesting/reconstruction.py:49-60 | Every item is in exactly one group |
| `Grouping.GroupingConserves` | backend/backtesting/reconstruction.py:49-60 | Grouping conserves every sum |
| `Reconstruction.ReconstructTrades` | backend/backtesting/reconstruction.py:49-104 | The loops build one trade per position id, in order of first appearance, from its records in ledger order |
| `Reconstruction.ReconstructCycles` | backend/backtesting/reconstruction.py:106-156 | The loops build one cycle per strategy from its trades in trade-id order |
| `Reconstruction.MoneyIsConserved` | backend/backtesting/reconstruction.py:49-156 | Profit, fees and cash summed over all cycles equal the sums over the ledger records with a position id |
| `Reconstruction.TradesConserve` | backend/backtesting/reconstruction.py:49-104 | The same from ledger to trades |
| `Reconstruction.CyclesConserve` | backend/backtesting/reconstruction.py:106-156 | The same from trades to cycles |
| `Reconstruction.TradeHoldsItsRecords` | backend/backtesting/reconstruction.py:49-104 | The trade of a position has the checksums, event ids, sums, closing fills and state of exactly the ledger records of that position, in ledger order |
| `TradeContents.LedgerOrderIsChronological` | backend/backtesting/reconstruction.py:62 | Ledger order is by time, then by sequence number |
| `TradeContents.PartsAreByType` | backend/backtesting/reconstruction.py:64-99 | Each part of a trade holds the payloads of its position's records of the record types of that part, in order |
| `TradeContents.TradeTotals` | backend/backtesting/reconstruction.py:77-79 | The money of a trade is the total of what its records say, a missing entry counting as zero |
| `TradeContents.TradeIsNamed` | backend/backtesting/reconstruction.py:62-88 | A trade belongs to the strategy of its position's first record, and its id is made of both |
| `Reconstruction.EveryRecordHasTrade` | backend/backtesting/reconstruction.py:49-60 | Every record with a position id has a trade of that position |
| `Reconstruction.RecordsLandOnce` | backend/backtesting/reconstruction.py:49-104 | No two trades share a position, and their row checksums together are those of the records with a position id |
| `Reconstruction.CycleHoldsItsTrades` | backend/backtesting/reconstruction.py:106-156 | The cycle of a strategy has the positions, roll chain, count and sums of exactly the trades of that strategy, in trade-id order |
| `TradeContents.CyclePositionsAre` | backend/backtesting/reconstruction.py:117-119 | A cycle starts with the position of the trade whose id is first in the alphabet; the others follow in that order |
| `TradeContents.CycleRollsAndCloses` | backend/backtesting/reconstruction.py:120-144 | It lists the ids of its trades with rolls, and is closed exactly when all of its trades are |
| `TradeContents.MaximumUsageIsExact` | backend/backtesting/reconstruction.py:131-138 | The maximum capital usage is the largest that an entry of its trades states, and zero without any |
| `Reconstruction.EveryTradeHasCycle` | backend/backtesting/reconstruction.py:106-118 | Every trade has a cycle of its own strategy |
| `Reconstruction.TradesLandOnce` | backend/backtesting/reconstruction.py:106-156 | No two cycles share a strategy, and their positions together are those of the trades |
| `Reconstruction.TradeClosedIff` | backend/backtesting/reconstruction.py:75-102 | A trade is closed exactly when the ledger holds a closing record for its position |
| `Reconstruction.CycleClosedIff` | backend/backtesting/reconstruction.py:106-156 | A cycle is closed exactly when each of its positions has a closing record |
| `Lifecycle.StrategyStateMachine.Transition` | backend/backtesting/state_machine.py:234-302 | The three checks in order; an accepted request appends one record, a rejected one changes nothing |
| `Lifecycle.AcceptedIff` | backend/backtesting/state_machine.py:121-303 | A request is accepted exactly when its state can be entered from the current one, listed target by target, all guards passed and it is not earlier than the last transition; the new record states all of it |
| `Lifecycle.EveryRunIsAChain` | backend/backtesting/state_machine.py:234-302 | Every recorded run is a connected chain of allowed transitions with sequence 1..n and passed guards |
| `Lifecycle.TimestampsAscend` | backend/backtesting/state_machine.py:293-302 | Timestamps never decrease along a run |
| `Lifecycle.RunsAreBounded` | backend/backtesting/state_machine.py:121-222 | n <= 5 * (entries into OPEN + 1) for every run |
| `Lifecycle.BoundIsAttained` | backend/backtesting/state_machine.py:121-222 | For every number of entries there is a run that attains the bound |
| `Lifecycle.ClosedWasOpen` | backend/backtesting/state_machine.py:121-222 | Every run that ends CLOSED visited OPEN |
| `Lifecycle.CancelledAfterOpenWasRolling` | backend/backtesting/state_machine.py:121-222 | A run that ends CANCELLED after OPEN ends ROLL_PENDING, PARTIALLY_OPEN, CANCELLED |
| `Lifecycle.TerminalStates` | backend/backtesting/state_machine.py:121-222 | CLOSED, CANCELLED and FAILED accept nothing, and every other state accepts something |
| `Engine.BacktestingEngine.AuditInformation` | backend/backtesting/engine.py:297-337 | The message raised for the first row of the information set that is late or unknown |
| `Engine.BacktestingEngine.HandleLifecycle` | backend/backtesting/engine.py:180-248 | Entry, creation and the record of the opening, then the open positions; state and error at whatever hook raises |
| `Engine.BacktestingEngine.ManagePositions` | backend/backtesting/engine.py:207-248 | Close records are written in the loop, the position lists committed after it |
| `Engine.BacktestingEngine.HandleExpiration` | backend/backtesting/engine.py:250-276 | Expiration records are written in the loop, the refreshed positions committed after it |
| `Engine.BacktestingEngine.ProcessEvent` | backend/backtesting/engine.py:118-178 | Information set, announcement, dispatch by event type, position history |
| `Engine.BacktestingEngine.RunEvents` | backend/backtesting/engine.py:60-106 | Every event is processed; one that raises is reported and the run goes on |
| `EngineEvents.LifecycleEventCommits` | backend/backtesting/engine.py:180-248 | A lifecycle event at which no hook raises: exactly the positions for which management or exit rules ask to close are closed, each with its close record, all others stay open as marked, in order, and nothing else changes |
| `EngineEvents.PositionIsClosed` | backend/backtesting/engine.py:215-226 | A position visited ends in the closed list, at the event's time, when management or exit asks for it |
| `EngineEvents.ClosingIsRecorded` | backend/backtesting/engine.py:227-242 | And its close record is written, for the reason that the exit rules give |
| `EngineEvents.PositionIsKept` | backend/backtesting/engine.py:244-248 | Otherwise it stays open as marked |
| `EngineEvents.LifecycleEventFails` | backend/backtesting/engine.py:180-248 | One at which a hook raises for position k: that message, unchanged lists but for a position just opened, and the close records of the positions before k |
| `EngineEvents.EntryFails` | backend/backtesting/engine.py:187-193 | One whose entry evaluation raises, or opens without a position, is announced and changes nothing else |
| `EngineEvents.ExpirationCommits` | backend/backtesting/engine.py:250-277 | Every open position is replaced by what the strategy makes of it, and recorded under the id it had |
| `EngineEvents.ExpirationFails` | backend/backtesting/engine.py:250-277 | When the hook raises for position k, the records before it stay and the open positions are unchanged |
| `EngineEvents.OtherEvents` | backend/backtesting/engine.py:118-178 | A valuation adds a snapshot, a corporate action a record, a risk event a warning; all others are only announced; none can fail |
| `EngineEvents.RefusedInformationChangesNothing` | backend/backtesting/engine.py:118-148 | Refused information leaves the state as it was, not even announced |
| `EngineEvents.RefusalIsReported` | backend/backtesting/engine.py:320-337 | The first row that is late under the strict guard, or has an unknown policy, decides what is raised |
| `EngineEvents.FailuresAreReported` | backend/backtesting/engine.py:78-105 | A failed event is listed with its message and recorded |
| `EngineEvents.InformationAcceptedIff` | backend/backtesting/engine.py:297-337 | Information is accepted exactly when every row has a known policy and, under the strict guard, is not later than the event |
| `EngineAccounting.EventAccounts` | backend/backtesting/engine.py:118-248 | The whole effect of one event on positions and trade ledger, when it commits and when it raises |
| `EngineAccounting.PositionsAreAccounted` | backend/backtesting/engine.py:180-248 | In every reachable state recorded openings are the open plus the closed positions, and recorded closings the closed positions plus those of failed events |
| `EngineAccounting.ClosesAgreeIff` | backend/backtesting/engine.py:209-248 | Recorded closings and closed positions agree in number exactly when no event raised after writing a close record |
| `EngineAccounting.ClosesNameClosedOrOrphaned` | backend/backtesting/engine.py:207-248 | In every run the close records name exactly the closed positions and what failed events left behind, each as often as it occurs |
| `EngineAccounting.ClosesNameClosedPositions` | backend/backtesting/engine.py:207-248 | If failed events left none behind, the close records name the closed positions in order |
| `EngineAccounting.OrphansNameOpenings` | backend/backtesting/engine.py:207-248 | Under a strategy that keeps position ids, even close records of failed events name positions whose opening is recorded |
| `EngineAccounting.IdentitiesAreConserved` | backend/backtesting/engine.py:180-276 | Under a strategy that keeps position ids, recorded openings name exactly the open and closed positions, each as often as it occurs |
| `EngineAccounting.FailureLeavesSecondClosing` | backend/backtesting/engine.py:209-248 | A run whose ledger closes its one closed position twice |
| `EngineAccounting.ClosedOnlyGrows` | backend/backtesting/engine.py:246-248 | A closed position stays closed |
| `EngineAccounting.FailedIffSomeEventRaised` | backend/backtesting/engine.py:76-106 | The status is FAILED exactly when processing some event raised |
| `EngineAccounting.EventLedgerIsComplete` | backend/backtesting/engine.py:76-144 | One failure record per failed event, one event record per event whose information set was accepted |
| `EngineAccounting.LateInformationIsRefused` | backend/backtesting/engine.py:317-337 | Under the strict guard an event with a later observation in its information set changes nothing but the failure reports |
| `EngineAccounting.AuditPassesIff` | backend/backtesting/engine.py:317-337 | An information set is accepted exactly when every row is visible and names a known policy |
| `EngineAccounting.EquityNeverMoves` | backend/backtesting/engine.py:391-399 | Every valuation of every run shows the initial capital, and the maximum drawdown is zero |
| `EngineReconstruction.TradeClosedIff` | backend/backtesting/reconstruction.py:49-104 | In every run a reconstructed trade is closed exactly when the engine holds a closed position of that id or a failed event left a close record of it behind |
| `EngineReconstruction.AgreesIff` | backend/backtesting/reconstruction.py:49-104 | Engine and reconstruction agree on what is closed exactly when every named close record that a failed event left behind is of a position closed since |
| `EngineReconstruction.EntriesAreOpenings` | backend/backtesting/reconstruction.py:64-76 | A reconstructed trade has one entry for each opening and one closing for each closing that the engine recorded of its position |
| `EngineReconstruction.TradesArePositions` | backend/backtesting/reconstruction.py:49-104 | If the strategy keeps ids, there is a trade for exactly the named positions that are open or closed, whatever events fail |
| `EngineReconstruction.NoMoneyInCycles` | backend/backtesting/engine.py:180-248 | No handler writes a payload entry that the reconstruction reads as profit, fees or cash, so the cycles of every run sum to zero |
| `Drawdown.DrawdownHistory` | backend/backtesting/analytics.py:243-261 | The loop appends, per point, the running peak and the fall from it |
| `Drawdown.EngineMaxDrawdown` | backend/backtesting/engine.py:492-500 | The single pass returns the largest entry of the analytics' history, zero for an empty curve |
| `Drawdown.PeakIsLargest` | backend/backtesting/analytics.py:243-261 | The running peak is the largest value so far |
| `Drawdown.WorstFall` | backend/backtesting/engine.py:492-500 | On every curve the maximum drawdown is zero or the size of some fall, and no fall to a non-negative value is larger |
| `Drawdown.WorstFallOfNonNegativeCurve` | backend/backtesting/engine.py:492-500 | On non-negative curves it is the worst fall over all pairs i <= j with a positive first value, within 0 and 1 |
| `Drawdown.ZeroIff` | backend/backtesting/engine.py:492-500 | Zero exactly when no value falls below an earlier positive one |
| `Drawdown.AtMostOneIff` | backend/backtesting/engine.py:492-500 | At most one exactly when no value is negative once one has been positive |
| `Drawdown.BoundsFallsToIff` | backend/backtesting/analytics.py:243-261 | The drawdown recorded at a point bounds all falls to it exactly when its value is not negative or all positive values up to it are equal |
| `Drawdown.BoundsAllFallsIff` | backend/backtesting/engine.py:492-500 | The maximum drawdown bounds every fall exactly when no value is negative after a positive one, or the deepest fall to a negative value starts from the largest value so far |
| `Drawdown.NegativeEquityHidesAFall` | backend/backtesting/engine.py:492-500 | Witness that the condition is not always met: a curve that falls by three times an earlier value while its maximum drawdown stays below three |
| `Drawdown.LongerRunsOnlyRaise` | backend/backtesting/analytics.py:329-330 | Continuing a curve never lowers its maximum drawdown |
| `Settlement.ExpirationDecision` | backend/backtesting/settlement.py:78-107 | In the money exactly when the moneyness reaches a positive threshold; always, when the threshold is not positive |
| `Settlement.ShortAssignmentDecision` | backend/backtesting/settlement.py:160-207 | Assigned exactly when the intrinsic value is above the extrinsic one, or for a call whose dividend exceeds its extrinsic value, or for a put more than a tenth of the strike in the money whose intrinsic value is less than one below the extrinsic one; half or all contracts, never more than held; partial exactly when some but not all |
| `Settlement.LegsAreWorth` | backend/backtesting/settlement.py:263-296 | The postings before fees, with the stock moved at spot, are worth to their side the moneyness of the shares delivered, or in cash the intrinsic value of the whole position |
| `Settlement.Settle` | backend/backtesting/settlement.py:209-317 | Postings, realized profit as their sum, stock change and residual contracts, and the worthless branch; the posted quantity and the residual make up the position exactly when no more is settled than held |
| `Settlement.WorthlessIff` | backend/backtesting/settlement.py:238-261 | Expires worthless exactly when not in the money, or when there are decisions and none is to exercise or to assign |
| `Settlement.DeliveryPosts` | backend/backtesting/settlement.py:275-305 | A long call and a short put receive the whole shares and pay the strike for each, a short call and a long put the reverse; then the fees |
| `Settlement.CashPosts` | backend/backtesting/settlement.py:230-305 | The long side is paid the intrinsic value of the whole position, the short side pays it; then the fees |
| `Settlement.TruncatedTowardZero` | backend/backtesting/settlement.py:276 | Fractions of a share are dropped toward zero |
| `Settlement.PhysicalEqualsCashIff` | backend/backtesting/settlement.py:230-296 | Stock at spot plus strike cash is worth the cash settlement exactly when at the money, in the money with every share delivered, or out of the money with none |
| `Settlement.ThresholdMakesPhysicalEqualCash` | backend/backtesting/settlement.py:78-107 | With a positive threshold: exactly when all contracts are settled and come to whole shares |
| `Settlement.ZeroThresholdExercisesAtALoss` | backend/backtesting/settlement.py:91-96 | With a zero threshold an option out of the money is settled at a loss |
| `Settlement.AssignThenSettle` | backend/backtesting/settlement.py:160-317 | An assignment decided for the position and settled always leaves exactly its remainder |
| `Settlement.PhysicalSettlementIsAdditive` | backend/backtesting/settlement.py:275-296 | With whole shares per contract, settling in two parts delivers and pays exactly what settling at once does |
| `Settlement.DeliveryIsAdditiveIff` | backend/backtesting/settlement.py:275-296 | For any multiplier the deliveries add up exactly when the dropped fractions of a share do not make up a share |
| `Settlement.CashSettlementIsAdditiveIff` | backend/backtesting/settlement.py:235-274 | A partial cash settlement already moves the whole cash; two parts agree with the whole exactly when the option is not in the money, the multiplier is zero, or nothing is left over |
| `Settlement.SettleBothSides` | backend/backtesting/settlement.py:209-317 | Long and short postings net to minus both fees and no stock is left over exactly when both deliver the same shares, or in cash |
| `Settlement.HalfAssignmentLeavesStockUnmatched` | backend/backtesting/settlement.py:275-296 | A full exercise against a half assignment leaves stock unmatched |
| `AsOfQueries.FindNearest` | backend/backtesting/queries.py:285-310 | The one-pass lookup, its observed timestamp and exact-match flag; nothing later than asked for is returned |
| `AsOfQueries.NearestIsLatest` | backend/backtesting/queries.py:285-310 | It finds the latest visible row, the last of equals, whenever one is visible, whatever the row order |
| `AsOfQueries.InsertedLater` | backend/backtesting/queries.py:285-310 | Rows later than as-of, inserted anywhere, never change the answer |
| `AsOfQueries.LaterRowsNeverMatter` | backend/backtesting/queries.py:285-310 | Row lists with the same visible rows have the same answer |
| `AsOfQueries.NearestIsMonotone` | backend/backtesting/queries.py:285-310 | A later as-of never finds an earlier row |
| `AsOfQueries.OpenPositionsAsOf` | backend/backtesting/queries.py:35-48 | Exactly the positions opened by then and not yet closed, in order |
| `QuoteSelection.Scan` | backend/backtesting/quote_selection.py:61-68 | The scan that stops at the first later row |
| `QuoteSelection.ChosenIsEligible` | backend/backtesting/quote_selection.py:52-79 | A quote of the input that the mode looks for is chosen whenever there is one; otherwise the fallback if enabled, and nothing if not |
| `QuoteSelection.DefaultModeIsLatest` | backend/backtesting/quote_selection.py:61-68 | The default mode chooses the latest row that is not later than the request; a row without a timestamp is of the epoch |
| `QuoteSelection.DelayedModeIsNotEarlier` | backend/backtesting/quote_selection.py:59-60 | The delayed mode chooses the earliest row from the delayed time on |
| `QuoteSelection.ExactModeIsExact` | backend/backtesting/quote_selection.py:57-58 | The exact mode chooses a row of exactly that time |
| `QuoteSelection.Select` | backend/backtesting/quote_selection.py:44-123 | Selected quote, price, age, spread, quality flags, staleness and crossing, and the missing-quote result |
| `QuoteSelection.DefaultModeIsNearest` | backend/backtesting/quote_selection.py:54-68 | Stable sort and scan pick the row that the unsorted one-pass lookup picks, for every row list and time |
| `QuoteSelection.ExactModeIsFirst` | backend/backtesting/quote_selection.py:57-58 | The exact mode picks the first row of the input with that timestamp |
| `QuoteSelection.DelayedModeIsEarliest` | backend/backtesting/quote_selection.py:59-60 | The delayed mode picks the earliest row from the delayed time on, the first of equals; none exactly when there is none |
| `QuoteSelection.LaterQuotesNeverMatter` | backend/backtesting/quote_selection.py:54-68 | Outside the delayed mode, later rows inserted anywhere never change the selection |
| `QuoteSelection.NoLookAheadIff` | backend/backtesting/quote_selection.py:52-79 | For every policy, request and delay: rows later than the request, put in anywhere, never change what is chosen exactly when the mode is not the delayed one |
| `QuoteSelection.DelayedModeLooksAhead` | backend/backtesting/quote_selection.py:59-79 | With any delay the delayed mode chooses a row after the request where it would not have chosen it |
| `QuoteSelection.PriceWithinSpread` | backend/backtesting/quote_selection.py:126-148 | In a market that is not crossed, midpoint and through-spread prices lie within the spread, whatever the percentage |
| `QuoteSelection.PriceIsExact` | backend/backtesting/quote_selection.py:126-148 | The side named, halfway between the sides, or the clamped fraction of the way from bid to ask; without both sides the last two have no price |
| `QuoteSelection.SpreadIsExact` | backend/backtesting/quote_selection.py:97-98 | The spread is known when both sides are, and counts as zero in a crossed market |
| `QuoteSelection.FallbackHasNoPrice` | backend/backtesting/quote_selection.py:70-79 | The fallback has no price under any price selection, and its age is zero |
| `Ingestion.DedupeByKey` | backend/database/ingestion.py:298-307 | The dictionary loop computes the deduplicated payload |
| `Ingestion.DedupeKeepsLast` | backend/database/ingestion.py:298-307 | A record is kept exactly when it is the last with its key |
| `Ingestion.DedupedKeysAreDistinct` | backend/database/ingestion.py:298-307 | No two kept records share a key |
| `Ingestion.DedupePreservesUpserts` | backend/database/ingestion.py:278-307 | Upserting the deduplicated payload leaves the store that upserting every record leaves |
| `Ingestion.ReimportChangesNothing` | backend/database/ingestion.py:278-296 | Importing a payload twice leaves the same store as importing it once |
| `Ingestion.StoreIsExact` | backend/database/ingestion.py:278-296 | After an import the store holds, for a key of the payload, its last record, and for every other key what it held before |
| `Ingestion.BatchesAreFull` | backend/database/ingestion.py:310-314 | Every batch but the last has exactly the batch size, and none is empty |
| `Ingestion.BatchesConcatenate` | backend/database/ingestion.py:310-314 | The batches in order are the payload |
| `Ingestion.Repository.BatchUpsert` | backend/database/ingestion.py:278-296 | One batch is upserted record by record |
| `Ingestion.GenericIngest` | backend/database/ingestion.py:278-296 | For every positive batch size the store ends as if every record had been upserted one by one; requested = processed + duplicates dropped; a batch size that is not positive is an error and changes nothing |
| `StableSort.SortedFilter` | backend/backtesting/quote_selection.py:54 | Python's `sorted` is stable: selecting by any predicate commutes with sorting |
| `StableSort.SortedCanonical` | backend/backtesting/clock.py:48-57 | Sorting forgets the input order of elements that the sort key tells apart |
| `StableSort.OrderFreeIffSeparates` | backend/backtesting/clock.py:48-57 | Sorting forgets the input order exactly when the sort key tells all elements apart |
| `StableSort.SortedPermutes` | backend/backtesting/clock.py:48-57 | Sorting permutes |
| `StableSort.SortedOrders` | backend/backtesting/clock.py:48-57 | Sorting orders |

## Left out

- SHA-256, canonical JSON and isoformat text: checksums are injective constructors over the hashed fields, so
  nothing is said about hash collisions or about texts that coincide.
- Float and Decimal rounding, `round(..., 8)` of payoffs and breakevens, NaN, infinities and the mapping of values beyond
  1e9 to unlimited profit or loss: all arithmetic is on exact reals.
- Time zones and naive datetimes: instants are integers before the model starts; durations are whole seconds.
- Metadata dictionaries that are only carried along are single opaque values.
- Replay: `jump_to_reason` and `jump_to_event_type`, which move the cursor to the first match and leave it when there
  is none; `inspect_current`, `explain_decision`, playback speed and status. `filter_timeline` orders events by the text of
  their checksums, which the model does not have.
- Replay.BacktestReplayEngine.StepForward: requires a cursor that is not negative, which CursorStaysInRange proves
  for every run; the fields of the Python object can be assigned from outside.
- Replay.BacktestReplayEngine.StepBackward: requires a cursor not beyond the tape, for the same reason.
- ClockDeterminism.BuildOrderBlindIff: under RAISE the equivalence is stated when the session events have distinct
  keys; when they share one, `SessionsAreReportedFirst` shows that the timed events play no part, and `HiddenIsBlind`
  gives the direction from the condition. Which of several shared session keys is reported then may depend on the order
  of the sessions of one trade date.
- Transport: the back-off callback returns; what the cancellation callback answers is a function of how often it has
  been polled.
- Reconciliation and consensus: field values are text or numbers; lists, objects and booleans are not modelled.
- Reconciliation: the observations echoed in the merge preview keep their input order, so order independence is
  stated for everything else. The divergences are the same list where the precedence order is unique, and otherwise the
  same up to their order and up to which observation of a pair is on the left.
- Reconstruction: holding duration, lifecycle reasons and metadata of trades and cycles.
- Lifecycle: the action plans and guard tables that callers attach; guards are results that passed or failed.
- Engine: `initialize` and `finalize` of the strategy return; Greeks, exposure and utilization of snapshots, returns,
  Sharpe and Sortino ratios; constant fields such as the strategy id of a record; the instants that a refusal message quotes. What a stateful strategy answers is
  an input of the run, so every strategy is covered, but answers cannot be related to its internal state.
- Drawdown: drawdown duration and time under water.
- Settlement: long exercise decision, dividends, pin risk. The seeded generator behind a partial assignment is an
  arbitrary choice of one half or all.
- Quote selection: rows that carry numbers as text.
- Ingestion: failures and rollback inside the write function; a repository is a map keyed by the deduplication key;
  `ingest_lineage`, validation of contracts, manifests and quotes.
- Margin, liquidation, pricing, calibration statistics, quality scores and fee schedules.
- The template catalogue, policy and roll registries: long lists of simple branches.
- HTTP interface, command line, packaging, database sessions and migrations, user interface.
