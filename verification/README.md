# A verified model of the Godzilla trading system's decision core

Godzilla is an event-sourced intraday trading research system. Market data is ingested and reduced to
five-minute bars, a router labels the market state, alphas propose bundles of positions, an ensemble resolves
their conflicts, and a portfolio allocator clips them to caps. Every decision goes through a durable,
hash-chained event log that can be replayed.

The project models the parts of that path where correctness spans several functions or a whole run, and
proves what they promise:

| modules | component |
|---|---|
| `EventLog`, `Journal`, `Replay`, `Answers` | append-only log with state table, commit-then-emit journal, replay, and every answer told in the requests committed |
| `Rules`, `Router`, `RouterRuns`, `Grants` | classification, hysteresis, and what holds over every run of the router, down to what each decision permits |
| `Bars`, `Flags`, `Aggregation`, `Windows`, `Causality`, `Canonical` | causal bar checks and the 1m to 5m reduction, flag by flag and figure by figure |
| `Service`, `Readiness`, `OutOfOrder`, `Strays` | the ingestion service, its health check against the aggregate, and where the two differ |
| `Health`, `Outcomes` | alpha health snapshots: drawdown, visibility, rate-limited multiplier, and every measurement in figures |
| `Candidates`, `Ensemble`, `Resolution` | normalisation and conflict resolution, and what becomes of each intent |
| `Portfolio`, `Exposure`, `Clip`, `Fitting`, `Allocator`, `AllocatorProofs`, `Sizing`, `OverGross`, `Pipeline` | caps, the allocation loop, what each record amounts to, and both stages together |
| `Ranking`, `Momentum`, `Regression`, `Fits`, `Beta`, `Training`, `Basket`, `Sectors`, `Leaders` | mid-ranks, tie-closed tails, least squares, beta-neutral baskets, and every estimate and outcome in figures |
| `Prelude`, `Sorting` | shared types and a stable sort |

## Reading the model

* Amounts, prices and scores are exact reals; instants are integers counting microseconds; UUIDs, tokens and
  symbols are totally ordered ids. The allocator's floor to 1e-12 and the 1e-12 tolerance on unit gross are kept.
* SHA-256 and the content hashes are parameters. A result that needs them to be collision-free says so
  (`EventHashInjective`, `ChainHashInjective`, `TextDistinguishes`); where a hash only serves as an identity
  (router input, market training bars) the hashed value itself is compared.
* The exchange calendar is a function from an instant to optional session bounds. Clocks, storage answers and
  connection faults are parameters, so that every failure order is covered.
* A class stands for an object the source updates in place; each of its methods is tied to a function of the
  old state, and the run-level theorems are about that function. The sum type `AlphaFamily` serves for the
  five alpha ids as well, which have the same values.
* A method and the run-level theorems about it share functions such as `Penalty` or `Permissions`. What those
  functions say is told again in the figures of the inputs, without naming them, by the lemmas of `Answers`,
  `Grants`, `Flags`, `Canonical`, `Outcomes`, `Resolution`, `Exposure`, `Fitting`, `Sizing`, `Fits`, `Training`
  and `Leaders`: amounts as products and sums, orders as comparisons, refusals in the order they are made.
* The beta estimator is parameterised by the way it fits closes (`Fitter`), the sector alpha by its estimator.
  `ReturnFitter` and `EstimatorFor` are the ones in use; `ReturnFitterIsReliable` and `ReturnEstimatorAdmits`
  show that they meet what the theorems ask.

## Where a plausible property is false of the code

* The aggregator checks a bar's interval before its availability. A five-minute bar from the future therefore
  makes it refuse, although it is documented as evaluated at an availability cutoff. Causality holds for all
  one-minute inputs (`FutureDoesNotMatter`); `Aggregate` refuses if and only if some input is not a one-minute
  bar, and `FutureFiveMinuteBarRefused` shows the effect.
* The clip does not always make the allocator's recheck redundant: a bundle whose legs gross 1 + 1e-12 passes
  the candidate validator, is clipped to a positive amount and then rejected (`RecheckCanReject`). For a
  well-formed candidate the recheck passes after every clip if and only if its legs gross at most one
  (`RedundantIffUnitGross`); for one clip it passes if and only if the portfolio has room for the amount times
  the true leg gross (`RecheckCharacterised`). Above unit gross the whole allocation can be brought to reject a
  sized candidate (`AllocationRejectsOverGross`). Candidates from the ensemble have exactly unit gross, so on that
  path the recheck rejects nothing (`PipelineRecheckIsRedundant`).
* A HEALTHY window need not have a ready bar. The aggregator checks the stored bars again in receipt order, and a
  bar that was received early but ingested late can become the predecessor of one already stored. A HEALTHY
  window is ready if and only if none of its bars has a gap or volume finding against its receipt-order
  predecessor (`HealthyIsReadyIffNothingLate`), which always holds for a store filled in receipt order
  (`NothingLateInOrder`). `HealthyButNotReady` gives a store where it fails: the window is HEALTHY while its
  canonical bar carries ABNORMAL_GAP.
* A ready window is not always HEALTHY: a stray (misaligned or out-of-session) bar that starts inside the window
  is left out of the aggregate but fails the health check (`ReadyButNotHealthy` gives a store).
  `HealthDecidesReadiness` is the exact equivalence for stores filled in any order, `HealthAgreesWithAggregate`
  for those in receipt order.

## Model

| member | source | states |
|---|---|---|
| `EventLog.AppendKeepsConsistent` | src/godzilla/storage/postgres.py:70-141 | any request under any fault keeps the chain verifying, identities unique, receipts nondecreasing, and the state table equal to the last projection per scope |
| `EventLog.AppendGrowsLog` | src/godzilla/storage/postgres.py:91-141 | an append leaves the log alone or adds exactly its event at the end; accepted means added, duplicate means nothing changed |
| `EventLog.VerdictIndependentOfRow` | src/godzilla/storage/postgres.py:83-101 | whichever matching row the identity lookup returns, the duplicate or conflict verdict is the same |
| `EventLog.RedeliveryChangesNothing` | src/godzilla/storage/postgres.py:91-101 | whatever was committed, acknowledged or not, can be redelivered at any later time: neither table changes under any fault, and without a fault the answer is that it is a duplicate |
| `EventLog.RunKeepsConsistent` | src/godzilla/storage/postgres.py:70-141 | both tables stay consistent over every sequence of requests and faults |
| `EventLog.RunLogsCommitted` | src/godzilla/storage/postgres.py:70-141 | after any sequence the rows are exactly the committed requests, in order, told by an independent definition of which requests commit |
| `EventLog.LogIsExactlyTheCommittedEvents` | src/godzilla/storage/postgres.py:293-312 | after any sequence the chain verifies and reading gives exactly the committed events, with unique ids and nondecreasing receipts |
| `EventLog.ConsistentEvents` | src/godzilla/storage/postgres.py:293-312 | a consistent database reads back events with unique ids in receipt order |
| `EventLog.HeadHashPinsContents` | src/godzilla/storage/postgres.py:296-309 | two verifying chains with the same head hash have the same length and contents, for a collision-free hash that never gives the genesis value |
| `EventLog.Repository.constructor` | src/godzilla/storage/postgres.py:66-68 | opens the tables as it finds them, and is consistent exactly when they are |
| `EventLog.Repository.Lookup` | src/godzilla/storage/postgres.py:83-90 | answers None if and only if no row matches the event id or the key, and otherwise the verdict of the matching row |
| `EventLog.Repository.Insert` | src/godzilla/storage/postgres.py:102-141 | commits exactly one row and its state projection, or changes neither table when the transaction aborts; acknowledged exactly without a fault |
| `EventLog.Repository.AppendEvent` | src/godzilla/storage/postgres.py:70-141 | the append transaction changes the tables and answers as the abstract append does, and keeps them consistent |
| `EventLog.Repository.ReadEvents` | src/godzilla/storage/postgres.py:293-312 | succeeds if and only if the chain verifies, and returns the events numbered after the given sequence |
| `EventLog.Repository.GetState` | src/godzilla/storage/postgres.py:314-317 | returns the last state projected for the scope by the log |
| `Answers.AnswerMeaning` | src/godzilla/storage/postgres.py:70-141 | after any deliveries a request is answered by what was committed: bad key, foreign state, duplicate if and only if it was committed itself, state conflict, identity conflict, receipt regression, or accepted |
| `Answers.CommitMeaning` | src/godzilla/storage/postgres.py:102-141 | a request commits if and only if it would be accepted by a connection that holds and its transaction is not aborted |
| `Answers.StateMeaning` | src/godzilla/storage/postgres.py:314-317 | the state of a scope is that of the last committed request with one for it |
| `Answers.ReadMeaning` | src/godzilla/storage/postgres.py:293-312 | reading after a number gives exactly the events from the first row numbered above it |
| `Journal.StepKeepsConsistent` | src/godzilla/core/events/journal.py:22-76 | publishing, saving instruments and restarting keep the database consistent |
| `Journal.StepGrowsLog` | src/godzilla/core/events/journal.py:30-47 | a call adds at most its own event to the log, hands it over only when newly logged, and does nothing once blocked |
| `Journal.DispatchFollowsCommit` | src/godzilla/core/events/journal.py:30-47 | over all call sequences with faults and restarts, what was handed over is a selection of the committed events in commit order, none twice |
| `Journal.FailureIsFinal` | src/godzilla/core/events/journal.py:30-47 | after a failed append, emit or instrument save nothing is written or emitted again and every later call fails |
| `Journal.AtMostLastEventUndispatched` | src/godzilla/core/events/journal.py:38-47 | in one journal life with a consumer always present, everything committed was handed over, save at most the last event, and then the journal is blocked |
| `Journal.UndispatchedBelongToFailures` | src/godzilla/core/events/journal.py:32-47 | over any number of restarts, with a consumer on every publish, each committed event was handed over or belongs to a publish call that failed |
| `Journal.HealthTellsFailures` | src/godzilla/core/events/journal.py:49-62 | UNHEALTHY if and only if some call failed, UNKNOWN if and only if there was no call |
| `Journal.EventJournal.constructor` | src/godzilla/core/events/journal.py:17-20 | starts unblocked and unvalidated |
| `Journal.EventJournal.Publish` | src/godzilla/core/events/journal.py:22-47 | changes latches, log and dispatches exactly as one step of the protocol |
| `Journal.EventJournal.SaveInstruments` | src/godzilla/core/events/journal.py:64-76 | latches on failure and otherwise leaves log and dispatches alone |
| `Answers.PublishMeaning` | src/godzilla/core/events/journal.py:22-47 | after any calls a publish answers yes if the log accepts it and the consumer takes it, no if it was committed before, and fails otherwise |
| `Answers.RestartMeaning` | src/godzilla/core/events/journal.py:17-47 | a restart loses nothing stored, starts with health UNKNOWN, and publishing is served again |
| `Answers.SaveMeaning` | src/godzilla/core/events/journal.py:64-76 | instruments are stored once per id; saving the same again succeeds, anything else under that id fails and blocks |
| `Replay.ReplayClock.constructor` | src/godzilla/core/clock.py:45-46 | starts at the given instant |
| `Replay.ReplayClock.AdvanceTo` | src/godzilla/core/clock.py:51-55 | moves to the target, or refuses and stays when that lies in the past |
| `Replay.EachIdDeliveredOnce` | src/godzilla/core/events/replay.py:26-35 | replay delivers every id that occurs exactly once, at its first occurrence |
| `Replay.NothingDropped` | src/godzilla/core/events/replay.py:26-35 | a list with unique ids is delivered whole and in order |
| `Replay.RunReplay` | src/godzilla/core/events/replay.py:23-36 | succeeds if and only if repeats agree, first receipts never precede the clock and the consumer raises on none, and then has emitted exactly the first deliveries; any other run has emitted those of a prefix, ending with the one that raised if one did, and the clock stands at the last event emitted |
| `Replay.Deliver` | src/godzilla/core/events/replay.py:26-35 | one delivery is skipped as a repeat, refused without moving the clock, or emitted; after an emission that raises the event counts as handed over |
| `Replay.ReplayReproducesLog` | src/godzilla/core/events/replay.py:23-36 | the log after any sequence of appends replays from its first receipt without error and emits each committed event once, in order |
| `Rules.EvidenceBuilder.constructor` | src/godzilla/market_state/rules.py:10-12 | starts without checks |
| `Rules.EvidenceBuilder.Record` | src/godzilla/market_state/rules.py:34-61 | appends one truthful threshold record and answers whether it passed |
| `Rules.EvidenceBuilder.Check` | src/godzilla/market_state/rules.py:14-32 | the same for a named feature; a missing value never passes |
| `Rules.Classify` | src/godzilla/market_state/rules.py:64-121 | the label equals the declarative classification and every recorded check is truthful |
| `Router.MarketStateRouter.constructor` | src/godzilla/market_state/router.py:32-36 | starts with an empty memory |
| `Router.MarketStateRouter.SafetyChecks` | src/godzilla/market_state/router.py:51-83 | all safety records pass if and only if health, ages and session are in order |
| `Router.MarketStateRouter.Judge` | src/godzilla/market_state/router.py:84-90 | the candidate is the classification, or RISK_OFF when a safety check fails |
| `Router.MarketStateRouter.Count` | src/godzilla/market_state/router.py:95-105 | the pending candidate and its count of fresh observations after a session change, a gap or another candidate |
| `Router.MarketStateRouter.Settle` | src/godzilla/market_state/router.py:106-121 | a veto takes hold at once, any other candidate takes hold exactly when confirmed after the dwell, a state that takes hold dates from this input, and a candidate held back is reported |
| `Router.MarketStateRouter.Weigh` | src/godzilla/market_state/router.py:91-163 | from memory and counted confirmations, the decision of the routing function |
| `Router.MarketStateRouter.Transition` | src/godzilla/market_state/router.py:91-179 | decision and memory after an input that is neither a repeat nor out of order |
| `Router.MarketStateRouter.RouteInput` | src/godzilla/market_state/router.py:38-179 | one call equals one step of the routing function; an earlier input and another input at the same instant are refused and change nothing, a repeat is answered from memory, the evidence is truthful |
| `RouterRuns.EveryRunFollows` | src/godzilla/market_state/router.py:91-121 | every sequence of inputs yields decisions each of which follows from the earlier decisions alone |
| `RouterRuns.CountMeaning` | src/godzilla/market_state/router.py:95-105 | a count is the number of strictly newer feature timestamps over an unbroken stretch of the same candidate in one session |
| `RouterRuns.EntryIsConfirmed` | src/godzilla/market_state/router.py:101-118 | TREND_UP, TREND_DOWN and CHOP are entered only after enough newer observations of that candidate in one unbroken stretch, and after the minimum dwell |
| `RouterRuns.SinceMeaning` | src/godzilla/market_state/router.py:91-118 | state_since is the instant of the decision that opened the session or changed to this state |
| `RouterRuns.SinceMonotone` | src/godzilla/market_state/router.py:93-118 | state_since never decreases and never exceeds the timestamp |
| `RouterRuns.EntriesAreApart` | src/godzilla/market_state/router.py:111-118 | any two confirmed entries in a run are at least the minimum duration apart |
| `RouterRuns.NarrowBounds` | src/godzilla/market_state/router.py:122-137 | a narrowed grant is bounded by both permissions, and keeps sides only when label and candidate are the same trend |
| `RouterRuns.PermissionsAreSafe` | src/godzilla/market_state/router.py:122-137 | in every reachable decision families, sides and multiplier are bounded by label and candidate, and directional families need the same trend in both |
| `RouterRuns.FailedSafetyBlocks` | src/godzilla/market_state/router.py:88-90 | from any memory a failed safety check gives RISK_OFF at once with nothing granted |
| `Grants.ClassificationMeans` | src/godzilla/market_state/rules.py:64-121 | the classification is the one label the feature values and thresholds are for, told in figures for each label |
| `Grants.EveryDecisionHasEvidence` | src/godzilla/market_state/router.py:51-126 | every decision of every run is about one of its inputs: the label of its values, RISK_OFF unless health, features and session are good in figures, and the reasons that follow |
| `Grants.GrantMeaning` | src/godzilla/market_state/rules.py:124-150 | what each label permits under each candidate: longs under rising label and evidence, shorts under falling, each family where it may run, the lesser of the two multipliers |
| `Grants.EveryGrantIsEarned` | src/godzilla/market_state/router.py:122-137 | every decision of every run permits exactly that: LONG if and only if label and candidate are TREND_UP, SHORT if and only if both are TREND_DOWN; a veto is in force at once |
| `Bars.FindPrevious` | src/godzilla/market_data/aggregation.py:22-31 | the scan for the predecessor finds the first bar of the feed that ends last before the bar starts |
| `Bars.PreviousEndsLast` | src/godzilla/market_data/service.py:38-47 | a predecessor is found if and only if there is one, and none ends later |
| `Flags.PreviousIsFollowed` | src/godzilla/market_data/service.py:38-47 | it is the first of those of the feed that end last before the bar starts |
| `Flags.CheckedShows` | src/godzilla/market_data/quality.py:55-83 | a check adds exactly the flags of what the bar shows, flag by flag in figures of the bar, its session and the bar it follows, and changes nothing else |
| `Flags.ReadyMeaning` | src/godzilla/market_data/models.py:88-98 | a strategy-ready bar is a complete five-minute bar known by now, unflagged, with positive consistent prices and positive volume |
| `Aggregation.ChecksAreCausal` | src/godzilla/market_data/quality.py:55-83 | checking the available bars gives the available part of the checked history, at every cutoff |
| `Aggregation.LiveOfSorted` | src/godzilla/market_data/aggregation.py:17-21 | sorting by receipt and dropping unavailable bars commute |
| `Aggregation.ValuesAreValues` | src/godzilla/market_data/aggregation.py:45-50 | the values of a window are, for each minute present, the bar received first, in order of start |
| `Aggregation.ValuesUnique` | src/godzilla/market_data/aggregation.py:45-50 | that determines them |
| `Windows.AddToGroup` | src/godzilla/market_data/aggregation.py:34-43 | groups hold exactly the in-session, aligned bars of each window, in arrival order |
| `Windows.TakeInAll` | src/godzilla/market_data/aggregation.py:14-43 | the pass checks and files exactly the available bars, and stops if and only if one is not a one-minute bar |
| `Windows.ReduceAll` | src/godzilla/market_data/aggregation.py:44-79 | one bar per window with a bar in it, in key order, each the reduction of its own group |
| `Windows.Aggregate` | src/godzilla/market_data/aggregation.py:13-80 | succeeds if and only if all inputs are one-minute bars, and returns the aggregate of the checked history at the cutoff |
| `Canonical.HistoryMeaning` | src/godzilla/market_data/aggregation.py:17-33 | the aggregator works on the bars known by the cutoff in order of receipt, each flagged with what it shows against those before it |
| `Canonical.FiledMeaning` | src/godzilla/market_data/aggregation.py:34-43 | a bar is filed under the five minutes of its session, counted from the opening, that it starts in |
| `Canonical.OutputMeaning` | src/godzilla/market_data/aggregation.py:44-80 | every output bar: figures of the first bar received for each minute, complete if and only if all five minutes are there, complete and over, flags of all filed bars, of repeats and of missing minutes; each window once, in order |
| `Causality.AggregateUnique` | src/godzilla/market_data/aggregation.py:44-80 | a checked history has exactly one aggregate at a cutoff |
| `Causality.FutureDoesNotMatter` | src/godzilla/market_data/aggregation.py:17-21 | two one-minute inputs with the same available bars have the same output |
| `Causality.CompleteWindowsAreStable` | src/godzilla/market_data/aggregation.py:13-80 | a window complete at a cutoff appears at every later cutoff, complete, with identical prices, volume and receipt time and a superset of flags |
| `Causality.LateBarLoses` | src/godzilla/market_data/aggregation.py:45-50 | a bar that becomes available later cannot replace one of the same minute |
| `Causality.FutureFiveMinuteBarRefused` | src/godzilla/market_data/aggregation.py:17-21 | an unavailable five-minute bar, which changes nothing available, turns a result into a refusal |
| `Service.AdmitKeepsStored` | src/godzilla/market_data/service.py:48-60 | storing a checked bar keeps every stored bar flagged with its own findings and every repeat flagged DUPLICATE |
| `Service.AdmitStores` | src/godzilla/market_data/service.py:38-60 | a bar is stored with exactly the flags of what it shows, DUPLICATE added if its minute is taken, and otherwise as it came |
| `Service.MissingIntervals` | src/godzilla/market_data/quality.py:85-113 | refuses unordered, unaligned or mixed windows, and otherwise lists in order exactly the finished session minutes without a complete bar |
| `Service.MarketDataService.constructor` | src/godzilla/market_data/service.py:17-30 | starts empty |
| `Service.MarketDataService.IngestBar` | src/godzilla/market_data/service.py:32-60 | refuses non-raw bars and bars that end or arrive after now, and otherwise appends the bar with exactly the flags of what it shows; any refusal, also of the storage, changes nothing |
| `Service.MarketDataService.WindowHealth` | src/godzilla/market_data/service.py:93-117 | HEALTHY if and only if the window is over, has a bar, misses no session minute and carries no flag; reports each missing minute once and counts them |
| `Service.MarketDataService.CanonicalBars` | src/godzilla/market_data/service.py:131-134 | never refused: the aggregate of all stored bars at the present clock |
| `Readiness.StoredIsChecked` | src/godzilla/market_data/service.py:48-60 | checking a store again finds nothing new |
| `Readiness.StoreIsHistory` | src/godzilla/market_data/service.py:131-134 | a store filled in receipt order is its own checked history at the present clock |
| `Readiness.CheckedStore` | src/godzilla/market_data/service.py:131-134 | the checked history of any store is the store in receipt order, each bar with the gap and volume findings against its receipt-order predecessor added and nothing else |
| `Readiness.LateMeaning` | src/godzilla/market_data/quality.py:69-82 | a late finding is a gap or volume jump from the bar the feed had before, in order of receipt |
| `Readiness.HealthyWindowIsReady` | src/godzilla/market_data/service.py:93-134 | a HEALTHY session window in which rechecking finds nothing more has a canonical bar that is strategy-ready and equals first open, max high, min low, last close and summed volume of exactly the five distinct minutes stored |
| `Readiness.HealthDecidesReadiness` | src/godzilla/market_data/service.py:93-134 | for a store filled in any order: HEALTHY with no late finding in the window if and only if the canonical bars hold a strategy-ready bar for it and no stray bar starts in it |
| `Readiness.HealthyIsReadyIffNothingLate` | src/godzilla/market_data/service.py:93-134 | a HEALTHY window is ready if and only if none of its bars has a gap or volume finding against its receipt-order predecessor |
| `Readiness.NothingLateInOrder` | src/godzilla/market_data/service.py:38-48 | in a store filled in receipt order a HEALTHY window has no such finding |
| `Readiness.HealthAgreesWithAggregate` | src/godzilla/market_data/models.py:88-98 | for a store filled in receipt order: HEALTHY if and only if the canonical bars hold a strategy-ready bar for the window and no stray bar starts in it |
| `OutOfOrder.HealthyButNotReady` | src/godzilla/market_data/service.py:38-48 | with a bar ingested after later-received ones, a HEALTHY window can have a canonical bar that is not ready |
| `Strays.ReadyButNotHealthy` | src/godzilla/market_data/service.py:98-109 | with a bar that starts off the minute, a window can be ready and not HEALTHY, in receipt order |
| `Health.ScanDrawdown` | src/godzilla/ensemble/health.py:53-57 | the one-pass scan computes the worst fall of the return curve |
| `Health.WorstFallIsDrawdown` | src/godzilla/ensemble/health.py:53-57 | which is the maximum over all i <= j of prefix sum i less prefix sum j |
| `Health.Deduplicate` | src/godzilla/ensemble/health.py:37-43 | keeps each visible trade once, or reports two different trades under one id |
| `Health.MeasureHealth` | src/godzilla/ensemble/health.py:25-106 | the snapshot or refusal is a function of the set of visible outcomes alone |
| `Health.OnlyVisibleOutcomesCount` | src/godzilla/ensemble/health.py:38-46 | permuting, repeating or adding invisible trades changes nothing |
| `Health.GrowingHistoryIsAccepted` | src/godzilla/ensemble/health.py:47-65 | a growing, conflict-free outcome history never triggers the predecessor or regression refusal |
| `Health.LinkFacts` | src/godzilla/ensemble/health.py:66-80 | one link of a chain keeps the bounds and raises the multiplier by at most one step, and only with a later last trade after a full interval |
| `Health.MultiplierRateLimit` | src/godzilla/ensemble/health.py:66-80 | along any chain the multiplier stays in bounds and at most initial plus one step per whole interval elapsed, through cuts and warm-up |
| `Health.IncreaseConsumesTrade` | src/godzilla/ensemble/health.py:72-80 | every increase needs a last trade strictly later than that of every earlier snapshot, and a full interval since the last increase |
| `Outcomes.AdjustmentMeaning` | src/godzilla/ensemble/health.py:66-80 | cut to exactly the minimum when expectancy is not positive or the drawdown is full, raised by exactly one step up to the maximum when earned, otherwise carried, and held to the initial value while there are too few trades |
| `Outcomes.MeasurementMeaning` | src/godzilla/ensemble/health.py:25-106 | every measurement, in the last trades seen in closing order: each refusal in figures, or returns, expectancy, drawdown, totals and the adjusted multiplier |
| `Ensemble.WhenNormalised` | src/godzilla/ensemble/normalize.py:118-171 | an intent becomes a candidate if and only if it passes its checks, all legs are eligible and no security is named twice |
| `Ensemble.NormalisedUnitGross` | src/godzilla/ensemble/normalize.py:125-171 | and then has exactly unit gross, with the direction of every leg kept |
| `Resolution.NormaliseMeaning` | src/godzilla/ensemble/normalize.py:118-171 | the candidate of an intent has a strength of zero at or below the floor, one at or above the ceiling and proportional between, and legs at their share of the gross; otherwise the first thing wrong is the reason |
| `Ensemble.Deduplicate` | src/godzilla/ensemble/normalize.py:72-77 | keeps each signal once, or reports that an id is used with different content |
| `Ensemble.Split` | src/godzilla/ensemble/normalize.py:78-174 | candidates are the accepted intents, reasons belong to the others |
| `Ensemble.FindConflicts` | src/godzilla/ensemble/normalize.py:176-184 | the blocked signals are those some other candidate opposes |
| `Ensemble.Select` | src/godzilla/ensemble/normalize.py:185-198 | the greedy pass selects and gives each dropped bundle its reason |
| `Ensemble.SelectedOrDropped` | src/godzilla/ensemble/normalize.py:187-198 | every candidate is selected or dropped with its reason, never both |
| `Ensemble.SelectionResolvesConflicts` | src/godzilla/ensemble/normalize.py:175-198 | selected bundles are pairwise disjoint, oppose no valid candidate, and every unblocked dropped one overlaps a selected one that comes earlier |
| `Ensemble.DroppedOverlapsEarlier` | src/godzilla/ensemble/normalize.py:187-198 | whatever is dropped as a duplicate overlaps a selected bundle earlier in strength and id order |
| `Resolution.ResolutionMeaning` | src/godzilla/ensemble/normalize.py:175-210 | every intent of a resolved decision: opposed if and only if another that passes takes the other side of a security, else dropped if and only if a selected one before it shares a security, else selected |
| `Resolution.HigherScoreWins` | src/godzilla/ensemble/normalize.py:146-198 | of two unopposed intents of one alpha on one security the lower score is never selected, and never keeps the security from the higher |
| `Ensemble.IdsPartition` | src/godzilla/ensemble/normalize.py:199-210 | selected and rejected ids partition the submitted ids, whatever the status |
| `Ensemble.DecisionUnique` | src/godzilla/ensemble/normalize.py:30-210 | a set of intents has one decision: input order and repeated copies do not matter |
| `Ensemble.AuditedOrderIsCanonical` | src/godzilla/ensemble/normalize.py:39 | the hashed input list does not depend on input order when content hashes do not collide |
| `Ensemble.ResolveUnique` | src/godzilla/ensemble/normalize.py:78-210 | the passes after deduplication reach the decision |
| `Ensemble.NormalizeIntents` | src/godzilla/ensemble/normalize.py:30-210 | the operation reaches the decision determined by the set of intents, in all three outcomes |
| `Portfolio.BundleGross` | src/godzilla/portfolio/allocator.py:282-294 | the gross a bundle adds in any scope is amount times the weight of its legs there |
| `Portfolio.BundleNet` | src/godzilla/portfolio/allocator.py:282-294 | its net is amount times net weight |
| `Portfolio.BundleRisk` | src/godzilla/portfolio/allocator.py:282-294 | its open risk is amount times loss times leg gross |
| `Exposure.CapsMeaning` | src/godzilla/portfolio/allocator.py:45-78 | the check of the caps, which looks only at values that occur, is the check of every total for every alpha, sector and security |
| `Clip.RecheckCharacterised` | src/godzilla/portfolio/allocator.py:224-299 | for any clipped amount the recheck passes if and only if the portfolio as it stands has room, under the gross, alpha and open-risk caps, for the amount times the true gross of the legs |
| `Clip.ClipImpliesRecheck` | src/godzilla/portfolio/allocator.py:190-299 | with leg gross at most one, group and overlap guards and clip limits imply every cap |
| `Clip.RedundantIffUnitGross` | src/godzilla/portfolio/allocator.py:190-299 | the recheck of a well-formed candidate passes after every clip to a positive amount if and only if its legs gross at most one |
| `Clip.OverGrossRejected` | src/godzilla/portfolio/allocator.py:224-299 | any candidate over unit gross has valid caps under which it is clipped to one tick and rejected |
| `Clip.LimitIsLeast` | src/godzilla/portfolio/allocator.py:224-277 | the limit is one of the named limits and none is below it |
| `Clip.AmountIsTight` | src/godzilla/portfolio/allocator.py:277-281 | the amount is whole ticks, within every limit unless zero, and less than one tick from a limit |
| `Fitting.AmountIsLargestFit` | src/godzilla/portfolio/allocator.py:224-281 | the amount is the largest whole number of ticks that leaves every total within its cap, or zero if not even one does |
| `Clip.RecheckCanReject` | src/godzilla/ensemble/models.py:172-181 | a bundle one tick over unit gross is clipped to a positive amount and fails the recheck |
| `Clip.AmountWithinDesired` | src/godzilla/portfolio/allocator.py:277-281 | the floored amount never exceeds the desired share and is never negative |
| `Allocator.PenaltyAtLeastOne` | src/godzilla/portfolio/allocator.py:208-215 | the penalty divides by at least one |
| `Sizing.PenaltyMeaning` | src/godzilla/portfolio/allocator.py:208-215 | the penalty is the volatility penalty raised for each neighbour, and for the correlation above the threshold by its share of the way to one |
| `Sizing.NeighboursRaise` | src/godzilla/portfolio/allocator.py:208-215 | with no neighbour and no correlation above the threshold it is the volatility penalty; each further neighbour adds the same |
| `Sizing.CorrelationRaises` | src/godzilla/portfolio/allocator.py:208-215 | above the threshold it rises strictly with the correlation, by exactly correlation penalty times volatility penalty at correlation one |
| `Allocator.ScanCorrelations` | src/godzilla/portfolio/allocator.py:201-207 | unavailable if and only if some leg and target have no known correlation; otherwise a bound on every absolute correlation that is zero or reached |
| `Allocator.ScanLegCaps` | src/godzilla/portfolio/allocator.py:259-276 | succeeds if and only if every leg has usable capacity, with the least of its four caps for each; otherwise the fault of the first leg without |
| `Allocator.ClipAmount` | src/godzilla/portfolio/allocator.py:224-281 | whole ticks, within every limit unless zero, and one tick more would break a limit |
| `Allocator.EvaluateCandidate` | src/godzilla/portfolio/allocator.py:168-302 | amount, reason, multiplier and penalty of one candidate, on every error path |
| `Allocator.RunPass` | src/godzilla/portfolio/allocator.py:167-311 | the loop extends targets and records candidate by candidate |
| `Allocator.Allocate` | src/godzilla/portfolio/allocator.py:81-312 | gates in order, then the pass over candidates by strength |
| `Sizing.StatusMeaning` | src/godzilla/portfolio/allocator.py:95-162 | the status in terms of the inputs: proposals only in an open entry window, not live, healthy and fresh evidence, a portfolio within caps, unambiguous inputs and no repeated signal |
| `Sizing.VerdictMeaning` | src/godzilla/portfolio/allocator.py:168-302 | the verdict on a candidate among any targets: the first thing in its way, or its budget, penalty, share (desired x penalty x divisor is exactly budget x strength), leg caps and largest fitting amount |
| `Sizing.RecordMeaning` | src/godzilla/portfolio/allocator.py:158-312 | every record of an allocation is that verdict on the candidate of its rank, among the positions there were and the bundles of the records before it |
| `AllocatorProofs.ProposalIsWithinCaps` | src/godzilla/portfolio/allocator.py:295-299 | a proposal has a positive amount whose bundle passed every cap; anything else allocates nothing |
| `AllocatorProofs.PassStaysWithinCaps` | src/godzilla/portfolio/allocator.py:167-299 | from a portfolio within caps the targets are within every cap after each candidate |
| `AllocatorProofs.AllocationWithinCaps` | src/godzilla/portfolio/allocator.py:81-312 | a decision with proposals is within every cap; any other repeats the portfolio and records nothing |
| `AllocatorProofs.RecheckIsRedundant` | src/godzilla/portfolio/allocator.py:277-299 | with exactly unit-gross legs NO_CAPACITY means the clip left less than one tick |
| `OverGross.AllocationRejectsOverGross` | src/godzilla/portfolio/allocator.py:277-299 | every candidate over unit gross that wants at least a tick has valid inputs on which the allocation sizes it to one tick and reports NO_CAPACITY |
| `AllocatorProofs.TargetsAreExistingPlusBundles` | src/godzilla/portfolio/allocator.py:282-311 | targets are the existing positions unchanged, followed by whole bundles in candidate order, one per record with an amount |
| `AllocatorProofs.RecordedGrossIsAddedGross` | src/godzilla/portfolio/allocator.py:282-311 | with unit-gross legs the added gross and risk are the sums of the records |
| `AllocatorProofs.AllocationConserves` | src/godzilla/portfolio/allocator.py:282-312 | the decision's gross and risk are the portfolio's plus what the records say |
| `AllocatorProofs.SharesAddUp` | src/godzilla/portfolio/allocator.py:163-232 | after any number of candidates an alpha has used at most its budget's share of the strengths seen |
| `AllocatorProofs.AlphaStaysInBudget` | src/godzilla/portfolio/allocator.py:163-232 | per alpha, proposed gross never exceeds base budget times regime multiplier times health |
| `AllocatorProofs.TotalStaysInBudget` | src/godzilla/ensemble/models.py:43-48 | total proposed gross never exceeds the registry's budgets, hence one |
| `AllocatorProofs.RecordsAreValid` | src/godzilla/portfolio/models.py:108-114 | every record satisfies its own field bounds |
| `Pipeline.SelectedAreAllocatable` | src/godzilla/ensemble/normalize.py:185-210 | what the ensemble selects is well-formed, of exactly unit gross, strongest first and without repeated signals |
| `Pipeline.PipelineConserves` | src/godzilla/portfolio/allocator.py:158-312 | on the ensemble's output the allocator keeps the order, never stops at a duplicate, conserves gross and risk and stays within caps and budget |
| `Pipeline.PipelineRecheckIsRedundant` | src/godzilla/portfolio/allocator.py:277-299 | and its recheck rejects nothing the clip left |
| `Ranking.PercentileInside` | src/godzilla/alphas/ranking.py:6-13 | percentiles lie strictly between zero and one |
| `Ranking.PercentileMeaning` | src/godzilla/alphas/ranking.py:6-13 | a percentile times the sample size is the number of values below plus half the ties |
| `Ranking.PercentileOrder` | src/godzilla/alphas/ranking.py:6-13 | they order values exactly as the values do, ties included |
| `Ranking.NegationMirrors` | src/godzilla/alphas/ranking.py:6-13 | negating the values maps p to 1 - p |
| `Ranking.RescalingInvariant` | src/godzilla/alphas/ranking.py:1-13 | strictly increasing maps leave them alone |
| `Ranking.OrderInvariant` | src/godzilla/alphas/ranking.py:1-13 | so does permuting the input |
| `Ranking.PairsSplit` | src/godzilla/alphas/ranking.py:9-13 | double counting: the weights of two samples against each other share out all pairs |
| `Ranking.RanksSumToHalf` | src/godzilla/alphas/ranking.py:6-13 | percentiles sum to half the sample size |
| `Momentum.Rank` | src/godzilla/alphas/cross_sectional_momentum.py:240-245 | fills in each card's rank and changes nothing else |
| `Momentum.TailIsClosed` | src/godzilla/alphas/cross_sectional_momentum.py:262-267 | whoever does at least as well as a tail member is in the tail |
| `Momentum.Cut` | src/godzilla/alphas/cross_sectional_momentum.py:272-277 | keeps up to the cap, less the whole boundary tie if the cap would split it |
| `Momentum.SelectTail` | src/godzilla/alphas/cross_sectional_momentum.py:262-277 | picks, best first, exactly the tail members that no more match or beat than the limit per side and the fraction of all allow, and never more than either |
| `Momentum.ChosenMeaning` | src/godzilla/alphas/cross_sectional_momentum.py:262-277 | chosen are those in the tail whom no more match or beat than the limit per side and the fraction of all allow |
| `Momentum.SelectionIsClosed` | src/godzilla/alphas/cross_sectional_momentum.py:262-277 | the selection is closed towards stronger names and never splits a tie |
| `Momentum.SelectionIgnoresIds` | src/godzilla/alphas/cross_sectional_momentum.py:269-277 | it does not depend on instrument ids |
| `Regression.OlsIsOptimal` | src/godzilla/alphas/pairs_statistics.py:58-65 | no other line has a smaller squared error, and only the fitted line attains it |
| `Regression.SpreadMeanIsIntercept` | src/godzilla/alphas/pairs_statistics.py:75-92 | the mean of the spread is the intercept |
| `Regression.ScoresAreStandard` | src/godzilla/alphas/pairs_statistics.py:124-128 | training z-scores sum to zero and their squares to the sample size |
| `Regression.AcceptedFit` | src/godzilla/alphas/pairs_statistics.py:68-103 | all of these for every accepted pair fit, with a positive hedge ratio and a spread deviation above its floor |
| `Fits.FitMeaning` | src/godzilla/alphas/pairs_statistics.py:58-65 | a regression is refused if and only if the samples are too short, unequal or the regressor hardly varies, and is otherwise the only line of least squared residuals |
| `Fits.PairFitMeaning` | src/godzilla/alphas/pairs_statistics.py:68-103 | every pair fit: the first refusal in its way, or slope drift between the halves, ratio of their deviations, shift of their means and the slope of the spread on its own past |
| `Beta.EstimateIsCausal` | src/godzilla/alphas/relative_value_beta.py:32-46 | histories with the same usable rows, received and ended by the window before the decision and not before the opening, give the same estimate |
| `Beta.LateRowsDrop` | src/godzilla/alphas/relative_value_beta.py:34-41 | unusable rows anywhere in a history leave its usable rows as they are |
| `Beta.AcceptedRows` | src/godzilla/alphas/relative_value_beta.py:47-69 | accepted training rows are the consecutive windows of the session ending one window before the decision, usable and at positive prices |
| `Beta.ReturnFitterIsReliable` | src/godzilla/alphas/relative_value_beta.py:70-79 | a fitted beta is in range, does not drift, and is the best line through the returns |
| `Beta.AcceptedBeta` | src/godzilla/alphas/relative_value_beta.py:24-90 | both of these for every accepted estimate, whose training ends one window before the decision |
| `Training.EstimateMeaning` | src/godzilla/alphas/relative_value_beta.py:24-90 | every estimate: the last rows in time, each refusal in figures and in order, returns that take each close to the next, the best line through them and the drift between the halves |
| `Beta.OutOfRangeIsRefused` | src/godzilla/alphas/relative_value_beta.py:93-98 | betas are refused as out of range if and only if one of them is |
| `Beta.NeutralWeightsCharacterised` | src/godzilla/alphas/relative_value_beta.py:93-105 | for betas in range only the net refusal can occur, exactly when the betas are too far apart; the weights are the only positive unit-gross pair without fitted beta |
| `Beta.NetCanBeInfeasible` | src/godzilla/alphas/relative_value_beta.py:101-102 | the net refusal does occur |
| `Basket.SidesPartition` | src/godzilla/alphas/relative_value_models.py:166-172 | any total over legs splits over the sides, and signed totals are long less short |
| `Basket.ScoreBounds` | src/godzilla/alphas/relative_value_models.py:157-162 | tails below one half give a positive score of at most one |
| `Basket.ConstructionIsCoherent` | src/godzilla/alphas/relative_value_models.py:164-206 | every constructed basket passes the validator, with unit gross, zero fitted beta and matching figures exactly |
| `Sectors.Gather` | src/godzilla/alphas/sector_relative_value.py:157-218 | candidates and refusals of the cross-section, in its order |
| `Sectors.CandidateFacts` | src/godzilla/alphas/sector_relative_value.py:137-218 | candidates carry an accepted beta and no two are the same security |
| `Sectors.ReturnEstimatorAdmits` | src/godzilla/alphas/relative_value_beta.py:70-90 | the estimator in use accepts only betas in range, trained before the decision |
| `Sectors.LeadersAreStrongest` | src/godzilla/alphas/sector_relative_value.py:231-241 | the leaders are the first of the whole sector by strength and id |
| `Sectors.LaggardsAreWeakest` | src/godzilla/alphas/sector_relative_value.py:242-253 | the laggards are the last of those that can be sold short |
| `Sectors.ChosenSidesFit` | src/godzilla/alphas/sector_relative_value.py:231-265 | full sides are disjoint, from opposite tails, with accepted betas |
| `Sectors.SectorIsSound` | src/godzilla/alphas/sector_relative_value.py:226-331 | a sector ends in a coherent, exact basket or in one of three refusals; the range and beta-exposure refusals are out of reach |
| `Sectors.StrengthBlends` | src/godzilla/alphas/sector_relative_value.py:205-207 | a strength lies between the sector and market residuals, and is one of them at the extreme weights |
| `Sectors.SectorLegs` | src/godzilla/alphas/sector_relative_value.py:254-289 | every leg stands for a candidate of the sector, short legs for shortable ones, and every long leg is stronger than every short one by the gap |
| `Sectors.SortedSectors` | src/godzilla/alphas/sector_relative_value.py:226 | the sectors of the candidates, once each, in order |
| `Sectors.BuildBaskets` | src/godzilla/alphas/sector_relative_value.py:226-331 | the outcome of each sector, in order |
| `Sectors.Evaluate` | src/godzilla/alphas/sector_relative_value.py:126-334 | gates, candidates and baskets in order; every intent passes its validator exactly, one per sector |
| `Leaders.EntryMeaning` | src/godzilla/alphas/sector_relative_value.py:131-133 | the entry window in figures |
| `Leaders.SelectedMeaning` | src/godzilla/alphas/sector_relative_value.py:137-142 | the cross-section is the observations of now, by token |
| `Leaders.UnambiguousMeaning` | src/godzilla/alphas/sector_relative_value.py:143-159 | it is unambiguous if and only if every security of the universe is in the master once and observed once, and nothing else is |
| `Leaders.EstimatorMeaning` | src/godzilla/alphas/sector_relative_value.py:207-208 | the estimator in use estimates from an observation's own history of its own stock and market |
| `Leaders.JudgeMeaning` | src/godzilla/alphas/sector_relative_value.py:160-218 | an observation makes a candidate only if its instrument is eligible, not reserved and past its gates, at the blend of its residuals and its own beta; otherwise the first thing wrong is the reason |
| `Leaders.OutcomeMeaning` | src/godzilla/alphas/sector_relative_value.py:226-331 | the outcome of every sector: too few, no two full sides apart by the gap, betas too far apart, or the basket of the furthest ahead and behind with every field in figures |
| `Leaders.EvaluationMeaning` | src/godzilla/alphas/sector_relative_value.py:157-334 | each observation makes a candidate or a report, each sector a basket or a report, and no leg trades a security that is ineligible, held elsewhere or gated |

## Left out

- Row-by-row projections, provenance rows, SQL, Alembic and the advisory lock: a transaction is one atomic step on the log and the state table.
- JSON and Pydantic serialisation, SHA-256, UUID5: the envelope codec is taken to round-trip; ids derived by UUID5 from other fields are not carried.
- Float rounding and the Decimal context: arithmetic is exact, so a comparison within rounding of its threshold may go the other way in the program.
- Logarithms, half-life and the statsmodels tests of the pairs alpha: log prices are input reals, the standard deviation is a nonnegative root of the variance.
- Feature formulas, breakout and VWAP scoring, liquidity, provenance and context gates: each such conjunction is one input (`screen` in the ensemble, `gate` in the sector alpha, `eligible` and `futures` of an instrument).
- State, health, inventory-age and date gates at the head of the sector alpha's evaluation: they only refuse; the entry-window and cross-section gates are modelled.
- Time zones and calendar coverage errors: the calendar is a total function, and a date it does not cover is a date without a session.
- Momentum confirmation, permission and reservation checks after the selection: only the ranked selection is modelled.
- Regime counts, cost totals and audit hashes of the health snapshot, prior-decision hashes of the router, input hashes of the allocator: they do not influence a decision.
- Rejection tuples of the ensemble: modelled as a map from signal to reason, since the source sorts them by id.
- Metrics, logging, storage of raw observations: observational; the storage's answer to an ingest is a parameter.
- load_history, quotes, reconnection, lifecycle, universe builder, compliance gate, configuration, CLI: they would only add easy members.
- InstrumentMaster writes (save_master): modelled only by success or failure as the journal sees it.
