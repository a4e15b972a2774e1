# TrackFlow: verified models of its stateful cores

This project models, in Dafny, the parts of the TrackFlow repository whose correctness depends on whole runs
rather than on single calls, and proves what those parts are for. Everything is about the model; nothing here
executes the services.

| part | modules |
|---|---|
| reporting queue with leases and claim tokens | `ReportingQueue`, `QueueRuns`, `QueueProgress`, `QueueHistory`, `QueueStore` |
| weekly report, the simple reference computation | `Sorting`, `WeeklyKpis`, `ReportAcceptance`, `WeeklyReport` |
| hourly rollups, reconciliation, activation | `Instants`, `Ledger`, `Rollups`, `RollupAgreement`, `VerifiedRange`, `Activation`, `RollupStore`, `UnitsAreFlows` |
| queue and rollups together, workers as programs | `Publication`, `GaplessWindows`, `LiveLedger`, `LateRows`, `LateRowExample`, `LedgerReset`, `ExecutorRuns`, `StageOrder`, `WorkerReports`, `DirectExecutor` |
| movement-ledger retention | `Retention`, `RetentionRuns`, `RetentionResume`, `RetentionLive`, `RetentionReporting`, `LateDiscrepancy`, `Pruner` |
| streaming JSON answer decoder | `AnswerText`, `AnswerDecoder`, `AnswerRoundTrip`, `OpenAnswer` |
| refresh-session families and password resets | `Sessions`, `SessionRuns`, `IdentityOutcomes`, `IdentityService` |
| synthetic ledger backfill, block grouping | `Backfill`, `BlockGrouping` |

How the model is laid out:

- Code that updates rows or fields in place is a class or a method with loops (`QueueStore.Store`,
  `RollupStore.Store`, `Pruner.Job`, `IdentityService.AuthService`, `AnswerDecoder.AnswerDeltaDecoder`, the loops
  of `WeeklyReport`, `Backfill`, `BlockGrouping`). Each method is proved against a function or relation on values,
  and the theorems are about those.
- One database transaction, one committed delete batch or one identity service call is one atomic step. Runs are
  histories of such steps with arbitrary interleaving. The environment grants a clock that does not go back, fresh
  identifiers and tokens, and workers that use only claims they were given, alive or dead.
- Instants are microseconds in UTC. Hours and weeks are numbered, and the week starts on Monday. Rates are reals.
- `Wrappers` holds the two result types.

What the main theorems add up to:

- Every activation, in every interleaving, either changes nothing or leaves a weekly table that equals the reference
  report on the raw ledger for each week all of whose hours are published, completed and still sourced, and is
  untouched elsewhere (`Publication.EveryActivationAgrees`, `Activation.ActivationIsTheReport`,
  `VerifiedRange.BoundsAreTheReconcilableHours`). The status of a run is what its latest recorded attempt came to
  (`QueueHistory.StatusIsTheLastOutcome`), a run is recorded as succeeded only if that attempt published, and nothing
  is loaded that was not captured and transformed before (`ExecutorRuns.SucceededRunsHavePublished`,
  `StageOrder.LoadsFollowStages`). A lease protects its owner to its end
  (`QueueHistory.LeaseProtects`). A worker that has lost its claim publishes, activates, finalizes and renews nothing
  ever again (`Publication.Fenced`, `ExecutorRuns.ZombiesAreHarmless`).
- While the ledger goes on growing, week-scoped runs and resets included, every published hour agrees with it except
  those whose rows changed since they were computed; when rows arrive on time and the hours to verify are published, an
  activation can fail only for a rate without its denominator or for want of hours to verify
  (`LiveLedger.ReachableInv`, `LiveLedger.OnTimeActivationsFailOnlyForRates`).
- Retention never moves a derived balance, can be interrupted anywhere while movements go on arriving, and ends where
  one uninterrupted run would (`RetentionRuns.BalancesMoveOnlyByAppends`, `RetentionResume.ResumedPruneIsOnePrune`,
  `RetentionLive.LivePrunesAreOnePrune`).
- The units that the rollups count are what the balances of the SKUs move by (`UnitsAreFlows.UnitsAreTheFlow`), and a
  run of the pruner deletes exactly what is older than the retention in days (`Pruner.Job.PruneOnce`).
- The decoder's output depends only on the text received, is emitted as soon as it is there, and is the spelled answer
  (`AnswerDecoder.RelayAnswer`, `OpenAnswer.OpenAnswerIsPrompt`, `AnswerRoundTrip.AnswerRoundTrips`).
- A refresh-session family is one chain with one live end, and reuse ends it for good (`SessionRuns.FamiliesAreChains`,
  `SessionRuns.ReuseIsFinal`).

Where the code does less than its design says. In each case the model follows the code, and the exact condition is
proved:

- A `\ud83d\ude00` style escape is emitted as two lone surrogates, not as the one character that section 7 of
  RFC 8259 makes of it (`EmitsCharactersUnlessPaired`, `SurrogatePairIsNotJoined`).
- The prune job is documented as safe to rerun. A rerun at the same cutoff is refused by the checkpoint writer; an
  interrupted prune is resumed by a later cutoff (`RerunNeedsALaterCutoff`), and the result is still the same.
- A week-scoped run advances the cursor to its own cutoff although it covers one week only, so hours after the old
  cursor can fall in no window. Recomputing an old week soon after an ordinary run loses nothing; `TwoWindowsCover`
  and, for reachable states, `IntervalSurvivesTwoRuns` say exactly when nothing is lost, `WeekScopedRunLeavesAGap`
  shows a loss.
- The trailing recomputation picks up a late row only while it still reaches the row's hour. `LateRows.LateRowsAreHealed`
  says exactly when an hour that differs from the ledger can still be brought up to date; after that its buckets never
  change again unless a run is asked for its week (`LateRows.OutOfReachForever`), and activations over it are refused
  (`LateRows.LostRowBlocksActivation`). `LateRowExample.LateRowCanStayOut` is a history of two runs with a row forty
  hours late between them.
- A ledger reset keeps the hourly buckets of before the reset, and the reconciliation bounds do not stop at it. An
  activation after a reset succeeds exactly when those buckets, as far as they lie within the bounds, add up week by
  week to what the ledger then holds for their hours (`LedgerReset.ActivationAfterReset`); without such rows they must
  all be zero (`LedgerReset.EmptyRangeNeedsZeroBuckets`), and otherwise no later run helps
  (`LedgerReset.OldBucketsBlockForGood`).
- A discrepancy filed long after its dispatch is deleted with the dispatch, although it is recent, and
  reconciliation then fails. `RetentionReporting.PruningIsSafeWithoutOldParents` and `FinishedPruneReconciles` say
  exactly when, on the tables as they are before the prune; `ReconciliationSurvivesPruning` says it for every prefix of
  a prune; `LateDiscrepancyIsLost` is a prune of two steps after which buckets that were exact no longer are.

## Model

| member | source | states |
|---|---|---|
| QueueRuns.ReachableInv | data/pipelines/business_performance/queue.py:387-706 | In every reachable queue: running holds iff token and lease are present, retryable iff a next attempt is due, terminal iff finished; at most one row runs; a run's recorded attempts are exactly 1..attempt, less the one in progress |
| QueueRuns.StepKeepsInv | data/pipelines/business_performance/queue.py:387-706 | Every transaction (claim, heartbeat, stage, finalize, release, sweep, reset) keeps that invariant |
| QueueRuns.OwnedClaim | data/pipelines/business_performance/queue.py:95-142 | A claim that owns its row carries the row's attempt number and week, and that attempt is not yet on record: the insert's conflict clause never fires |
| QueueRuns.RecoverOneKeepsInv | data/pipelines/business_performance/queue.py:669-705 | Recovering a stale row records a fresh attempt and keeps the invariant |
| QueueRuns.SweepIsShort | data/pipelines/business_performance/queue.py:649-706 | A sweep ever finds at most one stale row |
| QueueRuns.ClaimKeepsInv | data/pipelines/business_performance/queue.py:433-466 | Claiming keeps the invariant, also when the claimed week is frozen and the run fails at once |
| QueueRuns.StepMovesRows | data/pipelines/business_performance/queue.py:387-706 | A step changes a row in one of four ways only (renewed, taken when eligible, closed, put back with backoff), and a new token is the one drawn |
| QueueProgress.Fenced | data/pipelines/business_performance/queue.py:217-241 | In every history of the queue: once a claim's token is off its row, every later heartbeat, stage record, release or finalization with it changes nothing but the clock |
| Publication.Fenced | data/pipelines/business_performance/queue.py:509-519 | In every history of queue and tables together: once a claim's token is off its row it stays off, and every later heartbeat, stage record, release, finalization, publication or activation with it changes nothing but the clock |
| ExecutorRuns.ZombiesAreHarmless | data/pipelines/business_performance/direct_executor.py:39-81 | A worker program that goes on after losing its claim leaves the queue, the tables and the publications as they are, in every later state |
| QueueProgress.DeadClaimStaysDead | data/pipelines/business_performance/queue.py:217-241 | No step revives a dead claim |
| QueueProgress.EveryMoveDescends | data/pipelines/business_performance/queue.py:565-706 | Claim, release, finalize and recover strictly lower one rank, everything else keeps status and attempt, terminal rows never change |
| QueueProgress.EveryRunEnds | data/pipelines/business_performance/queue.py:565-706 | A run is claimed exactly `attempt` times, at most the limit; its status changes are bounded by its rank; out of attempts and not running, it is terminal |
| QueueProgress.BackoffIsGeometric | data/pipelines/business_performance/queue.py:561-607 | The delays a history imposed on a run sum to the geometric series of its failed attempts |
| QueueProgress.TotalBackoffIsBounded | data/pipelines/business_performance/queue.py:561-562 | All delays of one run together are at most base * (2^(max-1) - 1) seconds |
| QueueHistory.StatusIsTheLastOutcome | data/pipelines/business_performance/queue.py:522-706 | In every reachable state a run is succeeded iff its latest attempt is on record as succeeded, failed iff as failed, exhausted or a lease lost at the limit, retryable iff as retried or a lease lost below it; all earlier attempts were retried |
| QueueHistory.SuccessIsFinal | data/pipelines/business_performance/queue.py:522-558 | Once the owner has reported success, the run is succeeded and finished at that instant in every later state |
| QueueHistory.FailureIsFinal | data/pipelines/business_performance/queue.py:610-646 | Once the owner has reported a failure, the run is failed with that error in every later state |
| QueueHistory.AttemptsTakeTurns | data/pipelines/business_performance/queue.py:561-607 | Attempts start after the request and end later; no attempt starts before the delay after the one before it is over, and a retryable run is due exactly that delay after its last attempt |
| QueueHistory.LeaseProtects | data/pipelines/business_performance/queue.py:485-506 | A claim drawn or renewed still owns its row in every state up to the end of that lease, unless its own worker gave it up |
| QueueHistory.ExpiredLeaseIsSwept | data/pipelines/business_performance/queue.py:649-706 | A sweep after the end of a lease that was not renewed takes the row away |
| QueueHistory.SweepWrites | data/pipelines/business_performance/queue.py:669-705 | A sweep leaves everything alone but the run whose lease has run out, which gets its backoff or its final failure and an attempt row ending now |
| QueueHistory.ClaimOutcome | data/pipelines/business_performance/queue.py:387-482 | In every reachable state a claim takes nothing while a run is under way or none is due; otherwise a due run requested no later than any other, which then runs with a full lease or has failed because its week was reset |
| QueueHistory.FrozenMeansReset | data/pipelines/business_performance/queue.py:433-466 | A week is frozen iff some instant of it lies before the last reset |
| QueueHistory.RequestStays | data/pipelines/business_performance/queue.py:387-706 | The week and the instant of a request stay on its row in every later state |
| QueueStore.Store.RecordAttempt | data/pipelines/business_performance/queue.py:95-142 | Writes one attempt row unless it exists, with the originating stage and error |
| QueueStore.Store.SelectEligible | data/pipelines/business_performance/queue.py:400-425 | Picks an oldest requested or due row, and none only if there is none |
| QueueStore.Store.ClaimNext | data/pipelines/business_performance/queue.py:387-482 | Takes the picked row with a fresh token and a new lease; nothing when another row runs; fails a frozen week |
| QueueStore.Store.Heartbeat | data/pipelines/business_performance/queue.py:485-506 | Renews the lease only for the owner |
| QueueStore.Store.RecordStage | data/pipelines/business_performance/queue.py:217-228 | Records the stage only for the owner |
| QueueStore.Store.FinalizeSuccess | data/pipelines/business_performance/queue.py:522-558 | Closes the owner's row as succeeded and records the attempt with its stage, start and end; changes nothing else |
| QueueStore.Store.FinalizeFailure | data/pipelines/business_performance/queue.py:610-646 | Closes the owner's row as failed with the error and records the attempt with its stage, error, start and end; changes nothing else |
| QueueStore.Store.ReleaseRetryable | data/pipelines/business_performance/queue.py:565-607 | Below the limit puts the owner's row back, due after the backoff; at the limit fails it as out of attempts; records the attempt either way |
| QueueStore.Store.SelectStale | data/pipelines/business_performance/queue.py:657-668 | Lists each running row whose lease has run out, once |
| QueueStore.Store.RecoverStaleRuns | data/pipelines/business_performance/queue.py:649-706 | The loop recovers exactly the stale rows |
| QueueStore.Store.FinalizeClaim | data/pipelines/business_performance/runner.py:235-282 | One final compare-and-swap: exactly the success, failure or release transition of the outcome, which applies iff the claim still owns its row and leaves it succeeded, failed or retryable (failed at the limit); otherwise a lost lease |
| WeeklyKpis.ReportIgnoresOrderAndDuplicates | data/process/business_performance/weekly_kpis.py:216-262 | Permuting or repeating input records changes neither the rows nor whether the input is refused |
| WeeklyKpis.ReportIsSortedAndDense | data/process/business_performance/weekly_kpis.py:160-262 | The report is unique, strictly sorted by week, site, client, and has a row for a pair in a week iff the pair has a SKU, the Monday was asked for and no instant of the week lies before the last reset |
| ReportAcceptance.ReportExists | data/process/business_performance/weekly_kpis.py:62-262 | There is a report iff the four sources are there, every record is usable, deliveries under one id tell of the same event, every record's place has a SKU, the days are Mondays and no reported cell has more discrepancies than orders |
| WeeklyKpis.ReportConservesEvents | data/process/business_performance/weekly_kpis.py:216-262 | Each counter column of a report adds up to the deduplicated events of its source (units for inbound) in the recomputable weeks |
| WeeklyKpis.CountersConserveEvents | data/process/business_performance/weekly_kpis.py:216-262 | Summed over a grid of weeks and pairs, the counts of one source's events are the events that fall in those weeks |
| WeeklyKpis.CellRankIsLexicographic | data/process/business_performance/weekly_kpis.py:216-262 | The sort key orders by week, then site, then client, without ties |
| WeeklyReport.NormalizeRecords | data/process/business_performance/weekly_kpis.py:96-117 | The dictionary loop yields the valid events once each in ascending id, and fails exactly on an invalid record or two different events under one id |
| WeeklyReport.CountSource | data/process/business_performance/weekly_kpis.py:216-262 | The counting loop reaches the counts, and is refused exactly when an event's pair has no SKU |
| WeeklyReport.BuildRows | data/process/business_performance/weekly_kpis.py:146-157 | One row per cell with its rate, refused exactly when some rate is undefined |
| WeeklyReport.AssembleWeeklyRows | data/process/business_performance/weekly_kpis.py:216-262 | Returns the report when there is one and fails exactly when there is none |
| Ledger.TallySplits | data/pipelines/business_performance/rollups.py:191-235 | An aggregate over a range is the sum of the aggregates over its two parts |
| Ledger.TallyHasARow | data/pipelines/business_performance/rollups.py:191-235 | An aggregate is positive exactly when some row contributes |
| Rollups.WindowIsTheWantedHours | data/pipelines/business_performance/rollups.py:142-188 | The captured window is exactly the completed, not reset hours of the requested week, or since the last cutoff and at least three days back, or of all history; refused exactly when there is none |
| Rollups.HourlyQuery | data/pipelines/business_performance/rollups.py:191-263 | The hourly query is the dense grid of every hour of the window with every SKU dimension, with the ledger's totals |
| RollupAgreement.SumOfHoursIsDirect | data/pipelines/business_performance/rollups.py:366-430 | Summing hourly buckets equals aggregating the ledger directly, over any sub-range |
| RollupAgreement.AgreeingHoursReconcile | data/pipelines/business_performance/rollups.py:366-473 | If every hour agrees with the ledger, no group differs in any of the eight metrics, partial weeks included; exactness is then only a matter of the rate denominator |
| RollupAgreement.ExactMeansEveryGroupMatches | data/pipelines/business_performance/rollups.py:366-473 | Reconciliation is exact iff every week and dimension matches, also those the query does not list |
| RollupAgreement.PublicationIsTheGrid | data/pipelines/business_performance/rollups.py:266-301 | After an upsert every bucket of the window says what the ledger says, and every other bucket is as before |
| RollupAgreement.PublishedHoursAgree | data/pipelines/business_performance/rollups.py:329-363 | Published hours agree with the ledger they came from, and hours that agreed go on agreeing |
| RollupAgreement.WellFormedHasOnlySkuFacts | data/pipelines/business_performance/rollups.py:191-235 | On a ledger that keeps the schema's constraints nothing is aggregated outside the SKUs' dimensions, so the grid loses nothing |
| RollupStore.Differing | data/pipelines/business_performance/rollups.py:456-461 | Names exactly the metrics that differ, each once and in the fixed order |
| RollupStore.ReconciliationResult | data/pipelines/business_performance/rollups.py:444-473 | Reports exactly the groups that do not match, each once, in order, with its differing metrics and the missing-denominator tag; empty iff exact |
| VerifiedRange.BoundsAreTheReconcilableHours | data/pipelines/business_performance/rollups.py:544-591 | The bounds are exactly the hours between the first and the last hour with a visible bucket that are completed and start at or after the retention checkpoint; refused exactly when there is none, for want of buckets or of such hours |
| VerifiedRange.VerifiedIsWhole | data/pipelines/business_performance/rollups.py:645-655 | Every hour of a week is within the bounds iff the week's two Mondays are |
| VerifiedRange.WeekRangeIsWhole | data/pipelines/business_performance/rollups.py:645-655 | The weeks rewritten are exactly the whole weeks within the bounds |
| RollupStore.ReconciliationBounds | data/pipelines/business_performance/rollups.py:544-591 | Computes those bounds, or the reason there are none |
| RollupStore.KeyRankIsLexicographic | data/pipelines/business_performance/rollups.py:366-430 | Mismatches are reported by week, then warehouse, then client |
| RollupStore.Renew | data/pipelines/business_performance/rollups.py:604-700 | The transaction's body computes the activation of its snapshot |
| RollupStore.Store.PublishHourlyRollups | data/pipelines/business_performance/rollups.py:329-363 | Publishes and advances the cursor for an owned claim, changes nothing otherwise |
| RollupStore.Store.ActivateReconciledRollups | data/pipelines/business_performance/rollups.py:604-700 | All of the activation or an error and no change at all |
| Activation.ReportRow | data/process/business_performance/weekly_kpis.py:146-157 | The reference report's counters of a cell are the ledger's weekly totals, and its rate is defined iff discrepancies do not exceed orders |
| Activation.WeeklyCell | data/pipelines/business_performance/rollups.py:509-532 | The weekly upsert gives each cell the sum of its visible hourly buckets; a missing row means all four metrics are zero |
| Activation.ActivatedTables | data/pipelines/business_performance/rollups.py:645-700 | A successful activation reconciled its bounds exactly; a cell of a week that lies wholly within them gets the sum of its visible buckets, any other cell stays as it was |
| Activation.ActivationOutcome | data/pipelines/business_performance/rollups.py:604-700 | An activation succeeds iff there are bounds, they reconcile exactly, the rows are of its version and the cursor has reached its cutoff; the state row then names version, cutoff and time, and a refusal names the first of these that failed |
| Activation.ActivationAgrees | data/pipelines/business_performance/rollups.py:604-700 | If no bucket is newer than the cutoff, a successful activation makes table, reference report and ledger agree for every week wholly within its bounds, and leaves other weeks as they were |
| Activation.ReconciledLedgerHasAReport | data/process/business_performance/weekly_kpis.py:216-262 | When reconciliation was exact the reference report on the raw ledger exists for the whole weeks within the bounds |
| Activation.ActivationIsTheReport | data/process/business_performance/weekly_kpis.py:216-262 | Every row of the reference report on the raw ledger, for all whole weeks within the bounds, is what the weekly table holds after activation, a missing row standing for zeros |
| UnitsAreFlows.TallyIsWanted | data/pipelines/business_performance/rollups.py:191-235 | Each of the eight aggregates counts the rows, or their units, of its table, kind, warehouse, client and hours, and nothing else |
| UnitsAreFlows.UnitsAreTheFlow | services/central-api/central_api/domains/inventory/balances.py:34-94 | Over any hours, units received less units dispatched and lost in a warehouse and client, as the rollups count them, are what the balances of its SKUs move by |
| Publication.ReachableInv | data/pipelines/business_performance/direct_executor.py:137-200 | In every interleaving: stored and active cutoffs are at most the last one, every captured window ends at or before the clock's hour, and the owner's window is not behind the last cutoff |
| Publication.CutoffsNeverGoBack | data/pipelines/business_performance/rollups.py:346-362 | Published cutoffs never decrease, no bucket is newer than the last cutoff, the active cutoff never passes it |
| Publication.GreatestTakesTheNewCutoff | data/pipelines/business_performance/rollups.py:346-362 | A publication by the owner always moves the cursor to its own cutoff and finds no newer bucket |
| Publication.EveryActivationAgrees | data/pipelines/business_performance/rollups.py:604-700 | In every reachable state an activation changes nothing, or makes the weekly table agree with the reference report in each week all of whose hours are published, completed and sourced and leaves all other weeks alone, with no hypothesis on bucket cutoffs |
| Publication.OneOwner | services/central-api/migrations/versions/20260714_0008_reporting_schema.py:164-171 | At most one claim owns a row at any time |
| GaplessWindows.PublishedHoursAreAnInterval | data/pipelines/business_performance/rollups.py:142-188 | Without week-scoped claims or resets the published windows cover exactly the hours from the earliest start to the last cutoff, whatever failed in between |
| GaplessWindows.NoHourIsMissing | data/pipelines/business_performance/rollups.py:329-363 | Then a dimension that is always some SKU's has a bucket for every one of those hours |
| GaplessWindows.SuccessiveWindowsTouch | data/pipelines/business_performance/rollups.py:164-185 | After any run, the next ordinary window reaches back to the end of its window iff it was not week-scoped, or its week was not over, or the trailing recomputation reaches back to it |
| GaplessWindows.TwoWindowsCover | data/pipelines/business_performance/rollups.py:164-185 | Every hour from the old cursor on is in the window of a run or in that of the next ordinary run iff the run was not week-scoped, or passed over nothing, or the trailing recomputation reaches the old cursor, or the week joins the old cursor to the present or to the trailing recomputation |
| GaplessWindows.IntervalSurvivesTwoRuns | data/pipelines/business_performance/rollups.py:142-188 | From any reachable state whose published hours are an interval ending at the cursor, after a run, any steps that publish nothing, and an ordinary run, each with any such steps (stage records, heartbeats, refused loads, other workers) between its capture and its load, the hours up to the new cursor are all published iff that condition holds |
| GaplessWindows.WeekScopedRunLeavesAGap | data/pipelines/business_performance/rollups.py:164-185 | A concrete week-scoped run from a non-empty cursor after which hours since that cursor lie in neither window |
| LiveLedger.ReachableInv | data/pipelines/business_performance/rollups.py:191-235 | In every reachable state over a changing ledger, week-scoped runs and resets included, each published hour agrees with the ledger in all eight metrics, except hours whose rows changed since they were computed |
| LiveLedger.AppendIsGrowth | services/central-api/central_api/domains/inventory/service.py:315-323 | A row appended to any of the four tables changes no aggregate but those of its hour |
| LiveLedger.ActivationFailsOnlyForRates | data/pipelines/business_performance/rollups.py:604-700 | In every reachable state: if every hour within the bounds is published and none is out of date once the draft is published, no group differs in any metric, and the owner's activation succeeds iff every rate has its denominator |
| LiveLedger.OnTimeActivationsFailOnlyForRates | data/pipelines/business_performance/rollups.py:604-700 | When rows always arrive on time, that holds in every reachable state where the hours within the bounds are published, and so in every one without week-scoped runs and resets before it |
| LateRows.LateRowsAreHealed | data/pipelines/business_performance/rollups.py:164-185 | In every reachable state with an ordinary run under way, an hour behind the cursor whose buckets differ from the ledger can be brought up to date in some later history that does not ask for its week iff the trailing recomputation reaches it now and no reset lies after it |
| LateRows.OutOfReachForever | data/pipelines/business_performance/rollups.py:164-185 | Once the trailing recomputation or a reset has passed an hour that no run has in hand, no later history that does not ask for its week changes a bucket of it; after a reset past it, none at all |
| LateRows.LateRowIsLost | data/pipelines/business_performance/rollups.py:164-185 | A difference between ledger and buckets at such an hour is there in every later state |
| LateRows.RunHeals | data/pipelines/business_performance/rollups.py:164-185 | Within reach, the run under way that captures, computes and publishes now brings the hour up to date |
| LateRows.LostRowBlocksActivation | data/pipelines/business_performance/rollups.py:604-700 | While such an hour lies within the bounds and the others are up to date, the owner's activation is refused as a reconciliation mismatch |
| LateRowExample.LateRowCanStayOut | data/pipelines/business_performance/rollups.py:164-185 | A concrete history of two ordinary runs with a receipt forty hours late between them: its bucket says none, reconciliation over the activation's bounds fails, and no later history that leaves its rows and week alone picks it up |
| LedgerReset.ActivationAfterReset | data/pipelines/business_performance/rollups.py:544-591 | In every reachable state after a reset, with the hours since the reset up to date: the owner's activation succeeds iff the buckets of before the reset within the bounds add up week by week to the ledger and every rate is defined |
| LedgerReset.EmptyRangeNeedsZeroBuckets | services/central-api/scripts/db_size_guard.py:112-140 | Where the ledger has no rows, buckets add up to it iff every one of them is zero |
| LedgerReset.ExactSplits | data/pipelines/business_performance/rollups.py:366-473 | When the later hours of a range agree one by one, reconciliation is exact iff the earlier part reconciles by week and every rate is defined |
| LedgerReset.OldBucketsBlockForGood | data/pipelines/business_performance/rollups.py:544-591 | Buckets out of reach that do not add up to the ledger make every later activation whose bounds begin with them fail |
| ExecutorRuns.SucceededRunsHavePublished | data/pipelines/business_performance/direct_executor.py:137-200 | A run is recorded as succeeded only if the very attempt that succeeded has committed its publication |
| ExecutorRuns.StepKeepsInv | data/pipelines/business_performance/runner.py:119-232 | Every step of the workers' programs and of the environment keeps the system invariant |
| ExecutorRuns.RepublishingIsIdempotent | data/pipelines/business_performance/rollups.py:338-338 | Publishing the same window and rows again changes nothing |
| StageOrder.LoadsFollowStages | data/pipelines/business_performance/direct_executor.py:137-200 | Every load attempt comes after the claim's own extract stage, capture, transform stage and load stage, in that order, each recorded while it owned its row |
| WorkerReports.StageFailuresAreRetried | data/pipelines/business_performance/direct_executor.py:91-134 | In every history of workers an attempt is recorded as failed only when its week was frozen: a stage failure puts the run back or exhausts it |
| WorkerReports.ReportTellsTheStage | data/pipelines/business_performance/runner.py:165-282 | A reported failure is recorded with the stage the worker had recorded last, leaves the run retryable below the limit and out of attempts at it |
| DirectExecutor.BeginStage | data/pipelines/business_performance/direct_executor.py:47-63 | A stage is recorded for an owned, not aborted claim, otherwise the lease is lost and nothing is recorded |
| DirectExecutor.DirectSqlExecutor | data/pipelines/business_performance/direct_executor.py:137-200 | Success means that no ownership test failed, the window captured from the state at the start was loaded and the load stage recorded; a stage failure names the stage recorded last and why the window or the activation was refused, and leaves the tables as they were; without ownership nothing changes; whatever changed the tables is that one load |
| Retention.CheckpointKeepsBalances | services/central-api/central_api/domains/inventory/balances.py:120-167 | Writing a checkpoint moves the base and no derived balance |
| Retention.CheckpointAdvances | services/central-api/central_api/domains/inventory/balances.py:120-167 | Every SKU gets a checkpoint at the cutoff with the old base plus the movements in between |
| RetentionRuns.BalancesMoveOnlyByAppends | services/central-api/migrations/versions/20260820_0021_stock_ledger_checkpoints.py:7-18 | At every point of any history, over any number of interrupted nights, the derived balance is the old one plus exactly what was appended at or after the checkpoint of the moment; keys and foreign keys hold throughout |
| RetentionRuns.StepMovesBalances | services/central-api/scripts/prune_movement_ledger.py:183-227 | One checkpoint, batch or append: balances move only by an append dated at or after the checkpoint, by its quantity |
| RetentionRuns.RemoveKeepsKeys | services/central-api/scripts/prune_movement_ledger.py:91-126 | No delete leaves a stockout or discrepancy pointing at a missing exit |
| RetentionRuns.RemoveShrinksVictims | services/central-api/scripts/prune_movement_ledger.py:91-126 | A batch takes exactly its identifiers off the step's list |
| RetentionRuns.RemoveCounts | services/central-api/scripts/prune_movement_ledger.py:138-164 | A batch that names somebody removes a row, one that names nobody changes nothing |
| RetentionResume.ResumedPruneIsOnePrune | services/central-api/scripts/prune_movement_ledger.py:167-227 | Any number of prunes interrupted at any batch, then one that finishes, leave the ledger, checkpoints and balances of one uninterrupted prune |
| RetentionLive.LivePrunesAreOnePrune | services/central-api/scripts/prune_movement_ledger.py:167-227 | Interrupted nights with movements dated at or after the last cutoff (and events of such dispatches) arriving at any point, once finished, leave the ledger, checkpoints and balances of one uninterrupted prune followed by the same appends |
| RetentionResume.FinishedIsPruned | services/central-api/scripts/prune_movement_ledger.py:91-126 | When no step has anything left, the ledger is the one without old movements and their children |
| RetentionResume.PrunedIsFinished | services/central-api/scripts/prune_movement_ledger.py:91-126 | The pruned ledger needs no more pruning |
| RetentionResume.RerunNeedsALaterCutoff | services/central-api/central_api/domains/inventory/balances.py:127-129 | A run is accepted iff its cutoff lies beyond the last checkpoint |
| RetentionResume.RecentMovementsSurvive | services/central-api/scripts/prune_movement_ledger.py:91-126 | No history deletes a movement dated at or after its largest cutoff |
| RetentionResume.CheckpointQuantity | services/central-api/central_api/domains/inventory/balances.py:120-167 | A checkpoint's quantity is the balance less what moved since, so no earlier prune affects it |
| RetentionReporting.ReconciliationSurvivesPruning | data/pipelines/business_performance/rollups.py:544-591 | After any prefix of any prunes, over the bounds the activation takes, reconciliation is exact iff it was before and no stockout or discrepancy with a deleted parent is dated within them |
| RetentionReporting.PruningIsSafeWithoutOldParents | services/central-api/scripts/prune_movement_ledger.py:91-109 | If, before the prune, no stockout or discrepancy within the bounds has a dispatch older than the checkpoint, no prefix of any prunes changes whether reconciliation is exact |
| RetentionReporting.FinishedPruneReconciles | services/central-api/scripts/prune_movement_ledger.py:91-126 | After a finished prune reconciliation over the bounds is exact iff it was before and, before the prune, no stockout or discrepancy within them had a dispatch older than the checkpoint |
| RetentionReporting.MovementHoursSurvive | data/pipelines/business_performance/rollups.py:544-591 | The six movement metrics agree hour by hour from the checkpoint's ceiling hour on, unconditionally |
| RetentionReporting.ChildTally | services/central-api/scripts/prune_movement_ledger.py:91-109 | The other two metrics lose exactly the deleted children dated in the range |
| RetentionReporting.StockoutsAreNeverLost | services/central-api/central_api/domains/inventory/service.py:315-323 | Stockouts dated as their dispatch are never lost from those hours |
| LateDiscrepancy.LateDiscrepancyIsLost | services/central-api/scripts/prune_movement_ledger.py:91-109 | A concrete ledger whose first day is rolled up exactly and which, after a checkpoint and one batch, fails reconciliation over the bounds an activation takes, because a recent discrepancy went with its dispatch |
| Pruner.CheckpointWatermark | services/central-api/central_api/domains/inventory/balances.py:97-117 | The one checkpoint instant, the beginning of time when there is none, an error when they disagree |
| Pruner.VerifyStockBalances | services/central-api/central_api/domains/inventory/balances.py:196-223 | Lists exactly the SKUs whose stored balance differs from base plus movements since, each once and with both values |
| Pruner.WriteLedgerCheckpoint | services/central-api/central_api/domains/inventory/balances.py:120-167 | The checkpoint rows after the upsert, or the reason for refusing |
| Pruner.Prepare | services/central-api/scripts/prune_movement_ledger.py:178-203 | Refuses a short window, disagreeing checkpoints, drift or an old cutoff, in that order; otherwise the checkpoint to commit |
| Pruner.ExitStepIsSafe | services/central-api/scripts/prune_movement_ledger.py:207-227 | The exit step starts only when no old exit has a child |
| Pruner.RunKeepsBalances | services/central-api/scripts/prune_movement_ledger.py:167-227 | A run moves no derived balance and no stored one |
| Pruner.Job.DeleteInBatches | services/central-api/scripts/prune_movement_ledger.py:138-164 | One reading of the clock before each batch, no batch once the deadline has passed, and stopping short only then; ends in any case; finished means nothing is left for the step; counts the deleted rows |
| Retention.CutoffIsDaysBack | services/central-api/scripts/prune_movement_ledger.py:129-135 | The cutoff lies exactly the given number of days before now, so a row is behind it iff it is older than that |
| Pruner.Job.PruneOnce | services/central-api/scripts/prune_movement_ledger.py:167-227 | A refused run changes nothing, and fewer than 25 days are refused; no movement of at most that many days is deleted, a complete run leaves none older, and the checkpoint is dated exactly that many days back; batches have the given size and go through discrepancies, stockouts, exits and entries in this order, and the counts add up to the rows gone |
| AnswerText.SearchIsLeftmost | data/pipelines/rag.py:86-86 | The start pattern is found exactly when it occurs, at its leftmost occurrence |
| AnswerText.SearchStable | data/pipelines/rag.py:96-118 | More input never moves a match that has been found |
| AnswerText.DecodeMonotone | data/pipelines/rag.py:128-154 | A longer encoded text decodes to an extension |
| AnswerText.OutputExtends | data/pipelines/rag.py:96-118 | Output only grows, and after the closing quote never changes again |
| AnswerDecoder.AnswerDeltaDecoder.Feed | data/pipelines/rag.py:96-118 | Emits exactly what the new text adds to the output of everything fed so far, nothing after the closing quote |
| AnswerDecoder.AnswerDeltaDecoder.ScanAnswer | data/pipelines/rag.py:104-117 | Collects the text up to the first unescaped quote |
| AnswerDecoder.AnswerDeltaDecoder.QuoteIsEscaped | data/pipelines/rag.py:120-126 | The backward parity of backslashes is the left-to-right escape flag |
| AnswerDecoder.AnswerDeltaDecoder.DecodeCompletePrefix | data/pipelines/rag.py:128-154 | Decodes up to the first incomplete or invalid escape |
| AnswerDecoder.RelayAnswer | data/pipelines/rag.py:472-489 | The concatenated emissions are a function of the concatenated input, for every way of cutting it |
| AnswerDecoder.CutIndependence | data/pipelines/rag.py:472-489 | Any two ways of cutting one text relay the same answer |
| AnswerRoundTrip.AnswerRoundTrips | data/pipelines/rag.py:83-154 | Any legal JSON spelling of a text after the first answer key is emitted as exactly its code units, and nothing after the closing quote |
| OpenAnswer.OpenAnswerIsPrompt | data/pipelines/rag.py:96-154 | An answer still open has been emitted up to its last complete token, whatever part of an escape, or no escape at all, follows it |
| OpenAnswer.StreamedSoFar | data/pipelines/rag.py:96-154 | In particular with nothing after the last token or any part of a next one |
| OpenAnswer.AnyLayoutStartsTheAnswer | data/pipelines/rag.py:86-86 | The first answer key is found at its place in every JSON layout of white space around the colon |
| AnswerRoundTrip.HexDigitsDenote | data/pipelines/rag.py:139-148 | The hexadecimal digits of both cases are read as their positional value, and no others are accepted |
| AnswerRoundTrip.EveryTextHasASpelling | data/pipelines/rag.py:128-154 | Every text has a legal spelling, so the round trip leaves none out |
| AnswerRoundTrip.EmitsCharactersUnlessPaired | data/pipelines/rag.py:128-154 | The emitted code units are the characters of section 7 of RFC 8259 iff no surrogate pair is escaped |
| AnswerRoundTrip.SurrogatePairIsNotJoined | data/pipelines/rag.py:139-148 | A concrete escaped pair that comes out as two lone surrogates |
| SessionRuns.FamiliesAreChains | services/identity/identity/service.py:220-245 | In every reachable state each session is rotated from the family member just before it, a family has one user and only its last session can be live, and no session is rotated twice |
| SessionRuns.ReuseIsFinal | services/identity/identity/service.py:226-228 | Once a revoked or expired token has been presented its family has no live session in any later state (section 4.14.2 of RFC 9700) |
| SessionRuns.ReuseKillsTheFamily | services/identity/identity/service.py:220-245 | Presenting a spent token fails and leaves its family without a live session |
| SessionRuns.RefreshOutcome | services/identity/identity/service.py:220-245 | A refresh succeeds iff the session is live, unexpired and its user active; it then retires it and adds the one live successor |
| SessionRuns.LogoutEndsTheSession | services/identity/identity/service.py:248-253 | Logging out ends the presented session and touches no other |
| SessionRuns.ChangeKeepsOnlyTheCurrentSession | services/identity/identity/service.py:256-291 | A change of password needs the current one and revokes all of the user's sessions but the presented one |
| SessionRuns.OnlyNewestResetIsUsable | services/identity/identity/service.py:429-446 | At most the newest reset token of a user is usable |
| SessionRuns.ResetWorksOnce | services/identity/identity/service.py:341-372 | After any attempt with a reset token every later attempt with it is refused and changes no password or session |
| SessionRuns.ResetRevokesEverything | services/identity/identity/service.py:341-372 | A successful reset spends every reset token and revokes every session of its user |
| IdentityOutcomes.LoginOutcome | services/identity/identity/service.py:199-217 | A login succeeds iff the account is active and the password right; it then adds one live session of a new family, otherwise nothing changes |
| IdentityOutcomes.LoginCanBeRefreshed | services/identity/identity/service.py:199-245 | The token of a login can be refreshed iff it has not expired |
| IdentityOutcomes.RefusedRefresh | services/identity/identity/service.py:220-245 | What exactly a refused refresh revokes |
| IdentityOutcomes.ResetOutcome | services/identity/identity/service.py:341-372 | A reset is accepted iff the token is unused and unexpired and its user active; it then changes exactly that user's password, sessions and tokens, otherwise no password or session |
| IdentityOutcomes.RequestedResetWorks | services/identity/identity/service.py:341-446 | A requested reset can be used iff it has not expired and the account is active |
| IdentityOutcomes.ResetPasswordLogsIn | services/identity/identity/service.py:199-372 | After a reset the new password logs the user in and no other does |
| IdentityOutcomes.RevokeAllOutcome | services/identity/identity/service.py:375-376 | Ends exactly the user's sessions |
| IdentityService.SessionTable.RevokeUserSessions | services/identity/identity/repository.py:186-192 | Revokes every session of the user but the excepted one |
| IdentityService.SessionTable.CleanupExpired | services/identity/identity/repository.py:195-204 | Revokes exactly the live sessions that have expired |
| IdentityService.ResetTable.InvalidateUserTokens | services/identity/identity/repository.py:240-246 | Uses up every token of the user |
| IdentityService.AuthService.Login | services/identity/identity/service.py:199-217 | The step-by-step login is the specified one: credentials of an active account start a fresh family |
| IdentityService.AuthService.Refresh | services/identity/identity/service.py:220-245 | The step-by-step refresh is the specified one |
| IdentityService.AuthService.Logout | services/identity/identity/service.py:248-253 | The step-by-step logout is the specified one |
| IdentityService.AuthService.CreateResetToken | services/identity/identity/service.py:429-446 | Uses up expired tokens and the user's outstanding ones, then adds the new one |
| IdentityService.AuthService.RevokeAllForUser | services/identity/identity/service.py:375-376 | Revokes every session of the user |
| IdentityService.AuthService.ChangePassword | services/identity/identity/service.py:256-291 | The step-by-step change of password is the specified one |
| IdentityService.AuthService.ResetPassword | services/identity/identity/service.py:341-372 | The step-by-step reset is the specified one |
| Backfill.BackfillHistory | services/central-api/scripts/operations_feed.py:130-186 | Every SKU gets its receipt and departures on each past day and nothing else is written, and for every outcome of the draws every place has non-negative stock at every instant, and the running balances are what the written ledger adds up to |
| Backfill.FillOneDay | services/central-api/scripts/operations_feed.py:144-180 | One day of every SKU is written in full and every place stays covered |
| Backfill.FillDay | services/central-api/scripts/operations_feed.py:146-180 | One SKU's day, a receipt between six and ten and one to three departures between eleven and twenty in any order of time, each of at most half the stock, keeps stock non-negative at every instant and leaves every other place alone |
| Backfill.DepartureKeepsCover | services/central-api/scripts/operations_feed.py:160-180 | A departure after the receipts of the day, no larger than the running balance, is covered at every instant |
| BlockGrouping.ChunksAreTheDocument | data/process/rag.py:106-125 | The chunks in order are the blocks in order, each exactly once |
| BlockGrouping.ChunksStartAndEndProperly | data/process/rag.py:106-125 | No chunk but the first starts with a list, and a one-block chunk ending in a colon can only be the last |
| BlockGrouping.GroupingIsUnique | data/process/rag.py:106-125 | The rules for joining and ending chunks leave exactly one grouping of a document |
| BlockGrouping.GroupBlocks | data/process/rag.py:106-125 | The loops terminate with that grouping |
| BlockGrouping.ChunkDocument | data/process/rag.py:159-179 | Chunks are numbered from zero without gaps and contain the whole document; an empty document is refused |

## Left out

- QueueStore.Store.ClaimNext: does not model row locks that skip locked rows; the unique index on running rows is the test that no other row runs.
- QueueStore.Store.RecordAttempt: does not model the error type, build identifier and metrics columns.
- RollupStore.Store.ActivateReconciledRollups: the returned row counts are not part of its contract.
- WeeklyReport.CountSource: loops source by source where the original loops over one dictionary of counters; the counters are kept per source.
- DirectExecutor.DirectSqlExecutor: one worker without interference from others; interleavings are the subject of `ExecutorRuns` and `Publication`.
- ExecutorRuns.SucceededRunsHavePublished: the ownership test between stages may be skipped in the model, which only adds behaviours; the renewal thread is extra heartbeats and an abort flag.
- Pruner.Job.DeleteInBatches: the clock is the number of its readings that come before the deadline; sleeping is not modelled.
- Backfill.BackfillHistory: the ledger it writes is taken on its own, as the running balances of the original start from zero.
- BlockGrouping.ChunkDocument: titles, sections, jurisdictions and the joining of block texts are not modelled; a block knows whether it is a list and whether it ends in a colon.
- IdentityService.AuthService.Login: the account an e-mail address belongs to is an argument; access tokens, cookies and hashing are not modelled.
- LiveLedger.ReachableInv: SKUs are fixed over a history; rows may appear and go.
- Enqueueing policies (schedules, coalescing of manual requests, target weeks) and worker heartbeat rows.
- The manual reconciliation command and the reset bookkeeping of incomplete weeks.
- Numeric rounding of the stored discrepancy rate: rates are reals.
- Type checks of raw activity inputs beyond absent or mistyped fields, and the digest of source content.
- SKUs created during a prune history, rows inserted out of identifier order, and events of old dispatches filed between the nights of a prune.
- Reset purposes: both valid purposes behave alike, and no other is ever stored.
- Expiry strings: instants are compared as instants.
- Advisory locks, threads, connection retries and statement timeouts, beyond the steps they cause.
- OAuth codes, user administration, sales forecasting, dispatch calendars, supplier and incident code, retrieval, embeddings and all user interfaces: one-path code, input filters or foreign services.
