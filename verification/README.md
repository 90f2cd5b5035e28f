# Verified model of the platform core

A Dafny 4.11 model of the parts of the platform whose correctness is hardest to see from the code: the PostgreSQL
job queue and event outbox, the launch reset, mixed-direction text on PDFs, local days and months, idempotent
replay, session refresh chains with their cache, and money rounding. `dafny verify dfyconfig.toml` checks all of it.

## How it is organised

| file | what it models |
|---|---|
| `Common.dfy` | Option, Result, Min, Max |
| `QueuePolicy.dfy` | retry policies of the queues |
| `QueueRows.dfy` | rows of `queue_jobs`, the SQL statements on them, and `JobTable`, which changes them in place |
| `QueueRuns.dfy` | the queue as a protocol: workers, runs, heartbeats, sweeps and manual retries in any interleaving |
| `QueueSafety.dfy` | fencing, one ending per claim, bounded attempts, termination, once-jobs, backoff |
| `QueueTiming.dfy` | timed mutual exclusion |
| `QueueRetry.dfy` | when a manual retry keeps the fence, and when it keeps handlers apart, both exactly; two runs of the queue as examples |
| `WorkerLoop.dfy` | `poll` / `kick` and the outbox `tick`: wake-ups and the concurrency bound |
| `Outbox.dfy` | events, their move into the queue and their fan-out to consumers, over the whole queue protocol |
| `DeleteOrder.dfy` | the order of the deletes over the foreign-key graph, refused exactly on hard cycles and otherwise the only one there is |
| `ForeignKeys.dfy` | rows, foreign keys, DELETE and TRUNCATE under referential actions, and exactly when a DELETE fails |
| `LaunchReset.dfy` | planning checks, the TRUNCATE and the ordered DELETEs, the final checks, and exactly when a plan succeeds |
| `ResetExamples.dfy` | two resets whose planning passes and whose DELETE fails |
| `BidiOrder.dfy` | runs, visual order and what the page shows, against rules L2 and L4 of Unicode Standard Annex #9, section 3.4 |
| `WrapLines.dfy` | greedy wrapping: nothing lost, everything fits, fewest lines |
| `ZonedTime.dfy` | local midnights, days and months with clock changes, and `Date.UTC` against a calendar stepped day by day |
| `Idempotency.dfy` | claim, run, store and replay of one idempotency key |
| `SessionGate.dfy` | the refresh chain, the access check and its cache |
| `Money.dfy` | basis points and currency conversion |

Each SQL statement is one atomic step. What the database or the scheduler is free to do (which unlocked rows
`SKIP LOCKED` takes, when a timer fires, which write is lost) is a parameter of the step, so the theorems about runs
hold for every choice. Code that updates state in place is a class or a loop whose contract equates it with a
function and says what that comes to in its own columns or fields; the theorems about runs are about that function. Job histories (`QueueRuns.Sys.hist`), counters of wake-up
requests and `Entry.asOf` are bookkeeping of the model: no branch of the modelled code reads them.

## Where the code and its comments disagree

The model follows the code.

- `src/core/queue/postgresDriver.js:142-146` says the attempt number keeps a run from writing over the run that holds
  the job now. After a manual retry attempts start again at 0, and the fence can then let a stalled run of the same
  worker through (`QueueRetry.RetryBreaksMutualExclusion`). The comment is right as long as each manual retry finds
  every run of the job over, and wrong as soon as one does not (`QueueRetry.RetryKeepsFenceExactly`). Two handlers of
  the job can run at once exactly when a retry finds a run of it that is neither over nor about to end the job for good
  (`QueueRetry.RetryKeepsHandlersApartExactly`).
- `src/core/queue/postgresDriver.js:38-42` and the `once` option of `src/core/queue/index.js:28-30` promise that a
  cut-off job is never run again. One start remains possible: that of the very claim that was swept, when the answer
  of the claiming statement was still on its way (`QueueSafety.OnceNeverStartedAgain`, with the run
  `QueueRetry.OnceJobStartedAfterCutOff`).
- `scripts/launch-reset.js:147-152` says breaking a cycle across a CASCADE or SET NULL key only empties or clears rows
  of a table that is going anyway. The cascade can reach a row that another row still holds with a hard key, and the
  cleared column can be one another key refers to; planning passes and the DELETE fails
  (`ResetExamples.CrossedKeyFails`). The failure rolls back. `LaunchReset.Database.Reset` says for which databases it
  happens, both of these among them (`ResetExamples.TrapIsForetold`).
- `src/core/security/sessionGate.js:21-23` says the cut is immediate on the server that ends a session. A read of the
  database that is still on its way when the cache is emptied is answered, and cached, afterwards
  (`SessionGate.CutIsImmediateExactly`).
- `src/core/middleware/idempotency.js:19-22` promises the stored response. When a handler answers twice, or throws after
  it answered, the response stored need not be the one sent (`Idempotency.ReplayIsFaithful`).
- `src/core/utils/zonedMonth.js:49-50`: taking the offset twice is not enough for every zone. `ZonedTime.DayWindowsHold` says
  exactly for which zones it is; one behind UTC that puts its clock forward at midnight is not among them
  (`ZonedTime.ForwardAtMidnightBehindUtc`). Egypt's rule is (`ZonedTime.MidnightChangesAreGood`).
- `src/core/utils/money.js:41-44` says half up; negative halves go away from zero (`Money.AppliesNearest`).

## Model

| member | source | states |
|---|---|---|
| `QueuePolicy.ExponentialSum` | src/core/queue/queues.js:12 | the first n waits of an exponential queue add up to base * (2^n - 1) |
| `QueuePolicy.ConfiguredDelays` | src/core/queue/queues.js:8-30 | the waits of each of the eight queues, in milliseconds, and that notifications alone gives up on a client error |
| `QueueRows.JobTable.Add` | src/core/queue/postgresDriver.js:89-114 | an unknown queue changes nothing; a taken dedupe key adds nothing and says so; otherwise one pending row is added, never tried, due after its delay or at once, with one attempt more than there are delays |
| `QueueRows.JobTable.Claim` | src/core/queue/postgresDriver.js:125-140 | the rows taken are unlocked, pending, due and of these queues, none left in line is earlier and any is left only by the limit; they become active under this worker with one attempt more, nothing else changes, and their snapshots pass the fence |
| `QueueRows.JobTable.Renew` | src/core/queue/postgresDriver.js:182-186 | moves the lock time of the row this worker and attempt hold, and nothing else |
| `QueueRows.JobTable.Finish` | src/core/queue/postgresDriver.js:150-177 | on a held row alone: a success completes it; a failure that another attempt may mend puts it back due just that attempt's delay later, any other fails it, with the first 2000 characters of the message |
| `QueueRows.JobTable.ReleaseStale` | src/core/queue/postgresDriver.js:209-247 | every active unlocked row silent for longer than the window is failed (a job that may not run twice, or attempts used up, two more when resumable) or put back, and no other row changes; returns those it failed |
| `QueueRows.JobTable.RetryJob` | src/core/queue/postgresDriver.js:408-418 | a failed row goes back in line at once with no attempts; any other row is left alone |
| `QueueRows.JobTable.Prune` | src/core/queue/postgresDriver.js:421-429 | removes exactly the completed rows and the failed rows older than their own limit |
| `QueueRows.AddKeepsRowsOk` | src/core/queue/postgresDriver.js:89-109 | adding keeps every row well-formed and dedupe keys unique |
| `QueueRows.ClaimKeepsRowsOk` | src/core/queue/postgresDriver.js:128-138 | so does claiming |
| `QueueRows.SweepKeepsRowsOk` | src/core/queue/postgresDriver.js:216-230 | so does sweeping |
| `QueueRuns.StepKeepsInv` | src/core/queue/postgresDriver.js:89-247 | every step of any worker keeps the columns of a row in agreement with the history of its claims, endings and retries |
| `QueueRuns.AttemptIsUnique` | src/core/queue/postgresDriver.js:142-148 | two claims of a job with no manual retry between them never carry one attempt number |
| `QueueSafety.FenceExact` | src/core/queue/postgresDriver.js:147-148 | in every reachable state the fence passes for exactly the runs with the worker and attempt of the latest claim, while nothing has ended it |
| `QueueSafety.FencingSinceRetry` | src/core/queue/postgresDriver.js:142-177 | for a job not retried by hand since a run claimed it, the fence passes for that run exactly when its own claim is the latest and still open |
| `QueueSafety.FencingWithQuietRetries` | src/core/queue/postgresDriver.js:142-177 | while manual retries of the job find its runs over, that holds of every run that is not over |
| `QueueSafety.OnlyTheHolderWrites` | src/core/queue/postgresDriver.js:150-186 | with such retries an outcome that changes the table comes from the run whose claim is the latest and open; so does a heartbeat, unless the run is over, and it only moves the lock time; no other row changes |
| `QueueSafety.EachClaimEndsOneWay` | src/core/queue/postgresDriver.js:150-247 | with such retries each claim is still active, or swept, or ended by the outcome of its own run, exactly one of them |
| `QueueSafety.OutcomeIsRecorded` | src/core/queue/postgresDriver.js:150-177 | in every run, what is recorded is what the run's own handler ended with: completed on success, back in line exactly the delay later on a failure another attempt may mend, else failed; and nothing when the row is no longer held |
| `QueueSafety.CompletedMeansSuccess` | src/core/queue/postgresDriver.js:150-177 | an outcome in a job's history was recorded by a run whose handler ended so, as completed exactly when it succeeded |
| `QueueSafety.LateHeartbeatsLand` | src/core/queue/postgresDriver.js:179-186 | a heartbeat may land at any time after its handler started, also when it has ended, and moves the lock of the row the run still holds |
| `QueueSafety.OnlyOldJobsArePruned` | src/core/queue/postgresDriver.js:421-429 | pruning is a step of the protocol too, with the same effect |
| `QueueSafety.AttemptsBounded` | src/core/queue/postgresDriver.js:125-177 | in every reachable state attempts are within bounds (two more when resumable), a pending job is strictly below them, locked means active, finished_at means over |
| `QueueSafety.DedupeKeysStayUnique` | src/core/queue/postgresDriver.js:94 | two rows never share a dedupe key |
| `QueueSafety.EveryStepCostsAnAttempt` | src/core/queue/postgresDriver.js:125-247 | every step but a manual retry leaves a row alone, renews its lock, or lowers (attempts left, active) |
| `QueueSafety.ClaimsAreFinite` | src/core/queue/postgresDriver.js:125-247 | without a manual retry a job's history of claims and endings is bounded by its attempts |
| `QueueSafety.OnceNeverStartedAgain` | src/core/queue/postgresDriver.js:206-247 | after a sweep cuts off a once-job, declared resumable or not, and until a manual retry, it stays failed and is reported once; its handler can be started exactly by the run of the swept claim, and only if that run had not started |
| `QueueRetry.OnceJobStartedAfterCutOff` | src/core/queue/postgresDriver.js:206-247 | a concrete run of five steps in which that start happens |
| `QueueSafety.RetryDelayInRange` | src/core/queue/postgresDriver.js:160-168 | the index into the delays is in range at every retry, so neither fallback is used |
| `QueueSafety.NeverBeforeItsDelay` | src/core/queue/postgresDriver.js:89-138 | no attempt of a job ever starts before the delay it was added with is over |
| `QueueSafety.AttemptsAreSpacedOut` | src/core/queue/postgresDriver.js:160-168 | a job that failed only by its own errors starts attempt n at least the first n - 1 delays after its first |
| `QueueSafety.LastAttemptOfExponentialQueue` | src/core/queue/queues.js:12-30 | on an exponential queue the last attempt starts at least base * (2^n - 1) after the first |
| `QueueSafety.LastAttemptAsConfigured` | src/core/queue/queues.js:14-30 | as the queues are configured, the last attempt starts at least the sum of the queue's waits after the first |
| `QueueSafety.ConfiguredWaits` | src/core/queue/queues.js:14-30 | those sums: 75 s for events, 225 s notifications, 90 s pixels, 450 s carriers, 32 h 36 min webhooks, 30 s ai and default, 0 io |
| `QueueTiming.FourHeartbeatsFit` | src/core/queue/postgresDriver.js:23 | with a stale window of 10 s or more four heartbeat periods fit in it, four longer ones would not, and past four minutes it is one a minute |
| `QueueTiming.LiveRunsHold` | src/core/queue/postgresDriver.js:179-247 | while one of every so many heartbeats lands in time, and manual retries of the job find its runs over, a live run holds its job and its row is never stale |
| `QueueTiming.LiveRunsAreGuarded` | src/core/queue/postgresDriver.js:125-247 | while heartbeats land so, and each manual retry of the job finds its runs over or about to end the job for good, a live run holds its job or the job is over; no later claim of it exists |
| `QueueTiming.MutualExclusion` | src/core/queue/postgresDriver.js:125-247 | then two handlers never run at once for one job |
| `QueueTiming.MutualExclusionAsConfigured` | src/config/env.js:911 | with the configured minimum: one punctual heartbeat in four is enough, or one in three a whole period late |
| `QueueRetry.RetryKeepsFenceExactly` | src/core/queue/postgresDriver.js:408-418 | a manual retry keeps the fence, however the system goes on, exactly when it finds every run of the job over |
| `QueueRetry.UnquietRetryBreaksTheFence` | src/core/queue/postgresDriver.js:408-418 | from any reachable state where it does not, a continuation in which a run passes the fence over a later claim |
| `QueueRetry.RetryKeepsHandlersApartExactly` | src/core/queue/postgresDriver.js:408-418 | a manual retry never lets two handlers of the job run at once, however the system goes on from it with heartbeats on time and no further retry of the job, exactly when each run of the job it finds is over or about to end the job for good |
| `QueueRetry.RetryUnderALiveRun` | src/core/queue/postgresDriver.js:408-418 | from any reachable state with a live run, a continuation on time in which the retried job has a second handler |
| `QueueRetry.RetryUnderAnOutcome` | src/core/queue/postgresDriver.js:142-177 | the same from a run whose outcome, still on its way, would put the job back in line |
| `QueueRetry.RetryBreaksMutualExclusion` | src/core/queue/postgresDriver.js:408-418 | a concrete run of ten steps in which a manual retry lets two handlers of one job run at once, every heartbeat on time |
| `WorkerLoop.InFlightIsBounded` | src/core/queue/postgresDriver.js:179-271 | the jobs counted in flight are the claimed ones less those done, and never exceed the concurrency, on any interleaving |
| `WorkerLoop.ClaimsFillTheSlots` | src/core/queue/postgresDriver.js:249-262 | a claim asks for exactly the slots no running handler takes |
| `WorkerLoop.NoLostWakeUp` | src/core/queue/postgresDriver.js:249-271 | whenever the started loop is idle with nothing scheduled, a pass began at or after every kick, timer tick, end of a job and start; with a slot free, one that asked for jobs, unless it threw |
| `WorkerLoop.StoppedBeginsNothing` | src/core/queue/postgresDriver.js:249-253 | a stopped loop begins no pass |
| `WorkerLoop.PollLoop.Poll` | src/core/queue/postgresDriver.js:249-256 | a poll while one is in progress asks for another; otherwise it starts a pass and clears the request |
| `WorkerLoop.PollLoop.OnClaimed` | src/core/queue/postgresDriver.js:258-266 | the claimed jobs start, and a request made during the pass schedules the next |
| `WorkerLoop.NoLostDispatch` | src/core/outbox/outbox.js:161-182 | whenever the running dispatcher is idle with nothing scheduled, a dispatch began at or after every kick, interval and start |
| `WorkerLoop.DispatchGoesOn` | src/core/outbox/outbox.js:161-177 | a dispatch goes on exactly while batches of 100 come back |
| `WorkerLoop.DispatchLoop.Tick` | src/core/outbox/outbox.js:161-177 | a tick during a dispatch asks for another; otherwise it starts one |
| `WorkerLoop.DispatchLoop.OnBatch` | src/core/outbox/outbox.js:169-176 | goes on while batches come back full, and then schedules what was asked for |
| `Outbox.ConsumersForIsSubscribed` | src/core/outbox/outbox.js:33 | gives exactly the registered consumers that are for every event or list its type, each once |
| `Outbox.Registry.RegisterConsumers` | src/core/outbox/outbox.js:22-26 | appends, in order, each consumer whose name neither a registered one nor an earlier one of the list has; names stay distinct |
| `Outbox.KeysAreInjective` | src/core/outbox/outbox.js:144-207 | the dedupe keys of different events, or of different consumers of one event, never coincide |
| `Outbox.EventTable.DispatchPending` | src/core/outbox/outbox.js:130-159 | adds one dispatch job for each event of the batch, in order, and marks exactly those |
| `Outbox.OutboxStepKeepsInv` | src/core/outbox/outbox.js:130-208 | recording, dispatching, fanning out one consumer at a time, and every queue step keep each job explained by an event and each mark by a job |
| `Outbox.QueuedExactlyOnce` | src/core/outbox/outbox.js:130-159 | in every reachable state an undispatched event has no dispatch job, and a dispatched one exactly one, of the events queue and with its id |
| `Outbox.ConsumerJobsAreSubscribed` | src/core/outbox/outbox.js:195-208 | a consumer job of an event hands it to a consumer of that name which is for every event or lists its type, and no consumer has two, whatever crashes and retries |
| `Outbox.FannedOutWhenCompleted` | src/core/outbox/outbox.js:195-208 | once the dispatch job completed a registered consumer has exactly one job if it is for every event or lists its type, and none otherwise |
| `Outbox.EventsKeepTheirType` | src/core/outbox/outbox.js:130-208 | an event keeps the type and time it was recorded with |
| `DeleteOrder.Order` | scripts/launch-reset.js:153-173 | the loop computes the specified order, or the tables it is stuck on |
| `DeleteOrder.OrderRefusesExactlyOnHardCycles` | scripts/launch-reset.js:147-173 | refuses exactly when RESTRICT or NO ACTION keys between different listed tables contain a cycle; otherwise each table once, every such key's child before its parent |
| `DeleteOrder.OrderGoesInRounds` | scripts/launch-reset.js:153-173 | the order goes in rounds: by name, all tables nothing left points at; or, when something left points at each, the first by name that no hard key left points at |
| `DeleteOrder.RoundsGiveOneOrder` | scripts/launch-reset.js:153-173 | there is only one such order |
| `DeleteOrder.CrossedKeysComeFromCycles` | scripts/launch-reset.js:157-163 | a key the order crosses is soft and its parent is reached from a cycle, so with no cycle none is crossed |
| `LaunchReset.Database.MakePlan` | scripts/launch-reset.js:280-352 | planning passes exactly when users alone is keep-creator, every table is classified and decided, one account has the role creator, no kept row refers to a deleted one, hard keys form no cycle and no key reaches into the truncated tables; the plan keeps that account and lists each table once, hard keys respected; each refusal comes only for its reason |
| `ForeignKeys.ReachedIsLeast` | scripts/launch-reset.js:362-367 | what a DELETE cascades to is the least set closed under cascading |
| `ForeignKeys.DeleteFailsExactly` | scripts/launch-reset.js:362-367 | among rows only each other refer to, a DELETE fails exactly when a row it does not reach holds one it reaches by a hard key, or refers to a column it clears, or an early check finds one about to go |
| `ForeignKeys.KeysHoldExactly` | scripts/launch-reset.js:147-163 | once rows closed under cascading are gone and SET NULL columns cleared, every key holds exactly when no row that stays is held by a hard key or refers to a cleared column |
| `ForeignKeys.SurvivorsTwice` | scripts/launch-reset.js:362-367 | removing rows in two steps leaves the database one step would |
| `ForeignKeys.DeleteAfter` | scripts/launch-reset.js:362-367 | a DELETE after others, told from the database before them all: when it fails and what it leaves |
| `LaunchReset.Database.DeleteFrom` | scripts/launch-reset.js:362-367 | what a cascade reaches goes and nothing else; of the survivors a column is null or its default exactly when a SET NULL or SET DEFAULT key it belongs to loses its parent; every key holds; a failure changes nothing and comes exactly when a hard key holds a row back or a row that stays refers to a cleared column |
| `LaunchReset.Database.Execute` | scripts/launch-reset.js:358-384 | on a database whose keys hold, with only SET NULL keys crossed, no statement fails and the result is the promised database; with plain keys, whatever CASCADE and SET NULL keys are crossed and referred to, no statement fails exactly when no table gets stuck, and then the result is the promised one |
| `LaunchReset.Database.Reset` | scripts/launch-reset.js:279-395 | a refusal, for its reason, or failure leaves every row as it was; success keeps the one account with the role creator and gives the promised database; a passed plan under the first condition never fails, and under the second commits exactly when no table gets stuck, which the database before the reset decides |
| `LaunchReset.NoHardKeyNeverStuck` | scripts/launch-reset.js:147-173 | with no hard key between deleted tables, and no SET NULL key on a column referred to, none gets stuck, whatever cascades |
| `LaunchReset.DeleteStep` | scripts/launch-reset.js:362-367 | each DELETE in the order succeeds, changes no kept row, and leaves every key satisfied |
| `LaunchReset.ChecksAreExact` | scripts/launch-reset.js:369-384 | the checks before COMMIT pass exactly on the promised database |
| `LaunchReset.NoCycleNothingCrossed` | scripts/launch-reset.js:147-173 | with no cycle among the deleted tables the plan is safe to run |
| `ResetExamples.CrossedKeyFails` | scripts/launch-reset.js:147-173 | two concrete databases where every key holds, every check passes and a DELETE fails: after crossing a CASCADE key, and after crossing a SET NULL key whose column is referred to |
| `ResetExamples.TrapIsForetold` | scripts/launch-reset.js:147-173 | both have plain keys, and the condition on the database before the reset says of both that a table gets stuck |
| `BidiOrder.LogicalRuns` | src/core/pdf/bidiText.js:62-78 | the drawn characters in order, cut exactly where level or font changes, each run with its true start; bidi controls dropped |
| `BidiOrder.OnlyControlsAreDropped` | src/core/pdf/bidiText.js:41-67 | the eleven bidi controls are never drawn; every other character is, with its level, after those before it |
| `BidiOrder.ArabicBlocks` | src/core/pdf/bidiText.js:36-38 | the Arabic font takes exactly the six Arabic blocks and the two joiners |
| `BidiOrder.VisualOrder` | src/core/pdf/bidiText.js:82-99 | the nested loops that splice stretches in place compute the specified descent |
| `BidiOrder.ExtraLevelsCancel` | src/core/pdf/bidiText.js:85-86 | passes below the lowest odd level present come in pairs that undo each other |
| `BidiOrder.DescendToMinOddIsL2` | src/core/pdf/bidiText.js:80-98 | stopping at the least of the levels rounded up to odd gives what rule L2 gives |
| `BidiOrder.VisualOrderIsL2` | src/core/pdf/bidiText.js:80-99 | reordering runs, then reading odd ones backwards, is rule L2 character by character, for any levels and any cut into runs |
| `BidiOrder.GlyphStringTurnsTheRun` | src/core/pdf/bidiText.js:109-119 | a run comes out in its visual direction exactly when the font lays it out that way, or reversing does not change the font's mind, or it reads the same both ways |
| `BidiOrder.DrawLine` | src/core/pdf/bidiText.js:180-196 | a whole line, from its characters to the page: its runs are the logical runs, drawn in visual order, and with fonts steady on them the page shows rules L2 and L4 |
| `WrapLines.WordAt` | src/core/pdf/bidiText.js:127-130 | words follow each other without gap from the start to the end; within a word spaces come only at its end, and only the first can be all spaces |
| `WrapLines.SpacesAre` | src/core/pdf/bidiText.js:127-135 | the characters that break words and are trimmed are the white space and line terminators of ECMAScript |
| `WrapLines.WrapLines` | src/core/pdf/bidiText.js:123-153 | lines are disjoint increasing ranges with spaces alone outside them, none wider than the line but single characters; for a plain text they hold whole words and none fewer is possible |
| `WrapLines.CutWord` | src/core/pdf/bidiText.js:142-148 | a word is cut into pieces that fit, and not at all when it fits |
| `WrapLines.GreedyIsOptimal` | src/core/pdf/bidiText.js:121-153 | breaking only before a word that does not fit uses the fewest lines of any way to break between words |
| `ZonedTime.DayWindowsHold` | src/core/utils/zonedMonth.js:65-77 | `dayWindow(now)` contains `now` for every `now` exactly when each change of the clock is well placed against midnight |
| `ZonedTime.MidnightNear` | src/core/utils/zonedMonth.js:46-54 | what the two steps of `zonedMidnight` give around a change |
| `ZonedTime.GoodDaySplits` | src/core/utils/zonedMonth.js:46-54 | the computed start of such a day splits time: an instant is at or after it exactly when its local clock is at or after midnight of that day |
| `ZonedTime.BadMidnight` | src/core/utils/zonedMonth.js:46-54 | a badly placed midnight puts some instant of the day before or after on the wrong side |
| `ZonedTime.DaysTile` | src/core/utils/zonedMonth.js:65-77 | `dayWindow` of an instant holds exactly the instants of its local day; starts increase, windows meet |
| `ZonedTime.MissingMidnight` | src/core/utils/zonedMonth.js:46-54 | a day whose midnight is skipped starts at the change itself |
| `ZonedTime.MidnightChangesAreGood` | src/core/utils/zonedMonth.js:3-8 | zones not behind UTC whose clock changes at local midnight, Egypt's among them, are well placed |
| `ZonedTime.ForwardAtMidnightBehindUtc` | src/core/utils/zonedMonth.js:46-77 | a concrete zone behind UTC whose window leaves out an instant of its day |
| `ZonedTime.OffsetMsIsOffset` | src/core/utils/zonedMonth.js:39-44 | the offset read off the clock in whole seconds is the zone's offset |
| `ZonedTime.UtcCountsDays` | src/core/utils/zonedMonth.js:39-54 | `Date.UTC` gives the day so many days after 1 January 1970 on the calendar, stepped day by day, that number, before 1970 and after |
| `ZonedTime.ClockThroughUtc` | src/core/utils/zonedMonth.js:39-44 | the date and time of day the clocks show, through `Date.UTC`, are the clock in whole seconds |
| `ZonedTime.MonthsFollow` | src/core/utils/zonedMonth.js:56-63 | the first days of successive months are the month's length apart, leap years included, and months overflow into years |
| `ZonedTime.MonthsTile` | src/core/utils/zonedMonth.js:56-63 | `monthWindow` of an instant holds exactly the instants whose local date is of the same year and month, and ends where the next begins |
| `ZonedTime.MonthWindowsHold` | src/core/utils/zonedMonth.js:56-63 | `monthWindow(now)` contains `now` for every `now` exactly when each month's first midnight is well placed |
| `Idempotency.RunsOnceAndReplaysItsOwn` | src/core/middleware/idempotency.js:34-80 | over every interleaving the handler runs at most once, and a replay goes only to a request with the same body and is a response that run offered |
| `Idempotency.PollAnswers` | src/core/middleware/idempotency.js:46-64 | a poll that finds another body's row refuses the key as reused, one that finds a stored response replays it, anything else is in progress; it goes on exactly while the row is being processed and polls are left |
| `Idempotency.KeysAreForOneBody` | src/core/middleware/idempotency.js:60-62 | in every reachable state the requests refused as key reuse are exactly those answered whose body is not the one the key was first used with |
| `Idempotency.StoredByWrites` | src/core/middleware/idempotency.js:67-79 | the row changes by the insert and by the writes that land, and by nothing else |
| `Idempotency.ReplayIsFaithful` | src/core/middleware/idempotency.js:64-71 | replays equal what was sent, on every interleaving and with writes landing in any order or lost, exactly when all responses offered are alike |
| `Idempotency.TidyHandlersReplayFaithfully` | src/core/middleware/idempotency.js:64-79 | a handler that answers once at most and does not throw after it is replayed faithfully, error answers included |
| `Idempotency.PollForCompletion` | src/core/middleware/idempotency.js:83-90 | returns the first row read that is no longer being processed, of at most `attempts`, else the last one read, and decides as the polling steps do |
| `SessionGate.AcceptsExactly` | src/core/security/sessionGate.js:32-41 | a session is accepted exactly when 49 rotations at most lead to one neither revoked nor expired |
| `SessionGate.EndingTheEndKillsTheChain` | src/core/security/sessionGate.js:15-19 | ending the live end ends the chain, however long it is |
| `SessionGate.DeadStaysDead` | src/modules/auth/authService.js:509-520 | no later sign-in, refresh or ending revives it |
| `SessionGate.DeadIsRefused` | src/core/security/sessionGate.js:32-41 | an ended chain is refused at every instant |
| `SessionGate.EndCutsExactly` | src/modules/auth/authService.js:579-586 | ending sessions refuses exactly the chains that end in one of them |
| `SessionGate.RefreshKeepsTheChain` | src/modules/auth/authService.js:509-520 | after a refresh older tokens of the chain are still good exactly while fewer than 50 rotations lie between |
| `SessionGate.SignInStandsAlone` | src/modules/auth/authService.js:60-75 | a sign-in makes its session good until it expires and changes nothing for any other |
| `SessionGate.Gate.IsActive` | src/core/security/sessionGate.js:43-52 | answers from the cache or from the database, and keeps the answer, dropping the oldest entry of a full cache |
| `SessionGate.FoundExactly` | src/core/security/sessionGate.js:44-45 | the cache answers exactly with the session's entry while it lasts |
| `SessionGate.StoringKeepsCacheOk` | src/core/security/sessionGate.js:49-50 | the cache never exceeds CACHE_MAX, holds one answer a session, and the new one is found |
| `SessionGate.StoringKeepsOthers` | src/core/security/sessionGate.js:48-49 | storing keeps what is kept for other sessions, in its place, but the oldest entry of a full cache |
| `SessionGate.AnswersAreKept` | src/core/security/sessionGate.js:46-51 | a read that comes back is answered and found in the cache for exactly ten seconds |
| `SessionGate.AnswersAreFresh` | src/core/security/sessionGate.js:43-52 | on every interleaving each answer is one the database gave no later than it and no more than CACHE_MS and one read before |
| `SessionGate.CutIsImmediateExactly` | src/core/security/sessionGate.js:65-73 | after the cache is emptied this server never accepts an ended session exactly when no read that found it live is on its way |
| `Money.AppliesNearest` | src/core/utils/money.js:45-56 | the result is the integer nearest to amount * bp / 10000, halves away from zero, and no other integer is |
| `Money.ConvertsNearest` | src/core/utils/money.js:70-78 | the same for an amount times a rate in hundred-millionths |
| `Money.ConversionError` | src/core/utils/money.js:64-78 | a converted amount is off by half a unit and the rate's ninth decimal at most |
| `Money.RoundingIsOdd` | src/core/utils/money.js:45-56 | rounding a negated amount negates the result |
| `Money.RoundingIsMonotone` | src/core/utils/money.js:45-56 | a larger amount never gets the smaller share |
| `Money.ConversionIsMonotone` | src/core/utils/money.js:70-78 | nor the smaller conversion |
| `Money.SplitIsOffByATie` | src/core/utils/money.js:45-56 | two complementary parts differ from the whole by one unit exactly on a tie both round away, otherwise not at all |
| `Money.LinesAgainstTotal` | src/core/utils/money.js:45-56 | rounding n lines and rounding their total differ by (n + 1) / 2 at most |
| `Money.DivisionIsSafe` | src/core/utils/money.js:48-50 | below 2^53 truncating the floating quotient gives the integer quotient |

## Left out

- PostgreSQL, Sequelize, pools and the control connection: each statement is one atomic step; a lost answer or a lost write is a step of its own.
- Retry of a refused control statement on the shared pool, `every` and the schedules, `stats`, `listJobs`, `start` and `stop` waits, and the id format check of `retryJob`: easy members.
- `updated_at`, `workspace_id` and job payloads beyond the event id: no branch reads them.
- `Outbox.FannedOutWhenCompleted`: does not cover pruning; a pruned job frees its dedupe key and a pruned event has no fan-out.
- `Outbox.QueuedExactlyOnce`: does not cover pruning either, nor the inline delivery `record` falls back to when its row cannot be written or under test.
- The Redis driver named in the outbox's comments is not part of this model.
- `QueueTiming.MutualExclusion`: heartbeats are counted in periods from the claim, each at most a stated lateness after its slot; drift beyond that lateness is outside the hypothesis.
- `WorkerLoop.PollLoop.Poll`: a job's end and its kick are one step, and the throttle of the sweep is the free choice whether a sweep runs.
- Arguments, the report, table locks, the dry run and tables outside `public` of the launch reset.
- ON UPDATE actions, NOT NULL, CHECK constraints, triggers and deferred keys: a DELETE fails in the model only by a foreign key.
- `LaunchReset.ChecksAreExact`: a fingerprint is modelled as the rows it is taken of, so that checksums collide is left out.
- `LaunchReset.Database.Execute`: the exact condition is for keys between deleted tables none of which is SET DEFAULT, the columns of a SET NULL key being in no other key of its table. Beyond those only SET NULL crossings of columns no key refers to are covered. What SET DEFAULT points a row at is not planned for.
- `ForeignKeys.DeleteFailsExactly`: PostgreSQL checks RESTRICT and NO ACTION keys alike after the statement's own rows are gone; which checks come before a cascade follows the names of triggers and is left free (`Schema.early`). SET DEFAULT keys among the rows are left out.
- Resolution of bidi levels, fonts, widths and mirror images are given functions; characters are UTF-16 code units, so a surrogate pair is not kept together as `Array.from` does.
- `BidiOrder.DrawLine`: the positions of the runs along the line, alignment and the paragraph split are left out.
- `WrapLines.WrapLines`: optimality needs a text without leading space whose words each fit, and widths that grow with the range.
- Date.UTC's reading of years 0 to 99, years before 1, and instants beyond the range of Date.
- `ZonedTime.DayWindowsHold`: zones whose changes lie less than three days apart or jump a whole day (as at the date line) are outside the model.
- `Idempotency.RunsOnceAndReplaysItsOwn`: the key's row stays; its removal starts the key afresh. A body hash is the body, and each read or write of the row is atomic.
- Users, refresh token hashes, reuse detection and deletion of session rows: a session only loses its right by being revoked, rotated or expiring.
- `closeWhenEnded`, which asks `isActive` on a timer.
- `Money.AppliesNearest`: integers are unbounded; products of 2^53 and more, the refusal of non-integers and -0 are left out.
- `Money.ConversionError`: the rate times 1e8 is taken as a real number, not as a floating one.
- `slugify`, `csvCell`, phone helpers, `redactUrl`, `retry`, permission lists and feature flags: one-function helpers.
- Business modules under `src/modules`, migrations, cryptography and HTTP wiring.
