# A model of the scraper: queue, history, extraction, pools, export

The project models the parts of the scraper whose correctness depends on
interleavings, on whole runs, or on an algorithm meeting an independent
definition, and proves what those parts are for.

| modules | part of the system |
|---|---|
| `Common`, `Jobs`, `Catalogs` | one row of `scrape_jobs` with its guarded updates; products with their observation logs |
| `Stores` | the store's operations one at a time, as a class over two tables |
| `Queue`, `QueueRuns`, `QueueProgress`, `QueueWitnesses` | the same operations as interleaved transactions of many workers: invariant, refinement, what clients sent, fencing, progress, concrete runs |
| `QueueHistories`, `LeaseRuns`, `PruneRuns` | the price history, the lease and the retention over those runs |
| `Leases`, `Workers` | the heartbeat against the stale age; the attempts a worker slot makes with one claim |
| `Histories` | the change-only price history: faithful, small, prunable, readable |
| `PermitPools`, `ScrapeTasks`, `Pacing` | the permit pool, scrape requests over nested pools, the promise chain that spaces requests |
| `JsonScanner`, `JsonSearch`, `Listings` | cutting a JSON object out of a page, finding the item list in it, collecting listings in stages |
| `RateLimiters`, `SearchPolicy` | the fixed-window limiter and the query filter |
| `Exports`, `Medias`, `Money` | the resumable export, the media download and its manifest, cents from decimals |

Code that updates state is written as classes and methods with loops
(`Store`, `PermitPool`, `Pacer`, `RateLimiter`, `ExtractJSONObject`,
`DedupeListings`, `Serve`, ...). Each of these is proved against a function or
predicate, and the lemmas are about that function. Code that many
clients run at once is a `Step` datatype with `Enabled` and `Apply`; a theorem
about runs quantifies over every sequence of steps. In `Queue` one step is one
SQL statement, because a statement that waited for a row lock checks its WHERE
clause again under READ COMMITTED; `epoch` counts the claims of a row and `cut`
is the latest cut of a prune, and both are there only so that theorems can name
them. What a transaction has written is kept as a change (new columns, added
observations), so that a prune under it is seen through it.

`dafny verify dfyconfig.toml` checks everything.

## What the proofs found

- **Completions are fenced, failure reports are not always.** There is no
  fencing token, and none is needed for a completion: it holds the row lock from
  its ownership test on. A `FailJob` whose caller gave up waiting can still
  reach the server after the job went stale and the same claim id took it
  again, and then it fails the new claim (`LateFailureHitsNewClaim`). It cannot
  happen while a claim id does not take a job that still has a failure report
  of that claim id under way, and a claim keeps all reports fenced exactly when
  it respects that (`QuietIsExact`).
- **Three missed refreshes.** A stale age of at least three intervals does not
  tolerate two failed refreshes in a row unless the delays of the refreshes fit in what the
  age exceeds three intervals by. `LeaseRule` is the exact rule:
  (failures + 1) * interval + delay <= age.
- **History is faithful exactly when times increase.** An observation carries
  the start time of its transaction. Two completions that overlap can commit in
  the other order than they began, and then the history never shows what the
  earlier one saw (`OverlapHidesObservation`). For every sequence of times,
  faithfulness for all values holds if and only if the times strictly increase.
  `QueueHistoryIsFaithful` carries this over to the queue's runs, and
  completions of one product that do not overlap always qualify
  (`ApartMeansIncreasing`).
- **A history lacks its first day.** A stored entry stands for what is seen up to
  a day later, so a prune, or the window of a history request, can drop the entry
  and keep the time. With the same values seen at time 0 and an hour later, a
  prune or a window that begins in between shows nothing at all
  (`CutHidesObservation`), although the second observation is inside the 60 days
  that the documentation promises (`README.md:50`). An observation stays readable
  exactly if its covering entry does (`CoverageAfterPrune`, `CoverageInPoints`),
  and everything from a day less a microsecond after the cut does, in every run
  with increasing times (`RecentIsShown`).
- **A retention bounds how long a completion may stay open.** A completion that
  has found an entry to repeat adds none, and a prune before its commit can delete
  that entry. All runs are serial, prunes included, exactly for the retentions that
  exceed by a day (less a microsecond) the time from a completion's start to the
  last prune before its commit (`SerialExactly`). `RETENTION_DAYS=1` leaves one
  microsecond for that.
- **A commit whose answer is lost lands all the same.** `CompleteJob` then
  returns an error with the completion in the tables, and a shutdown at that
  moment leaves it there. The failure report that the worker sends instead
  changes nothing (`ReportAfterCommitIsVoid`, `LostAnswerMayLand`).
- **Pauses can shrink.** With its jitter a later retry pause can be shorter than
  an earlier one, by less than half a second; `PauseCanShrinkExactly` says when.
- **Staged extraction** equals one pass over all sources if and only if cutting
  the two structured sources to the limit loses no product (`NothingLost`);
  `RepeatLosesProduct` is a page that does, and sources that list each product
  once always qualify. A limit below one still lets one listing through
  `dedupe`; the request validator excludes it.
- **A cancelled export can look fine.** Cancelled from outside before it has sent
  a page, `ExportArticles` returns no error and leaves the files as they were. So
  with such cancellations allowed, a return without an error tells that all
  pages are on disk if and only if they all were before
  (`CompleteAnywayExactly`). The counters tell the difference.
- **`downloaded` can exceed the files added.** `os.Stat` and `os.Rename` are two
  calls. Two workers with one content under two URLs can both find nothing and
  both rename: two downloads counted, one file (`TwinsCountTwice`). The counter
  is exact in every run from a given start if and only if there is one worker or
  no two URLs that will be asked for share a content that is not there yet
  (`CountsExactlyWhen`).
- **A manifest record counts from its newline on.** From any reachable state, no
  later resumed run can fetch a URL if and only if its success stands in a line
  that has its newline (`NeverAgainExactly`). A record that a crash cut off just
  before its newline is honoured by the next run, but the first record appended
  after it spoils it, and is lost with it; nothing else is (`SuccessIsListed`,
  `OneIsSpoiled`). The documentation (`docs/ziz-migration.md:29`) says that
  successful media already present is skipped. The same line says that article
  chunks already present are skipped; the code fetches the last of several pages
  again, and the model follows the code.

## Hypotheses

Claim ids are unique per live worker slot (one `WORKER_ID` per process). Clocks
do not run backwards, and a delay lasts at least as long as requested. Any
transaction may roll back at any point, and a commit or a rename is atomic.
When two observations of a product have the same time, SQL leaves the latest
one open; the model takes the one stored later. Times are whole microseconds.

A transaction's now() may lie before the moment it gets its row lock, so a
completion or a claim may wait between the two. The claim query, however, takes
its snapshot and locks its row in one moment: a job that is requeued between the
two can be passed over. `QueueRuns.OldestFirst` holds under that reading. The
prune statement deletes in one moment; its now() may lie later than the start of
a completion that is still open.

The database session's time zone has no clock changes, so that the days of a
prune and of a history request are 24 hours long, as the interval that recording
compares with is. `Histories.RetentionIsExact` is about a span of any length;
across a clock that is turned forward, a retention of one day is too short and
two are enough (`Histories.RetentionOfOneDayIsExact`).

## Model

| member | source | states |
|---|---|---|
| `Stores.Store.CreateJob` | internal/store/store.go:111-120 | adds one queued row with what was asked for and by whom, and changes nothing else |
| `Stores.Store.ClaimJob` | internal/store/store.go:178-209 | takes the first queued row no other transaction has locked, one of the highest priority and among those of the greatest age, and finds none only if there is none |
| `Stores.Store.RefreshJobClaim` | internal/store/store.go:214-226 | renews the lease of a row the caller owns; otherwise reports the claim lost and changes nothing |
| `Stores.Store.CompleteJob` | internal/store/store.go:230-323 | all or nothing: an owner's completion applies every listing and the row update, or nothing when a statement fails; only an error in the answer to the commit leaves both possible; and the claim is reported lost exactly for a caller that does not own the row |
| `Stores.ReportAfterCommitIsVoid` | cmd/worker/main.go:139-141 | a failure report after a commit whose answer was lost changes nothing |
| `Stores.Store.FailJob` | internal/store/store.go:325-339 | fails a row the caller owns; otherwise reports the claim lost and changes nothing |
| `Stores.Store.RequeueStaleJobs` | internal/store/store.go:341-352 | requeues exactly the stale running rows, counts them, and leaves none stale |
| `Stores.Store.PruneHistory` | internal/store/store.go:417-423 | keeps exactly the observations inside the retention, product by product, and counts the others: the count and the entries left are together the entries before |
| `Stores.PruneCounts` | internal/store/store.go:417-423 | over all products, the expired places and the entries a prune leaves are together the entries there were |
| `Stores.Store.History` | internal/store/store.go:385-415 | the observations of one product inside the clamped window, in time order |
| `Catalogs.ApplyItemsFrame` | internal/store/store.go:259-300 | what a completion writes to a product depends on that product alone, and products it does not name stay as they are |
| `Catalogs.ApplyItemsOrigin` | internal/store/store.go:276-300 | every observation after a completion was there before or carries this job, this transaction time and the values of one of its listings |
| `Histories.HistoryIsFaithful` | internal/store/store.go:280-297 | with strictly increasing times, every observation ever made can be read back from the log as long as nothing is deleted: the latest stored entry at its time has its values and is less than a day older |
| `Histories.HistoryIsSmall` | internal/store/store.go:282-296 | at most 1 + value changes + full days of span are stored |
| `Histories.NothingRedundant` | internal/store/store.go:284-295 | each stored entry differs from its predecessor or is at least a day younger |
| `Histories.FaithfulExactlyWhenIncreasing` | internal/store/schema.sql:48 | for a sequence of times, the history is faithful for all values if and only if the times strictly increase |
| `Histories.StoredShows` | internal/store/store.go:264-300 | after the upsert the product shows the listing's title and address, its image and seller or else the known ones, and its values |
| `Histories.CompletedJobIsReadable` | internal/store/store.go:259-304 | after a completion that names each product once, at a time later than what those products had, every usable listing shows in its product's row and history |
| `Histories.PruneThenRecord` | internal/store/store.go:280-297 | entries at least a day older than an observation have no influence on whether it is stored, and pruning commutes with storing it |
| `Histories.PruneCommutes` | internal/store/store.go:417-423 | pruning commutes with any later run of observations |
| `Histories.PruneThenApply` | internal/store/store.go:259-300 | a prune that stays out of the day before a completion commutes with the whole completion, over all products |
| `Histories.RetentionIsExact` | internal/store/store.go:280-297 | a prune that keeps a span of any length and comes up to `lag` later than the start of an open completion is invisible to recording if and only if lag < span - a day and two microseconds |
| `Histories.RetentionOfOneDayIsExact` | internal/config/config.go:45-47 | with no completion open, pruning is invisible to recording if and only if the retention is at least one day of 24 hours; if the clock is turned forward within it, at least two |
| `Histories.CoverageAfterPrune` | internal/store/store.go:417-423 | after a prune an observation can be read exactly if it could be before and the entry that covers it is not older than the cut |
| `Histories.SurvivesPrunesExactly` | internal/store/store.go:280-297 | whatever could be read and is `lag` younger than the cut survives every prune if and only if lag is at least a day less a microsecond |
| `Histories.CutHidesObservation` | internal/store/store.go:296 | a concrete log on which a prune, or the beginning of a history window, hides an observation whose time it keeps |
| `Histories.CoverageInPoints` | internal/store/store.go:385-415 | a history request shows an observation exactly if its covering entry is inside the clamped window |
| `Histories.RequestsShowExactly` | internal/store/store.go:396-398 | every request shows whatever is `lag` younger than the beginning of its window if and only if lag is at least a day less a microsecond |
| `Histories.PointsAreTheWindow` | internal/store/store.go:386-401 | a history request returns exactly the entries of its clamped window in time order, and cannot tell whether a prune with a retention at least as long came before |
| `Histories.PointsOnce` | internal/store/store.go:386-401 | a history request returns each entry of its window as often as it is stored |
| `Queue.InvKept` | internal/store/store.go:178-423 | every statement of every client, prunes included, keeps the queue's invariant: rows, open transactions, locks, slots, calls under way, origins of observations, and what the writes of completions in time amount to |
| `Catalogs.ItemShowsThrough` | internal/store/store.go:264-300 | an uncommitted change over the committed tables looks to its own transaction like the statement's effect |
| `Queue.PruneUnderneath` | internal/store/store.go:280-297 | after a prune that has not reached into the day before the transaction, its uncommitted writes are still what its listings make of the committed tables |
| `Queue.CommitElsewhere` | internal/store/store.go:264-300 | when another session commits, the uncommitted writes of this one are still what its listings make of the committed tables |
| `QueueRuns.StepRefines` | internal/store/store.go:230-423 | each step shows other clients one whole operation or nothing, except that a completion with a prune in the day before it may differ in the products and observations; a commit of a claim or completion always takes effect |
| `QueueRuns.RunIsSerial` | internal/store/store.go:178-423 | every interleaving, prunes included, leaves the job rows as if its operations had run whole, one after the other, in commit order; and the products and observations too if no prune has reached into the day before a completion that commits later |
| `PruneRuns.SerialExactly` | cmd/worker/main.go:191-222 | for every retention and lag: all runs in which no prune before a completion's commit is later than `lag` after its start are serial in all tables, if and only if lag < (days - 1) days and two microseconds |
| `QueueRuns.SecondCheckHolds` | internal/store/store.go:310-322 | the ownership test in the final update never fails |
| `QueueRuns.CompletionIsFenced` | internal/store/store.go:241-257 | in every run a result is committed only under the row's latest claim, by its owner |
| `QueueRuns.FailureIsFenced` | internal/store/store.go:325-339 | while claims are quiet, a failure report takes effect only on the claim it is about |
| `QueueRuns.QuietIsExact` | internal/store/store.go:178-209 | after a claim all reports under way are fenced if and only if the claim was quiet; if not, the old report can be delivered at once and fails the new claim |
| `QueueRuns.TerminalAbsorbs` | internal/store/store.go:187-199 | in every run a complete or failed row never changes again |
| `QueueRuns.SettledHasCause` | internal/store/store.go:230-339 | every complete or failed row was settled by one completion or failure report of its owner, has not changed since, and shows what that worker had sent while it had the job in hand: all the listings and the start time of its completion, or the text of its report |
| `QueueRuns.TxnWasSent` | internal/store/store.go:230-257 | every open transaction carries the worker, job, listings and start time of the one statement that began it |
| `QueueRuns.ReportWasSent` | cmd/worker/main.go:139-141 | every failure report under way has the text, the worker and the claim with which some worker sent it |
| `QueueRuns.ClaimInHand` | internal/store/store.go:178-209 | what a worker has in hand is a claim that was committed for it, with the time that claim began |
| `QueueRuns.ErrorCanBeReported` | cmd/worker/main.go:127-141 | after an error in its completion a worker still has the claim in hand and can send a report about it with any text; nothing else changes |
| `QueueRuns.RequeueLeavesMessage` | internal/store/store.go:341-352 | at every moment a queued row shows the requeue message exactly if it has been claimed before, and any other row has been claimed |
| `QueueRuns.StatusDecidesColumns` | internal/store/schema.sql:14-28 | at every moment the status decides which of worker, claim time, result, error and finish time are set |
| `QueueRuns.CommitsOnce` | internal/store/store.go:310-322 | no job is completed twice |
| `QueueRuns.ObservationHasCommit` | internal/store/store.go:276-300 | every stored observation came with the commit of the job it names and was not there before; it has the start time and the values of one of the listings that the worker had sent for that job |
| `QueueRuns.LostAnswerMayLand` | internal/store/store.go:322 | a completion that has written its row can commit after its worker has been told of an error, and completes the row |
| `QueueRuns.LateReport` | internal/store/store.go:325-339 | a failure report for a settled row changes nothing |
| `QueueRuns.BeginsAfterStored` | internal/store/schema.sql:48 | a completion is never timed before what was committed by the time it began, however long it waited for its row |
| `QueueProgress.CompletionCanLand` | internal/store/store.go:259-322 | a completion whose client waits for it and whose products nobody else has locked can run to its end by its own statements: the job is complete with all listings sent and the worker is free |
| `QueueProgress.QuietQueueServes` | internal/store/store.go:178-323 | with no transaction open, an idle worker can claim the next queued job and complete it with whatever it has found |
| `QueueRuns.CreationStays` | internal/store/schema.sql:16-25 | what a job asks for and when it was created never change |
| `QueueHistories.LogIsRecorded` | internal/store/store.go:276-300 | in every run whose completions commit in time a product's stored log is the change-only log of its committed observations, in commit order, without what is older than the latest cut of a prune |
| `QueueHistories.QueueHistoryIsFaithful` | internal/store/store.go:280-300 | in every run whose completions commit in time and whose committed times of a product strictly increase, its history is small and shows an observation exactly if no prune has deleted its covering entry; and without prunes only such times make it faithful for all values |
| `QueueHistories.RecentIsShown` | internal/store/store.go:280-423 | in every run, with any prunes and however late completions commit: if a product's committed times strictly increase, all its observations from a day less a microsecond after the latest cut can be read back |
| `QueueHistories.RequestShowsRecent` | internal/store/store.go:385-415 | and a history request shows those that are as much younger than the beginning of its window |
| `QueueHistories.ApartMeansIncreasing` | internal/store/store.go:235-323 | completions of a product that do not overlap and name it once have strictly increasing times |
| `QueueHistories.OncePerProductBringsOne` | browser-worker/src/parsers.ts:71-83 | a job whose listings name each product once brings at most one observation of it |
| `QueueRuns.LocksAreDistinct` | internal/store/store.go:188-194 | open transactions never share a job row |
| `QueueRuns.OldestFirst` | internal/store/store.go:187-194 | no job is claimed while an older one is queued and unlocked, however often the older one was requeued |
| `QueueWitnesses.LateFailureHitsNewClaim` | cmd/worker/main.go:139-141 | a reachable state in which a late failure report fails a later claim of the same claim id |
| `QueueWitnesses.OverlapHidesObservation` | internal/store/store.go:280-297 | a reachable state in which overlapping completions have left a completed job's observation out of the history |
| `Leases.LeaseRule` | internal/store/store.go:341-347 | no schedule with at most that many failed refreshes in a row loses its lease, if and only if (failures + 1) * interval + delay <= age |
| `Leases.NeverMoreMeans` | cmd/worker/main.go:157-174 | the schedules of that rule are those in which of any failures + 1 refreshes in a row one gets through |
| `Leases.ShowsLastExecuted` | internal/store/store.go:214-220 | the claim shows the time at which the last refresh was executed, its delay included |
| `Leases.LeaseHolds` | internal/store/store.go:214-220 | the lease holds at every instant of such a schedule |
| `Leases.ConfiguredLease` | internal/config/config.go:63-65 | what an age of three intervals buys: one failed refresh with delays up to an interval; two exactly while the delay fits in the excess |
| `LeaseRuns.NeverRequeued` | internal/store/store.go:214-352 | in every run, a job whose refreshes keep to a schedule that the lease rule admits is never queued again: its claim holds, renewed by its last refresh, or the job is settled |
| `LeaseRuns.TakenBackExactly` | cmd/worker/main.go:206-213 | in every run, the first look of maintenance at a stale claim, and no earlier one, queues the job again, exactly when the last executed refresh is more than the age ago and the job is not settled |
| `LeaseRuns.HeldRowWaits` | internal/store/store.go:241-247 | a job whose row an open transaction holds cannot be requeued before that transaction ends; it may roll back at any time, and then maintenance can look at it |
| `Leases.SilentClaimIsRequeued` | cmd/worker/main.go:201-213 | a claim no longer refreshed is queued again by the first maintenance round after it turns stale, within one round, and by none before |
| `Leases.MaintainJobClaim` | cmd/worker/main.go:145-177 | whatever others do to the row between ticks, the heartbeat loop refreshes it as long as it is owned, stops at the first refresh that finds it lost, and touches nothing else |
| `Leases.LeftAlone` | cmd/worker/main.go:160-174 | without others the loop leaves the row that the lease rule is about |
| `Workers.RetryDelay` | cmd/worker/main.go:179-189 | the shift and the final cap give the backoff that doubles and is capped at every attempt, plus less than half a second of jitter |
| `Workers.BackoffDoublesToACap` | cmd/worker/main.go:180-187 | without the jitter, pauses start at the base, double until they reach fifteen seconds or the fifth attempt, stay there and never shrink |
| `Workers.PausesHardlyShrink` | cmd/worker/main.go:179-189 | a later pause is never shorter by half a second or more, and is longer while doubling goes on, for bases of at least half a second |
| `Workers.PauseCanShrinkExactly` | cmd/worker/main.go:188 | a later pause can be shorter exactly where the backoff grows by less than 499 milliseconds |
| `Workers.ProcessClaim` | cmd/worker/main.go:87-141 | the attempts go on to the first that has listings, finds the claim lost or meets a shutdown, and to the last allowed one otherwise; that one decides: a commit by the owner exactly if it lands and is answered, nothing exactly if the claim is lost, a shutdown that leaves nothing or a landed commit, or a failure report that changes nothing after a landed commit |
| `Workers.Last` | cmd/worker/main.go:87-123 | no attempt before the decisive one ends the matter, and the decisive one does, or is the last allowed |
| `PermitPools.PermitPool.constructor` | browser-worker/src/runtime.ts:20-23 | an empty pool |
| `PermitPools.PermitPool.Acquire` | browser-worker/src/runtime.ts:33-55 | an aborted caller is turned away, a free permit is granted, otherwise the caller is queued behind all others; each exactly then |
| `PermitPools.LastComeLastServed` | browser-worker/src/runtime.ts:53-69 | who joins the queue is served by a release exactly if it is not aborted and everyone who was in the queue is |
| `PermitPools.PermitPool.OnAbort` | browser-worker/src/runtime.ts:47-51 | exactly that waiter leaves the queue, if it is still in it |
| `PermitPools.PermitPool.GiveBack` | browser-worker/src/runtime.ts:60-73 | the first live waiter gets the permit and the count stays; the aborted ones in front are turned away; without a live waiter the count falls by one |
| `ScrapeTasks.InvKept` | browser-worker/src/runtime.ts:33-73 | every acquire, release and abort keeps, for every pool: the count is the number of holders and within the limit, a waiting queue means a full pool, and the queue lists each waiting request once |
| `ScrapeTasks.PermitsAreConserved` | browser-worker/src/runtime.ts:15-78 | at every moment of every run that holds, and open browser contexts stay within both limits |
| `ScrapeTasks.ReleaseNeverThrows` | browser-worker/src/runtime.ts:71-72 | a holder's release always finds an active permit |
| `ScrapeTasks.NoDeadlock` | browser-worker/src/index.ts:195-237 | unless all requests are finished some request can move, although the browser path holds one permit while it waits for the other |
| `ScrapeTasks.EveryRunDrains` | browser-worker/src/index.ts:137-237 | whatever fails or is aborted, a run has at most nine moves per request and can go on until all are finished; then every pool is back to zero with no waiters |
| `ScrapeTasks.AbortedGainNothing` | browser-worker/src/runtime.ts:33-69 | an aborted request never gains a permit, neither by asking nor by waiting |
| `ScrapeTasks.GrantsInOrder` | browser-worker/src/runtime.ts:61-69 | who is granted a permit while another keeps waiting was queued in front of it |
| `ScrapeTasks.NoOvertaking` | browser-worker/src/runtime.ts:53-69 | over whole runs, a request queued behind a waiting one stays behind it or gives up, and then never holds that permit |
| `ScrapeTasks.NewcomerIsBehind` | browser-worker/src/runtime.ts:53-55 | who begins to wait is queued behind everyone who keeps waiting |
| `ScrapeTasks.ArrivalOrder` | browser-worker/src/runtime.ts:53-69 | over whole runs, whoever begins to wait while another request waits does not hold the permit as long as the other one keeps waiting |
| `ScrapeTasks.LiveIsNotTurnedAway` | browser-worker/src/runtime.ts:33-69 | no step turns away a request whose signal is not aborted: what it asks for it gets, waits for, or still has to ask for |
| `ScrapeTasks.PathsAreFollowed` | browser-worker/src/index.ts:137-237 | a request leaves the direct path for the browser path only by giving its permit back to go on, and on the browser path asks for the browser permit after its marketplace permit |
| `ScrapeTasks.GivesBackInTurn` | browser-worker/src/index.ts:137-237 | after the direct path a request holds nothing and asks again exactly if it goes on; the browser path gives back the browser permit first |
| `Pacing.Pacer.Arrive` | browser-worker/src/index.ts:46-50 | a caller joins behind the current tail and becomes the tail |
| `Pacing.Pacer.Begin` | browser-worker/src/index.ts:52-55 | in its turn a caller sleeps until the next allowed time |
| `Pacing.Pacer.Finish` | browser-worker/src/index.ts:56-61 | leaving sets the next allowed time and arms the clean-up only for the current tail |
| `Pacing.Pacer.DropTail` | browser-worker/src/index.ts:60-64 | the map entry is dropped only while it is still this caller's |
| `Pacing.LeavesInOrderAndSpaced` | browser-worker/src/index.ts:45-66 | in every run callers leave in call order, and any two of them at least one interval per place apart, dropped tail entries included |
| `Pacing.WakesExactly` | browser-worker/src/index.ts:52-57 | the first caller wakes up at once, any other one exactly when its predecessor left plus the interval plus the predecessor's jitter, or at once if that has passed |
| `Pacing.TailIsDropped` | browser-worker/src/index.ts:60-64 | when everyone has left, the entry that is still there can be removed, which leaves none; before that no clean-up removes it |
| `Pacing.OneTurnAtATime` | browser-worker/src/index.ts:52-59 | when a caller is in its turn everyone before it has left |
| `Pacing.FirstCanMove` | browser-worker/src/index.ts:48-58 | the chain never stalls: the first caller that has not left can enter its turn, or leave it at its wake-up time |
| `JsonScanner.ExtractJSONObject` | browser-worker/src/parsers.ts:160-195 | for any input, the slice handed to the parser is the shortest balanced text from the opening brace within the bound, and there is none if nothing is returned |
| `JsonScanner.ScannerIsLevel` | browser-worker/src/parsers.ts:162-184 | the scanner's three variables compute the brace level of RFC 8259 text, defined literal by literal |
| `JsonScanner.RenderNested` | browser-worker/src/parsers.ts:166-184 | every JSON text of the grammar, with any white space, escapes and nesting, ends on the level it starts on and never goes below it |
| `JsonScanner.ObjectIsCutExactly` | browser-worker/src/parsers.ts:160-195 | an object text standing anywhere in a page is cut at exactly its closing brace, whatever follows, as long as the bound reaches it |
| `JsonScanner.ResultIsUnique` | browser-worker/src/parsers.ts:160-195 | page, start and bound determine the result |
| `JsonSearch.Dig` | browser-worker/src/parsers.ts:135-147 | the loop follows names through objects and indices through arrays and gives nothing as soon as a step is missing |
| `JsonSearch.NamesWalk` | browser-worker/src/parsers.ts:230-235 | on names alone that is the walk of the item list lookups |
| `JsonSearch.FollowIsDown` | browser-worker/src/parsers.ts:135-147 | what a path leads to stands at the end of a way down the tree that takes the item of each index and the first field of each name |
| `JsonSearch.DownIsFollow` | browser-worker/src/parsers.ts:135-147 | whatever stands at the end of such a way the path leads to |
| `JsonSearch.SearchIsExact` | browser-worker/src/parsers.ts:237-258 | the search finds a list if and only if some node at most ten levels down carries one, and what it finds is carried by such a node |
| `JsonSearch.SearchFindsFirst` | browser-worker/src/parsers.ts:237-258 | with several lists in the tree the search finds the first in pre-order among those within the depth limit, and no other |
| `JsonSearch.FastFindsFirst` | browser-worker/src/parsers.ts:230-235 | the fixed lookup takes the first of the four paths that holds an array |
| `JsonSearch.FastAgreesWithSearch` | browser-worker/src/parsers.ts:230-258 | if a fixed path finds a list so does the search; if the tree carries only one list within the depth limit both find that one |
| `JsonSearch.CombinedLookupIsExact` | browser-worker/src/parsers.ts:260-262 | the combination of the two finds a list exactly when the tree carries one within the depth limit |
| `JsonSearch.TwoListsMayDiffer` | browser-worker/src/parsers.ts:230-258 | a tree with two lists on which the two lookups disagree |
| `Listings.DedupeListings` | browser-worker/src/parsers.ts:71-83 | at most limit first occurrences of usable listings, in order |
| `Listings.UniqueMeaning` | browser-worker/src/parsers.ts:71-79 | first occurrences are usable, have distinct keys and cover exactly the keys of the input |
| `Listings.UniqueAt` | browser-worker/src/parsers.ts:71-79 | position by position, a listing is kept as it is and in its place exactly if it is usable and no usable one before it has its key |
| `Listings.DedupeInStages` | browser-worker/src/parsers.ts:380-385 | cutting an intermediate result to the limit does not change the final one |
| `Listings.StagedIsOneShotExactly` | browser-worker/src/parsers.ts:376-386 | the staged extraction equals one pass over all sources, for every page body, if and only if cutting the structured sources loses nothing |
| `Listings.NothingLostMeans` | browser-worker/src/parsers.ts:376-386 | the condition on the keys of the sources is the one on the results |
| `Listings.RepeatLosesProduct` | browser-worker/src/parsers.ts:376-378 | a first source with a repeat before the limit that costs the page a product |
| `Listings.StagedWhenNothingLost` | browser-worker/src/parsers.ts:376-386 | the equality for one page |
| `Listings.DistinctSourcesLoseNothing` | browser-worker/src/parsers.ts:260-307 | sources that list each product once lose nothing, overlaps between them included |
| `Listings.AliStructuredListings` | browser-worker/src/parsers.ts:264-306 | the first limit parsed items of the list |
| `Listings.ParsedAt` | browser-worker/src/parsers.ts:269-274 | position by position, an item with id and title is kept in its place, another one is passed over, and neither ends the list |
| `Listings.AliDOM` | browser-worker/src/parsers.ts:323-374 | the first limit cards with a title, each product id looked at once |
| `Listings.FromCardsAt` | browser-worker/src/parsers.ts:328-343 | position by position, a card is kept exactly if its link names a product that no link before it has named and it has a title |
| `Listings.CardsAreDistinct` | browser-worker/src/parsers.ts:326-334 | cards yield usable listings with distinct keys |
| `Listings.ParseAliExpress` | browser-worker/src/parsers.ts:376-386 | the method with its early exits is the staged function, and the one-pass result when nothing is lost |
| `Listings.MergeKeepsPrimary` | browser-worker/src/parsers.ts:418-420 | the primary list comes first and whole; of the secondary the listings of new products follow as they are and in order, all of them or as many as the limit allows |
| `Listings.Scrape` | browser-worker/src/index.ts:243-290 | a result is never empty, within the limit and free of repeats; which strategy it names, which listings it contains in which order and when the request fails, each exactly |
| `RateLimiters.RateLimiter.Allow` | internal/api/server.go:378-393 | one decision for one key; the windows of other keys stay |
| `RateLimiters.Serve` | internal/api/server.go:378-393 | a run of requests of many keys with their own limits is answered as the decisions on each key's history say |
| `RateLimiters.KeysAreIndependent` | internal/api/server.go:382-392 | a key's window and accepted requests are those of its own requests alone |
| `RateLimiters.SlidingBound` | internal/api/server.go:378-393 | in any half-open interval of k minutes at most (k + 1) * limit - 1 requests of a key pass |
| `RateLimiters.BoundIsTight` | internal/api/server.go:383-385 | for every key, limit and k there is a run that reaches that bound |
| `RateLimiters.RefusalMeansFull` | internal/api/server.go:387-389 | a refusal implies a full limit of acceptances within the last minute |
| `RateLimiters.QuietKeyPasses` | internal/api/server.go:383-386 | whatever its limit, a key that has asked for nothing within the last minute gets through |
| `SearchPolicy.NormalizeIsNormal` | internal/policy/search.go:116-128 | a normalized query has no foldable rune and only single inner U+0020 spaces |
| `SearchPolicy.FieldsSplit` | internal/policy/search.go:127 | white space parts a text into two whose words, in order, are its words; none is lost |
| `SearchPolicy.NormalizeMeans` | internal/policy/search.go:116-128 | every rune is folded, white space is dropped and every other rune kept in its order, with one space exactly where the input has white space between two |
| `SearchPolicy.FoldIsAscii` | internal/policy/search.go:117-126 | full-width forms become printable ASCII one to one and in order, the ideographic space a space; nothing else changes, and no white space appears or vanishes |
| `SearchPolicy.FixedPoints` | internal/policy/search.go:116-128 | normalizing changes a text exactly when it is not in that form |
| `SearchPolicy.FieldsOfJoin` | internal/policy/search.go:127 | splitting what was joined gives the words back |
| `SearchPolicy.FoldAddsNothingForbidden` | internal/policy/search.go:104-128 | normalizing a clean text never introduces a forbidden character |
| `SearchPolicy.FilterIsProjection` | internal/policy/search.go:54-89 | an accepted query is accepted again, unchanged and not marked as normalized |
| `SearchPolicy.AcceptedExactly` | internal/policy/search.go:54-89 | accepted is exactly clean text of one to forty words, at most 240 runes once normalized, that matches no pattern then; words may be counted before or after |
| `SearchPolicy.CodesExactly` | internal/policy/search.go:46-89 | for each rejection code exactly the inputs that get it, and what an accepted input becomes |
| `SearchPolicy.MarkIsHonest` | internal/policy/search.go:85-88 | an accepted query is marked as normalized exactly when the input was not in normal form |
| `SearchPolicy.EmptyExactly` | internal/policy/search.go:54-65 | an input is rejected as empty exactly when it is clean and all white space, wide spaces included |
| `SearchPolicy.AcceptedQueriesPassValidation` | browser-worker/src/index.ts:312-321 | the extraction worker's trim and 500-unit check take every accepted query as it is |
| `SearchPolicy.TrimMeans` | browser-worker/src/index.ts:317 | the trim takes the white space from both ends, all of it and nothing else |
| `Exports.InvKept` | internal/ziz/export.go:100-151 | every step of producer and workers keeps the export's invariant |
| `Exports.NilErrorMeansComplete` | internal/ziz/export.go:153-165 | without outside cancellation, an export without error has every page on disk and counted once, and has fetched the last page itself, and without resume every page after the probed first |
| `Exports.ResumeSparesExactly` | internal/ziz/export.go:100-151 | at every moment of every run the pages fetched are exactly the settled ones that were not on disk at the start, the last one, and all without resume; each counter tells its share |
| `Exports.WrittenAtTheEnd` | internal/ziz/export.go:153-165 | an export that ends well has written exactly the missing pages and the last one, and skipped the others |
| `Exports.FirstErrorWins` | internal/ziz/export.go:100-151 | there is an error exactly if some worker has failed, and it is that of the first |
| `Exports.CountersTellCompletion` | internal/ziz/export.go:160-162 | at any point of any run the counters add up to the page count exactly when every page is settled, and settled pages are on disk |
| `Exports.CancelledExportCanLookFine` | internal/ziz/export.go:142-158 | from every start, an outside cancellation can end the export without error and with the files it started with |
| `Exports.CompleteAnywayExactly` | internal/ziz/export.go:142-165 | with outside cancellations allowed, no error means all pages on disk if and only if all were there before |
| `Exports.ExportTerminates` | internal/ziz/export.go:95-153 | with errors and cancellations at any point, the number of moves is bounded and the export is never stuck before all workers have left |
| `Medias.LoadMediaManifest` | internal/ziz/media.go:313-343 | exactly the URLs with a successful record, each with the last one |
| `Medias.ManifestIsTrue` | internal/ziz/media.go:237-282 | over any runs and crashes, every success in the manifest names a present file with that hash |
| `Medias.NothingFetchedAgain` | internal/ziz/media.go:111-125 | a resumed run fetches no URL whose success stands in a finished line (which successes get there: `Medias.SuccessIsListed`) |
| `Medias.SuccessIsListed` | internal/ziz/media.go:158-167 | in every run that ends, a URL downloaded or found on disk stands in a finished line, if and only if its record was not written where a cut-off one stood, or it was listed already |
| `Medias.OneIsSpoiled` | internal/ziz/media.go:324-338 | that happens to at most the first record of a run, and to none if the manifest ended in a newline |
| `Medias.SuccessIsForGood` | internal/ziz/media.go:111-125 | so on a manifest that ended in a newline, what a run that ends has downloaded or found is listed, and no later resumed run fetches it |
| `Medias.PassedOverExactly` | internal/ziz/media.go:115-121 | a URL is passed over unread exactly when the run resumes and the manifest it loaded lists it; any other is asked for |
| `Medias.ListedForGood` | internal/ziz/media.go:89-96 | a finished success line is never lost |
| `Medias.OnceIsEnough` | internal/ziz/media.go:71-125 | so no later resumed run fetches that URL |
| `Medias.CountsAddUp` | internal/ziz/media.go:119-142 | a run that ends has counted every discovered URL once as downloaded, skipped or failed |
| `Medias.CountersMean` | internal/ziz/media.go:119-134 | at every moment of a run each of the three counters is the number of URLs with its kind of end |
| `Medias.DownloadedCountsFiles` | internal/ziz/media.go:266-275 | at every moment of a run at most `downloaded` files have been added, and exactly as many if and only if no rename has landed on a file that appeared after its own stat |
| `Medias.OneWorkerCountsFiles` | internal/ziz/media.go:111-142 | with one worker `downloaded` is the number of files added |
| `Medias.DistinctContentsCountFiles` | internal/ziz/media.go:258-275 | with different contents for all URLs it is, with any number of workers |
| `Medias.CountsExactlyWhen` | internal/ziz/media.go:111-142 | for every state without a run, every start and every content of the URLs: in all runs from there `downloaded` is at every moment the number of files added, if and only if there is one worker or no two URLs to be asked for share a content that is not there yet |
| `Medias.TwinsCountTwice` | internal/ziz/media.go:267-275 | a reachable end of a run with two downloads counted and one file added |
| `Medias.NeverAgainExactly` | internal/ziz/media.go:119-125 | from any reachable state, no continuation lets a resumed run fetch a URL if and only if its success stands in a line with its newline |
| `Medias.UnendedRecordIsForgotten` | internal/ziz/media.go:324-338 | a reachable manifest whose last record lacks its newline: the next run honours it, and yet its URL can be fetched again |
| `Money.CentsAreExact` | browser-worker/src/parsers.ts:27-29 | up to 2^50 cents, rounding the product by 100 gives back the cents written, given the relative error bound of IEEE 754-2019 section 4.3.1 |

## Left out

- Uniqueness of claim ids: slots are keyed by claim id, so two live processes with one `WORKER_ID` cannot be expressed.
- History reads beside an open completion: a read sees the committed tables of its moment.
- QueueRuns.StepRefines: of a completion that commits after a prune has reached into the day before it, only the job row is compared with the whole operation.
- Deleting products or jobs, and what the foreign keys would do then: no statement of the program does it.
- PostgreSQL deadlock detection, durability and isolation anomalies beyond row locks: a transaction may roll back at any step instead.
- Errors in the answers to the single statements (create, claim, refresh, fail, requeue, prune): each takes effect or does not; in the queue's runs a statement without effect is a step that is not taken, in the class they are answered.
- QueueRuns.OldestFirst: the claim query's snapshot and its row lock are one moment.
- Go goroutines and JavaScript promises: step systems with the same atomic parts.
- Scrape requests that arrive during a run: the requests are fixed at the start, and any of them may start late.
- Pacing inside the scrape requests: the promise chain is a system of its own, so waiting times are not part of the progress theorems.
- Queue progress under contention: that a blocked statement gets its lock in the end is PostgreSQL's; `QueueProgress` is about completions whose products nobody else holds.
- Timeouts, fetch, Playwright, cheerio and regular expressions: their outcomes are inputs or uninterpreted predicates.
- JSON.parse: the scanner's slice is what it is given; numbers and the three literals are runs of the characters they are made of, a superset of RFC 8259.
- UTF-16 units of a page: a page is a sequence of characters; the query filter counts units explicitly.
- The string form marketplace:id of a product key: a pair, which cannot collide.
- Ratings as doubles: real numbers, compared for equality as the SQL does.
- Money.CentsAreExact: the two roundings are hypotheses, not a model of binary floating point.
- Leases.LeaseHolds: assumes that ticks of the heartbeat are not dropped, which a refresh slower than an interval could cause.
- LeaseRuns.NeverRequeued: asks for the schedule only at the moments when maintenance looks at the job; that a requeue of the same microsecond comes after the refresh is part of it.
- The in-place rewrite of the request's query in `validateScrapeRequest`: the validator is a function from request to request.
- Medias.CountsAddUp: is about runs without manifest write errors and outside cancellation; os.Stat is taken to fail only for a file that is not there.
- The probe of page 1 and exports of a single page: the model starts when page 1 has been settled and there is more than one page.
- Exports.NilErrorMeansComplete: recording the error and cancelling are one step; between the two the program can only do more of what the other steps allow.
- File names of article parts, media extensions, content types, sizes, and manifest lines over two megabytes: a page number, a hash with an extension, and lines that always fit.
- API keys, admin endpoints, worker list, telemetry, logging, compact views: thin.
- The Amazon and eBay parsers: card by card field copying before the same `dedupe`.
