# pgwatch: a verified model of its collector core

pgwatch collects metrics from PostgreSQL and Prometheus sources and stores them in sinks. This
project models the parts of it that carry state over long runs and proves what they keep:

- **Workers and connections** (`WorkerRegistry`, `RegistryCalls`, `SourceConfig`, `ReapWorld`, `ReapTheorems`,
  `ReapFilter`, `ReapStarts`, `ReapLoop`).
  Starting and stopping workers is modelled twice: statement by statement, interleaved by any number
  of threads around an explicit mutex, and as whole iterations of the main loop with an invariant
  over every run of reloads, failures, filters and pauses.
- **The Postgres sink** (`CopyCursor`, `SinkFlush`, `SinkFlushTheorems`, `PartitionBounds`, `SinkPoll`,
  `SinkSteps`, `SinkWriter`): the row cursor handed to COPY with its back-step at metric boundaries, skipping after a
  failed COPY, the flush loop, the time bounds, the batching loop, and what reaches which table.
- **The per-source loops** (`TickInterval`, `Scheduling`, `BatchFetch`, `SourceRound`,
  `SourceFacts`, `SourceLoop`, `PromLoop`): the common
  tick, when a metric is fetched again, batches that break off and are retried, and degraded metrics.
- **Change detection** (`ChangeDiff`, `ChangeDetection`, `Strings`): the incremental comparison with
  remembered hashes, its length shortcut, and the objects its events name.
- **The remote log reader** (`LogReader`, `LogSessions`, `LogRotation`), **the Prometheus exporter** (`SortedKeys`,
  `PromCells`, `PromMemo`, `PromRows`, `PromSamples`, `PromExport`) and **the instance cache** (`InstanceCache`, `Metrics`).
  `Sequences` holds what several of them need about sequences.

What the source updates in place is a class or a loop here; each such method is tied to a function or
predicate about which the theorems are proved. Foreign code appears only through its outcomes: how a COPY,
a query, a connection attempt or a scrape ends is a parameter, and so are clocks and the order in which Go
iterates over a map or runs goroutines.

## Assumptions

- Metric names are not empty: the cursor uses the empty name for "no metric yet".
- The names of resolved sources are distinct within one reload, and connecting on a closed pool fails.
- Inside a batch, a failed query makes the server refuse all later ones (section 55.2.3 of the PostgreSQL
  16 documentation, "Extended Query").
- Observed log sizes grow and end lines, and reads succeed.
- Source filters (role and size) appear as an outcome of the sweep.
- A COPY that fails leaves no row behind.

## Findings

- The comment of `executeBatch` says that any entry that returns an error from the batch is retried. The
  code retries an entry only when its query is refused; an error while its rows are collected is reported
  but neither retried nor marked degraded. `BatchFetch.MarksAllFailuresIff` gives the exact condition and
  `BatchFetch.BrokenOffQueryIsNotMarked` an instance.
- Two rows with one identifier can hide that another object vanished, because only the sizes are compared.
  `ChangeDiff.StateIsCurrentIff` gives the exact condition, `ChangeDiff.DuplicateHidesDrop` an instance.
- An empty privilege result leaves remembered privileges in place: `ChangeDetection.PrivilegesCurrentIff` is the
  exact condition, `ChangeDetection.ChangeState.LastRevokeIsMissed` an instance.
- A source the filter rejects is closed and never reopened; it comes back only as a new connection object, once
  it was removed or its configuration changed. `ReapFilter.FilteredStaysDownIff` says exactly how long, over runs, and
  `ReapFilter.RejectedSourceStaysDown` gives a run. Discovery that fails hands out earlier connection objects
  again; the theorem says what holds with and without that.
- A log line as long as a chunk stops the log reader for good: exactly when, over runs, in
  `LogReader.RemoteLog.Follow`, and that it then never switches to a newer file, in `LogRotation.LeavesIff`; an
  instance in `LogReader.LongLineIsNeverRead`.
- With more than 2500 remembered log files all offsets are forgotten, and a file the reader comes back to is read
  again from its beginning. `LogRotation.EveryFileOnceIff` says exactly which files are read once.
- A name without the separator may still be split wrongly, because the separator's characters can overlap the
  name's end. `Strings.SplitJoinIff` is the exact condition, `Strings.SplitMovesCharacter` an instance with the
  separator of the function identifiers.
- An instance-level result whose `epoch_ns` is there but not an integer is dated by the first question for it, so it
  can be served at any age: `InstanceCache.NeverTooOldIff`, with an instance in `InstanceCache.SharedCache.StaleHit`.
- The comment in the exporter says that the key separator cannot occur in label names. The separator is the
  character U+00FF, and a tag column may contain it: `PromExport.WritePromMetrics` states the exact condition on the
  rows under which remembered descriptors are right, and in `PromExport.SeparatorInTagColumn` two rows handed to
  the exporter leave one sample instead of two.

## Model

| member | source | states |
|---|---|---|
| `WorkerRegistry.DoKeepsMutex` | internal/reaper/reaper.go:172-184 | every statement of every thread keeps mutual exclusion, and what a thread read inside its critical section stays true until it leaves it |
| `WorkerRegistry.DoKeepsOwn` | internal/reaper/reaper.go:310-327 | every statement keeps the ownership of workers: each is in the registry or in the hand of exactly the thread that creates, launches or stops it |
| `WorkerRegistry.RunKeeps` | internal/reaper/reaper.go:172-184 | both invariants hold after every schedule of any number of threads |
| `WorkerRegistry.LiveWorkerIsOwned` | internal/reaper/reaper.go:310-327 | at every moment a launched, uncancelled worker is the one registered under its name or one a ShutdownWorker has removed and not yet cancelled |
| `WorkerRegistry.QuiescentOnePerName` | internal/reaper/reaper.go:172-184 | with no call in flight there is exactly one live worker per registered name and none otherwise |
| `RegistryCalls.ShutdownAlone` | internal/reaper/reaper.go:310-327 | from the start of a ShutdownWorker with the mutex free, the thread's own statements unregister the name and cancel its worker, and change nothing else |
| `RegistryCalls.ShutdownNobody` | internal/reaper/reaper.go:310-327 | for a name that is not registered they change nothing |
| `RegistryCalls.StartAlone` | internal/reaper/reaper.go:172-184 | undisturbed, a StartWorker for an absent name registers and launches the new worker |
| `RegistryCalls.StartTaken` | internal/reaper/reaper.go:172-184 | undisturbed, a StartWorker for a taken name leaves the registry alone and cancels its unused context |
| `RegistryCalls.ShutdownReturns` | internal/reaper/reaper.go:310-320 | in every schedule, a ShutdownWorker that has returned took the name out of the registry with exactly one of its own statements, inside its critical section, and the worker it found there is cancelled |
| `RegistryCalls.StartReturns` | internal/reaper/reaper.go:172-184 | in every schedule, a StartWorker that has returned either registered its new worker, with one statement inside its critical section, and launched it, or found the name taken, left the registry as it was, and its context is cancelled and was never launched |
| `SourceConfig.EqualIsEquivalence` | internal/sources/types.go:92-116 | Equal is an equivalence: it is equality of configurations once the metric lists replaced by presets are ignored |
| `SourceConfig.EqualMeans` | internal/sources/types.go:92-116 | sources are equal exactly when they agree in everything but the metric lists for which both name the same preset |
| `SourceConfig.InstallKeepsEssence` | internal/reaper/metric.go:100-112 | installing preset intervals never changes what a source is equal to |
| `SourceConfig.InstallMeans` | internal/reaper/metric.go:100-112 | a known preset replaces the intervals; an unknown one, an empty name and the standby list of a Prometheus source change nothing; nothing but the two lists changes |
| `ReapWorld.FindIsFirst` | internal/sources/conn.go:448-455 | a connection is found exactly when one has the name, and then it is the first such one |
| `ReapTheorems.ShutdownEffect` | internal/reaper/reaper.go:310-327 | a shutdown removes and cancels that name's worker, closes that monitored connection and changes nothing else |
| `ReapTheorems.ConnectKeeps` | internal/sources/conn.go:173-192 | connecting opens a pool only where there never was one and keeps the invariant |
| `ReapTheorems.SweepKeeps` | internal/reaper/reaper.go:126-159 | a sweep in any order keeps the invariant; a worker is lost only to the filter and a closed pool stays closed |
| `ReapTheorems.StaysMonitored` | internal/reaper/reaper.go:385-400 | a reload keeps a connection object exactly when its source is still configured the same |
| `ReapTheorems.LoadSourcesKeeps` | internal/reaper/reaper.go:363-403 | a reload, a read error or a pause leads from a valid end of an iteration to a state the sweep may start from |
| `ReapTheorems.LoadMetricsKeeps` | internal/reaper/metric.go:100-112 | installing intervals keeps the invariant and touches nothing but intervals |
| `ReapTheorems.CleanupKeeps` | internal/reaper/reaper.go:332-360 | clean-up stops exactly the workers of vanished names (all at the end of the context) and leaves a valid state |
| `ReapTheorems.IterateKeeps` | internal/reaper/reaper.go:110-167 | one iteration of the main loop leads from a valid state to a valid state |
| `ReapTheorems.EveryIterationValid` | internal/reaper/reaper.go:110-167 | after every iteration of every run the state is valid |
| `ReapTheorems.ValidMeans` | internal/reaper/reaper.go:310-403 | in a valid state each worker is live and runs on the very object monitored under its name, whose pool is open, and every swept connection that is no longer monitored is not open |
| `ReapTheorems.WorkerSurvivesIff` | internal/reaper/reaper.go:385-399 | a worker survives an iteration if and only if the context lives on, its source is configured equally and the filter does not reject it |
| `ReapStarts.SweepWorker` | internal/reaper/reaper.go:126-155 | in a sweep, whatever the order, a source gets or keeps a worker by its own pool and outcome alone |
| `ReapStarts.WorkedOnIff` | internal/reaper/reaper.go:110-160 | after an iteration a worker runs on a monitored connection if and only if the context lives on and either one ran on it and the filter does not reject it, or its pool is open or opens now, it answers, and it is a Prometheus source or its state can be read and the filter lets it pass |
| `ReapStarts.WorkedOnInRun` | internal/reaper/reaper.go:103-168 | the same in every iteration of every run |
| `ReapStarts.MonitoredAre` | internal/reaper/reaper.go:363-403 | after a reload the monitored connections are, in order, the resolved ones, each replaced by the connection of an equal configuration if there was one; a pause empties the list, a read error keeps it |
| `ReapStarts.IntervalsAre` | internal/reaper/metric.go:100-112 | after an iteration every monitored source works with the intervals of its presets where these are known, else with its own |
| `ReapFilter.RejectCloses` | internal/reaper/reaper.go:192-215 | a source the filter rejects loses its pool |
| `ReapFilter.RejectedIsDown` | internal/reaper/reaper.go:144-146 | it ends the iteration monitored, closed and without a worker |
| `ReapFilter.ClosedForGood` | internal/sources/conn.go:173-192 | a closed pool stays closed through every iteration, whether or not its source is monitored |
| `ReapFilter.MonitoredIff` | internal/reaper/reaper.go:385-400 | a monitored connection object is still monitored after an iteration if and only if its source stays configured the same |
| `ReapFilter.GoneForGood` | internal/reaper/reaper.go:380-400 | where resolving makes new objects, an object that is no longer monitored never is again |
| `ReapFilter.FilteredStaysDownIff` | internal/reaper/reaper.go:192-215 | over any run, after a rejecting round the pool is closed for good and the object is down whenever monitored; it stays monitored exactly as long as every round keeps the source configured the same |
| `ReapFilter.RejectedSourceStaysDown` | internal/reaper/reaper.go:203-204 | a two-round run, for every configuration, in which a rejected source stays down although the filter would let it pass |
| `ReapTheorems.NeverRestarted` | internal/reaper/reaper.go:385-399 | through any number of undisturbed iterations the same worker keeps running on the same connection |
| `ReapLoop.Reaper.ShutdownWorker` | internal/reaper/reaper.go:310-327 | the method performs the shutdown step on registry, pools and history |
| `ReapLoop.Reaper.StartWorker` | internal/reaper/reaper.go:172-184 | the method registers and launches a worker unless one exists |
| `ReapLoop.Reaper.ConnectConn` | internal/sources/conn.go:173-192 | a pool is opened if there never was one; success means pinged and open |
| `ReapLoop.Reaper.SweepSource` | internal/reaper/reaper.go:127-155 | one goroutine of the sweep performs its step |
| `ReapLoop.Reaper.SweepAll` | internal/reaper/reaper.go:126-159 | the sweep visits every monitored source once, in some order |
| `ReapLoop.Reaper.MergeSources` | internal/reaper/reaper.go:385-399 | equal sources keep their connection objects, changed ones are shut down |
| `ReapLoop.Reaper.LoadSources` | internal/reaper/reaper.go:363-403 | the method performs the reload step for a pause, an error and a result |
| `ReapLoop.Reaper.LoadMetrics` | internal/reaper/metric.go:100-112 | the loop installs the presets of all monitored sources |
| `ReapLoop.Reaper.StopWorkers` | internal/reaper/reaper.go:336-351 | exactly the workers that must stop are shut down, each once |
| `ReapLoop.Reaper.CleanupRemovedWorkers` | internal/reaper/reaper.go:332-360 | the method performs the clean-up step |
| `ReapLoop.Reaper.Iteration` | internal/reaper/reaper.go:110-160 | one iteration is a possible round and ends valid |
| `ReapLoop.Reaper.Reap` | internal/reaper/reaper.go:103-168 | any number of iterations is a possible run and ends valid |
| `CopyCursor.RunEnd` | internal/sinks/postgres.go:307-316 | the end of the maximal run of envelopes of one metric |
| `CopyCursor.EnterEnvelope` | internal/sinks/postgres.go:301-308 | entering the next envelope of the same metric changes neither the rows to come nor the end of the run |
| `CopyCursor.LeaveRun` | internal/sinks/postgres.go:303-316 | with the last envelope of the metric exhausted the run is over and the back-step stands between metrics |
| `CopyCursor.DrawRow` | internal/sinks/postgres.go:319-323 | advancing inside an envelope draws exactly the first pending row |
| `CopyCursor.Cursor.constructor` | internal/sinks/postgres.go:280-290 | a new cursor stands before the first envelope |
| `CopyCursor.Cursor.NextEnvelope` | internal/sinks/postgres.go:292-296 | moves to the next envelope and says whether there is one |
| `CopyCursor.Cursor.Next` | internal/sinks/postgres.go:298-326 | true means the first pending row of the current metric was drawn, false means none was left and the cursor stands at the head of the next run |
| `CopyCursor.Cursor.MetricName` | internal/sinks/postgres.go:357-363 | names the metric of the next envelope, nothing at the end |
| `CopyCursor.Cursor.SkipMetric` | internal/sinks/postgres.go:368-382 | wherever a failed COPY left the cursor, it moves to the head of the run after the failed metric |
| `SinkFlush.CopyFrom` | internal/sinks/postgres.go:433-436 | a COPY draws a prefix of the pending rows, all of them when it completes, never leaves the run, and stamps every row with its envelope's epoch |
| `SinkFlush.CopyRun` | internal/sinks/postgres.go:433-450 | one turn serves exactly the next run, with its own table, and reaches the head of the run after it |
| `SinkFlush.CopyAll` | internal/sinks/postgres.go:430-451 | for every sequence of outcomes the flush loop ends, its calls serve the runs in order, and it stops before the last run if and only if an outcome says that the sink is unreachable |
| `SinkFlush.CopyRuns` | internal/sinks/postgres.go:430-451 | the loop itself, on the cursor |
| `SinkFlushTheorems.DrawnForOwnTable` | internal/sinks/postgres.go:433-451 | every row is drawn for the table of its own metric |
| `SinkFlushTheorems.DrawnAtMostOnce` | internal/sinks/postgres.go:433-451 | no row is drawn twice in a flush, whatever fails |
| `SinkFlushTheorems.AllSuccessDrawsEverything` | internal/sinks/postgres.go:433-451 | an all-success flush draws every row, in order |
| `SinkFlushTheorems.OneRunPerMetric` | internal/sinks/postgres.go:393-400 | on sorted messages there are as many runs as distinct metrics |
| `SinkFlushTheorems.TablesDiffer` | internal/sinks/postgres.go:393-436 | on sorted messages no two COPY calls have the same table |
| `SinkFlushTheorems.FlushDelivers` | internal/sinks/postgres.go:385-455 | at most one COPY per distinct metric, no row twice, every row when all succeed |
| `Metrics.Measurement.GetEpoch` | internal/metrics/types.go:131-142 | a missing or ill-typed epoch is pinned to the current time, a proper one is returned unchanged |
| `PartitionBounds.Widen` | internal/sinks/postgres.go:405-413 | one message widens the bounds of its metric just enough |
| `PartitionBounds.BoundsOf` | internal/sinks/postgres.go:402-415 | the bounds are exactly the minimum and maximum epoch per metric over the non-empty envelopes, and those epochs are pinned in the rows |
| `PartitionBounds.RowTime` | internal/sinks/postgres.go:350-350 | whatever the clock says, the time column is the epoch the bounds were computed from, and all pinned epochs stay pinned |
| `SinkFlushTheorems.TimesInsideBounds` | internal/sinks/postgres.go:332-351 | every time a COPY of the flush gives a row lies inside the bounds computed for the table the row goes to |
| `SinkPoll.SortOrder` | internal/sinks/postgres.go:393-400 | the sort is a permutation with metric names that do not decrease |
| `SinkPoll.BatchStored` | internal/sinks/postgres.go:385-451 | each row drawn for a batch is an accepted row, for its own metric's table, at most once |
| `SinkPoll.CopiedIsWhole` | internal/sinks/postgres.go:433-451 | a message whose metric was copied is stored whole, whatever happened to other metrics |
| `SinkPoll.StoredIsCopied` | internal/sinks/postgres.go:433-451 | a stored row belongs to a message whose metric was copied: a failed COPY leaves nothing behind |
| `SinkPoll.CopiedByMetric` | internal/sinks/postgres.go:393-451 | in a sorted batch a message is copied if and only if some COPY to its metric's table succeeded |
| `SinkWriter.BatchIsSegment` | internal/sinks/postgres.go:251-278 | each batch is a segment of the accepted order that begins where the previous one ended |
| `SinkWriter.FlushKeeps` | internal/sinks/postgres.go:385-451 | flushing keeps the account: the stored rows are exactly the rows of the copied messages, each once, each in its own table |
| `SinkWriter.FlushBatch` | internal/sinks/postgres.go:385-451 | for every sequence of outcomes: a message of the batch is copied if and only if a COPY of its metric succeeded, which follows from the outcomes alone, and all times given lie inside the bounds computed before |
| `SinkSteps.CallTables` | internal/sinks/postgres.go:393-436 | the COPY calls of a flush go to the metrics of the batch in the order of their names |
| `SinkSteps.CopiedMeans` | internal/sinks/postgres.go:433-451 | a metric of the batch is copied if and only if its COPY succeeds and no earlier one found the sink unreachable |
| `SinkSteps.StepsConserve` | internal/sinks/postgres.go:251-278 | over any run of events the accepted messages are the flushed batches, the cache and the channel, in this order, and nothing accepted, flushed or copied is taken back |
| `SinkSteps.Drains` | internal/sinks/postgres.go:251-278 | receiving what is in the channel and waiting once flushes every accepted message |
| `SinkWriter.CopiedNowIs` | internal/sinks/postgres.go:433-451 | the messages the COPY calls copied are those the outcomes determine |
| `SinkSteps.AcceptedAre` | internal/sinks/postgres.go:237-248 | over any run the accepted messages are exactly the offered ones that were in time, met a sink that had not ended and a channel with room, in the order of the offers |
| `SinkSteps.StoppedForGood` | internal/sinks/postgres.go:251-278 | after its end nothing happens to the sink any more |
| `SinkWriter.PostgresWriter.Write` | internal/sinks/postgres.go:237-248 | a message offered in time to a sink that has not ended and whose channel holds fewer than 256 is appended to the channel and the accepted ones; otherwise both stay as they are; nothing else changes |
| `SinkWriter.PostgresWriter.Flush` | internal/sinks/postgres.go:385-451 | the cache becomes the next batch and is empty afterwards; which messages are copied follows from the COPY calls and from the outcomes, and their times are inside the bounds |
| `SinkWriter.PostgresWriter.Receive` | internal/sinks/postgres.go:261-269 | one message moves from channel to cache and a full cache is flushed; which messages that copies, whatever fails, and their times inside the bounds |
| `SinkWriter.PostgresWriter.TakeEvent` | internal/sinks/postgres.go:237-278 | a step of a writer, of the polling loop or the end is the step of the state machine |
| `SinkWriter.PostgresWriter.Run` | internal/sinks/postgres.go:251-278 | any run ends where the state machine ends: which messages are accepted, cached, flushed in which batch and copied follows from the events; batches hold at most 256 messages; the stored rows are exactly the rows of the copied messages, each once in its own table; if no COPY fails every flushed message is copied |
| `TickInterval.EuclidStep` | internal/reaper/database.go:88-90 | a step of the inner loop keeps the common divisors, for negative values too |
| `TickInterval.GcdPair` | internal/reaper/database.go:88-90 | the inner loop ends with a value that has exactly the common divisors |
| `TickInterval.GCDSlice` | internal/reaper/database.go:82-93 | the result divides all values and is divided by every common divisor; zero for no values |
| `TickInterval.CalcTickInterval` | internal/reaper/database.go:96-103 | the tick is the greatest common divisor of the floored intervals, whatever order they come in |
| `TickInterval.IntervalsAreTicks` | internal/reaper/database.go:96-103 | every positive interval is a whole number of ticks |
| `TickInterval.TickIsGreatest` | internal/reaper/database.go:96-103 | no longer time divides all intervals |
| `TickInterval.TickAtFloor` | internal/reaper/database.go:96-103 | an interval of a second or less makes the tick one second |
| `TickInterval.TickUnique` | internal/reaper/database.go:261-261 | computing the tick again gives the same one |
| `Scheduling.NeverEarly` | internal/reaper/database.go:168-174 | on every timeline a metric is never fetched before its interval has passed since its recorded fetch |
| `Scheduling.FetchedWithin` | internal/reaper/database.go:253-262 | a metric is fetched again within as many iterations as its interval holds ticks, at the latest when it is next ready |
| `Scheduling.FirstFetch` | internal/reaper/database.go:172-174 | a metric that is ready has been fetched by then |
| `BatchFetch.BatchSendsTheSame` | internal/reaper/database.go:273-311 | reading a batch and retrying sends the same envelopes in the same order as fetching one by one, if the entries the batch answers have rows there exactly when they have rows alone; nothing is asked of entries it refuses |
| `SourceRound.BatchSendsTheSameIff` | internal/reaper/database.go:273-311 | for distinct entries that condition is exact |
| `BatchFetch.EveryFailureReported` | internal/reaper/database.go:293-310 | every entry that fails alone is reported exactly once |
| `BatchFetch.MarksOnlyFailures` | internal/reaper/database.go:303-309 | no entry is marked degraded that does not fail alone |
| `BatchFetch.MarksAllFailuresIff` | internal/reaper/database.go:293-309 | all entries that fail alone are marked degraded if and only if no query breaks off while its rows are collected before the batch is aborted |
| `BatchFetch.BrokenOffQueryIsNotMarked` | internal/reaper/database.go:300-300 | an entry that fails alone and is not marked |
| `SourceRound.FailedMeans` | internal/reaper/database.go:218-227 | a metric is in the set the degraded metrics are held equal to exactly when its last attempt was an individual fetch that failed |
| `SourceLoop.DbConnReaper.FetchMetric` | internal/reaper/database.go:314-347 | an individual fetch sends the rows it gets and says whether it succeeded |
| `SourceLoop.DbConnReaper.ReadBatch` | internal/reaper/database.go:293-301 | answers are sent in order, refused entries are kept for a retry, broken-off ones only reported; every entry is one batched attempt |
| `SourceLoop.DbConnReaper.RetryAll` | internal/reaper/database.go:303-309 | the refused entries are fetched one by one, each an individual attempt, and those that fail are degraded |
| `SourceRound.SentAtMostOnce` | internal/reaper/database.go:293-309 | whatever the server answers in the batch and alone, no entry is sent twice |
| `SourceLoop.DbConnReaper.ExecuteBatch` | internal/reaper/database.go:273-311 | what is sent, tried, degraded and reported, each entry sent at most once; exactly what one-by-one fetching sends if and only if batch and retry agree on the entries the batch answers |
| `SourceLoop.DbConnReaper.Visit` | internal/reaper/database.go:168-233 | the loop body takes, for one metric, the branch whose effects are the subject of the rows below |
| `SourceFacts.LeftAlone` | internal/reaper/database.go:169-189 | a metric that is not due, not defined, excluded for the role, or the log parser's is neither recorded nor sent, batched or tried |
| `SourceFacts.FetchedOutside` | internal/reaper/database.go:190-195 | a due metric of the operating system, change_events and instance_up are recorded, sent once if there are rows, and never batched or tried |
| `SourceFacts.ServedFromCache` | internal/reaper/database.go:197-202 | a due ordinary metric the cache serves is recorded and sent exactly once, without an attempt |
| `SourceFacts.WithoutQuery` | internal/reaper/database.go:206-217 | a due metric without a query is recorded, not sent, without an attempt |
| `SourceFacts.DegradedAlone` | internal/reaper/database.go:218-227 | a due degraded metric is fetched by itself exactly once and its rows are sent |
| `SourceFacts.WaitsForBatch` | internal/reaper/database.go:228-229 | the batch holds exactly the other due queries, and they are recorded at its end |
| `SourceFacts.LogParserStarts` | internal/reaper/database.go:181-189 | the log parser is started exactly when its metric is due, defined and allowed for the role |
| `SourceFacts.EntryFate` | internal/reaper/database.go:273-311 | an entry of a batch is sent with the rows the batch answers, or if the batch refuses it with those it gives alone; the attempts made and whether it counts as failed |
| `SourceFacts.BatchedFate` | internal/reaper/database.go:236-257 | the same for the batch of a pass, for both kinds of source: sent, tried and degraded |
| `SourceFacts.StillDegraded` | internal/reaper/database.go:218-227 | a metric outside the batch is degraded afterwards exactly if it was before and was not fetched successfully now |
| `SourceFacts.NeverTouched` | internal/reaper/database.go:176-179 | over a run, a metric that is never defined and allowed for the role is never recorded, sent or tried |
| `SourceLoop.DbConnReaper.VisitAll` | internal/reaper/database.go:168-234 | the loop over the active metrics in any order: what is recorded, tried, recovered, sent and batched |
| `SourceLoop.DbConnReaper.RunBatch` | internal/reaper/database.go:236-257 | Postgres sources run the batch, others fetch one by one: what is sent, tried and degraded, and every waiting metric is recorded |
| `SourceRound.PassSends` | internal/reaper/database.go:160-257 | an iteration sends no metric twice, and if batch and retry agree exactly the due metrics that have rows |
| `SourceLoop.DbConnReaper.Iterate` | internal/reaper/database.go:160-257 | exactly the due and recordable metrics are recorded; what is sent, tried and degraded is what the pass does, with no metric sent twice; degraded metrics are those whose last individual fetch failed and none is batched |
| `SourceLoop.DbConnReaper.Reap` | internal/reaper/database.go:156-264 | any number of iterations, with the metrics active in each: every pass starts a tick after the end of the one before, from the fetch times and degraded metrics the passes before it left; what the run records, sends, tries and marks degraded is what its passes do; with fixed metrics the timeline is legal |
| `SourceRound.OneEnvelopeEach` | internal/reaper/database.go:156-264 | over a run where batch and retry agree, every fetch of a metric that gets rows is exactly one envelope and there are no others |
| `SourceRound.FetchedWhenDue` | internal/reaper/database.go:168-189 | on any run an iteration records a metric exactly when it is defined, allowed for the role and not the log parser's, and its interval, as it is then, has passed since its last recorded fetch |
| `SourceRound.FixedRunIsLegal` | internal/reaper/database.go:156-264 | a run whose active metrics never change leaves a legal timeline with one tick |
| `SourceRound.RefetchedWithin` | internal/reaper/database.go:253-262 | on any run with fixed metrics a metric is fetched again within interval divided by tick iterations |
| `PromLoop.PromReaper.Emit` | internal/reaper/prometheus.go:76-91 | a family with an interval is emitted at most once per scrape and exactly when its interval has passed, any other as often as it occurs |
| `PromLoop.EmitsMean` | internal/reaper/prometheus.go:76-91 | a scrape emits a family with an interval once if the interval has passed, and any other, or every family when nothing is configured, as often as it was scraped |
| `PromLoop.ScrapeAllSendsAll` | internal/reaper/prometheus.go:59-97 | when nothing is configured a run sends every family of every successful scrape |
| `PromLoop.CalcScrapeInterval` | internal/reaper/prometheus.go:42-55 | 60 seconds without configured metrics, otherwise the tick of their intervals |
| `PromLoop.PromReaper.Reap` | internal/reaper/prometheus.go:59-99 | any number of scrapes, with the metrics configured at each: a successful scrape emits exactly what the intervals and the emissions remembered before it let through, a failed one nothing; the emissions are remembered and together are what is sent; scrapes are a scrape interval apart |
| `PromLoop.FixedRunIsLegal` | internal/reaper/prometheus.go:59-99 | with metrics that never change the timeline is legal |
| `PromLoop.EmittedWithin` | internal/reaper/prometheus.go:76-97 | a family is emitted again at the latest in the first successful scrape holding it after interval divided by scrape interval iterations |
| `ChangeDiff.StateIsCurrentIff` | internal/reaper/database.go:488-507 | the remembered state equals the rows if and only if nothing vanished or the sizes differ |
| `ChangeDiff.DistinctRowsAreRemembered` | internal/reaper/database.go:541-586 | with distinct identifiers the state equals the rows and the length comparison skips the search only when nothing was dropped |
| `ChangeDiff.DuplicateHidesDrop` | internal/reaper/database.go:488-488 | a result with a repeated row that hides a drop |
| `ChangeDetection.UpsertRows` | internal/reaper/database.go:465-486 | the events of new and changed objects replay the old hashes to the new ones and the counts are set-difference sizes |
| `ChangeDetection.DropVanished` | internal/reaper/database.go:493-506 | exactly the objects missing from the result are dropped, reported once each and named |
| `ChangeDetection.ChangeState.Detect` | internal/reaper/database.go:445-665 | first run, failed query and later run of functions, tables and indexes: new state, replay of the events, the three counts |
| `ChangeDetection.ChangeState.DetectPrivileges` | internal/reaper/database.go:678-742 | a non-empty result leaves exactly its rows remembered, repeated rows included; an empty one changes nothing |
| `ChangeDetection.PrivilegesCurrentIff` | internal/reaper/database.go:721-742 | the remembered privileges are the current ones if and only if the result is not empty or nothing was remembered |
| `ChangeDetection.ChangeState.LastRevokeIsMissed` | internal/reaper/database.go:722-722 | two runs after which the only privilege, revoked in between, is still remembered and no event was reported |
| `ChangeDetection.ChangeState.FailedFirstQuery` | internal/reaper/database.go:451-464 | a failed first query followed by a result: every object counts as created |
| `ChangeDetection.ChangeState.IndexValidityFlips` | internal/reaper/database.go:620-640 | two runs between which only the validity of an index flips: exactly one event, which says that it was altered |
| `ChangeDetection.ChangeState.FunctionDropped` | internal/reaper/database.go:493-505 | two runs between which a function vanishes: exactly one drop event, with its name first and its oid second |
| `ChangeDetection.EventsNameTheVanished` | internal/reaper/database.go:493-505 | an object with separable parts is named by a drop or revoke event if and only if it was remembered and no longer is |
| `ChangeDetection.NamesTheObject` | internal/reaper/database.go:496-501 | a drop or revoke event names the parts of the vanished object if and only if these are separable |
| `ChangeDetection.JoinedHasParts` | internal/reaper/database.go:725-735 | every remembered identifier splits into at least the parts the event reads |
| `ChangeDetection.RowsAreJoined` | internal/reaper/database.go:700-702 | the identifiers built from the rows of each query have the form the detectors rely on |
| `ChangeDetection.JoinInjective` | internal/reaper/metric.go:14-14 | different objects with separable parts have different identifiers |
| `Strings.SplitJoinIff` | internal/reaper/database.go:496-496 | splitting a joined identifier gives back its parts if and only if no separator begins inside a part, counting the separator behind it |
| `Strings.FirstPiecesIff` | internal/reaper/database.go:725-735 | the same for the first pieces an event reads |
| `Strings.SplitJoin` | internal/reaper/database.go:466-466 | parts free of the separator's first character come back |
| `Strings.SplitAtLeast` | internal/reaper/database.go:496-497 | a joined identifier never splits into fewer pieces than it has parts, whatever they contain |
| `Strings.SplitMovesCharacter` | internal/reaper/metric.go:14-14 | a function named "a¤" with oid 1: its name holds no separator, yet splitting gives "a" and "¤1" |
| `LogReader.SplitLines` | internal/reaper/logparser_remote.go:56-56 | cutting a chunk at newlines gives its complete lines and the rest |
| `LogReader.ChunkFacts` | internal/reaper/logparser_remote.go:49-60 | a chunk moves on to where a line begins; what it cuts off is the beginning of the line read next |
| `LogReader.StuckIffLongLine` | internal/reaper/logparser_remote.go:57-60 | the offset does not move if and only if a line as long as a chunk begins there |
| `LogReader.StopsAtLongLines` | internal/reaper/logparser_remote.go:49-60 | a chunk never reaches past the beginning of a line as long as a chunk |
| `LogReader.LongLineIsNeverRead` | internal/reaper/logparser_remote.go:59-59 | a file that begins with such a line is never read |
| `LogReader.RemoteLog.ReadChunk` | internal/reaper/logparser_remote.go:47-64 | the next chunk's complete lines and one cut string are queued, and the offset moves if and only if the chunk holds a newline |
| `LogReader.RemoteLog.HandLine` | internal/reaper/logparser_remote.go:109-111 | the next queued string is handed to the matcher |
| `LogReader.RemoteLog.Poll` | internal/reaper/logparser_remote.go:66-111 | one turn takes over the new size, reads at most one chunk and hands all of it out |
| `LogReader.RemoteLog.Follow` | internal/reaper/logparser_remote.go:25-127 | over any growing sizes the complete lines read are handed out once, in order; the only other strings are cut line beginnings of full-size chunks or empty; once the file stops growing the end is reached if and only if no line from here on is as long as a chunk, and otherwise the reader stands still at such a line |
| `LogSessions.EachLineOnce` | internal/reaper/logparser_remote.go:80-101 | sessions of one file that follow on without a gap hand out its complete lines exactly once and in order |
| `LogSessions.LinesCounted` | internal/reaper/logparser_remote.go:80-101 | the sessions of one file hand out as many lines as lie between its first start and its last end, and those read again |
| `LogSessions.OnceIff` | internal/reaper/logparser_remote.go:80-101 | a file's complete lines were handed out exactly once, in order, if and only if each of its sessions began where the previous one ended |
| `LogRotation.RememberOk` | internal/reaper/logparser_remote.go:85-90 | a remembered offset is where the last session of its file ended; with at most 2500 files none is forgotten |
| `LogRotation.ResumeFacts` | internal/reaper/logparser_remote.go:84-101 | the next file is entered where its last session ended if that is remembered, and at its beginning otherwise |
| `LogRotation.TurnKeeps` | internal/reaper/logparser_remote.go:66-107 | one look keeps all sessions in order, never more than 2500 offsets remembered, and reads nothing beyond the sizes it sees |
| `LogRotation.LookReads` | internal/reaper/logparser_remote.go:66-107 | after every look, one that switches included, the reader stands at the end of its file as the look shows it, or before a line as long as a chunk, or it has read on |
| `LogRotation.LeftAtEnd` | internal/reaper/logparser_remote.go:80-84 | over any run, every session ended at the size seen by a look that also showed a newer file |
| `LogRotation.NeverLeaves` | internal/reaper/logparser_remote.go:57-84 | with a line as long as a chunk ahead the reader never passes it and never leaves the file, whatever newer files appear |
| `LogRotation.LeavesIff` | internal/reaper/logparser_remote.go:66-107 | once a file stops growing and a newer one exists, it is left, after enough looks, if and only if no line ahead is as long as a chunk; it is then left at its end |
| `LogRotation.ReentersIff` | internal/reaper/logparser_remote.go:85-101 | a file is entered again from its beginning exactly when it was read beyond it and is not remembered |
| `LogRotation.EveryFileOnceIff` | internal/reaper/logparser_remote.go:66-127 | after any run the complete lines of a file were handed out exactly once and in order, from its beginning (the first file: from where following began), if and only if no look made the reader enter it again |
| `LogRotation.RoomForAll` | internal/reaper/logparser_remote.go:85-101 | without truncation and with at most 2500 files none is entered again |
| `LogRotation.RotatingLog.Leave` | internal/reaper/logparser_remote.go:85-90 | the size of the file left is remembered, and too many remembered offsets are all forgotten |
| `LogRotation.RotatingLog.Switch` | internal/reaper/logparser_remote.go:80-101 | a file read to its end becomes a past session and the newer file is followed from its remembered offset or its beginning; the whole new state |
| `LogRotation.RotatingLog.Poll` | internal/reaper/logparser_remote.go:102-106 | the new size is taken over and, unless the reader stands there, the next chunk is read and handed out; the whole new state |
| `LogRotation.RotatingLog.Turn` | internal/reaper/logparser_remote.go:66-107 | one look at the directory: if the file has not grown and is read to its end the reader switches to the newer file if there is one, otherwise it follows the file; the whole new state |
| `LogRotation.RotatingLog.Run` | internal/reaper/logparser_remote.go:25-141 | any run of looks at a directory whose files only grow ends where the looks, one after the other, lead: sessions, offsets and everything handed out |
| `SortedKeys.SortKeys` | internal/sinks/prometheus.go:344-344 | the keys ascending, each once, whatever order they come in |
| `SortedKeys.OnlyOne` | internal/sinks/prometheus.go:343-344 | there is only one such order, so descriptors do not depend on map iteration |
| `PromMemo.NoTwins` | internal/sinks/prometheus.go:379-388 | no two samples of one envelope share the name and the whole label set |
| `PromMemo.IdentitiesDiffer` | internal/sinks/prometheus.go:380-388 | no two samples of one envelope share an identity |
| `PromCells.LabelsUnique` | internal/sinks/prometheus.go:293-320 | a row has only one label set |
| `PromExport.ParseRow` | internal/sinks/prometheus.go:293-341 | whatever the order of the columns: the labels are the non-empty tag columns, then the database name, then the source's tags; the fields are the numeric columns with their own numbers; the time is the row's for a Prometheus source that has one |
| `PromMemo.MemoIsFirst` | internal/sinks/prometheus.go:390-395 | what is remembered under a key is the descriptor of the first cell with that key |
| `PromMemo.RecallExactIff` | internal/sinks/prometheus.go:390-395 | every remembered descriptor is the one that would be built if and only if no two cells of one key have different descriptors |
| `PromMemo.SentIsEmitted` | internal/sinks/prometheus.go:292-404 | then the samples sent are those of building every sample anew |
| `PromMemo.SentIsEmittedIff` | internal/sinks/prometheus.go:292-404 | if the library accepts the samples built anew, the samples sent are those if and only if no two cells of one key have different descriptors |
| `PromRows.NoClashIff` | internal/sinks/prometheus.go:343-395 | whether two cells clash is decided by the label names and the identities of the rows, whatever order the columns come in |
| `PromRows.FreeRowsApart` | internal/sinks/prometheus.go:350-351 | if the source's tags and the columns of the rows hold no separator, no two rows clash |
| `PromExport.SeparatorInTagColumn` | internal/sinks/prometheus.go:351-351 | two rows of a database source, one with the separator in a tag column, handed to the exporter: one sample and one error instead of two samples |
| `PromExport.MetaFor` | internal/sinks/prometheus.go:354-377 | a remembered name and type are those that would be built |
| `PromExport.DescFor` | internal/sinks/prometheus.go:390-395 | the remembered descriptor, or a new one that is then remembered |
| `PromExport.WriteCell` | internal/sinks/prometheus.go:353-404 | the duplicate, rejected and written branches keep the account of identities, descriptors, samples and counts |
| `PromExport.WriteRow` | internal/sinks/prometheus.go:292-405 | every numeric column of the row is written once |
| `PromExport.WriteRows` | internal/sinks/prometheus.go:292-405 | the loop over the rows handles every row once |
| `PromSamples.EnvelopeSamples` | internal/sinks/prometheus.go:292-404 | every sample is that of one column of one row: its number, name, type, label values and time, and no earlier row has one that looks the same; every exported column whose sample looks new has a proper one among those built anew, if the library accepts it |
| `PromExport.WritePromMetrics` | internal/sinks/prometheus.go:255-407 | every numeric cell of the envelope is handled once; every sample carries the number, name, type, label values and time of one column of one row; if tags and columns hold no separator every column whose sample looks new has one the library accepts or refuses; what is sent equals the unmemoised form if tags and columns hold no separator, and, if the library accepts what is built anew, exactly if no two rows clash; written plus errors is the number of numeric cells for database sources; an envelope older than ten minutes is purged and sends nothing |
| `InstanceCache.EnrichCarries` | internal/reaper/reaper.go:437-450 | a sent row carries its sender's database and instance and keeps all other columns |
| `InstanceCache.DeepCopy` | internal/metrics/types.go:159-165 | new rows with the same cells |
| `InstanceCache.Touch` | internal/metrics/types.go:168-173 | every row gets the current time |
| `InstanceCache.AddSysinfo` | internal/reaper/reaper.go:437-450 | the sender's columns are written into the rows it sends and no others |
| `InstanceCache.SharedCache.Put` | internal/reaper/cache.go:41-52 | a private copy is remembered with the time it was put; rows without an epoch column get that time; nothing is shared with the caller's rows |
| `InstanceCache.AskReadsSince` | internal/metrics/types.go:131-149 | the epoch an entry is judged by is the fetched one, the time it was put, or for an ill-typed one the time it was first asked for |
| `InstanceCache.HeldAreFetched` | internal/reaper/cache.go:47-51 | the rows held are the rows fetched, an epoch filled in aside |
| `InstanceCache.NeverTooOldIff` | internal/reaper/cache.go:29-33 | an entry is never served beyond the allowed age if and only if its first row has an integer epoch or no epoch column |
| `InstanceCache.ServedWhileFresh` | internal/reaper/cache.go:29-38 | a well-typed entry is served exactly while it is no older than the allowed age |
| `InstanceCache.SharedCache.StaleHit` | internal/reaper/cache.go:29-50 | rows with a floating-point epoch, put long ago, that are served within a small age |
| `InstanceCache.SharedCache.Get` | internal/reaper/cache.go:23-39 | exactly when an entry is a hit; with a well-typed epoch that is exactly when it is no older since fetch or put than the allowed age; a hit is a fresh copy of the rows held |
| `InstanceCache.SharedCache.Send` | internal/reaper/database.go:124-134 | sending changes only the rows sent; cached rows and earlier envelopes stay as they are |
| `InstanceCache.SharedCache.Dispatch` | internal/reaper/database.go:137-145 | what is cached are the rows before the sender's columns were added |
| `InstanceCache.SharedCache.Serve` | internal/reaper/database.go:197-201 | a hit is sent with the asking source's own columns and shares no row with the cache or another envelope; with a well-typed epoch it is a hit exactly within the allowed age |

## Left out

- The web server, JWT handling and the web user interface: plumbing and presentation.
- SQL bodies, migrations and PostgreSQL or TimescaleDB behaviour; COPY, batches and queries appear through their outcomes.
- `EnsureMetricTimePartsExist` beyond its inputs, because its coverage depends on an SQL function.
- Propagation of the "recreate partitions" flag: a later database error in the same flush overwrites it.
- Splitting a row into tags and JSON in `Values`; only its time column is modelled.
- `DetectConfigurationChanges`: the same upsert loop as the other detectors without drops, so it would only add easy members.
- `parseLogsLocal` and matching of log lines: file handles, globbing, and regular expressions.
- LogRotation.RotatingLog.Switch: does not model switching after the size of the current file could not be read, which may leave unread lines behind.
- psutil readings, etcd and Patroni clients, TLS and URL parsing: foreign calls.
- Uniqueness of Prometheus metrics across envelopes and protection of fresh writes from a stale purge: the code guarantees neither.
- `detectServerRestart`, timeouts of fetches, recovery-status tracking and registration of metrics in the sinks: easy or I/O.
- ReapLoop.Reaper.SweepAll: goroutines of the sweep run one after the other in any order; interleaving inside them is covered for StartWorker and ShutdownWorker by the registry model only.
- ReapLoop.Reaper.ConnectConn: connection objects are values with an identity whose pools the reaper holds in a map, so aliasing of a connection object is identity of that number.
- LogReader.RemoteLog.ReadChunk: does not model a failed read, after which the source has already moved its offset and loses the chunk.
- SinkWriter.PostgresWriter.Run: what the sort may reorder among messages of one metric is left open, and messages still cached when the context ends are not flushed, as in the source.
- PromExport.WritePromMetrics: distinct cells whose identity strings coincide are dropped as duplicates, as in the source; values are exact numbers, not floating point.
- PromLoop.PromReaper.Reap: the intervals do not change while the families of one scrape are emitted.
- SourceRound.RefetchedWithin: is about runs whose active metrics and intervals do not change.
