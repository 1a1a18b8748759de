# Verified model of the metrics sidecar's kernels

The sidecar collects Netdata metrics, accepts Prometheus remote writes, stores samples in PostgreSQL, rolls them up,
deletes old ones and answers questions about them. This project models the parts of it that compute or keep state and
proves what they promise, for every input and every run. `dafny verify dfyconfig.toml` checks all of it.

Code that updates variables or fields is modelled by methods with loops and by classes. Each method is proved against
a function of its inputs or old state, and the laws are then proved about these functions as lemmas. For every operation
some laws say in plain terms, with the numbers written out, what it gives: `RollupCalendar` in microseconds,
`BreakerHistory` by the times of events, `IngestLaws` sample by sample.

| files | what they model |
|---|---|
| `Varint`, `RemoteWrite`, `RemoteWriteLaws`, `RemoteWriteEncoding`, `RemoteWriteFailures` | the hand-written remote-write decoder: varints, four nested message loops, unknown fields, errors and slice panics |
| `SampleStore`, `Ingest`, `IngestLaws` | flattening a request to rows, and the two batched duplicate-safe inserts down to placeholders and bound columns |
| `RateLimit`, `RateLimitLaws` | the per-client token bucket and the eviction of idle clients |
| `CircuitBreaker`, `BreakerHistory`, `Collection` | the timed three-state breaker, and collection cycles that run behind it |
| `Migration` | migrations run by any number of instances that share an advisory lock and may crash anywhere |
| `Rollup`, `RollupLaws`, `RollupCalendar`, `RetentionHistory`, `HourCoverage` | hourly and daily aggregation, deletion of old samples, and retention passes over whole histories |
| `Exposition`, `ExpositionLaws`, `ExpositionRoundTrip` | the label splitter and line parser for the Prometheus text format, version 0.0.4 |
| `Reals`, `Regression`, `Forecast`, `Anomaly` | linear regression, threshold forecasts and z-score anomalies |

## What turned out to be false, and when it holds

Where the code does not meet what its comments or documents promise, the model follows the code and a lemma states
exactly when the promise is met.

- The hourly statement is called idempotent and safe to re-run on overlapping ranges (`internal/store/rollup.go:18`).
  A window that starts inside an hour replaces the exact row of that hour by one of its later part:
  `OverlapLosesSamples` gives the input, `RerunKeepsExact` the condition.
- A pass is described as aggregating first and deleting later (`internal/scheduler/scheduler.go:192`), but it runs
  once a day and its window is three hours long. Over a whole run an hour ends up right for every store exactly when
  the last window that reaches into it covers it whole (`HourRollsUp`, and `HistoryRollsUp` for histories of passes);
  for windows a day apart, exactly when one of them covers it (`SpacedRollsUp`). The 20 or 21 hours between two daily
  windows never get a row and are lost when their samples are deleted (`GapHoursAreLost`).
- A remote-write payload of two bytes makes the decoder panic (`TwoBytesPanic`), because lengths of skipped fields are
  not compared with what remains. A message panics exactly when a field that is reached does (`PanicIsReached`), each
  level says which fields those are (`LabelFieldPanics` to `RequestFieldPanics`), and a request that is well framed at
  every level never does (`FramedRequestDecodes`).
- Printed label values are not unescaped and a closing brace inside a value ends the labels. A printed line is read
  back exactly when no value needs escaping or holds a brace (`LabelsRoundTrip`).
- The count that a remote write reports is the number of rows sent, not of rows stored; they agree exactly when all
  rows are new (`CountIsGrowthIffAllNew`).
- The comment on `NewRateLimiter` says stale entries are cleaned up every minute; the code uses three minutes, and so
  does the model.
- The rate limiter sends `Retry-After: 1` at every rate. A client that heeds it is allowed in every run exactly for
  rates of at least one a second (`RetryAfterOneSecond`).
- The anomaly query admits groups of five samples, but at the default threshold none with fewer than eight can ever be
  reported (`ReportedHasSamples`).

## Model

| member | source | states |
|---|---|---|
| `Varint.DecodeVarint` | internal/remotewrite/handler.go:358-372 | The register loop, with its 64-bit shifts and its limit of ten bytes, computes the base-128 number modulo 2^64 and the bytes read, or (0, 0) for a varint that does not end |
| `Varint.RoundTrip` | internal/remotewrite/handler_test.go:101-105 | Decoding minimal encoding gives back every 64-bit value, whatever bytes follow |
| `Varint.DecodeStable` | internal/remotewrite/handler.go:358-372 | A varint that ends reads the same when more bytes are appended |
| `RemoteWrite.ParseLabel` | internal/remotewrite/handler.go:279-313 | The loop returns the fold of the label's fields, with the same errors and the same out-of-range slices |
| `RemoteWrite.ParseSample` | internal/remotewrite/handler.go:315-348 | The same for a sample, with its double as a bit pattern and its signed timestamp |
| `RemoteWrite.ParseTimeSeries` | internal/remotewrite/handler.go:235-277 | The same for a time series and its embedded labels and samples |
| `RemoteWrite.ParseWriteRequest` | internal/remotewrite/handler.go:200-233 | The same for a whole request |
| `RemoteWriteLaws.RequestConcat` | internal/remotewrite/handler.go:200-233 | If the first of two byte strings decodes, their concatenation decodes to the series of both, or fails as the second does |
| `RemoteWriteLaws.SeriesConcat` | internal/remotewrite/handler.go:235-277 | Concatenated series messages append their labels and their samples |
| `RemoteWriteLaws.LabelConcat` | internal/remotewrite/handler.go:279-313 | Concatenated labels merge with the last set half winning, and a second one that fails makes the whole fail alike |
| `RemoteWriteLaws.SampleConcat` | internal/remotewrite/handler.go:315-348 | A second sample is decoded on from the first: well framed, the last set half wins; failing, the whole fails alike |
| `RemoteWriteLaws.LabelDecodesIffFramed` | internal/remotewrite/handler.go:279-313 | A label decodes exactly when it is well framed |
| `RemoteWriteLaws.LabelLastOneWins` | internal/remotewrite/handler.go:279-313 | A well-framed label decodes, to its last text fields 1 and 2 as an independent field reader lists them |
| `RemoteWriteLaws.SampleLastOneWins` | internal/remotewrite/handler.go:315-348 | A well-framed sample decodes, to its last double field 1 and its last varint field 2 |
| `RemoteWriteLaws.SeriesIsItsFields` | internal/remotewrite/handler.go:235-277 | A well-framed series decodes exactly when its embedded labels and samples do, and is those in order |
| `RemoteWriteLaws.RequestIsItsFields` | internal/remotewrite/handler.go:200-233 | A well-framed request decodes exactly when its embedded series do, and is those in order |
| `RemoteWriteFailures.ChunkPanics` | internal/remotewrite/handler.go:288-305 | Slicing out a text panics exactly when its length has the sign bit of an int |
| `RemoteWriteFailures.SkipPanics` | internal/remotewrite/handler.go:387-392 | Skipping a field panics exactly for a text whose length leads before its start or behind the end |
| `RemoteWriteFailures.LabelFieldPanics` | internal/remotewrite/handler.go:281-311 | Which fields of a label panic |
| `RemoteWriteFailures.SampleFieldPanics` | internal/remotewrite/handler.go:317-346 | Which fields of a sample panic |
| `RemoteWriteFailures.SeriesFieldPanics` | internal/remotewrite/handler.go:237-275 | Which fields of a series panic |
| `RemoteWriteFailures.RequestFieldPanics` | internal/remotewrite/handler.go:202-231 | Which fields of a request panic |
| `RemoteWriteFailures.PanicIsReached` | internal/remotewrite/handler.go:200-372 | A message of any level panics exactly when a field panics that decoding reaches |
| `RemoteWriteFailures.TwoBytesPanic` | internal/remotewrite/handler.go:224-231 | A request of two bytes that panics |
| `RemoteWriteFailures.FramedRequestDecodes` | internal/remotewrite/handler.go:200-372 | A request well framed at every level decodes to what its fields mean, so it never panics or fails |
| `RemoteWriteFailures.OddWireTypesFail` | internal/remotewrite/handler.go:374-401 | Groups and unused wire types are errors at every level |
| `RemoteWriteFailures.CutRequestFails` | internal/remotewrite/handler.go:200-233 | A request that ends within the encoding of a series does not decode, however much came before |
| `RemoteWriteEncoding.TagRoundTrip` | internal/remotewrite/handler.go:350-356 | A tag gives back every field number and wire type that 64 bits hold |
| `RemoteWriteEncoding.FieldRoundTrip` | internal/remotewrite/handler.go:374-401 | The independent field reader gives back every field of the four kinds and leaves the bytes behind it |
| `RemoteWriteEncoding.UnknownFieldsIgnored` | internal/remotewrite/handler.go:374-401 | At each of the four levels, any run of well-framed unknown fields put at a field boundary changes nothing, whether the rest decodes, fails or panics |
| `RemoteWriteEncoding.LabelRoundTrip` | internal/remotewrite/handler_test.go:111-119 | Decoding an encoded label gives it back, with default fields written or left out |
| `RemoteWriteEncoding.SampleRoundTrip` | internal/remotewrite/handler_test.go:121-138 | The same for every 64-bit double pattern and every int64 timestamp, negative ones included |
| `RemoteWriteEncoding.SeriesRoundTrip` | internal/remotewrite/handler_test.go:140-148 | The same for a time series with any labels and samples |
| `RemoteWriteEncoding.RequestRoundTrip` | internal/remotewrite/handler.go:200-372 | Decoding the encoding of any list of time series returns exactly that list |
| `Ingest.Flatten` | internal/remotewrite/handler.go:102-131 | The nested loops collect the rows of all named series in order |
| `Ingest.FindNames` | internal/remotewrite/handler.go:104-112 | The last metric name label and the last instance label win |
| `Ingest.RowsMeaning` | internal/remotewrite/handler.go:103-131 | A row is stored exactly for the finite samples of series that carry a metric name |
| `IngestLaws.RowsOfSample` | internal/remotewrite/handler.go:103-131 | Each sample adds its own row in its place, exactly if its double is finite and its series has a metric name: the last labels of that name as dimension and instance, its bits, and its time in nanoseconds |
| `IngestLaws.RowCount` | internal/remotewrite/handler.go:119-130 | There are as many rows as finite samples in series with a metric name |
| `IngestLaws.FinitePattern` | internal/remotewrite/handler.go:120-122 | Finite means below the pattern of infinity, sign aside |
| `IngestLaws.NamesSpelled` | internal/remotewrite/handler.go:107-109 | The two label names are __name__ and instance |
| `IngestLaws.StoredColumns` | internal/remotewrite/handler.go:152-168 | Which column each part of a row is stored in, and which stay NULL |
| `Ingest.PayloadsConcat` | internal/remotewrite/handler.go:93-131 | From bytes to rows: the rows of two concatenated payloads are those of the first, then those of the second |
| `Ingest.BuildStatement` | internal/remotewrite/handler.go:152-168 | The loop writes the numbered statement with six placeholders a row |
| `Ingest.BatchRows` | internal/remotewrite/handler.go:152-168 | Each placeholder binds its column of its row, so the statement inserts exactly the batch |
| `Ingest.Receiver.RunBatches` | internal/remotewrite/handler.go:146-175 | The batch loop fails exactly when a batch it reaches fails, with the rows before that batch as count, and else inserts all rows one at a time |
| `Ingest.Receiver.IngestSeries` | internal/remotewrite/handler.go:93-182 | Fails exactly when begin, a batch or commit fails and then leaves the table alone; else the table is that of inserting the rows one at a time; the count is the number of rows, or of those before the batch that failed |
| `Ingest.CountIsGrowthIffAllNew` | internal/remotewrite/handler.go:174-181 | The reported count is the growth of the table exactly when each row has a key of its own not stored before |
| `SampleStore.Store.BuildStatement` | internal/store/store.go:262-296 | The loop writes the numbered statement with ten placeholders a sample |
| `SampleStore.Store.InsertBatch` | internal/store/store.go:257-304 | Running the statement inserts the samples of the batch one at a time, skipping keys that are present |
| `SampleStore.Store.RunBatches` | internal/store/store.go:235-248 | The batch loop fails exactly when a batch it reaches fails, and else inserts all samples one at a time; a failure leaves what the batches before it inserted |
| `SampleStore.Store.InsertSamples` | internal/store/store.go:219-254 | All or nothing: the exact failure condition, an unchanged table and the count returned on failure, and else the table and count of one-at-a-time insertion |
| `SampleStore.NumberedBinds` | internal/store/store.go:266-293 | In a numbered statement placeholder p binds column (p-1) mod k of row (p-1) div k |
| `SampleStore.StatementRows` | internal/store/store.go:262-296 | The statement built from samples inserts exactly those samples |
| `SampleStore.PlaceholderLimit` | internal/store/store.go:233-244 | Placeholders run from 1 to at most 5000, below the limit of 65535 |
| `SampleStore.BatchesCover` | internal/store/store.go:236-242 | Batches cover every element once and in order |
| `SampleStore.BatchesFit` | internal/store/store.go:236-242 | No batch is empty or longer than the batch size |
| `SampleStore.BatchSizeDoesNotMatter` | internal/store/store.go:236-248 | Inserting batch by batch is inserting one row at a time, for every batch size |
| `SampleStore.SameKey` | internal/store/migrations/001_initial_schema.sql:35-37 | Rows collide exactly when six columns agree, NULL being the empty text in two of them |
| `SampleStore.SampleColumns` | internal/store/store.go:278-294 | Fields are stored in the columns of their names, and which samples collide |
| `SampleStore.InsertKeys` | internal/store/migrations/001_initial_schema.sql:35-37 | The table afterwards holds exactly the old and the offered keys, old rows are unchanged, and the count is the growth |
| `SampleStore.FirstRowWins` | internal/store/migrations/001_initial_schema.sql:35-37 | Of several rows with one new key the first is stored |
| `SampleStore.ReinsertIsIdle` | internal/store/store.go:296-303 | Inserting the same samples again returns 0 and changes nothing |
| `RateLimit.RateLimiter.Allow` | internal/middleware/ratelimit.go:46-74 | One call decides and updates the caller's bucket by capped refill, and touches no other |
| `RateLimit.RateLimiter.CleanupPass` | internal/middleware/ratelimit.go:96-109 | A pass, in any iteration order, removes exactly the buckets not seen for the interval |
| `RateLimit.RateLimiter.constructor` | internal/middleware/ratelimit.go:34-43 | Starts empty with a cleanup interval of 180 seconds |
| `RateLimit.EvictionUnobservable` | internal/middleware/ratelimit.go:96-109 | Over all interleavings of calls and sweeps the limiter decides like one that never forgets, if and only if rate times cleanup interval is at least the burst |
| `RateLimit.WiredEvictionUnobservable` | cmd/netdata-postgres-mcp/main.go:309 | With the wired burst and interval that is so exactly for rates of at least 1/180 |
| `RateLimit.RefillComposes` | internal/middleware/ratelimit.go:60-66 | Capped refill over an interval equals capped refill over its two parts |
| `RateLimitLaws.WindowBound` | internal/middleware/ratelimit.go:46-74 | In every window of length T of every run, one client is allowed at most burst + rate * T requests |
| `RateLimitLaws.SteadyClientNeverRejected` | internal/middleware/ratelimit.go:60-73 | A client whose requests are at least 1/rate apart is never rejected |
| `RateLimitLaws.RetryAfterOneSecond` | internal/middleware/ratelimit.go:84 | In every run a rejected client that stays quiet for a second is then allowed, if and only if the rate is at least 1 |
| `RateLimitLaws.RejectedRequestsCostNothing` | internal/middleware/ratelimit.go:60-73 | Leaving any rejected requests out of a run changes no other decision |
| `RateLimitLaws.OtherClientsDoNotMatter` | internal/middleware/ratelimit.go:46-74 | Leaving out all requests of other clients changes no decision for this one |
| `CircuitBreaker.Breaker.CurrentState` | internal/circuitbreaker/breaker.go:46-52 | Looking moves an open breaker to half open once the timeout has passed |
| `CircuitBreaker.Breaker.Allow` | internal/circuitbreaker/breaker.go:54-67 | Admits unless the breaker is still open after the look |
| `CircuitBreaker.Breaker.RecordSuccess` | internal/circuitbreaker/breaker.go:69-84 | The success step of the state machine |
| `CircuitBreaker.Breaker.RecordFailure` | internal/circuitbreaker/breaker.go:86-102 | The failure step of the state machine |
| `CircuitBreaker.Breaker.ResetBreaker` | internal/circuitbreaker/breaker.go:104-109 | The reset step of the state machine |
| `CircuitBreaker.StateTellsFailures` | internal/circuitbreaker/breaker.go:46-109 | Over every history, Closed counts the failures since the latest success, reset or start and is below the threshold; Open and HalfOpen mean at least the threshold |
| `CircuitBreaker.FailureTimes` | internal/circuitbreaker/breaker.go:46-102 | No failure is later than the recorded one, and HalfOpen means the timeout after it has passed |
| `CircuitBreaker.ClosingNeedsTwoLateSuccesses` | internal/circuitbreaker/breaker.go:69-84 | Without a reset, Open becomes Closed only by two successes later than the timeout after every failure before the second |
| `BreakerHistory.TrippedIff` | internal/circuitbreaker/breaker.go:46-109 | By event times alone: not Closed exactly when a run of failures reached the threshold and neither a reset nor two late successes came since |
| `BreakerHistory.RefusesIff` | internal/circuitbreaker/breaker.go:46-67 | A request at t is refused exactly when the breaker is tripped and has failed at most the timeout before t |
| `BreakerHistory.AdmitsAfterTimeout` | internal/circuitbreaker/breaker.go:46-67 | Once every failure lies longer than the timeout back the next request is let through |
| `BreakerHistory.TwoSuccessesClose` | internal/circuitbreaker/breaker.go:69-84 | Two successes from then on, with no failure before the second, close it |
| `Collection.Scheduler.CollectWithRetry` | internal/scheduler/scheduler.go:116-138 | The retry loop makes up to three attempts with one and two seconds between, and stops when cancelled |
| `Collection.Scheduler.CollectOnce` | internal/scheduler/scheduler.go:96-169 | A refused cycle has no effect outside; an admitted one does what its outcome says and records at most one event |
| `Collection.AdmittedShape` | internal/scheduler/scheduler.go:107-154 | The effects are a prefix of upsert and three attempts, then an insert exactly for insert outcomes; a recorded collection failure implies that the first attempt failed |
| `Collection.AdmittedMeaning` | internal/scheduler/scheduler.go:113-154 | Unless cancelled a cycle collects until an attempt does not fail, at most three times; the samples of the last attempt decide between insert, failure and nothing, and are what is inserted |
| `Collection.CancelledMeaning` | internal/scheduler/scheduler.go:125-136 | A cycle is cancelled exactly in one of its two pauses |
| `Collection.CycleHistory` | internal/scheduler/scheduler.go:96-156 | A cycle adds to the breaker's history the question and the failure or success its outcome tells |
| `Collection.FailureRateBounded` | internal/scheduler/scheduler.go:96-154 | In every run, cycles recorded within T with no success among them record at most threshold + T / resetTimeout failures |
| `Collection.WindowFrom` | internal/scheduler/scheduler.go:96-154 | The same from every sound breaker state, not only from runs of a fresh one |
| `Migration.Database.Migrate` | internal/store/store.go:124-197 | One call holds the lock only inside and leaves the tables of the walk over the files |
| `Migration.Database.RunFiles` | internal/store/store.go:134-196 | The loop checks, applies and records file by file and stops at the first error |
| `Migration.MigrateIsRun` | internal/store/store.go:124-197 | An undisturbed call is a run of the protocol that ends with the same tables and result |
| `Migration.WalkCompletes` | internal/store/store.go:154-194 | Without faults all are recorded and exactly the pending ones are applied, once each |
| `Migration.StepKeepsInv` | internal/store/store.go:124-197 | Every lock, check, apply, record, unlock, failure and crash step of any instance keeps the invariant |
| `Migration.ProtocolSafe` | docs/adr/ADR-002-advisory-locks-for-migrations.md:24-30 | Over all interleavings: mutual exclusion, the recorded ones are a prefix, the applied ones reach at most one further, a migration is applied again only after a stop between apply and record, and a return without error means all are recorded |
| `Rollup.Store.AggregateHourly` | internal/store/rollup.go:14-48 | Upserts the grouped rows of [before-3h, before) and touches nothing else |
| `Rollup.Store.AggregateDaily` | internal/store/rollup.go:52-82 | Upserts the daily aggregates of the hourly rows before the cutoff and touches nothing else |
| `Rollup.Store.DeleteOldSamples` | internal/store/store.go:337-345 | Removes the samples before the cutoff and counts them |
| `Rollup.Store.RunRetention` | internal/scheduler/scheduler.go:191-217 | A pass is its hourly, daily and delete statements in this order, and a failed one does not stop it |
| `Rollup.TotalOfUnion` | internal/store/rollup.go:26-29 | Count, sum, minimum and maximum of a split group merge from its parts |
| `RollupLaws.RowIsMean` | internal/store/rollup.go:26-29 | A row holds the number of its group's values and their mean, the one regression and anomaly detection use |
| `RollupLaws.TotalBounds` | internal/store/rollup.go:27-28 | Minimum and maximum bound every sample of the group |
| `RollupLaws.TotalAttained` | internal/store/rollup.go:27-28 | Some sample of the group attains each of them |
| `RollupLaws.CoveredHourExact` | internal/store/rollup.go:18-41 | An hour wholly inside the window gets the direct aggregate of all its samples |
| `RollupLaws.WindowRowExact` | internal/store/rollup.go:34-35 | An edge row is the aggregate of the whole hour exactly when the window misses none of its samples |
| `RollupLaws.RerunKeepsExact` | internal/store/rollup.go:16-18 | An exact row survives a pass exactly when the pass sees all samples of the hour or none |
| `RollupLaws.RepeatIsIdle` | internal/store/rollup.go:36-42 | Repeating a statement with the same cutoff and samples changes nothing |
| `RollupLaws.DayExact` | internal/store/rollup.go:52-82 | If a day's hourly rows are exact its daily row is the direct aggregate of the raw samples: the weighted mean of means is the pooled mean |
| `RollupCalendar.HourByTime` | internal/store/rollup.go:24 | An hour is 3,600,000,000 microseconds from its start |
| `RollupCalendar.DayByTime` | internal/store/rollup.go:58 | A day runs from one midnight to the next |
| `RollupCalendar.SameSeries` | internal/store/rollup.go:35 | Which samples are grouped, with no instance and the empty one alike |
| `RollupCalendar.HourlyByTime` | internal/store/rollup.go:18-41 | An hour gets the aggregate of its samples in the three hours before the cutoff, or keeps what it had |
| `RollupCalendar.DaysWithRows` | internal/store/rollup.go:68-69 | A day gets one row exactly when one of its 24 hours has one and begins before the cutoff |
| `RollupCalendar.DailyByTime` | internal/store/rollup.go:52-82 | With 24 exact hours the daily row aggregates the samples between the two midnights, up to the cutoff's hour |
| `RollupCalendar.PassByTime` | internal/scheduler/scheduler.go:191-217 | A pass aggregates up to an hour and a day ago and keeps the samples not older than the retention |
| `RollupCalendar.StatementsByTime` | internal/scheduler/scheduler.go:191-217 | The three statements of a pass, in order, each left out exactly when it fails |
| `RollupCalendar.DayAfterPass` | internal/scheduler/scheduler.go:201-207 | A day that ended a day before a pass gets from it the aggregate of all its samples if its hours are exact |
| `RollupLaws.DeletionUnread` | internal/store/store.go:337-345 | A window returns the same rows after a deletion exactly when no deleted sample lies in it |
| `RollupLaws.DroppedCount` | internal/store/store.go:337-345 | What is counted as deleted and what stays add up |
| `RollupLaws.DeletesUnobservable` | internal/scheduler/scheduler.go:191-217 | A run whose windows start after all earlier cutoffs fills both tables like the run without deletions |
| `RetentionHistory.PassesReadAhead` | internal/scheduler/scheduler.go:171-217 | Passes at non-decreasing times never read a sample that an earlier pass deleted, for retentions of four hours or more |
| `RetentionHistory.RetentionNeedsFourHours` | internal/scheduler/scheduler.go:171-217 | Deletion is invisible in the rollups of every history if and only if the retention is at least four hours |
| `RetentionHistory.PassOrder` | internal/scheduler/scheduler.go:191-217 | Within a pass, aggregating by hour and day and then deleting gives the tables of deleting first |
| `HourCoverage.HourRollsUp` | internal/scheduler/scheduler.go:191-217 | Over a run, every store gets the exact row of an hour if and only if the last window that reaches into the hour covers it whole |
| `HourCoverage.HistoryRollsUp` | internal/scheduler/scheduler.go:171-217 | The same for every history of passes with samples kept for four hours or more |
| `HourCoverage.SpacedRollsUp` | internal/scheduler/scheduler.go:179-188 | For windows at least three hours apart, as daily ones are, if and only if some window covers the hour |
| `HourCoverage.MissedHourKeepsRow` | internal/store/rollup.go:34-42 | Arrivals, deletions and passes whose windows miss an hour leave its rows alone |
| `HourCoverage.CoveredHourStaysExact` | internal/scheduler/scheduler.go:179-188 | Under passes a day apart, an hour wholly inside one window stays exact |
| `HourCoverage.GapHoursAreLost` | internal/scheduler/scheduler.go:179-217 | An hour in the 21 hours between two daily windows never gets a row, and deletion leaves nothing of it |
| `HourCoverage.OverlapLosesSamples` | internal/store/rollup.go:16-18 | A concrete re-run on an overlapping range that makes an exact row wrong |
| `Exposition.SplitLabels` | internal/collector/collector.go:402-437 | The loop with its builder and two flags computes the lexer's pieces |
| `Exposition.ParseLabels` | internal/collector/collector.go:330-351 | The loop over the pieces fills the label map and the five fields |
| `Exposition.ParseLine` | internal/collector/collector.go:310-379 | Name, labels, fields and value of a line, or a rejection |
| `ExpositionLaws.SplitKeepsText` | internal/collector/collector.go:402-437 | The pieces are whole and not empty, and hold every character but the commas outside quotes and escapes |
| `ExpositionLaws.SplitJoin` | internal/collector/collector.go:402-437 | Splitting a joined list gives it back if and only if it is a list of whole pieces |
| `ExpositionLaws.Resplit` | internal/collector/collector.go:402-437 | Splitting the rejoined pieces of any string gives the same pieces |
| `ExpositionLaws.FieldsAreLabels` | internal/collector/collector.go:341-370 | On every line the fields are those labels, duplicates included, and a missing or empty dimension is the name |
| `ExpositionRoundTrip.LabelsRoundTrip` | internal/collector/collector.go:310-379 | A printed line parses to its label map if and only if no value holds a quote, a backslash, a line feed or a closing brace |
| `ExpositionRoundTrip.NameAndValueRoundTrip` | internal/collector/collector.go:310-379 | Name and value come back whenever no value holds a closing brace |
| `ExpositionRoundTrip.LabelsLackBrace` | internal/collector/collector.go:318-330 | No label value the parser returns holds a closing brace |
| `ExpositionRoundTrip.PaddedPair` | internal/collector/collector.go:335-337 | White space around a key and around a quoted value is not part of them |
| `ExpositionRoundTrip.PieceWithoutEquals` | internal/collector/collector.go:331-334 | A piece without an equals sign is passed over |
| `ExpositionRoundTrip.SpecialValues` | internal/collector/collector.go:489-498 | Infinities and NaN are rejected, other text is left to the scanner |
| `ExpositionRoundTrip.BareRoundTrip` | internal/collector/collector.go:352-379 | A line without labels gives its name, its value and its name as dimension; a timestamp behind them is passed over |
| `Regression.LinearRegression` | internal/mcp/forecast.go:154-188 | The two passes compute the fit, the clamp at zero never acts, and without points the intercept is not a number |
| `Regression.DenominatorSign` | internal/mcp/forecast.go:165-168 | The denominator is never negative and is zero exactly when all xs are equal |
| `Regression.FitIsLeast` | internal/mcp/forecast.go:154-188 | The line has the least sum of squared residuals of all lines, in both branches |
| `Regression.FitIsUnique` | internal/mcp/forecast.go:170-171 | With two different xs no other line does as well |
| `Regression.Pythagoras` | internal/mcp/forecast.go:170-178 | A line's squared error is the best one plus the squared distance to the best line |
| `Regression.R2InUnit` | internal/mcp/forecast.go:181-185 | r squared lies in [0, 1] before any clamping |
| `Regression.CollinearIffPerfect` | internal/mcp/forecast.go:170-185 | With two different xs, r squared is 1 exactly for collinear points, and their line is found |
| `Regression.R2IsCorrelation` | internal/mcp/forecast.go:173-185 | r squared is the squared covariation over the product of the two variations |
| `Regression.FitOfEqualXs` | internal/mcp/forecast.go:165-168 | With equal xs the fit is the mean, with slope and r squared zero |
| `Regression.ShiftInvariant` | internal/mcp/forecast.go:103-109 | Slope and r squared do not depend on the origin of the xs, and the line is the same |
| `Forecast.HandleForecast` | internal/mcp/forecast.go:92-151 | The handler computes and rounds the prediction of the fitted line, or reports too few points |
| `Forecast.Judge` | internal/mcp/forecast.go:127-149 | The branches give the verdict on the line and the threshold |
| `Forecast.HitIsFutureCrossing` | internal/mcp/forecast.go:127-149 | A hit is predicted exactly when a sloping line meets the threshold in the future, and at that hour alone |
| `Forecast.VerdictMeaning` | internal/mcp/forecast.go:127-149 | When each of the four verdicts is given, and the warning exactly when the line meets the threshold within 24 hours |
| `Forecast.ForecastMeaning` | internal/mcp/forecast.go:92-151 | The whole answer for any list of points: too few below three, else the rounded numbers of the fitted line and its verdict |
| `Reals.RoundMeaning` | internal/mcp/server.go:830-832 | Rounding gives hundredths at most half a hundredth away, halves away from zero |
| `Forecast.CrossingEquation` | internal/mcp/forecast.go:132 | The line meets the threshold at the computed hour and at no other |
| `Forecast.BaseTimeDoesNotMatter` | internal/mcp/forecast.go:103-109 | The whole forecast is the same for every base time |
| `Anomaly.DetectAnomalies` | internal/mcp/anomaly.go:96-135 | Every row is counted, and the answer is a highest-scoring selection of the flagged rows up to the limit |
| `Anomaly.SortByScore` | internal/mcp/anomaly.go:123-125 | A permutation by descending absolute score |
| `Anomaly.TopScoresHighest` | internal/mcp/anomaly.go:123-129 | What is cut off never scores higher than what is reported |
| `Anomaly.FindingsMeaning` | internal/mcp/anomaly.go:98-121 | A finding is what some flagged row makes of itself, and every flagged row makes one |
| `Anomaly.FlagMeaning` | internal/mcp/anomaly.go:105-108 | A row is flagged when its latest value lies t deviations or more from the mean, on either side |
| `Anomaly.FindingMeaning` | internal/mcp/anomaly.go:109-119 | What a flagged row is reported as, rounded, and in which direction |
| `Anomaly.FindingsOfRow` | internal/mcp/anomaly.go:98-121 | Each row adds one finding or none, in order |
| `Anomaly.ReportedHasSamples` | internal/mcp/anomaly.go:87-135 | Everything the handler returns comes from a flagged row with at least t * t + 1 samples, eight at the default |
| `Anomaly.Samuelson` | internal/mcp/anomaly.go:71-88 | No value lies further than sqrt(n - 1) population deviations from the mean of its window |
| `Anomaly.ReportNeedsSamples` | internal/mcp/anomaly.go:87-109 | A group reported at threshold t has at least t * t + 1 samples |
| `Anomaly.DefaultNeedsEightSamples` | internal/mcp/anomaly.go:56 | At the default threshold a reported group has at least eight |
| `Anomaly.WindowSizeNeeded` | internal/mcp/anomaly.go:56-109 | n samples can hold a value t deviations from their mean if and only if n is at least t * t + 1 |

## Left out

- RemoteWriteLaws.SampleConcat: a second sample that decodes by skipping outside its own field is only said to be decoded on from the first. Like the other laws about fields it is stated for slices, which are shorter than 2^63 bytes.
- Regression.LinearRegression: takes as many ys as xs, as its only caller does. The unused sum of squared ys is not modelled.
- Anomaly.DetectAnomalies: takes rows with a positive deviation, as the query's HAVING clause ensures.
- Anomaly.SortByScore: promises no order among equal scores, as the library sort does not; its insertion loop stands for that call.
- Forecast.HandleForecast: gives no message text beyond its kind and no wall-clock time of the hit. The query's rows are its input; without a dimension they mix all dimensions, not their sum.
- Exposition.ParseLine: takes the number scanner as a parameter and keeps the metric name in place of the context derived from it; the partial sample that comes with a rejection is not returned. Text is a sequence of Unicode characters, so invalid UTF-8 is not modelled.
- ExpositionRoundTrip.LabelsRoundTrip: takes keys without delimiters, quotes or outer spaces and names without braces, as the text format prescribes.
- Migration.Database.Migrate: takes the embedded file list as distinct sorted names, applies a file in one step, and assumes that the locking session outlives the call and receives the unlock.
- Rollup: its arrivals are the samples that the unique index lets through; `SampleStore` models that rule.
- Rollup.Store.AggregateHourly: leaves out the unit column and the creation time of rows, and takes times as whole microseconds in UTC.
- Floating-point rounding, NaN and infinities: float64 is modelled by real numbers, except the bit patterns of remote-write samples and the finiteness test on them.
- Clocks: each locked method is one step with one clock reading, and readings never decrease.
- PostgreSQL: the INSERT, SELECT ... GROUP BY, DELETE and advisory-lock statements are modelled by what they mean, not run.
- DeleteOldRollups: nothing calls it.
- The JSON collector, parsePrometheusResponse and its context filter, name-to-context tables, number parsing.
- HTTP serving, snappy, authentication, configuration, logging, telemetry, webhooks, alerts and the other MCP tools.
