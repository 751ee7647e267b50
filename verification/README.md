# klag-exporter in Dafny

klag-exporter polls a Kafka cluster for watermarks and committed offsets,
computes offset lag, time lag and data loss for every consumer group, and
publishes the result as Prometheus and OTel metrics. This project models that
pipeline and proves what it promises. `dafny verify dfyconfig.toml` checks all
of it.

The model follows the Rust source file by file. Code that updates state in
place is a class or a method with loops, proved against a specification
function; concurrent code is a state machine whose steps interleave in every
order; the lemmas are about those functions, methods and runs.

| module | what it models |
|---|---|
| `Retry`, `Admin`, `GroupOffsets` | the retry loop and its backoff; the rounds of `describe_consumer_groups_batched`; the semaphore-bounded fan-out of the offset requests as a state machine |
| `Watermarks`, `Snapshot` | the EARLIEST/LATEST merge; a moving broker interleaved with the three separate reads |
| `LagCalculator`, `ReportOrder` | `calculate` and `build_member_map`; what the visiting order of hash maps can change |
| `RateSampler`, `TimestampSampler`, `TimestampCache` | the sampling ring buffers, both sampling modes and the message-timestamp cache |
| `CompactionCache`, `ConsumerPool` | the per-topic compaction cache; the pool of timestamp consumers |
| `Labels`, `Series`, `Meaning`, `UniqueSeries`, `Grouping`, `Registry`, `RegistrySeries`, `Rendering`, `PrintedLines` | points and what they mean, label escaping with a reader for it, the registry and its two printed views |
| `RunLoop`, `Pipeline`, `EndToEnd` | the leader-gated loop of one cluster; one collection cycle from broker answers to points; from the moving broker to what is published |
| `Basics`, `MapSums`, `Strings` | shared types, sums over maps, lexicographic order |

## Main results

- Reads that are not atomic still give a sound report. Partitions and groups
  are read one by one while the broker goes on producing, deleting and
  accepting commits and offset resets; measured at the instant the offset was
  read, lag is never overstated and, with EARLIEST answered, data loss is never
  invented (`Snapshot.SnapshotIsSound`). The same holds of what is published at
  the end (`EndToEnd.PublishedIsNotOverstated`).
- No group gets lost between request and report. Over all chunk sizes, retries
  and failures, a requested group becomes exactly one group row or one final
  failure (`Admin.DescribeConservesGroups`, `Pipeline.EveryGroupIsAccountedFor`),
  and a committed offset is reported exactly when the group's own request
  returned it (`Pipeline.ReportedIffFetched`).
- The fan-out is safe, live, finite and independent of the schedule
  (`GroupOffsets.RunKeepsInvariant`, `SomeStepIsEnabled`, `RunsAreFinite`,
  `ScheduleDoesNotMatter`), and the validated thread pool is exactly large enough
  (`ValidationIsExact`).
- The ring buffers equal a declarative window over the whole history, and the
  rate taken from them, through synthetic timestamps and the calculator, comes
  out within a millisecond (`RateSampler.RecordedIsWindows`,
  `TimestampSampler.RateModeEndToEnd`).
- The visiting order of hash maps shows in the order of rows and in nothing else
  (`ReportOrder.ReportsArePermutations`), and skipping partitions with data loss
  changes nothing but time lag, downwards (`TimestampSampler.SkipKeepsTheRest`).
- Both caches agree with the simple thing: cleaning up cannot be observed, and
  what is reported is the most recent answer
  (`TimestampCache.CleaningCannotBeObserved`,
  `CompactionCache.ReportMatchesLatestAnswers`).
- Every published value means what its name says, from snapshot to registry
  (`Meaning.PartitionSeriesMean`, `GroupSeriesMean`, `TopicSeriesMean`,
  `WatermarkSeriesMean`, `ClusterSeriesMean`).
- What is printed loses nothing, repeats nothing, and can be read back
  (`Grouping.NothingLostOrDuplicated`, `PrintedLines.PrintedLinesDiffer`,
  `Labels.ReadIffRendered`).

## Where the code differs from its own words

The model follows the code. Where a difference has a condition, a lemma gives
it exactly.

- The comment at `src/kafka/client.rs:300-305` says that taking LATEST for a
  missing EARLIEST avoids a spurious data-loss alarm. It raises one for every
  lagging group, with `messages_lost` equal to the lag
  (`Snapshot.FallbackFlagsEveryLag`). The flag can be trusted exactly when
  EARLIEST answered, or LATEST did not, or there is no lag
  (`Snapshot.FlagReliableIff`).
- The comment at `src/collector/offset_collector.rs:215-218` says that data-loss
  warnings are suppressed on compacted topics. The calculator does not look at
  compaction when it sets the flag
  (`LagCalculator.CompactionShowsOnlyInItsFlag`).
- A resource error of DescribeConfigs is only logged (`src/kafka/client.rs:377`);
  the topic is then cached as not compacted and hidden for a whole time-to-live
  (`CompactionCache.LostAnswerPersists`, `LostAnswerHidesTopic`). A successful
  cycle is right about a topic exactly when the topic is not compacted or was
  not lost to an error in the latest answer it was asked for
  (`CompactionCache.ReportIsRightIff`, `ReportEqualsPolicyIff`).
- The HELP text of the retention ratio says that more than 100 means data loss.
  With an empty retained window the ratio is 0 whatever was lost
  (`LagCalculator.RatioShowsLossIff`, `Snapshot.EmptyWindowHidesLoss`).
- The timestamp line filters stale clusters more weakly than the points do
  (`src/metrics/registry.rs:414-420`), and so outlives them in the middle of a
  removal (`Rendering.StampOutlivesPointsIff`, `StampOutlivesUpdateIff`).
- Custom labels are inserted over the built-in ones without any check.
  Overriding `group`, `topic` or `partition` makes time series collide
  (`UniqueSeries.UniqueIffIdentityKept`). Two clusters of
  different names collide only if one of them overrides `cluster_name`
  (`RegistrySeries.NamesKeepApart`), and, if no label that tells rows apart is
  overridden, exactly when `cluster_name` merged with the custom labels is the
  same for both (`RegistrySeries.ClustersApartIff`).
  Label names are printed as they are. What comes out is readable by the rules
  of the exposition format exactly when every name is a valid label name there
  (`Labels.ExpositionRoundTripIff`), and label maps are told apart as long as no
  name contains an equals sign followed by a quote
  (`Labels.RenderingIsInjective`); with such a name, one map can be printed like
  another (`Labels.MistakableIff`, `EqualsSignCollides`).
- The fan-out's semaphore belongs to one call, and its tasks outlive a cycle
  that timed out. The bounds of `GroupOffsets` are therefore those of one call.
  The same overlap is why a recycle may exceed the consumer pool's size. No more
  than `pool_size` consumers are ever alive exactly as long as no more fetches
  than that run at once and every recycle installs its consumers while none runs
  (`ConsumerPool.LiveWithinPoolSizeIff`; `RecycleWhileBusyExceeds` is a run that
  breaks it).

## Assumptions

- Broker: per partition `low <= high`, and both only move forward. Committed
  offsets may go either way and do not expire during a collection.
- Answers: a request's answer is a function of what was asked and of which
  attempt it is; the functions are arbitrary. Where a result needs a broker that
  answers each requested group at most once and no other
  (`Admin.BrokerAnswersWell`, `GroupOffsets.OwnRepliesOnly`), it says so.
  `Admin.ChunkConservesIff` shows that the first is exact for one call, and
  `GroupOffsets.GoodCallsKeepToTheirGroup` that the second follows from it.
- Clocks: the monotonic clock does not run backwards; instants are whole
  nanoseconds. Elapsed times saturate at 0, as they do in the source.
- Numbers: `f64` is modelled by reals. The truncation to whole milliseconds,
  the saturating cast to `i64`, the saturating `u64` backoff and the wrapping
  `u32` error count are modelled as they are.
- Hash maps and concurrent maps are visited in an arbitrary order, once per key.
- Registry health is one flag for all clusters; its invariant is stated for a
  registry that serves one cluster.
- Configuration: where validated limits matter they are hypotheses with the
  validation's own bounds (`GroupOffsets.Settings.Validated`).

## Model

| member | source | states |
|---|---|---|
| Retry.OutcomeIsFirstStop | src/retry.rs:22-63 | a report is the retry loop's report if and only if it names the first attempt that was not a retriable failure, or the last permitted one, together with that attempt's answer and the true stop reason |
| Retry.RetryWithBackoff | src/retry.rs:22-63 | the loop reports exactly that outcome, makes at most `max_retries + 1` attempts, sleeps once between two attempts, and asks the backoff for retry 1, 2, 3, … in order |
| Retry.JitterCapExact | src/retry.rs:65-73 | the saturating u64 cap is min(50 * 2^(k-1), 1000) ms for every retry k >= 1: no saturation ever shows |
| Retry.JitterCapMonotone | src/retry.rs:65-73 | caps never shrink from one retry to the next and never exceed one second |
| Retry.SumOfCapsClosedForm | src/retry.rs:65-73 | the caps of n retries add up to 50 * (2^n - 1) ms up to five retries and to 1550 + 1000 * (n - 5) ms from five on |
| Retry.TotalSleepBound | src/retry.rs:22-73 | whatever delays are drawn within the caps, one call sleeps at most the sum of its caps; in closed form from five retries on |
| Admin.DescribeOneChunk | src/kafka/admin.rs:695-796 | the two loops turn a broker answer into the descriptions of error-free entries, one failure per entry with an error, and one per requested group that has no entry |
| Admin.OneChunkCount | src/kafka/admin.rs:701-784 | a response speaks of a group as often as the broker did, or, if the broker never did, as often as the group was requested |
| Admin.ChunkConservesIff | src/kafka/admin.rs:701-784 | a call accounts for every requested group exactly as often as it was requested if and only if the broker answered for each group not at all or exactly that often |
| Admin.WellAnsweredForDistinct | src/kafka/admin.rs:771-773 | for distinct requested groups that condition is the protocol's promise: every group at most once and no group that was not asked for |
| Admin.FailedResponseCount | src/kafka/admin.rs:531-543 | a chunk that fails as a whole accounts for each of its groups exactly as often as it was requested |
| Admin.PartitionForRetry | src/kafka/admin.rs:545-560 | the in-order split of failures into group ids to retry and final failures |
| Admin.PartitionConserves | src/kafka/admin.rs:545-560 | for every group, retried plus final occurrences are the failures that came in |
| Admin.RetriesOnlyRetriable | src/kafka/admin.rs:545-560 | a group is retried if and only if a retry is permitted and one of its failures is retriable |
| Admin.RetriedIffTransient | src/kafka/admin.rs:105-179 | from an answered chunk a group is sent again exactly when the broker reported an error for it that is on the allow-list of transient codes or that librdkafka itself calls retriable; an omitted group never is |
| Admin.ChunksKeepAll | src/kafka/admin.rs:456 | cutting the pending list into chunks keeps every group as often as it was there |
| Admin.RunRound | src/kafka/admin.rs:456-508 | one attempt sends every chunk once and splits the answers, a failed request and a failed task like the failure of each of their groups |
| Admin.DescribeConsumerGroups | src/kafka/admin.rs:420-517 | the rounds it makes form a history: the first sends what was requested, each later one sends exactly what the one before left to retry, none is empty, there are at most `max_retries + 1`, and the last leaves nothing pending; it returns what all rounds described |
| Admin.DescribeConservesGroups | src/kafka/admin.rs:436-514 | conservation: for every chunk size, retry limit and outcome of each call, a well-answering broker given, each requested group ends described or finally failed exactly as often as it was requested |
| Admin.SettledGroupsAreNotResent | src/kafka/admin.rs:496-513 | a group that some round described, or failed for good, is in no later request |
| Admin.EarlyFailuresArePermanent | src/kafka/admin.rs:496-513 | before the last permitted attempt only a non-retriable failure is final |
| Admin.SendsAtMostMaxAttempts | src/kafka/admin.rs:437-513 | no group is requested more than `max_retries + 1` times, and none that was not asked for is requested at all |
| Admin.DescribedGroupsAreDistinct | src/kafka/admin.rs:420-517 | distinct requested groups are described at most once over all rounds |
| GroupOffsets.OffsetsOneChunk | src/kafka/admin.rs:1006-1078 | the loops over a committed-offsets answer keep non-negative offsets per error-free group and report one failure per entry with an error and per omitted group |
| GroupOffsets.SingleReplyMeaning | src/kafka/admin.rs:841-853 | against a broker that keeps to the protocol, a one-group reply succeeds exactly when the group's entry is there without an error and then holds that group alone, even if it has no committed offset; an omitted group is a failure that is not retried |
| GroupOffsets.GoodCallsKeepToTheirGroup | src/collector/offset_collector.rs:564-585 | when every reply is what became of a call for its task's group alone and no call was answered against the protocol, each successful reply holds exactly its own group |
| GroupOffsets.StepKeepsInvariant | src/collector/offset_collector.rs:548-592 | each step of a task (take a permit, start the blocking call, get its answer, wake from backoff) keeps free plus held permits constant and every task on the way to the outcome that plain retrying reports |
| GroupOffsets.RunKeepsInvariant | src/collector/offset_collector.rs:540-592 | so in every interleaving free and held permits add up to `max_concurrent_groups` |
| GroupOffsets.CallsAreBounded | src/config.rs:564-583 | in every interleaving the blocking calls in flight are no more than the held permits, hence at most `max_concurrent_groups`; under a validated configuration whose headroom is kept there is a blocking thread for every permit held |
| GroupOffsets.HoldersNeverWaitIff | src/config.rs:564-583 | exact condition: in no run does a task that holds a permit wait for a thread if and only if the smaller of `max_concurrent_groups` and the number of groups fits `max_blocking_threads` beside all other calls |
| GroupOffsets.ValidationIsExact | src/config.rs:564-583 | the validated bound is exactly what is needed: no permit holder ever waits, for any number of groups and any use of the headroom by the rest, if and only if the configuration passes |
| GroupOffsets.HolderMoves | src/collector/offset_collector.rs:564-576 | under a validated configuration whose headroom is kept, a task that holds a permit can always take its next step |
| GroupOffsets.SomeStepIsEnabled | src/collector/offset_collector.rs:540-596 | no deadlock: under the same conditions, until every task is done some step is enabled |
| GroupOffsets.NoPermitsNoProgress | src/config.rs:502-507 | the validation `max_concurrent_groups >= 1` is needed: with 0 no fan-out over a group ever takes a step |
| GroupOffsets.RunsAreFinite | src/collector/offset_collector.rs:540-596 | every interleaving ends after at most four steps per group and permitted attempt |
| GroupOffsets.ScheduleDoesNotMatter | src/collector/offset_collector.rs:596-623 | all finished interleavings leave each task with the same outcome, the one of retrying its call on its own |
| GroupOffsets.MergeResults | src/collector/offset_collector.rs:598-623 | successful maps are merged in task order, later over earlier; failures are dropped |
| GroupOffsets.MergedHasTheSuccesses | src/collector/offset_collector.rs:598-623 | the merged map has an entry for a group if and only if a task for that group ended in success |
| GroupOffsets.MergedHoldsOwnOffsets | src/collector/offset_collector.rs:598-623 | with distinct groups that entry is exactly what the group's own successful reply held, including none at all |
| Watermarks.AnsweredIsLastGoodEntry | src/kafka/admin.rs:339-378 | a partition is answered exactly when it has an entry without an error, by the last of them |
| Watermarks.ListOffsets | src/kafka/admin.rs:330-378 | entries with an error are left out, the others kept, a repeated partition by its last entry |
| Watermarks.MergeWatermarks | src/kafka/client.rs:298-324 | in any visiting order the two loops give each answered partition its (low, high) pair, with a missing EARLIEST replaced by LATEST and a missing LATEST by EARLIEST, and nothing else |
| Watermarks.MergeIsUnique | src/kafka/client.rs:298-324 | those three cases determine the merged map |
| Watermarks.FetchWatermarks | src/kafka/client.rs:284-325 | no partition means no call; a failed EARLIEST call fails the fetch before LATEST is asked; a failed LATEST call fails it too; otherwise the result is the merge |
| LagCalculator.BuildMemberMap | src/collector/lag_calculator.rs:277-294 | the nested loops map a partition to its owner exactly when some member claims it |
| LagCalculator.OwnerIsLastClaim | src/collector/lag_calculator.rs:277-294 | that owner is the last member in response order that claims the partition |
| LagCalculator.MakeRow | src/collector/lag_calculator.rs:140-209 | the loop body writes the row of its partition, for every input |
| LagCalculator.UpdateTotals | src/collector/lag_calculator.rs:211-224 | one row is added to the sum, the two maxima and its topic's sum |
| LagCalculator.TotalsSumUp | src/collector/lag_calculator.rs:131-225 | whatever order the hash map took, the accumulators are the sum, the maximum with 0, the largest present time lag with 0, and the per-topic sums of what was visited |
| LagCalculator.ProcessGroup | src/collector/lag_calculator.rs:130-235 | for every visiting order: one row per committed partition, and a group row holding the sum, the attained maximum lag and the maximum present time lag of all of them |
| LagCalculator.EmitTopics | src/collector/lag_calculator.rs:237-245 | exactly one topic row per topic with a committed partition, holding that topic's sum |
| LagCalculator.EmitOffsets | src/collector/lag_calculator.rs:116-127 | exactly one offset row per partition with watermarks |
| LagCalculator.Calculate | src/collector/lag_calculator.rs:104-268 | the report of a cycle consists of exactly these rows for every group, and its two counters count the flagged partition rows |
| LagCalculator.TopicSumsConserveLag | src/collector/lag_calculator.rs:212-245 | lag is conserved: a group's topic sums add up to the sum of its partition lags, over exactly the topics committed |
| LagCalculator.GroupLagBounds | src/collector/lag_calculator.rs:211-215 | max_lag <= sum_lag <= max_lag * number of partitions |
| LagCalculator.NoOverflowIff | src/collector/lag_calculator.rs:212 | the running i64 total stays in range for every visiting order if and only if the final sum does, for which max_lag * n in range suffices |
| LagCalculator.GroupRowIsUnique | src/collector/lag_calculator.rs:130-235 | a group's row is a function of the snapshot: no iteration order can show in it |
| LagCalculator.CountersCountPartitions | src/collector/lag_calculator.rs:248-256 | the two cluster counters are the numbers of partitions, over all groups, whose committed offset is below the low watermark, and whose topic is compacted |
| LagCalculator.DataLossNumbersAgree | src/collector/lag_calculator.rs:147-152 | the flag, a positive messages_lost and a negative retention_margin are the same thing, and messages_lost is max(-retention_margin, 0) |
| LagCalculator.CompactionShowsOnlyInItsFlag | src/collector/lag_calculator.rs:147-191 | which topics are compacted changes a row's compaction flag and nothing else, the data-loss flag included |
| LagCalculator.RatioIsShareOfWindow | src/collector/lag_calculator.rs:154-160 | the ratio times the retained window is 100 times the unclamped lag; with an empty window it is 0 |
| LagCalculator.RatioReading | src/collector/lag_calculator.rs:154-160 | with a non-empty retained window the ratio is above 100 exactly on data loss, 100 exactly at the deletion boundary and not positive exactly without lag |
| LagCalculator.RatioShowsLossIff | src/collector/lag_calculator.rs:154-160 | the documented "above 100 means data loss" holds for a partition if and only if its window is not empty or nothing was lost |
| Snapshot.StepMovesForward | src/collector/offset_collector.rs:349-370 | assumption made explicit: every step of broker and collector keeps low <= high, moves lows and highs only forward and never goes back a phase; commits may go either way |
| Snapshot.PhasesOrderReads | src/collector/offset_collector.rs:349-370 | values of an earlier phase were read at an earlier instant than those of a later one |
| Snapshot.SnapshotIsSound | src/collector/offset_collector.rs:349-370 | main result: for every interleaving of produce, retain, commit and offset-reset steps with the per-partition reads, where both watermarks were answered, low <= high; the reported lag does not exceed the true lag at the committed read and misses it by at most what was produced since the LATEST read; the data-loss flag and messages_lost are true lower bounds there; at the watermark reads lag and loss are overstated exactly if there is any and the offset is lower at the committed read |
| Snapshot.LagNeverOverstated | src/kafka/client.rs:298-324 | whichever watermark answers are missing, the reported lag never exceeds the true lag at the committed read |
| Snapshot.LossNeverOverstated | src/kafka/client.rs:298-324 | as long as EARLIEST answered, messages_lost never exceeds the true loss at the committed read |
| Snapshot.OffsetFirstExcess | src/collector/offset_collector.rs:349-370 | the order of reads matters: in every execution and for every pair of instants, with the offset read at the earlier and LATEST at the later one, the lag exceeds the true lag at the earlier read by exactly what was produced in between and the true lag at the later one by exactly what was committed in between, each capped by the lag itself; after an offset reset it falls short of the latter by as much |
| Snapshot.OffsetFirstWouldOverstate | src/collector/offset_collector.rs:349-370 | the excess has no limit: for every number there is an execution in which the group has no lag at either instant and would be reported with that lag |
| Snapshot.FallbackFlagsEveryLag | src/kafka/client.rs:299-317 | when only LATEST answered, the flag is raised exactly on lag and messages_lost equals lag, contrary to the comment beside the fallback |
| Snapshot.FlagReliableIff | src/kafka/client.rs:299-323 | a raised flag implies a true loss at some instant, in every execution with the given answers, if and only if EARLIEST answered, or LATEST did not, or the offset is not below the high watermark |
| Snapshot.EmptyWindowHidesLoss | src/collector/lag_calculator.rs:154-160 | an execution with every answer there in which messages are lost at every instant and the retention ratio is 0, since nothing is retained |
| Snapshot.OffsetsAreNonNegative | src/kafka/admin.rs:1042-1049 | every committed offset that reaches the calculator is non-negative |
| RateSampler.RecordOne | src/collector/rate_sampler.rs:92-107 | the push and the two eviction loops make of a buffer exactly: old samples dropped from the front, the new one appended, the last max_samples kept |
| RateSampler.DropOldIsRecent | src/collector/rate_sampler.rs:93-100 | in a time-ordered buffer, evicting from the front only misses no old sample and drops no young one |
| RateSampler.RecordIsWindow | src/collector/rate_sampler.rs:91-108 | a recording step turns the window over a log into the window over the log with the new sample, so nothing evicted earlier could be missed later |
| RateSampler.RecordedIsWindows | src/collector/rate_sampler.rs:81-109 | one call keeps every tracked buffer equal to the last max_samples samples, no older than max_age, of its partition's current unbroken monitored run, and the tracked partitions equal to the latest watermarks' keys |
| RateSampler.WindowShape | src/collector/rate_sampler.rs:81-109 | that window has 1 to max_samples samples, ends with the newest, is a suffix of the log in time order, and lacks a recent sample only when it is full |
| RateSampler.RateSampler.constructor | src/collector/rate_sampler.rs:68-75 | a new sampler tracks nothing and keeps at least two samples per partition |
| RateSampler.RateSampler.RecordWatermarks | src/collector/rate_sampler.rs:81-109 | over every run of calls with a nondecreasing clock the in-place buffers stay equal to those windows |
| RateSampler.RateSampler.RatesSnapshot | src/collector/rate_sampler.rs:141-154 | in any visiting order: exactly the partitions whose buffer yields a rate, with that rate |
| RateSampler.RateSampler.EstimateLagSeconds | src/collector/rate_sampler.rs:120-129 | 0 without lag; otherwise present exactly when the snapshot of rates has the partition, and then lag divided by that rate |
| RateSampler.RateAboveFloor | src/collector/rate_sampler.rs:45-52 | an emitted rate is positive and at least the configured floor |
| RateSampler.RateIsMediant | src/collector/rate_sampler.rs:37-53 | the endpoint rate respects every lower and every upper bound of the per-interval rates in the buffer |
| RateSampler.RateIsBetweenIntervals | src/collector/rate_sampler.rs:37-53 | some interval is at most as fast and some at least as fast as the emitted rate |
| RateSampler.ConstantRateIsExact | src/collector/rate_sampler.rs:37-53 | for a producer of constant positive rate at or above the floor, the emitted rate is that rate |
| RateSampler.TimeLagBoundedByFloor | src/collector/rate_sampler.rs:48-52 | with a positive floor, lag over the emitted rate never exceeds lag over the floor |
| TimestampCache.MessageSampler.GetTimestamp | src/collector/timestamp_sampler.rs:72-99 | a fetch is made exactly when there is no fresh entry for that offset; a hit returns the entry and changes nothing; a miss returns the reply and stores a timestamp, nothing else |
| TimestampCache.MessageSampler.ClearStaleEntries | src/collector/timestamp_sampler.rs:105-111 | exactly the entries younger than the time-to-live remain |
| TimestampCache.StepsAgree | src/collector/timestamp_sampler.rs:72-111 | bisimulation step: two caches that agree on fresh entries give the same visible result to the same event and still agree after it |
| TimestampCache.CleaningCannotBeObserved | src/collector/timestamp_sampler.rs:72-111 | for overlapping lookups and clean-ups at arbitrary points, even between a check and its store, the returned values and the fetches sent are those without any clean-up |
| TimestampCache.ServedValuesAreRecentFetches | src/collector/timestamp_sampler.rs:80-97 | in every interleaving a value served from the cache was fetched for that same group, partition and offset less than one time-to-live ago |
| TimestampSampler.AddGroupTimestamps | src/collector/timestamp_sampler.rs:212-235 | in any visiting order the inner loop adds exactly one synthetic timestamp per lagging partition with a known rate |
| TimestampSampler.ComputeTimeLagsRate | src/collector/timestamp_sampler.rs:196-244 | this cycle's watermarks are recorded first; the timestamps follow from the rates after that |
| TimestampSampler.TruncationError | src/collector/timestamp_sampler.rs:223-224 | the cast to whole milliseconds loses less than one of them if and only if the value fits an i64 |
| TimestampSampler.RateModeSeconds | src/collector/timestamp_sampler.rs:211-235 | what the calculator reports for each partition from rate-mode timestamps: the synthetic seconds, 0 without lag or on data loss, or nothing |
| TimestampSampler.RateModeEndToEnd | src/collector/lag_calculator.rs:174-187 | rate mode from end to end: a time lag is present exactly when lag is 0, or a rate exists, or data was lost, although sampler and calculator treat a missing watermark differently; for a lagging partition with a rate it is below lag/rate by less than a millisecond exactly in i64 range, and never above |
| TimestampSampler.BuildFetchRequests | src/collector/timestamp_sampler.rs:251-276 | requests are built group by group in the visiting order, for exactly the wanted partitions |
| TimestampSampler.RequestMembers | src/collector/timestamp_sampler.rs:256-273 | a request is made if and only if it is for a group's own committed offset in a lagging partition that the skip flag does not exclude |
| TimestampSampler.SkipRemovesExactlyLost | src/collector/timestamp_sampler.rs:267-269 | turning `skip_data_loss_partitions` on removes exactly the requests with committed below low and reorders nothing |
| TimestampSampler.CollectTimestamps | src/collector/timestamp_sampler.rs:313-340 | only a fetched timestamp becomes an entry; no message, an error and a failed task leave none |
| TimestampSampler.ComputeTimeLagsMessage | src/collector/timestamp_sampler.rs:278-341 | message mode fetches what the skip flag leaves to be fetched, in some visiting order, and keeps exactly the timestamps that came back |
| TimestampSampler.TimestampIffWanted | src/collector/timestamp_sampler.rs:278-341 | a partition has a timestamp if and only if it was requested and its own fetch returned one, and then that one |
| TimestampSampler.SkipChangesOnlyLostSeconds | src/collector/lag_calculator.rs:174-187 | with the same answers from the broker, the flag changes nothing of a partition row but the time lag, and that only on data loss, where it stays present and can only shrink |
| TimestampSampler.SkipLowersGroupSeconds | src/collector/lag_calculator.rs:216-222 | of a group row it changes at most max_lag_seconds, which stays present and can only shrink |
| TimestampSampler.SkipKeepsTheRest | src/collector/lag_calculator.rs:104-268 | whatever orders the two cycles took, their whole reports have the same topic rows, offset rows, counters and poll time; partition rows match up one to one, differing at most by a smaller time lag on data loss, and group rows by a smaller max_lag_seconds |
| ReportOrder.ReportsArePermutations | src/collector/lag_calculator.rs:104-268 | any two reports of one cycle have equal group rows, counters and poll time, and partition, topic and offset rows that are permutations of each other: no visiting order of a hash map can show otherwise |
| CompactionCache.CompactedFrom | src/kafka/client.rs:358-388 | a topic is reported exactly when some resource of the answer is described for it with a cleanup.policy containing "compact"; an errored resource contributes nothing |
| CompactionCache.CompactedTopicsCache.Partition | src/collector/offset_collector.rs:36-56 | the monitored topics with a fresh compacted entry, and in order those without a fresh entry; a topic whose fresh entry says not compacted is in neither |
| CompactionCache.CompactedTopicsCache.Update | src/collector/offset_collector.rs:60-70 | each fetched topic gets its answer and the current instant, all other entries stay |
| CompactionCache.CompactedTopicsCache.PruneTo | src/collector/offset_collector.rs:73-83 | exactly the entries of monitored topics remain |
| CompactionCache.CompactedTopicsCache.Cycle | src/collector/offset_collector.rs:377-407 | partition, refresh if needed and possible, prune: the reported set and the new cache |
| CompactionCache.EntriesAreLatestAnswers | src/collector/offset_collector.rs:377-407 | after every history of cycles each cache entry is the most recent answer about its topic |
| CompactionCache.ReportMatchesLatestAnswers | src/collector/offset_collector.rs:377-407 | after a cycle whose lookup succeeded, a topic is reported if and only if it is monitored and the most recent answer says compacted, and that answer was stored in this cycle or less than one time-to-live ago |
| CompactionCache.FailedLookupReportsFreshOnly | src/collector/offset_collector.rs:393-403 | after a failed lookup, exactly the monitored topics with a fresh compacted entry are reported |
| CompactionCache.PruningCannotBeObserved | src/collector/offset_collector.rs:407 | pruning never changes what is reported about a topic that stays monitored |
| CompactionCache.CacheStaysWithinMonitored | src/collector/offset_collector.rs:405-407 | after a cycle the cache holds monitored topics only |
| CompactionCache.EntryIsAnsweringCycles | src/collector/offset_collector.rs:36-83 | without looking at the cache or at what answers say, one can tell which cycle's answer counts for a topic: the cache entry is exactly that cycle's answer |
| CompactionCache.AnsweringCycleIsLatest | src/collector/offset_collector.rs:377-407 | the answer that counts was asked for and given, and no later cycle asked for the topic and got an answer |
| CompactionCache.ResultsGiveReply | src/kafka/client.rs:358-388 | from results that describe each asked topic truthfully, or come back as an error for it, exactly the compacted topics without an error are reported |
| CompactionCache.ReportIsRightIff | src/collector/offset_collector.rs:373-407 | exact condition: against unchanging policies and any pattern of resource errors, after every history and for every time-to-live, a successful cycle is right about a monitored topic if and only if the topic is not compacted or its resource did not come back as an error in the answer that counts |
| CompactionCache.ReportEqualsPolicyIff | src/collector/offset_collector.rs:373-407 | so a successful cycle reports exactly the monitored compacted topics if and only if none of them was lost to an error in the answer that counts for it |
| CompactionCache.ConstantPolicyIsReported | src/collector/offset_collector.rs:373-407 | without resource errors every successful cycle reports the monitored compacted topics, for every time-to-live |
| CompactionCache.LostAnswerPersists | src/kafka/client.rs:377-379 | a compacted topic whose own resource came back as an error is cached as not compacted and not asked for again within the time-to-live |
| CompactionCache.LostAnswerHidesTopic | src/collector/offset_collector.rs:66-68 | so every cycle in that time reports the compacted topic as not compacted |
| ConsumerPool.AcquireKeepsOwned | src/kafka/consumer.rs:94-100 | acquiring keeps each consumer in exactly one place |
| ConsumerPool.ReleaseKeepsOwned | src/kafka/consumer.rs:103-120 | so does releasing, with a failed unassign and a full pool |
| ConsumerPool.BuildKeepsOwned | src/kafka/consumer.rs:201-204 | so does each creation of a recycle, also the one that fails and ends it |
| ConsumerPool.InstallKeepsOwned | src/kafka/consumer.rs:206-211 | so does replacing the pool |
| ConsumerPool.OwnershipIsExclusive | src/kafka/consumer.rs:94-211 | in every interleaving of acquires, releases, failed unassigns, failed creations and recycles, each counter value is in exactly one place (pool, one fetch, under construction, dropped, failed, unused) and the pool never exceeds its size |
| ConsumerPool.DroppedForGood | src/kafka/consumer.rs:62-63 | a dropped consumer never comes back and the counter never runs backwards |
| ConsumerPool.LiveBound | src/kafka/consumer.rs:94-120 | outside a recycle's construction at most pool_size plus in-flight consumers are alive |
| ConsumerPool.LiveWithinPoolSizeIff | src/kafka/consumer.rs:94-211 | exact condition, in every run and up to every point: never more than pool_size consumers were alive if and only if never more than pool_size fetches ran at once and every recycle installed its consumers while none ran |
| ConsumerPool.LiveWithinPoolSize | src/kafka/consumer.rs:94-211 | the direction that operators rely on: at most pool_size are alive as long as that condition holds |
| ConsumerPool.RecycleWhileBusyExceeds | src/kafka/consumer.rs:200-211 | the condition can fail, by this run: a recycle during one fetch leaves two consumers alive with a pool of one |
| ConsumerPool.TimestampConsumer.WithPoolSize | src/kafka/consumer.rs:32-59 | there is a pool exactly when every creation succeeds, and then it starts with consumers 0 to pool_size - 1 |
| ConsumerPool.TimestampConsumer.constructor | src/kafka/consumer.rs:53-58 | the fields of a fresh pool: consumers 0 to pool_size - 1, each in its one place |
| ConsumerPool.TimestampConsumer.AcquireFor | src/kafka/consumer.rs:94-100 | the last pooled consumer, or a new one, or an error only when the pool is empty and creation fails; ownership is kept |
| ConsumerPool.TimestampConsumer.ReleaseFrom | src/kafka/consumer.rs:103-120 | back to the pool only when unassigned and there is room, dropped otherwise; ownership is kept |
| ConsumerPool.TimestampConsumer.FetchTimestamp | src/kafka/consumer.rs:123-196 | on every path, success, empty poll or any error, the acquired consumer is released again |
| ConsumerPool.TimestampConsumer.RecyclePool | src/kafka/consumer.rs:200-219 | succeeds exactly when every creation does and then the pool is exactly the new consumers; otherwise the pool is untouched; fetches are never affected |
| Labels.EscapeIsPerCharacter | src/metrics/registry.rs:519-524 | the three sequential replacements equal one escape per character |
| Labels.EscapeIsWellEscaped | src/metrics/registry.rs:519-524 | an escaped value has no raw newline, no quote outside an escape and no unfinished escape |
| Labels.ReadEscaped | src/metrics/registry.rs:519-524 | reading stops at the closing quote and undoes every escape, whatever follows |
| Labels.ReadIffRendered | src/metrics/registry.rs:502-517 | a reader that ends a name at the first equals sign with a quote behind it, undoes the escapes and wants ascending names is the exact inverse: it reads a label map from its own rendering and from no other text, and reads only maps of which no name contains such a pair of characters |
| Labels.RoundTripIff | src/metrics/registry.rs:502-517 | so this reader gives back a rendered label map if and only if no label name contains an equals sign followed by a quote; a bare equals sign is harmless |
| Labels.ExpositionRoundTripIff | src/metrics/registry.rs:502-517 | what is printed is a label block of the exposition format, whose label names match [a-zA-Z_][a-zA-Z0-9_]*, that gives back the label map if and only if every label name is of that form |
| Labels.RenderingIsInjective | src/metrics/registry.rs:502-517 | label maps of which no name contains an equals sign followed by a quote are told apart by what is printed |
| Labels.MistakableIff | src/metrics/registry.rs:502-517 | no reader is involved on the left: some other label map with such names is printed alike if and only if a name of this one contains an equals sign followed by a quote and what is printed can be read all the same |
| Labels.EqualsSignCollides | src/metrics/registry.rs:510-514 | such names can collide: for any two ordered names and any values, one long name is printed like the two |
| Labels.LongNameIsMistakable | src/metrics/registry.rs:510-514 | that long name is the witness: its map is mistaken for the one with two plain names |
| Strings.SortedIsUnique | src/metrics/registry.rs:507-508 | the ascending order of a set of names is unique, so no map order can show |
| Series.DecimalInjective | src/metrics/registry.rs:89 | different partition numbers have different label values |
| Series.BuildPoints | src/metrics/registry.rs:75-268 | the loops build exactly the points of the offset rows, of the partition rows at partition granularity, of the group rows, of the topic rows and of the cluster, in that order |
| UniqueSeries.PointsAreUnique | src/metrics/registry.rs:68-268 | distinct rows and custom labels that leave `group`, `topic` and `partition` alone give points of which no two share name and labels, at either granularity |
| UniqueSeries.UniqueIffIdentityKept | src/metrics/registry.rs:77-82 | that condition on the custom labels is exact: it holds if and only if all distinct rows give distinct series |
| UniqueSeries.ReportRowsAreDistinct | src/collector/lag_calculator.rs:104-268 | the calculator's report on distinct groups never repeats a row |
| UniqueSeries.CyclePublishesUniqueSeries | src/metrics/registry.rs:68-268 | so a cycle over distinct groups publishes no time series twice |
| UniqueSeries.NamesTellApart | src/metrics/definitions.rs:3-26 | no metric name followed by a label block or nothing can be confused with another, although some names extend others |
| UniqueSeries.HeadsDiffer | src/metrics/registry.rs:374-383 | different series whose label names have no equals sign followed by a quote differ in the text before the value |
| RegistrySeries.ReportIsOfCluster | src/collector/lag_calculator.rs:104-268 | every row of a report carries the name of the snapshot's cluster |
| RegistrySeries.ClustersApartIff | src/metrics/registry.rs:77-82 | two clusters, each with custom labels of its own that override no row label, never share a time series if and only if `cluster_name` merged with the custom labels differs between them |
| RegistrySeries.DifferentCommonLabelsKeepApart | src/metrics/registry.rs:77-82 | whatever is overridden, clusters that differ in a label common to all their points share no time series |
| RegistrySeries.NamesKeepApart | src/metrics/registry.rs:77-82 | different cluster names are enough as long as neither overrides `cluster_name` |
| RegistrySeries.GatheredAreUnique | src/metrics/registry.rs:333-348 | whatever clusters are gathered and in whatever order, no series comes twice, as long as no two clusters have the same common labels and none overrides `group`, `topic` or `partition` |
| PrintedLines.PrintedLinesDiffer | src/metrics/registry.rs:327-429 | main result: in everything that is printed, HELP and TYPE comments, samples, the exporter's own metrics and the timestamp lines, in every visiting order, no two lines have the same text before the value or the comment's text, as long as no two clusters have the same common labels, none overrides `group`, `topic` or `partition`, and no custom label name contains an equals sign followed by a quote |
| PrintedLines.HeadsTellApart | src/metrics/registry.rs:366-426 | lines of different kinds, or about different names, series or clusters, differ in that text |
| Meaning.PartitionSeriesMean | src/metrics/registry.rs:107-183 | from snapshot to registry, at partition granularity: each partition metric is published under a group, topic and partition exactly when it has a value, and then with that value (committed offset, clamped lag, time lag, messages lost, retention margin, ratio) |
| Meaning.TopicLevelHidesPartitions | src/metrics/registry.rs:184-187 | at topic granularity no partition metric of any group is published |
| Meaning.MemberLabelsNameOwner | src/metrics/registry.rs:112-120 | offset, lag and time-lag series carry the host, consumer and client of the last member that claims the partition, or empty labels |
| Meaning.FlagLabelsMean | src/metrics/registry.rs:136-152 | the two flags on a time lag are those of its partition, whatever the custom labels say |
| Meaning.GroupSeriesMean | src/metrics/registry.rs:189-225 | each group metric is published exactly with the attained maximum lag, the sum of lags, the largest present time lag or the state of that group |
| Meaning.TopicSeriesMean | src/metrics/registry.rs:227-241 | a topic sum is published for a group exactly when it has a committed offset in the topic, and is the sum of those lags |
| Meaning.WatermarkSeriesMean | src/metrics/registry.rs:84-105 | latest and earliest offset are published for exactly the partitions with watermarks, from the high and the low one |
| Meaning.ClusterSeriesMean | src/metrics/registry.rs:243-268 | each cluster metric is published exactly with its value: the poll time, the number of partitions of compacted topics, the number with data loss |
| Grouping.GroupByName | src/metrics/registry.rs:350-354 | each name that occurs is mapped to exactly its points in their order |
| Grouping.EmitBlocks | src/metrics/registry.rs:350-384 | the lines are one block per name, names ascending |
| Grouping.NothingLostOrDuplicated | src/metrics/registry.rs:350-384 | every point is printed exactly as often as it was gathered |
| Grouping.PointLinesAreGrouped | src/metrics/registry.rs:356-383 | names ascend through the output, a HELP line stands exactly where a name begins and a TYPE line exactly after it |
| Registry.MetricsRegistry.Update | src/metrics/registry.rs:68-281 | one cluster's points, update instant and timestamp are replaced, everything else stays |
| Registry.MetricsRegistry.RemoveCluster | src/metrics/registry.rs:491-495 | exactly one cluster's three entries go |
| Registry.MetricsRegistry.Gather | src/metrics/registry.rs:332-348 | in any visiting order the points of exactly the clusters that are shown: all of them, or those updated within the threshold |
| Registry.MetricsRegistry.Render | src/metrics/registry.rs:327-429 | the grouped points of the shown clusters, then the exporter's own metrics, then a timestamp line for every cluster not known to be stale |
| Registry.MetricsRegistry.OtelMetrics | src/metrics/registry.rs:431-489 | every cluster's points by name with no regard to staleness, and the two own metrics |
| Rendering.OwnNamesAreFree | src/metrics/registry.rs:386-426 | no point has the name of one of the exporter's own metrics, so their HELP and TYPE lines and their OTel entries are the only ones of those names |
| Rendering.RenderedCount | src/metrics/registry.rs:332-384 | each point is printed as often as the shown clusters hold it, whatever order the concurrent maps took |
| Rendering.ViewsAgreeIff | src/metrics/registry.rs:431-455 | the view that skips stale clusters and the OTel view, which does not, hold every point equally often, in any order of the maps, if and only if no hidden cluster holds a point |
| Rendering.SlotTellsWhatIsPrinted | src/metrics/registry.rs:336-420 | whether a cluster's points and its timestamp line are printed depends on its three entries alone |
| Rendering.MidwayRenderHidesUnknown | src/metrics/registry.rs:277-280 | a render between the three inserts of a first update, or the three removes of a removal, never prints points of a cluster without a known update |
| Rendering.StampOutlivesUpdateIff | src/metrics/registry.rs:413-420 | the timestamp line is printed for a cluster without a known update exactly between the last two steps of a removal |
| Rendering.StampOutlivesPointsIff | src/metrics/registry.rs:413-420 | it is printed for a cluster none of whose points are printed exactly after the first step of the removal of a fresh cluster and after the second step of the removal of any |
| RunLoop.ClusterManager.AfterCollection | src/cluster/manager.rs:166-240 | what each outcome does to the error count, backoff, cycle and recycle counts and sleeps, and to the health flag |
| RunLoop.ClusterManager.ObserveLeadership | src/cluster/manager.rs:139-152 | losing leadership clears the cluster from the registry and touches no other |
| RunLoop.ClusterManager.HandleTick | src/cluster/manager.rs:138-241 | one tick: standby leaves nothing of the cluster in the registry, a success leaves its new points, a failure or timeout what was there |
| RunLoop.ClusterManager.Run | src/cluster/manager.rs:119-270 | for every sequence of events: the locals, the registry and the health flag are those that the history determines; nothing of the cluster remains after a shutdown; other clusters are untouched; healthy if and only if fewer than three collections in a row did not succeed |
| RunLoop.ErrorsAdvance | src/cluster/manager.rs:204-240 | one more collection: the run of failures, the backoff min(2^m, 300) s after m late failures, and the sleeps |
| RunLoop.CyclesAdvance | src/cluster/manager.rs:172-181 | one more collection: successes modulo and divided by the recycle interval |
| RunLoop.MatchesAdvances | src/cluster/manager.rs:138-241 | one tick keeps all loop variables in step with the history: errors, backoff, leadership, cycle_count = successes mod interval, recycles = successes div interval, none when the interval is 0 |
| RunLoop.HealthAdvances | src/cluster/manager.rs:205-238 | the health flag is right even when the u32 error count wraps |
| RunLoop.StandbyPublishesNothing | src/cluster/manager.rs:139-158 | after every event sequence whose last tick was standby the registry has nothing of the cluster |
| RunLoop.SleepsAreBounded | src/cluster/manager.rs:213-225 | every sleep is between 1 and 300 s, and the latest of a run is 2^m s cut off at 300 |
| Pipeline.BuildGroups | src/collector/offset_collector.rs:410-440 | one snapshot group per description, in order, with the monitored part of the offsets fetched for it, or none when its fetch failed |
| Pipeline.CollectGroups | src/collector/offset_collector.rs:316-440 | describe, fetch and join, for every schedule of the offset fetches |
| Pipeline.ComputeTimeLags | src/collector/timestamp_sampler.rs:174-193 | no timestamps without a sampler; in rate mode those of the rates after recording; in message mode those that were fetched |
| Pipeline.CollectOnce | src/cluster/manager.rs:273-325 | the whole cycle from broker answers to registry points: it fails exactly when a needed ListOffsets call does, and then changes neither the topic cache nor the rate history; otherwise watermarks are the merge, compacted topics those of one cache cycle, timestamps those of the sampling mode, and the points those of the calculator's report on them |
| Pipeline.EveryGroupIsAccountedFor | src/collector/offset_collector.rs:311-440 | every requested group ends as exactly one of: a row among the reported groups, or one final failure; no other group is reported |
| Pipeline.CycleSeriesAreUnique | src/cluster/manager.rs:276-325 | a cycle against a broker that keeps to the protocol publishes no time series twice |
| Pipeline.ReportedIffFetched | src/collector/offset_collector.rs:366-440 | the report shows a committed offset if and only if the group was described, its own offset request ended in success with that offset, and the topic is monitored |
| EndToEnd.PublishedIsNotOverstated | src/cluster/manager.rs:273-325 | from the broker to the registry: when the answers of a cycle are what an execution of the reads returned, every published lag is about some partition of a reported group and never exceeds that group's true lag at the instant its offset was read, whatever watermark answers were missing; nor does a published number of messages lost exceed the true loss, if EARLIEST was answered |

## Left out

- librdkafka: every `unsafe` call, event and queue handling, C strings, client creation and recycling, memory readings. A call is an arbitrary answer.
- Leadership election, `src/leadership/`: `is_leader` is an arbitrary boolean at each tick.
- The HTTP server, the OTel exporter, `src/main.rs`, logging and phase timings.
- Configuration parsing, environment substitution and regex filters: a filter is an arbitrary predicate.
- The two caches that hold a single value under a time-to-live (`MetadataCache`, `ConsumerGroupsCache`): they would add only easy members.
- Listing groups, topics and partitions (`src/collector/offset_collector.rs:288-307`): a cycle starts from the filtered group ids and the monitored partitions; a failed listing ends it before anything changes.
- Topic interning and shared strings: they affect allocation only.
- The table `encode_group_state` (`src/collector/lag_calculator.rs:84-95`): a group state is taken as already encoded.
- HELP texts and the formatting of values: a printed line is a record of its parts, and only names and labels are text.
- The cluster name in the timestamp line (`src/metrics/registry.rs:423`) is printed without escaping and is outside the round-trip results.
- The semaphore around describe chunks and around message fetches: answers are collected in request order whatever the schedule, and the same protocol is proved for the offset requests.
- The sleeps between describe rounds: they draw from the same capped backoff as the retry loop.
- A spawned task that is itself cancelled or panics outside its blocking call: the collector then only logs it.
- The random draw of a delay: any value within the cap.
- Atomicity of iterating a `DashMap` while it is written: `Rendering` interleaves a render with the steps of one update or removal, per cluster; a render that is itself interrupted is not modelled.
- Wrap-around of the `u64` counters (consumers created, cycles since a recycle).
- `RunLoop.ClusterManager.Run`: does not model the time that passes during sleeps and collections, nor ticks that are missed meanwhile; events are taken in the order in which the loop handles them.
- Poisoned locks: the source ignores them.
