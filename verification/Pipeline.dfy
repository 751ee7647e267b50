/** One collection cycle as a whole: `collect_parallel`
    (`src/collector/offset_collector.rs`) from the requested groups to the
    snapshot, and `collect_once` (`src/cluster/manager.rs`) on to the points. */
module Pipeline {
  import opened Basics
  import opened Retry
  import opened Watermarks
  import opened LagCalculator
  import opened Series
  import opened Labels
  import opened UniqueSeries
  import opened RateSampler
  import opened TimestampSampler
  import Admin
  import CompactionCache
  import GroupOffsets

  // ---- assembling the snapshot ----

  /** A described group; `members` as the broker listed them. */
  datatype Description = Description(groupId: string, state: int, members: seq<Member>)

  function FilterTopics(offsets: Offsets, monitored: string -> bool): Offsets {
    map tp | tp in offsets && monitored(tp.topic) :: offsets[tp]
  }

  /** Descriptions joined with the offsets that were fetched: a group whose
      offset fetch failed stays in the snapshot with no offsets. */
  method BuildGroups(descriptions: seq<Description>, fetched: map<string, Offsets>, monitored: string -> bool)
    returns (groups: seq<GroupSnapshot>)
    ensures |groups| == |descriptions|
    ensures forall n :: 0 <= n < |groups| ==>
      && groups[n].groupId == descriptions[n].groupId && groups[n].state == descriptions[n].state
      && groups[n].members == descriptions[n].members
      && (forall tp :: tp in groups[n].offsets <==>
            groups[n].groupId in fetched && tp in fetched[groups[n].groupId] && monitored(tp.topic))
      && (forall tp :: tp in groups[n].offsets ==> groups[n].offsets[tp] == fetched[groups[n].groupId][tp])
  {
    groups := [];
    for n := 0 to |descriptions|
      invariant |groups| == n
      invariant forall m :: 0 <= m < n ==>
        groups[m] == GroupSnapshot(
          descriptions[m].groupId, descriptions[m].state, descriptions[m].members,
          FilterTopics(if descriptions[m].groupId in fetched then fetched[descriptions[m].groupId] else map[], monitored))
    {
      var d := descriptions[n];
      var offsets := if d.groupId in fetched then fetched[d.groupId] else map[];
      groups := groups + [GroupSnapshot(d.groupId, d.state, d.members, FilterTopics(offsets, monitored))];
    }
  }

  // ---- the cycle ----

  /** What a cycle is given: `broker` and `replies` answer its requests, and `read`
      stands for the conversion of a group description. The watermarks, the
      timestamps and the compacted topics are what it measures on the way. */
  datatype Inputs = Inputs(
    groupIds: seq<string>,
    chunkSize: nat,
    broker: Admin.Broker,
    read: string -> (int, seq<Member>),
    settings: GroupOffsets.Settings,
    replies: GroupOffsets.Replies,
    monitored: string -> bool,
    clusterName: string,
    watermarks: Marks,
    timestamps: map<(string, TopicPartition), int>,
    nowMs: int,
    pollTimeMs: nat,
    compactedTopics: set<string>,
    timeLagEnabled: bool)

  ghost predicate FinishedRun(x: Inputs, steps: seq<GroupOffsets.Step>, tasks: seq<GroupOffsets.Task>) {
    var end := GroupOffsets.Run(x.settings, x.replies, |x.groupIds|, steps);
    end.Some? && GroupOffsets.AllDone(end.value) && tasks == end.value.tasks
  }

  /** Distinct groups, and a broker that answers for the groups it was asked about. */
  ghost predicate KeepsToProtocol(x: Inputs) {
    && Distinct(x.groupIds) && x.chunkSize >= 1
    && Admin.BrokerAnswersWell(x.broker) && GroupOffsets.OwnRepliesOnly(x.groupIds, x.replies)
  }

  ghost predicate DescribedFrom(x: Inputs, rounds: seq<Admin.Round>, groups: seq<GroupSnapshot>) {
    var ds := Admin.AllDescribed(rounds);
    var fetched := GroupOffsets.Merged(GroupOffsets.FinalOutcomes(x.settings, x.replies, |x.groupIds|));
    && |groups| == |ds|
    && forall n :: 0 <= n < |groups| ==> JoinedFrom(x, ds[n], fetched, groups[n])
  }

  ghost predicate JoinedFrom(
    x: Inputs, d: Admin.GroupDescription, fetched: map<string, Offsets>, g: GroupSnapshot)
  {
    && g.groupId == d.groupId && (g.state, g.members) == x.read(d.description)
    && (forall tp :: tp in g.offsets <==> g.groupId in fetched && tp in fetched[g.groupId] && x.monitored(tp.topic))
    && (forall tp :: tp in g.offsets ==> g.offsets[tp] == fetched[g.groupId][tp])
  }

  function CycleOf(x: Inputs, groups: seq<GroupSnapshot>): Cycle {
    Cycle(
      OffsetsSnapshot(x.clusterName, groups, x.watermarks), x.timestamps, x.nowMs, x.pollTimeMs,
      x.compactedTopics, x.timeLagEnabled)
  }

  /** The groups of a snapshot, and the describe rounds they came from. */
  ghost predicate IsCollected(x: Inputs, rounds: seq<Admin.Round>, groups: seq<GroupSnapshot>)
    requires x.chunkSize >= 1
  {
    && Admin.History(x.groupIds, x.chunkSize, MaxAttempts(x.settings.maxRetries), x.broker, rounds)
    && Admin.Complete(x.groupIds, rounds)
    && DescribedFrom(x, rounds, groups)
  }

  /** A cycle's report, and the intermediate results it was made from. */
  ghost predicate IsCycle(x: Inputs, rounds: seq<Admin.Round>, groups: seq<GroupSnapshot>, m: LagMetrics)
    requires x.chunkSize >= 1
  {
    IsCollected(x, rounds, groups) && IsSomeReport(CycleOf(x, groups), m)
  }

  function Outcomes(tasks: seq<GroupOffsets.Task>): seq<Outcome<map<string, Offsets>, Admin.AdminRequestError>>
    requires forall i :: 0 <= i < |tasks| ==> tasks[i].Done?
  {
    seq(|tasks|, i requires 0 <= i < |tasks| => tasks[i].outcome)
  }

  method ReadDescriptions(x: Inputs, described: seq<Admin.GroupDescription>) returns (descriptions: seq<Description>)
    ensures |descriptions| == |described|
    ensures forall n :: 0 <= n < |described| ==>
      var (state, members) := x.read(described[n].description);
      descriptions[n] == Description(described[n].groupId, state, members)
  {
    descriptions := [];
    for n := 0 to |described|
      invariant |descriptions| == n
      invariant forall k :: 0 <= k < n ==>
        var (state, members) := x.read(described[k].description);
        descriptions[k] == Description(described[k].groupId, state, members)
    {
      var (state, members) := x.read(described[n].description);
      descriptions := descriptions + [Description(described[n].groupId, state, members)];
    }
  }

  /** `collect_parallel` up to the snapshot's groups, for every schedule of the
      offset fetches: `tasks` is what any finished run of them leaves behind. */
  method CollectGroups(x: Inputs, tasks: seq<GroupOffsets.Task>, ghost steps: seq<GroupOffsets.Step>)
    returns (groups: seq<GroupSnapshot>, ghost rounds: seq<Admin.Round>)
    requires x.chunkSize >= 1 && FinishedRun(x, steps, tasks)
    ensures IsCollected(x, rounds, groups)
    ensures exists r :: IsCollected(x, r, groups)
  {
    var described, warned, attempts := Admin.DescribeConsumerGroups(
      x.groupIds, x.chunkSize, x.settings.maxRetries, x.broker);
    rounds := attempts;
    var descriptions := ReadDescriptions(x, described);
    GroupOffsets.ScheduleDoesNotMatter(x.settings, x.replies, |x.groupIds|, steps);
    assert Outcomes(tasks) == GroupOffsets.FinalOutcomes(x.settings, x.replies, |x.groupIds|);
    var fetched := GroupOffsets.MergeResults(Outcomes(tasks));
    groups := BuildGroups(descriptions, fetched, x.monitored);
    forall n | 0 <= n < |groups| ensures JoinedFrom(x, described[n], fetched, groups[n]) {
    }
    assert IsCollected(x, rounds, groups);
  }

  /** The calls behind the watermarks and the compacted topics. */
  datatype Calls<E> = Calls(
    partitions: seq<TopicPartition>, earliest: Result<seq<OffsetInfo>, E>, latest: Result<seq<OffsetInfo>, E>,
    compaction: CompactionCache.CycleInput)
  {
    /** Only a failed ListOffsets call ends a cycle early. */
    predicate Fail() {
      partitions != [] && (earliest.Err? || latest.Err?)
    }
  }

  /** How time lag is sampled, if at all; `answer` is what becomes of a fetch. */
  datatype Sampling =
    | Off
    | Rate(sampler: RateSampler)
    | Message(skip: bool, answer: Request -> Result<Option<int>, string>)
  {
    function State(): set<object> {
      if Rate? then {sampler} else {}
    }
  }

  ghost predicate AreWatermarks<E>(calls: Calls<E>, watermarks: Marks) {
    if calls.partitions == [] then watermarks == map[]
    else calls.earliest.Ok? && calls.latest.Ok?
         && IsMerge(Answered(calls.earliest.value), Answered(calls.latest.value), watermarks)
  }

  /** The timestamps of the mode, once the sampler has recorded the watermarks. */
  ghost predicate AreTimestamps(s: OffsetsSnapshot, nowMs: int, mode: Sampling, timestamps: Timestamps)
    reads mode.State()
  {
    match mode
    case Off => timestamps == map[]
    case Rate(sampler) =>
      var rates := Rates(sampler.history, sampler.minMsgsPerSec);
      PositiveRates(rates) && timestamps == RateTimestamps(s.groups, s.watermarks, rates, nowMs)
    case Message(skip, answer) =>
      AreFetched(s, skip, answer, timestamps)
  }

  method ComputeTimeLags(s: OffsetsSnapshot, now: int, nowMs: int, mode: Sampling) returns (out: Timestamps)
    requires mode.Rate? ==>
      mode.sampler.Valid() && (mode.sampler.calls != [] ==> Clock(mode.sampler.calls) <= now)
    modifies mode.State()
    ensures AreTimestamps(s, nowMs, mode, out)
    ensures mode.Rate? ==>
      mode.sampler.Valid() && mode.sampler.calls == old(mode.sampler.calls) + [Call(now, s.watermarks)]
  {
    match mode {
      case Off => out := map[];
      case Rate(sampler) => out := ComputeTimeLagsRate(sampler, s, now, nowMs);
      case Message(skip, answer) =>
        ghost var orders;
        out, orders := ComputeTimeLagsMessage(s, skip, answer);
    }
  }

  /** The inputs with what a cycle measured. */
  function Measured(
    x: Inputs, watermarks: Marks, timestamps: Timestamps, compacted: set<string>, timeLagEnabled: bool): Inputs
  {
    x.(watermarks := watermarks, timestamps := timestamps, compactedTopics := compacted,
       timeLagEnabled := timeLagEnabled)
  }

  /** What the groups are collected from does not include the measurements. */
  lemma StillCollected(
    x: Inputs, rounds: seq<Admin.Round>, groups: seq<GroupSnapshot>,
    watermarks: Marks, timestamps: Timestamps, compacted: set<string>, timeLagEnabled: bool)
    requires x.chunkSize >= 1 && IsCollected(x, rounds, groups)
    ensures IsCollected(Measured(x, watermarks, timestamps, compacted, timeLagEnabled), rounds, groups)
  {
    var ds := Admin.AllDescribed(rounds);
    var fetched := GroupOffsets.Merged(GroupOffsets.FinalOutcomes(x.settings, x.replies, |x.groupIds|));
    var y := Measured(x, watermarks, timestamps, compacted, timeLagEnabled);
    forall n | 0 <= n < |groups| ensures JoinedFrom(y, ds[n], fetched, groups[n]) {
      assert JoinedFrom(x, ds[n], fetched, groups[n]);
    }
  }

  /** What is measured once the watermarks and the groups are there. */
  method Measure(
    x: Inputs, marks: Marks, groups: seq<GroupSnapshot>, compaction: CompactionCache.CycleInput,
    cache: CompactionCache.CompactedTopicsCache, now: int, mode: Sampling)
    returns (y: Inputs)
    requires mode.Rate? ==>
      mode.sampler.Valid() && (mode.sampler.calls != [] ==> Clock(mode.sampler.calls) <= now)
    modifies cache, mode.State()
    ensures y == Measured(
      x, marks, y.timestamps, CompactionCache.CompactedInCycle(old(cache.entries), cache.ttl, compaction), !mode.Off?)
    ensures AreTimestamps(OffsetsSnapshot(x.clusterName, groups, marks), x.nowMs, mode, y.timestamps)
    ensures cache.entries == CompactionCache.EntriesAfterCycle(old(cache.entries), cache.ttl, compaction)
    ensures mode.Rate? ==>
      mode.sampler.Valid() && mode.sampler.calls == old(mode.sampler.calls) + [Call(now, marks)]
  {
    var compacted := cache.Cycle(compaction);
    var timestamps := ComputeTimeLags(OffsetsSnapshot(x.clusterName, groups, marks), now, x.nowMs, mode);
    y := Measured(x, marks, timestamps, compacted, !mode.Off?);
  }

  /** From the measurements to the points. */
  method Publish(
    y: Inputs, groups: seq<GroupSnapshot>, granularity: Granularity, custom: LabelMap)
    returns (m: LagMetrics, points: seq<MetricPoint>)
    ensures IsSomeReport(CycleOf(y, groups), m)
    ensures points == AllPoints(y.clusterName, m, granularity, custom)
  {
    ghost var orders, topicOrders, offsetOrder;
    m, orders, topicOrders, offsetOrder := Calculate(CycleOf(y, groups));
    points := BuildPoints(y.clusterName, m, granularity, custom);
  }

  /** A finished cycle: `y` is what went in with what the cycle measured. */
  ghost predicate IsCollectedOnce<E>(
    x: Inputs, calls: Calls<E>, mode: Sampling, before: CompactionCache.Entries, ttl: nat,
    y: Inputs, rounds: seq<Admin.Round>, groups: seq<GroupSnapshot>, m: LagMetrics)
    requires x.chunkSize >= 1
    reads mode.State()
  {
    && y == Measured(
         x, y.watermarks, y.timestamps, CompactionCache.CompactedInCycle(before, ttl, calls.compaction), !mode.Off?)
    && AreWatermarks(calls, y.watermarks)
    && AreTimestamps(CycleOf(y, groups).snapshot, y.nowMs, mode, y.timestamps)
    && IsCycle(y, rounds, groups, m)
  }

  /** The whole cycle, up to the points that go into the registry. A cycle whose
      ListOffsets calls fail leaves the topic cache and the rate history alone. */
  method CollectOnce<E>(
    x: Inputs, calls: Calls<E>, cache: CompactionCache.CompactedTopicsCache, now: int, mode: Sampling,
    granularity: Granularity, custom: LabelMap, tasks: seq<GroupOffsets.Task>, ghost steps: seq<GroupOffsets.Step>)
    returns (r: Result<(LagMetrics, seq<MetricPoint>), E>,
             ghost y: Inputs, ghost rounds: seq<Admin.Round>, ghost groups: seq<GroupSnapshot>)
    requires x.chunkSize >= 1 && FinishedRun(x, steps, tasks)
    requires mode.Rate? ==>
      mode.sampler.Valid() && (mode.sampler.calls != [] ==> Clock(mode.sampler.calls) <= now)
    modifies cache, mode.State()
    ensures r.Err? <==> calls.Fail()
    ensures r.Err? ==> cache.entries == old(cache.entries)
    ensures r.Err? && mode.Rate? ==>
      mode.sampler.calls == old(mode.sampler.calls) && mode.sampler.history == old(mode.sampler.history)
    ensures r.Ok? ==> IsCollectedOnce(x, calls, mode, old(cache.entries), cache.ttl, y, rounds, groups, r.value.0)
    ensures r.Ok? ==> r.value.1 == AllPoints(y.clusterName, r.value.0, granularity, custom)
    ensures r.Ok? ==>
      cache.entries == CompactionCache.EntriesAfterCycle(old(cache.entries), cache.ttl, calls.compaction)
    ensures r.Ok? && mode.Rate? ==>
      mode.sampler.Valid() && mode.sampler.calls == old(mode.sampler.calls) + [Call(now, y.watermarks)]
  {
    y, groups, rounds := x, [], [];
    var fetched := FetchWatermarks(calls.partitions, calls.earliest, calls.latest);
    if fetched.Err? {
      return Err(fetched.error), y, rounds, groups;
    }
    var marks, snapshots := fetched.value, [];
    snapshots, rounds := CollectGroups(x, tasks, steps);
    groups := snapshots;
    var measured := Measure(x, marks, snapshots, calls.compaction, cache, now, mode);
    y := measured;
    StillCollected(x, rounds, groups, marks, y.timestamps, y.compactedTopics, !mode.Off?);
    var m, points := Publish(measured, snapshots, granularity, custom);
    r := Ok((m, points));
  }

  // ---- what a cycle means, from end to end ----

  ghost predicate HasGroupRow(m: LagMetrics, g: string) {
    exists n :: 0 <= n < |m.groupMetrics| && m.groupMetrics[n].groupId == g
  }

  lemma GroupRowIffDescribed(x: Inputs, rounds: seq<Admin.Round>, groups: seq<GroupSnapshot>, m: LagMetrics, g: string)
    requires x.chunkSize >= 1 && IsCycle(x, rounds, groups, m)
    ensures HasGroupRow(m, g) <==> Admin.DescribedCount(Admin.AllDescribed(rounds), g) > 0
    ensures HasGroupRow(m, g) <==> exists n :: 0 <= n < |groups| && groups[n].groupId == g
  {
    var ds := Admin.AllDescribed(rounds);
    Admin.DescribedCountPositive(ds, g);
    var orders, topicOrders, offsetOrder :| IsReport(CycleOf(x, groups), m, orders, topicOrders, offsetOrder);
    forall n | 0 <= n < |groups| ensures m.groupMetrics[n].groupId == groups[n].groupId == ds[n].groupId {
      assert IsGroupRow(CycleOf(x, groups), groups[n], m.groupMetrics[n]);
      assert JoinedFrom(
        x, ds[n], GroupOffsets.Merged(GroupOffsets.FinalOutcomes(x.settings, x.replies, |x.groupIds|)), groups[n]);
    }
    if n :| 0 <= n < |m.groupMetrics| && m.groupMetrics[n].groupId == g {
      assert ds[n].groupId == g && groups[n].groupId == g;
    }
    if n :| 0 <= n < |ds| && ds[n].groupId == g {
      assert m.groupMetrics[n].groupId == g && groups[n].groupId == g;
    }
  }

  /** Every requested group ends as exactly one of two things: a row among the
      reported groups, or one failure that was logged and not retried. */
  lemma EveryGroupIsAccountedFor(
    x: Inputs, rounds: seq<Admin.Round>, groups: seq<GroupSnapshot>, m: LagMetrics, g: string)
    requires KeepsToProtocol(x) && IsCycle(x, rounds, groups, m)
    ensures g in x.groupIds ==>
      (HasGroupRow(m, g) <==> Admin.FailedCount(Admin.AllFailed(rounds), g) == 0)
      && Admin.FailedCount(Admin.AllFailed(rounds), g) <= 1
    ensures g !in x.groupIds ==> !HasGroupRow(m, g)
  {
    var maxAttempts := MaxAttempts(x.settings.maxRetries);
    Admin.DescribeConservesGroups(x.groupIds, x.chunkSize, maxAttempts, x.broker, rounds);
    Admin.CountInDistinct(x.groupIds, g);
    Admin.CountPositive(x.groupIds, g);
    GroupRowIffDescribed(x, rounds, groups, m, g);
    assert Admin.Count(x.groupIds, g)
        == Admin.DescribedCount(Admin.AllDescribed(rounds), g) + Admin.FailedCount(Admin.AllFailed(rounds), g);
  }

  lemma GroupsAreDistinct(x: Inputs, rounds: seq<Admin.Round>, groups: seq<GroupSnapshot>, m: LagMetrics)
    requires KeepsToProtocol(x) && IsCycle(x, rounds, groups, m)
    ensures DistinctGroups(groups)
  {
    var ds := Admin.AllDescribed(rounds);
    var fetched := GroupOffsets.Merged(GroupOffsets.FinalOutcomes(x.settings, x.replies, |x.groupIds|));
    Admin.DescribedGroupsAreDistinct(
      x.groupIds, x.chunkSize, MaxAttempts(x.settings.maxRetries), x.broker, rounds);
    forall i, j | 0 <= i < j < |groups| ensures groups[i].groupId != groups[j].groupId {
      assert JoinedFrom(x, ds[i], fetched, groups[i]) && JoinedFrom(x, ds[j], fetched, groups[j]);
      assert ds[i].groupId != ds[j].groupId;
    }
  }

  /** A cycle never publishes a time series twice. */
  lemma CycleSeriesAreUnique(
    x: Inputs, rounds: seq<Admin.Round>, groups: seq<GroupSnapshot>, m: LagMetrics,
    granularity: Granularity, custom: LabelMap)
    requires KeepsToProtocol(x) && IsCycle(x, rounds, groups, m) && KeepsIdentity(custom)
    ensures Unique(AllPoints(x.clusterName, m, granularity, custom))
  {
    var c := CycleOf(x, groups);
    var orders, topicOrders, offsetOrder :| IsReport(c, m, orders, topicOrders, offsetOrder);
    GroupsAreDistinct(x, rounds, groups, m);
    CyclePublishesUniqueSeries(c, m, orders, topicOrders, offsetOrder, granularity, custom);
  }

  /** The report shows that group `g` committed `offset` in partition `tp`. */
  ghost predicate Reported(m: LagMetrics, g: string, tp: TopicPartition, offset: int) {
    exists row :: row in m.partitionMetrics
      && row.groupId == g && TopicPartition(row.topic, row.partition) == tp && row.committedOffset == offset
  }

  /** The group's own offset request ended in success with that offset. */
  ghost predicate FetchedOffset(x: Inputs, g: string, tp: TopicPartition, offset: int) {
    exists i: nat :: i < |x.groupIds| && OwnOffset(x, i, g, tp, offset)
  }

  ghost predicate OwnOffset(x: Inputs, i: nat, g: string, tp: TopicPartition, offset: int)
    requires i < |x.groupIds|
  {
    var outcome := GroupOffsets.FinalOutcome(x.settings, x.replies, i);
    && x.groupIds[i] == g && outcome.Ok?
    && g in outcome.value.0 && tp in outcome.value.0[g] && outcome.value.0[g][tp] == offset
  }

  lemma MergedIffFetched(x: Inputs, g: string, tp: TopicPartition, offset: int)
    requires KeepsToProtocol(x)
    ensures var fetched := GroupOffsets.Merged(GroupOffsets.FinalOutcomes(x.settings, x.replies, |x.groupIds|));
      g in fetched && tp in fetched[g] && fetched[g][tp] == offset <==> FetchedOffset(x, g, tp, offset)
  {
    var n := |x.groupIds|;
    var fetched := GroupOffsets.Merged(GroupOffsets.FinalOutcomes(x.settings, x.replies, n));
    GroupOffsets.MergedHasTheSuccesses(x.settings, x.replies, x.groupIds, n, g);
    if FetchedOffset(x, g, tp, offset) {
      var i: nat :| i < n && OwnOffset(x, i, g, tp, offset);
      GroupOffsets.MergedHoldsOwnOffsets(x.settings, x.replies, x.groupIds, n, i);
    }
    if g in fetched {
      var i: nat :| i < n && GroupOffsets.Succeeds(x.settings, x.replies, x.groupIds, i, g);
      GroupOffsets.MergedHoldsOwnOffsets(x.settings, x.replies, x.groupIds, n, i);
      if tp in fetched[g] && fetched[g][tp] == offset {
        assert OwnOffset(x, i, g, tp, offset);
      }
    }
  }

  /** The report shows a committed offset exactly when the group was described,
      its own request returned that offset, and the topic is monitored. */
  lemma ReportedIffFetched(
    x: Inputs, rounds: seq<Admin.Round>, groups: seq<GroupSnapshot>, m: LagMetrics,
    g: string, tp: TopicPartition, offset: int)
    requires KeepsToProtocol(x) && IsCycle(x, rounds, groups, m)
    ensures Reported(m, g, tp, offset)
       <==> HasGroupRow(m, g) && FetchedOffset(x, g, tp, offset) && x.monitored(tp.topic)
  {
    var c, ds := CycleOf(x, groups), Admin.AllDescribed(rounds);
    var fetched := GroupOffsets.Merged(GroupOffsets.FinalOutcomes(x.settings, x.replies, |x.groupIds|));
    var orders, topicOrders, offsetOrder :| IsReport(c, m, orders, topicOrders, offsetOrder);
    GroupRowIffDescribed(x, rounds, groups, m, g);
    MergedIffFetched(x, g, tp, offset);
    if Reported(m, g, tp, offset) {
      var row :| row in m.partitionMetrics
        && row.groupId == g && TopicPartition(row.topic, row.partition) == tp && row.committedOffset == offset;
      RowHasOrigin(c, groups, orders, row);
      var n, at :| 0 <= n < |groups| && at in groups[n].offsets && row == PartitionRow(c, groups[n], at);
      assert at == tp && JoinedFrom(x, ds[n], fetched, groups[n]);
    }
    if HasGroupRow(m, g) && FetchedOffset(x, g, tp, offset) && x.monitored(tp.topic) {
      var n: nat :| n < |groups| && groups[n].groupId == g;
      assert JoinedFrom(x, ds[n], fetched, groups[n]);
      OriginHasRow(c, groups, orders, n, tp);
    }
  }
}
