/** From a moving broker to what is published: the answers of one cycle
    (`Pipeline`) are what an execution of the three reads (`Snapshot`) returned. */
module EndToEnd {
  import opened Basics
  import opened Watermarks
  import opened LagCalculator
  import opened Labels
  import opened Series
  import opened UniqueSeries
  import opened Meaning
  import opened Pipeline
  import Snapshot

  /** The cycle was told what the execution's collector read: the two ListOffsets
      answers, and every offset that a group's own request returned. */
  ghost predicate AnswersAreReads<E>(
    x: Inputs, calls: Calls<E>, trace: seq<Snapshot.World>, steps: seq<Snapshot.Step>)
  {
    && Snapshot.Collected(trace, steps)
    && var end := trace[|steps|].collector;
      && (if calls.partitions == [] then end.lows == map[] && end.highs == map[]
          else && calls.earliest.Ok? && calls.latest.Ok?
               && end.lows == Answered(calls.earliest.value) && end.highs == Answered(calls.latest.value))
      && forall g, tp, offset :: FetchedOffset(x, g, tp, offset) ==>
           (g, tp) in end.offsets && end.offsets[(g, tp)] == offset
  }

  /** The point is about this partition of this group. */
  ghost predicate IsAbout(p: MetricPoint, g: GroupSnapshot, tp: TopicPartition) {
    tp in g.offsets && Identifies(p.labels, Some(g.groupId), Some(tp.topic), Some(tp.partition))
  }

  /** Its value is no more than the true lag, or the true loss, at the instant `k`
      at which the offset was read. */
  ghost predicate NotOverstated(
    trace: seq<Snapshot.World>, p: MetricPoint, g: GroupSnapshot, tp: TopicPartition, k: nat)
    requires tp in g.offsets
  {
    var key := (g.groupId, tp);
    && Snapshot.CommittedReadAt(trace, key, g.offsets[tp], k) && Snapshot.Known(trace[k], key)
    && (p.metric == GroupLag ==> p.value <= Snapshot.TrueLag(trace[k], key) as real)
    && (p.metric == MessagesLost ==> p.value <= Snapshot.TrulyLost(trace[k], key) as real)
  }

  /** A partition point's value, whatever the granularity. */
  lemma PointOrigin(
    c: Cycle, m: LagMetrics, granularity: Granularity, custom: LabelMap, p: MetricPoint)
    requires IsSomeReport(c, m) && KeepsIdentity(custom)
    ensures p in AllPoints(c.snapshot.clusterName, m, granularity, custom) && Section(p.metric) == 1 ==>
      exists n, tp ::
        && 0 <= n < |c.snapshot.groups| && IsAbout(p, c.snapshot.groups[n], tp)
        && PartitionValue(c, c.snapshot.groups[n], tp, p.metric) == Some(p.value)
  {
    if p in AllPoints(c.snapshot.clusterName, m, granularity, custom) && Section(p.metric) == 1 {
      SectionOrigin(c.snapshot.clusterName, m, granularity, custom, p);
      assert granularity.PartitionLevel?;
      PartitionPointOrigin(c, m, custom, p);
      var n, tp :| 0 <= n < |c.snapshot.groups| && tp in c.snapshot.groups[n].offsets
        && PartitionValue(c, c.snapshot.groups[n], tp, p.metric) == Some(p.value)
        && Identifies(p.labels, Some(c.snapshot.groups[n].groupId), Some(tp.topic), Some(tp.partition));
      assert IsAbout(p, c.snapshot.groups[n], tp);
    }
  }

  /** There was such an instant: for lag always, for a number of messages lost as
      long as EARLIEST was answered. */
  ghost predicate TrueWhenRead(
    trace: seq<Snapshot.World>, steps: seq<Snapshot.Step>, p: MetricPoint, g: GroupSnapshot, tp: TopicPartition)
    requires |trace| == |steps| + 1 && tp in g.offsets
  {
    tp in trace[0].broker.logs && (p.metric == GroupLag || tp in trace[|steps|].collector.lows)
    ==> exists k: nat :: NotOverstated(trace, p, g, tp, k)
  }

  lemma ReportedIsTrue(
    trace: seq<Snapshot.World>, steps: seq<Snapshot.Step>, c: Cycle, p: MetricPoint, g: GroupSnapshot,
    tp: TopicPartition)
    requires Snapshot.Reports(trace, steps, c, g, tp)
    requires p.metric in {GroupLag, MessagesLost} && PartitionValue(c, g, tp, p.metric) == Some(p.value)
    ensures TrueWhenRead(trace, steps, p, g, tp)
  {
    var key := (g.groupId, tp);
    if tp in trace[0].broker.logs {
      if p.metric == GroupLag {
        Snapshot.LagNeverOverstated(trace, steps, c, g, tp);
        var k: nat :| Snapshot.CommittedReadAt(trace, key, g.offsets[tp], k) && Snapshot.Known(trace[k], key)
          && PartitionRow(c, g, tp).lag <= Snapshot.TrueLag(trace[k], key);
        assert NotOverstated(trace, p, g, tp, k);
      } else if tp in trace[|steps|].collector.lows {
        Snapshot.LossNeverOverstated(trace, steps, c, g, tp);
        var k: nat :| Snapshot.CommittedReadAt(trace, key, g.offsets[tp], k) && Snapshot.Known(trace[k], key)
          && PartitionRow(c, g, tp).messagesLost <= Snapshot.TrulyLost(trace[k], key);
        assert NotOverstated(trace, p, g, tp, k);
      }
    }
  }

  /** The execution reports on every partition of every group of the cycle. */
  ghost predicate ReportsAll(trace: seq<Snapshot.World>, steps: seq<Snapshot.Step>, c: Cycle) {
    forall n, tp :: 0 <= n < |c.snapshot.groups| && tp in c.snapshot.groups[n].offsets
      ==> Snapshot.Reports(trace, steps, c, c.snapshot.groups[n], tp)
  }

  lemma CycleReportsReads<E>(
    x: Inputs, calls: Calls<E>, rounds: seq<Admin.Round>, groups: seq<GroupSnapshot>,
    trace: seq<Snapshot.World>, steps: seq<Snapshot.Step>)
    requires KeepsToProtocol(x) && DescribedFrom(x, rounds, groups)
    requires AreWatermarks(calls, x.watermarks) && AnswersAreReads(x, calls, trace, steps)
    ensures ReportsAll(trace, steps, CycleOf(x, groups))
  {
    var fetched := GroupOffsets.Merged(GroupOffsets.FinalOutcomes(x.settings, x.replies, |x.groupIds|));
    forall n, tp | 0 <= n < |groups| && tp in groups[n].offsets
      ensures Snapshot.Reports(trace, steps, CycleOf(x, groups), groups[n], tp)
    {
      assert JoinedFrom(x, Admin.AllDescribed(rounds)[n], fetched, groups[n]);
      MergedIffFetched(x, groups[n].groupId, tp, groups[n].offsets[tp]);
    }
  }

  ghost predicate IsTrueOfSome(
    trace: seq<Snapshot.World>, steps: seq<Snapshot.Step>, groups: seq<GroupSnapshot>, p: MetricPoint)
    requires |trace| == |steps| + 1
  {
    exists n, tp :: 0 <= n < |groups| && IsAbout(p, groups[n], tp) && TrueWhenRead(trace, steps, p, groups[n], tp)
  }

  lemma PointsAreTrue(
    c: Cycle, m: LagMetrics, granularity: Granularity, custom: LabelMap,
    trace: seq<Snapshot.World>, steps: seq<Snapshot.Step>, p: MetricPoint)
    requires IsSomeReport(c, m) && KeepsIdentity(custom)
    requires |trace| == |steps| + 1 && ReportsAll(trace, steps, c)
    ensures p in AllPoints(c.snapshot.clusterName, m, granularity, custom) && p.metric in {GroupLag, MessagesLost}
      ==> IsTrueOfSome(trace, steps, c.snapshot.groups, p)
  {
    if p in AllPoints(c.snapshot.clusterName, m, granularity, custom) && p.metric in {GroupLag, MessagesLost} {
      var groups := c.snapshot.groups;
      PointOrigin(c, m, granularity, custom, p);
      var n, tp :| 0 <= n < |groups| && IsAbout(p, groups[n], tp)
        && PartitionValue(c, groups[n], tp, p.metric) == Some(p.value);
      ReportedIsTrue(trace, steps, c, p, groups[n], tp);
    }
  }

  /** From the broker to the registry: every published lag is about some partition
      of a reported group, and never exceeds the group's true lag at the instant
      its offset was read, whichever watermark answers were missing; nor does a
      number of messages lost exceed the true loss, if EARLIEST was answered. */
  lemma PublishedIsNotOverstated<E>(
    x: Inputs, calls: Calls<E>, rounds: seq<Admin.Round>, groups: seq<GroupSnapshot>, m: LagMetrics,
    granularity: Granularity, custom: LabelMap, trace: seq<Snapshot.World>, steps: seq<Snapshot.Step>, p: MetricPoint)
    requires KeepsToProtocol(x) && IsCycle(x, rounds, groups, m) && KeepsIdentity(custom)
    requires AreWatermarks(calls, x.watermarks) && AnswersAreReads(x, calls, trace, steps)
    ensures p in AllPoints(x.clusterName, m, granularity, custom) && p.metric in {GroupLag, MessagesLost}
      ==> IsTrueOfSome(trace, steps, groups, p)
  {
    CycleReportsReads(x, calls, rounds, groups, trace, steps);
    PointsAreTrue(CycleOf(x, groups), m, granularity, custom, trace, steps, p);
  }
}
