/** What the published series mean: from the snapshot, through the lag
    calculator and the point building of `src/metrics/registry.rs`, to the value
    that stands under a metric name and its identifying labels. */
module Meaning {
  import opened Basics
  import opened MapSums
  import opened Labels
  import opened LagCalculator
  import opened Series
  import opened UniqueSeries

  // ---- where a point comes from ----

  lemma {:induction false} FlatHolds(blocks: seq<seq<MetricPoint>>, i: nat, p: MetricPoint)
    requires i < |blocks| && p in blocks[i]
    ensures p in Flat(blocks)
  {
    var n := |blocks| - 1;
    if i < n {
      FlatHolds(blocks[..n], i, p);
    }
  }

  lemma OffsetSection(m: LagMetrics, custom: LabelMap, p: MetricPoint)
    requires p in Flat(OffsetBlocks(m, custom))
    ensures Section(p.metric) == 0
  {
    FlatMember(OffsetBlocks(m, custom), p);
  }

  lemma PartitionSection(m: LagMetrics, granularity: Granularity, custom: LabelMap, p: MetricPoint)
    requires p in Flat(PartitionBlocks(m, granularity, custom))
    ensures Section(p.metric) == 1
  {
    FlatMember(PartitionBlocks(m, granularity, custom), p);
    var i :| 0 <= i < |m.partitionMetrics| && p in PartitionPoints(m.partitionMetrics[i], custom);
    PartitionMetrics(m.partitionMetrics[i], custom);
  }

  lemma GroupSection(m: LagMetrics, custom: LabelMap, p: MetricPoint)
    requires p in Flat(GroupBlocks(m, custom))
    ensures Section(p.metric) == 2
  {
    FlatMember(GroupBlocks(m, custom), p);
  }

  lemma TopicSection(m: LagMetrics, custom: LabelMap, p: MetricPoint)
    requires p in Flat(TopicBlocks(m, custom))
    ensures Section(p.metric) == 3
  {
    FlatMember(TopicBlocks(m, custom), p);
  }

  /** A point's metric tells which kind of row it was built from. */
  lemma SectionOrigin(cluster: string, m: LagMetrics, granularity: Granularity, custom: LabelMap, p: MetricPoint)
    requires p in AllPoints(cluster, m, granularity, custom)
    ensures Section(p.metric) == 0 ==> p in Flat(OffsetBlocks(m, custom))
    ensures Section(p.metric) == 1 ==> p in Flat(PartitionBlocks(m, granularity, custom))
    ensures Section(p.metric) == 2 ==> p in Flat(GroupBlocks(m, custom))
    ensures Section(p.metric) == 3 ==> p in Flat(TopicBlocks(m, custom))
    ensures Section(p.metric) == 4 ==> p in ClusterPoints(cluster, m, custom)
  {
    if p in Flat(OffsetBlocks(m, custom)) {
      OffsetSection(m, custom, p);
    } else if p in Flat(PartitionBlocks(m, granularity, custom)) {
      PartitionSection(m, granularity, custom, p);
    } else if p in Flat(GroupBlocks(m, custom)) {
      GroupSection(m, custom, p);
    } else if p in Flat(TopicBlocks(m, custom)) {
      TopicSection(m, custom, p);
    } else {
      assert p in ClusterPoints(cluster, m, custom);
    }
  }

  /** Whatever was built from a row is among the points. */
  lemma AllPointsHold(cluster: string, m: LagMetrics, granularity: Granularity, custom: LabelMap, p: MetricPoint)
    requires
      || p in Flat(OffsetBlocks(m, custom)) || p in Flat(PartitionBlocks(m, granularity, custom))
      || p in Flat(GroupBlocks(m, custom)) || p in Flat(TopicBlocks(m, custom))
    ensures p in AllPoints(cluster, m, granularity, custom)
  {
  }

  lemma SameIdentity(
    labels: LabelMap, g1: Option<string>, t1: Option<string>, p1: Option<int>,
    g2: Option<string>, t2: Option<string>, p2: Option<int>)
    requires Identifies(labels, g1, t1, p1) && Identifies(labels, g2, t2, p2)
    requires (g1.Some? <==> g2.Some?) && (t1.Some? <==> t2.Some?) && (p1.Some? <==> p2.Some?)
    ensures g1 == g2 && t1 == t2 && p1 == p2
  {
    if p1.Some? {
      DecimalInjective(p1.value, p2.value);
    }
  }

  /** Some published point has this metric, these identifying labels and this value. */
  ghost predicate Published(
    points: seq<MetricPoint>, metric: Metric, group: Option<string>, topic: Option<string>, partition: Option<int>,
    v: real)
  {
    exists p :: p in points && p.metric == metric && Identifies(p.labels, group, topic, partition) && p.value == v
  }

  // ---- partitions of a group ----

  /** What a metric of a group's partition should say, if anything. */
  ghost function PartitionValue(c: Cycle, g: GroupSnapshot, tp: TopicPartition, metric: Metric): Option<real>
    requires tp in g.offsets
  {
    var committed := g.offsets[tp];
    var (low, high) := MarksOf(c.snapshot.watermarks, tp, committed);
    match metric
    case GroupOffset => Some(committed as real)
    case GroupLag => Some(Max(high - committed, 0) as real)
    case GroupLagSeconds => LagSeconds(c, g.groupId, tp, committed)
    case MessagesLost => Some(Max(low - committed, 0) as real)
    case RetentionMargin => Some((committed - low) as real)
    case LagRetentionRatio => Some(RetentionRatio(low, high, committed))
    case _ => None
  }

  lemma PartitionPointsSay(c: Cycle, g: GroupSnapshot, tp: TopicPartition, custom: LabelMap, p: MetricPoint)
    requires tp in g.offsets && p in PartitionPoints(PartitionRow(c, g, tp), custom)
    ensures PartitionValue(c, g, tp, p.metric) == Some(p.value)
  {
    match PartitionRow(c, g, tp).lagSeconds {
      case None =>
      case Some(_) =>
    }
  }

  lemma PartitionPointExists(
    c: Cycle, g: GroupSnapshot, tp: TopicPartition, custom: LabelMap, metric: Metric, v: real)
    requires tp in g.offsets && PartitionValue(c, g, tp, metric) == Some(v)
    ensures exists p :: p in PartitionPoints(PartitionRow(c, g, tp), custom) && p.metric == metric && p.value == v
  {
    var row := PartitionRow(c, g, tp);
    var points := PartitionPoints(row, custom);
    var n := |points|;
    match metric {
      case GroupOffset => assert points[0] in points && points[0].metric == metric;
      case GroupLag => assert points[1] in points && points[1].metric == metric;
      case GroupLagSeconds => assert points[2] in points && points[2].metric == metric;
      case MessagesLost => assert points[n - 3] in points && points[n - 3].metric == metric;
      case RetentionMargin => assert points[n - 2] in points && points[n - 2].metric == metric;
      case LagRetentionRatio => assert points[n - 1] in points && points[n - 1].metric == metric;
    }
  }

  lemma PartitionPointOrigin(c: Cycle, m: LagMetrics, custom: LabelMap, p: MetricPoint)
    requires IsSomeReport(c, m) && KeepsIdentity(custom)
    ensures p in Flat(PartitionBlocks(m, PartitionLevel, custom)) ==> exists n, tp ::
      && 0 <= n < |c.snapshot.groups| && tp in c.snapshot.groups[n].offsets
      && PartitionValue(c, c.snapshot.groups[n], tp, p.metric) == Some(p.value)
      && Identifies(p.labels, Some(c.snapshot.groups[n].groupId), Some(tp.topic), Some(tp.partition))
  {
    if p in Flat(PartitionBlocks(m, PartitionLevel, custom)) {
      var groups := c.snapshot.groups;
      var orders, topicOrders, offsetOrder :| IsReport(c, m, orders, topicOrders, offsetOrder);
      FlatMember(PartitionBlocks(m, PartitionLevel, custom), p);
      var i :| 0 <= i < |m.partitionMetrics| && p in PartitionPoints(m.partitionMetrics[i], custom);
      var row := m.partitionMetrics[i];
      RowHasOrigin(c, groups, orders, row);
      var n, tp :| 0 <= n < |groups| && tp in groups[n].offsets && row == PartitionRow(c, groups[n], tp);
      PartitionBlock(row, custom);
      PartitionPointsSay(c, groups[n], tp, custom, p);
    }
  }

  lemma PartitionIsReported(c: Cycle, m: LagMetrics, n: nat, tp: TopicPartition)
    requires IsSomeReport(c, m) && n < |c.snapshot.groups| && tp in c.snapshot.groups[n].offsets
    ensures PartitionRow(c, c.snapshot.groups[n], tp) in m.partitionMetrics
  {
    var orders, topicOrders, offsetOrder :| IsReport(c, m, orders, topicOrders, offsetOrder);
    OriginHasRow(c, c.snapshot.groups, orders, n, tp);
  }

  lemma PartitionPointArrives(
    cluster: string, m: LagMetrics, custom: LabelMap, row: PartitionLagMetric, p: MetricPoint)
    requires row in m.partitionMetrics && p in PartitionPoints(row, custom)
    ensures p in AllPoints(cluster, m, PartitionLevel, custom)
  {
    var i :| 0 <= i < |m.partitionMetrics| && m.partitionMetrics[i] == row;
    FlatHolds(PartitionBlocks(m, PartitionLevel, custom), i, p);
    AllPointsHold(cluster, m, PartitionLevel, custom, p);
  }

  ghost predicate PartitionPublished(
    c: Cycle, m: LagMetrics, custom: LabelMap, g: GroupSnapshot, tp: TopicPartition, metric: Metric, v: real)
  {
    Published(AllPoints(c.snapshot.clusterName, m, PartitionLevel, custom), metric,
              Some(g.groupId), Some(tp.topic), Some(tp.partition), v)
  }

  lemma PublishedPartitionIsMeant(
    c: Cycle, m: LagMetrics, custom: LabelMap, n: nat, tp: TopicPartition, p: MetricPoint)
    requires IsSomeReport(c, m) && DistinctGroups(c.snapshot.groups) && KeepsIdentity(custom)
    requires n < |c.snapshot.groups| && tp in c.snapshot.groups[n].offsets
    ensures p in Flat(PartitionBlocks(m, PartitionLevel, custom))
      && Identifies(p.labels, Some(c.snapshot.groups[n].groupId), Some(tp.topic), Some(tp.partition))
      ==> PartitionValue(c, c.snapshot.groups[n], tp, p.metric) == Some(p.value)
  {
    var groups := c.snapshot.groups;
    if p in Flat(PartitionBlocks(m, PartitionLevel, custom))
      && Identifies(p.labels, Some(groups[n].groupId), Some(tp.topic), Some(tp.partition))
    {
      PartitionPointOrigin(c, m, custom, p);
      var k, at :| 0 <= k < |groups| && at in groups[k].offsets
        && PartitionValue(c, groups[k], at, p.metric) == Some(p.value)
        && Identifies(p.labels, Some(groups[k].groupId), Some(at.topic), Some(at.partition));
      SameIdentity(
        p.labels, Some(groups[k].groupId), Some(at.topic), Some(at.partition),
        Some(groups[n].groupId), Some(tp.topic), Some(tp.partition));
      assert k == n && at == tp;
    }
  }

  lemma MeantPartitionIsPublished(
    c: Cycle, m: LagMetrics, custom: LabelMap, n: nat, tp: TopicPartition, metric: Metric, v: real)
    requires IsSomeReport(c, m) && KeepsIdentity(custom)
    requires n < |c.snapshot.groups| && tp in c.snapshot.groups[n].offsets
    requires PartitionValue(c, c.snapshot.groups[n], tp, metric) == Some(v)
    ensures PartitionPublished(c, m, custom, c.snapshot.groups[n], tp, metric, v)
  {
    var g := c.snapshot.groups[n];
    PartitionPointExists(c, g, tp, custom, metric, v);
    var p :| p in PartitionPoints(PartitionRow(c, g, tp), custom) && p.metric == metric && p.value == v;
    PartitionIsReported(c, m, n, tp);
    PartitionPointArrives(c.snapshot.clusterName, m, custom, PartitionRow(c, g, tp), p);
    PartitionBlock(PartitionRow(c, g, tp), custom);
  }

  /** At partition granularity, each partition metric of a group's partition is
      published exactly when it has a value, and then with that value. */
  lemma PartitionSeriesMean(
    c: Cycle, m: LagMetrics, custom: LabelMap, n: nat, tp: TopicPartition, metric: Metric, v: real)
    requires IsSomeReport(c, m) && DistinctGroups(c.snapshot.groups) && KeepsIdentity(custom)
    requires n < |c.snapshot.groups| && tp in c.snapshot.groups[n].offsets && Section(metric) == 1
    ensures PartitionPublished(c, m, custom, c.snapshot.groups[n], tp, metric, v)
       <==> PartitionValue(c, c.snapshot.groups[n], tp, metric) == Some(v)
  {
    var g := c.snapshot.groups[n];
    if PartitionPublished(c, m, custom, g, tp, metric, v) {
      var p :| p in AllPoints(c.snapshot.clusterName, m, PartitionLevel, custom) && p.metric == metric && p.value == v
        && Identifies(p.labels, Some(g.groupId), Some(tp.topic), Some(tp.partition));
      SectionOrigin(c.snapshot.clusterName, m, PartitionLevel, custom, p);
      PublishedPartitionIsMeant(c, m, custom, n, tp, p);
    }
    if PartitionValue(c, g, tp, metric) == Some(v) {
      MeantPartitionIsPublished(c, m, custom, n, tp, metric, v);
    }
  }

  /** The offset, lag and time-lag series carry the member that owns the
      partition: the last one to claim it, or empty labels when nobody does. */
  lemma MemberLabelsNameOwner(c: Cycle, g: GroupSnapshot, tp: TopicPartition, custom: LabelMap, p: MetricPoint)
    requires tp in g.offsets && p in PartitionPoints(PartitionRow(c, g, tp), custom)
    requires p.metric == GroupOffset || p.metric == GroupLag || p.metric == GroupLagSeconds
    requires MEMBER_HOST !in custom && CONSUMER_ID !in custom && CLIENT_ID !in custom
    ensures MEMBER_HOST in p.labels && CONSUMER_ID in p.labels && CLIENT_ID in p.labels
    ensures (p.labels[MEMBER_HOST], p.labels[CONSUMER_ID], p.labels[CLIENT_ID]) ==
      match Owner(g.members, tp)
      case Some(owner) => (owner.clientHost, owner.memberId, owner.clientId)
      case None => ("", "", "")
  {
    LabelNamesDiffer();
    MemberPointLabels(PartitionRow(c, g, tp), custom, p);
  }

  lemma MemberPointLabels(row: PartitionLagMetric, custom: LabelMap, p: MetricPoint)
    requires p in PartitionPoints(row, custom)
    requires p.metric == GroupOffset || p.metric == GroupLag || p.metric == GroupLagSeconds
    ensures p.labels == if p.metric == GroupLagSeconds then SecondsLabels(row, custom) else MemberLabels(row, custom)
  {
    match row.lagSeconds {
      case None =>
      case Some(_) =>
    }
  }

  /** The two flags on a time lag are those of its partition, whatever the
      custom labels say. */
  lemma FlagLabelsMean(c: Cycle, g: GroupSnapshot, tp: TopicPartition, custom: LabelMap, p: MetricPoint)
    requires tp in g.offsets && p in PartitionPoints(PartitionRow(c, g, tp), custom) && p.metric == GroupLagSeconds
    ensures COMPACTION_DETECTED in p.labels && DATA_LOSS_DETECTED in p.labels
    ensures p.labels[COMPACTION_DETECTED] == FlagText(tp in CompactedPartitions(c, g))
    ensures p.labels[DATA_LOSS_DETECTED] == FlagText(tp in LostPartitions(c, g))
  {
    LabelNamesDiffer();
    MemberPointLabels(PartitionRow(c, g, tp), custom, p);
  }

  /** At topic granularity no partition metric of any group is published. */
  lemma TopicLevelHidesPartitions(cluster: string, m: LagMetrics, custom: LabelMap, p: MetricPoint)
    requires p in AllPoints(cluster, m, TopicLevel, custom)
    ensures Section(p.metric) != 1
  {
    SectionOrigin(cluster, m, TopicLevel, custom, p);
  }

  // ---- groups ----

  ghost predicate IsMaxLagValue(lags: map<TopicPartition, int>, x: int, v: real) {
    IsMaxLag(lags, x) && v == x as real
  }

  /** `v` is what a metric of a group should say. */
  ghost predicate GroupMeans(c: Cycle, g: GroupSnapshot, metric: Metric, v: real) {
    var lags := Lags(c.snapshot.watermarks, g.offsets);
    match metric
    case GroupMaxLag => exists x: int :: IsMaxLagValue(lags, x, v)
    case GroupSumLag => v == SumValues(lags) as real
    case GroupMaxLagSeconds => IsMaxSeconds(c, g, g.offsets.Keys, Some(v))
    case GroupState => v == g.state as real
    case _ => false
  }

  lemma GroupPointsSay(c: Cycle, g: GroupSnapshot, row: GroupLagMetric, custom: LabelMap, p: MetricPoint)
    requires IsGroupRow(c, g, row) && p in GroupPoints(row, custom)
    ensures GroupMeans(c, g, p.metric, p.value)
  {
    assert IsMaxLagValue(Lags(c.snapshot.watermarks, g.offsets), row.maxLag, row.maxLag as real);
    match row.maxLagSeconds {
      case None =>
      case Some(_) =>
    }
  }

  lemma GroupPointExists(c: Cycle, g: GroupSnapshot, row: GroupLagMetric, custom: LabelMap, metric: Metric, v: real)
    requires IsGroupRow(c, g, row) && GroupMeans(c, g, metric, v)
    ensures exists p :: p in GroupPoints(row, custom) && p.metric == metric && p.value == v
  {
    var points := GroupPoints(row, custom);
    var n := |points|;
    match metric {
      case GroupMaxLag =>
        var x: int :| IsMaxLagValue(Lags(c.snapshot.watermarks, g.offsets), x, v);
        assert x == row.maxLag;
        assert points[0] in points && points[0].metric == metric;
      case GroupSumLag => assert points[1] in points && points[1].metric == metric;
      case GroupMaxLagSeconds =>
        assert v <= row.maxLagSeconds.value <= v;
        assert points[2] in points && points[2].metric == metric;
      case GroupState => assert points[n - 1] in points && points[n - 1].metric == metric;
    }
  }

  lemma PublishedGroupIsMeant(c: Cycle, m: LagMetrics, custom: LabelMap, n: nat, p: MetricPoint)
    requires IsSomeReport(c, m) && DistinctGroups(c.snapshot.groups) && KeepsIdentity(custom)
    requires n < |c.snapshot.groups| && p in Flat(GroupBlocks(m, custom))
    requires Identifies(p.labels, Some(c.snapshot.groups[n].groupId), None, None)
    ensures GroupMeans(c, c.snapshot.groups[n], p.metric, p.value)
  {
    var groups := c.snapshot.groups;
    var orders, topicOrders, offsetOrder :| IsReport(c, m, orders, topicOrders, offsetOrder);
    FlatMember(GroupBlocks(m, custom), p);
    var k :| 0 <= k < |m.groupMetrics| && p in GroupPoints(m.groupMetrics[k], custom);
    GroupBlock(m.groupMetrics[k], custom);
    assert IsGroupRow(c, groups[k], m.groupMetrics[k]);
    SameIdentity(p.labels, Some(groups[k].groupId), None, None, Some(groups[n].groupId), None, None);
    assert k == n;
    GroupPointsSay(c, groups[n], m.groupMetrics[n], custom, p);
  }

  lemma MeantGroupIsPublished(
    c: Cycle, m: LagMetrics, granularity: Granularity, custom: LabelMap, n: nat, metric: Metric, v: real)
    requires IsSomeReport(c, m) && KeepsIdentity(custom)
    requires n < |c.snapshot.groups| && GroupMeans(c, c.snapshot.groups[n], metric, v)
    ensures Published(AllPoints(c.snapshot.clusterName, m, granularity, custom), metric,
                      Some(c.snapshot.groups[n].groupId), None, None, v)
  {
    var groups := c.snapshot.groups;
    var orders, topicOrders, offsetOrder :| IsReport(c, m, orders, topicOrders, offsetOrder);
    assert IsGroupRow(c, groups[n], m.groupMetrics[n]);
    GroupPointExists(c, groups[n], m.groupMetrics[n], custom, metric, v);
    var p :| p in GroupPoints(m.groupMetrics[n], custom) && p.metric == metric && p.value == v;
    FlatHolds(GroupBlocks(m, custom), n, p);
    AllPointsHold(c.snapshot.clusterName, m, granularity, custom, p);
    GroupBlock(m.groupMetrics[n], custom);
  }

  /** Each group metric is published exactly with the value it should have: the
      attained maximum and the sum of the partition lags, the maximum of the
      present time lags, and the state. */
  lemma GroupSeriesMean(
    c: Cycle, m: LagMetrics, granularity: Granularity, custom: LabelMap, n: nat, metric: Metric, v: real)
    requires IsSomeReport(c, m) && DistinctGroups(c.snapshot.groups) && KeepsIdentity(custom)
    requires n < |c.snapshot.groups| && Section(metric) == 2
    ensures Published(AllPoints(c.snapshot.clusterName, m, granularity, custom), metric,
                      Some(c.snapshot.groups[n].groupId), None, None, v)
       <==> GroupMeans(c, c.snapshot.groups[n], metric, v)
  {
    var g := c.snapshot.groups[n];
    var points := AllPoints(c.snapshot.clusterName, m, granularity, custom);
    if Published(points, metric, Some(g.groupId), None, None, v) {
      var p :| p in points && p.metric == metric && p.value == v && Identifies(p.labels, Some(g.groupId), None, None);
      SectionOrigin(c.snapshot.clusterName, m, granularity, custom, p);
      PublishedGroupIsMeant(c, m, custom, n, p);
    }
    if GroupMeans(c, g, metric, v) {
      MeantGroupIsPublished(c, m, granularity, custom, n, metric, v);
    }
  }

  // ---- topics of a group ----

  /** `v` is the sum of the group's lags in a topic it has committed offsets in. */
  ghost predicate TopicMeans(c: Cycle, g: GroupSnapshot, topic: string, v: real) {
    var lags := Lags(c.snapshot.watermarks, g.offsets);
    topic in Topics(lags) && v == SumValues(OfTopic(lags, topic)) as real
  }

  ghost predicate TopicRowOf(c: Cycle, g: GroupSnapshot, row: TopicLagMetric) {
    row.groupId == g.groupId && TopicMeans(c, g, row.topic, row.sumLag as real)
  }

  lemma {:induction false} TopicRowHasOrigin(
    c: Cycle, groups: seq<GroupSnapshot>, orders: seq<seq<string>>, row: TopicLagMetric)
    requires TopicOrders(c, groups, orders) && row in AllTopicRows(c, groups, orders)
    ensures exists n :: 0 <= n < |groups| && TopicRowOf(c, groups[n], row)
  {
    var n := |groups| - 1;
    if row in AllTopicRows(c, groups[..n], orders[..n]) {
      TopicRowHasOrigin(c, groups[..n], orders[..n], row);
      var k :| 0 <= k < n && TopicRowOf(c, groups[..n][k], row);
      assert TopicRowOf(c, groups[k], row);
    } else {
      var j :| 0 <= j < |orders[n]| && row == TopicRows(c, groups[n], orders[n])[j];
      assert orders[n][j] in orders[n];
      assert TopicRowOf(c, groups[n], row);
    }
  }

  lemma {:induction false} TopicOriginHasRow(
    c: Cycle, groups: seq<GroupSnapshot>, orders: seq<seq<string>>, n: nat, topic: string)
    requires TopicOrders(c, groups, orders) && n < |groups|
    requires topic in Topics(Lags(c.snapshot.watermarks, groups[n].offsets))
    ensures TopicLagMetric(
      c.snapshot.clusterName, groups[n].groupId, topic,
      SumValues(OfTopic(Lags(c.snapshot.watermarks, groups[n].offsets), topic))) in AllTopicRows(c, groups, orders)
  {
    var last := |groups| - 1;
    if n < last {
      TopicOriginHasRow(c, groups[..last], orders[..last], n, topic);
    } else {
      assert Enumerates(orders[n], Topics(Lags(c.snapshot.watermarks, groups[n].offsets))) && topic in orders[n];
      var j :| 0 <= j < |orders[n]| && orders[n][j] == topic;
      assert TopicRows(c, groups[n], orders[n])[j] in TopicRows(c, groups[n], orders[n]);
    }
  }

  lemma ReportedTopicIsMeant(c: Cycle, m: LagMetrics, n: nat, row: TopicLagMetric)
    requires IsSomeReport(c, m) && DistinctGroups(c.snapshot.groups)
    requires n < |c.snapshot.groups| && row in m.topicMetrics && row.groupId == c.snapshot.groups[n].groupId
    ensures TopicMeans(c, c.snapshot.groups[n], row.topic, row.sumLag as real)
  {
    var groups := c.snapshot.groups;
    var orders, topicOrders, offsetOrder :| IsReport(c, m, orders, topicOrders, offsetOrder);
    TopicRowHasOrigin(c, groups, topicOrders, row);
    var k :| 0 <= k < |groups| && TopicRowOf(c, groups[k], row);
    assert k == n;
  }

  lemma TopicPointValue(row: TopicLagMetric, custom: LabelMap, p: MetricPoint)
    requires p in TopicPoints(row, custom)
    ensures p.metric == GroupTopicSumLag && p.value == row.sumLag as real
  {
  }

  lemma MeantTopicIsPublished(
    c: Cycle, m: LagMetrics, granularity: Granularity, custom: LabelMap, n: nat, topic: string, v: real)
    requires IsSomeReport(c, m) && KeepsIdentity(custom)
    requires n < |c.snapshot.groups| && TopicMeans(c, c.snapshot.groups[n], topic, v)
    ensures Published(AllPoints(c.snapshot.clusterName, m, granularity, custom), GroupTopicSumLag,
                      Some(c.snapshot.groups[n].groupId), Some(topic), None, v)
  {
    var groups := c.snapshot.groups;
    var orders, topicOrders, offsetOrder :| IsReport(c, m, orders, topicOrders, offsetOrder);
    var row := TopicLagMetric(
      c.snapshot.clusterName, groups[n].groupId, topic,
      SumValues(OfTopic(Lags(c.snapshot.watermarks, groups[n].offsets), topic)));
    TopicOriginHasRow(c, groups, topicOrders, n, topic);
    var i :| 0 <= i < |m.topicMetrics| && m.topicMetrics[i] == row;
    var p := TopicPoints(row, custom)[0];
    assert p in TopicPoints(row, custom);
    TopicPointValue(row, custom, p);
    FlatHolds(TopicBlocks(m, custom), i, p);
    AllPointsHold(c.snapshot.clusterName, m, granularity, custom, p);
    TopicBlock(row, custom);
  }

  ghost predicate TopicPublished(
    c: Cycle, m: LagMetrics, granularity: Granularity, custom: LabelMap, g: GroupSnapshot, topic: string, v: real)
  {
    Published(AllPoints(c.snapshot.clusterName, m, granularity, custom), GroupTopicSumLag,
              Some(g.groupId), Some(topic), None, v)
  }

  lemma TopicPointRow(m: LagMetrics, custom: LabelMap, group: string, topic: string, p: MetricPoint)
    requires KeepsIdentity(custom) && p in Flat(TopicBlocks(m, custom))
    requires Identifies(p.labels, Some(group), Some(topic), None)
    ensures exists row ::
      && row in m.topicMetrics && row.groupId == group && row.topic == topic
      && p.value == row.sumLag as real
  {
    FlatMember(TopicBlocks(m, custom), p);
    var i :| 0 <= i < |m.topicMetrics| && p in TopicPoints(m.topicMetrics[i], custom);
    var row := m.topicMetrics[i];
    TopicBlock(row, custom);
    SameIdentity(p.labels, Some(row.groupId), Some(row.topic), None, Some(group), Some(topic), None);
    TopicPointValue(row, custom, p);
    assert row in m.topicMetrics;
  }

  lemma TopicPublishedFromRow(
    cluster: string, m: LagMetrics, granularity: Granularity, custom: LabelMap, group: string, topic: string, v: real)
    requires KeepsIdentity(custom)
    ensures Published(AllPoints(cluster, m, granularity, custom), GroupTopicSumLag, Some(group), Some(topic), None, v)
      ==> exists row :: row in m.topicMetrics && row.groupId == group && row.topic == topic && v == row.sumLag as real
  {
    var points := AllPoints(cluster, m, granularity, custom);
    if Published(points, GroupTopicSumLag, Some(group), Some(topic), None, v) {
      var p :| p in points
        && p.metric == GroupTopicSumLag && p.value == v && Identifies(p.labels, Some(group), Some(topic), None);
      SectionOrigin(cluster, m, granularity, custom, p);
      TopicPointRow(m, custom, group, topic, p);
    }
  }

  lemma TopicPublishedIsMeant(
    c: Cycle, m: LagMetrics, granularity: Granularity, custom: LabelMap, n: nat, topic: string, v: real)
    requires IsSomeReport(c, m) && DistinctGroups(c.snapshot.groups) && KeepsIdentity(custom)
    requires n < |c.snapshot.groups|
    ensures TopicPublished(c, m, granularity, custom, c.snapshot.groups[n], topic, v)
      ==> TopicMeans(c, c.snapshot.groups[n], topic, v)
  {
    var group := c.snapshot.groups[n].groupId;
    TopicPublishedFromRow(c.snapshot.clusterName, m, granularity, custom, group, topic, v);
    if TopicPublished(c, m, granularity, custom, c.snapshot.groups[n], topic, v) {
      var row :| row in m.topicMetrics && row.groupId == group && row.topic == topic && v == row.sumLag as real;
      ReportedTopicIsMeant(c, m, n, row);
    }
  }

  /** A topic sum is published for a group exactly when the group has a committed
      offset in the topic, and then it is the sum of those partitions' lags. */
  lemma TopicSeriesMean(
    c: Cycle, m: LagMetrics, granularity: Granularity, custom: LabelMap, n: nat, topic: string, v: real)
    requires IsSomeReport(c, m) && DistinctGroups(c.snapshot.groups) && KeepsIdentity(custom)
    requires n < |c.snapshot.groups|
    ensures TopicPublished(c, m, granularity, custom, c.snapshot.groups[n], topic, v)
       <==> TopicMeans(c, c.snapshot.groups[n], topic, v)
  {
    if TopicPublished(c, m, granularity, custom, c.snapshot.groups[n], topic, v) {
      TopicPublishedIsMeant(c, m, granularity, custom, n, topic, v);
    } else if TopicMeans(c, c.snapshot.groups[n], topic, v) {
      MeantTopicIsPublished(c, m, granularity, custom, n, topic, v);
    }
  }

  // ---- watermarks ----

  ghost predicate WatermarkMeans(c: Cycle, tp: TopicPartition, metric: Metric, v: real) {
    var marks := c.snapshot.watermarks;
    match metric
    case LatestOffset => tp in marks && v == marks[tp].1 as real
    case EarliestOffset => tp in marks && v == marks[tp].0 as real
    case _ => false
  }

  lemma OffsetPointsSay(row: PartitionOffsetMetric, custom: LabelMap, p: MetricPoint)
    requires p in OffsetPoints(row, custom)
    ensures (p.metric == LatestOffset && p.value == row.latestOffset as real)
         || (p.metric == EarliestOffset && p.value == row.earliestOffset as real)
  {
  }

  lemma OffsetPointExists(row: PartitionOffsetMetric, custom: LabelMap, metric: Metric)
    requires Section(metric) == 0
    ensures exists p ::
      && p in OffsetPoints(row, custom) && p.metric == metric
      && p.value == (if metric == LatestOffset then row.latestOffset else row.earliestOffset) as real
  {
    var points := OffsetPoints(row, custom);
    assert points[0] in points && points[1] in points;
  }

  lemma PublishedWatermarkIsMeant(c: Cycle, m: LagMetrics, custom: LabelMap, tp: TopicPartition, p: MetricPoint)
    requires IsSomeReport(c, m) && KeepsIdentity(custom)
    requires p in Flat(OffsetBlocks(m, custom)) && Identifies(p.labels, None, Some(tp.topic), Some(tp.partition))
    ensures WatermarkMeans(c, tp, p.metric, p.value)
  {
    var orders, topicOrders, offsetOrder: seq<TopicPartition> :| IsReport(c, m, orders, topicOrders, offsetOrder);
    FlatMember(OffsetBlocks(m, custom), p);
    var i :| 0 <= i < |m.partitionOffsets| && p in OffsetPoints(m.partitionOffsets[i], custom);
    var at := offsetOrder[i];
    OffsetBlock(m.partitionOffsets[i], custom);
    SameIdentity(p.labels, None, Some(at.topic), Some(at.partition), None, Some(tp.topic), Some(tp.partition));
    OffsetPointsSay(m.partitionOffsets[i], custom, p);
    assert at == tp && at in offsetOrder;
  }

  lemma MeantWatermarkIsPublished(
    c: Cycle, m: LagMetrics, granularity: Granularity, custom: LabelMap, tp: TopicPartition, metric: Metric, v: real)
    requires IsSomeReport(c, m) && KeepsIdentity(custom) && WatermarkMeans(c, tp, metric, v)
    ensures Published(AllPoints(c.snapshot.clusterName, m, granularity, custom), metric,
                      None, Some(tp.topic), Some(tp.partition), v)
  {
    var orders, topicOrders, offsetOrder: seq<TopicPartition> :| IsReport(c, m, orders, topicOrders, offsetOrder);
    var i :| 0 <= i < |offsetOrder| && offsetOrder[i] == tp;
    var row := m.partitionOffsets[i];
    OffsetPointExists(row, custom, metric);
    var p :| p in OffsetPoints(row, custom) && p.metric == metric
      && p.value == (if metric == LatestOffset then row.latestOffset else row.earliestOffset) as real;
    OffsetBlock(row, custom);
    FlatHolds(OffsetBlocks(m, custom), i, p);
    AllPointsHold(c.snapshot.clusterName, m, granularity, custom, p);
  }

  /** The two watermark metrics are published for exactly the partitions that
      have watermarks, the latest offset from the high one, the earliest from
      the low one. */
  lemma WatermarkSeriesMean(
    c: Cycle, m: LagMetrics, granularity: Granularity, custom: LabelMap, tp: TopicPartition, metric: Metric, v: real)
    requires IsSomeReport(c, m) && KeepsIdentity(custom) && Section(metric) == 0
    ensures Published(AllPoints(c.snapshot.clusterName, m, granularity, custom), metric,
                      None, Some(tp.topic), Some(tp.partition), v)
       <==> WatermarkMeans(c, tp, metric, v)
  {
    var points := AllPoints(c.snapshot.clusterName, m, granularity, custom);
    if Published(points, metric, None, Some(tp.topic), Some(tp.partition), v) {
      var p :| p in points && p.metric == metric && p.value == v
        && Identifies(p.labels, None, Some(tp.topic), Some(tp.partition));
      SectionOrigin(c.snapshot.clusterName, m, granularity, custom, p);
      PublishedWatermarkIsMeant(c, m, custom, tp, p);
    }
    if WatermarkMeans(c, tp, metric, v) {
      MeantWatermarkIsPublished(c, m, granularity, custom, tp, metric, v);
    }
  }

  // ---- the cluster ----

  lemma ClusterPointsSay(cluster: string, m: LagMetrics, custom: LabelMap, p: MetricPoint)
    requires p in ClusterPoints(cluster, m, custom)
    ensures (p.metric == PollTimeMs && p.value == m.pollTimeMs as real)
         || (p.metric == CompactionDetected && p.value == m.compactionDetectedCount as real)
         || (p.metric == DataLossPartitions && p.value == m.dataLossPartitionCount as real)
  {
  }

  /** `v` is what a metric of the cluster should say: the poll time, or the
      number of partitions of compacted topics, or of those with data loss. */
  ghost predicate ClusterMeans(c: Cycle, metric: Metric, v: real) {
    match metric
    case PollTimeMs => v == c.pollTimeMs as real
    case CompactionDetected => v == TotalSize(c, c.snapshot.groups, CompactedPartitions) as real
    case DataLossPartitions => v == TotalSize(c, c.snapshot.groups, LostPartitions) as real
    case _ => false
  }

  lemma ReportedClusterNumbers(c: Cycle, m: LagMetrics)
    requires IsSomeReport(c, m)
    ensures ClusterMeans(c, PollTimeMs, m.pollTimeMs as real)
    ensures ClusterMeans(c, CompactionDetected, m.compactionDetectedCount as real)
    ensures ClusterMeans(c, DataLossPartitions, m.dataLossPartitionCount as real)
  {
    CountersCountPartitions(c, m);
  }

  lemma ClusterPointOrigin(cluster: string, m: LagMetrics, granularity: Granularity, custom: LabelMap, p: MetricPoint)
    requires p in AllPoints(cluster, m, granularity, custom) && Section(p.metric) == 4
    ensures (p.metric == PollTimeMs && p.value == m.pollTimeMs as real)
         || (p.metric == CompactionDetected && p.value == m.compactionDetectedCount as real)
         || (p.metric == DataLossPartitions && p.value == m.dataLossPartitionCount as real)
  {
    SectionOrigin(cluster, m, granularity, custom, p);
    ClusterPointsSay(cluster, m, custom, p);
  }

  lemma ClusterPointExists(cluster: string, m: LagMetrics, granularity: Granularity, custom: LabelMap, metric: Metric)
    requires Section(metric) == 4
    ensures exists p :: p in AllPoints(cluster, m, granularity, custom) && p.metric == metric
  {
    var points := ClusterPoints(cluster, m, custom);
    assert points[0] in points && points[1] in points && points[2] in points;
  }

  /** Each of the three cluster metrics is published exactly with the value it
      should have. */
  lemma ClusterSeriesMean(
    c: Cycle, m: LagMetrics, granularity: Granularity, custom: LabelMap, metric: Metric, v: real)
    requires IsSomeReport(c, m) && Section(metric) == 4
    ensures Published(AllPoints(c.snapshot.clusterName, m, granularity, custom), metric, None, None, None, v)
       <==> ClusterMeans(c, metric, v)
  {
    var cluster := c.snapshot.clusterName;
    var points := AllPoints(cluster, m, granularity, custom);
    ReportedClusterNumbers(c, m);
    ClusterPointExists(cluster, m, granularity, custom, metric);
    var p :| p in points && p.metric == metric;
    ClusterPointOrigin(cluster, m, granularity, custom, p);
    assert Published(points, metric, None, None, None, p.value);
    if Published(points, metric, None, None, None, v) {
      var q :| q in points && q.metric == metric && q.value == v && Identifies(q.labels, None, None, None);
      ClusterPointOrigin(cluster, m, granularity, custom, q);
    }
  }
}
