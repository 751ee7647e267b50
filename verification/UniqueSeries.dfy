/** When no two points, and no two rendered lines, are the same time series. */
module UniqueSeries {
  import opened Basics
  import opened Labels
  import opened LagCalculator
  import opened Series

  ghost predicate SameSeries(p: MetricPoint, q: MetricPoint) {
    p.metric == q.metric && p.labels == q.labels
  }

  ghost predicate Unique(points: seq<MetricPoint>) {
    forall i, j :: 0 <= i < j < |points| ==> !SameSeries(points[i], points[j])
  }

  ghost predicate Apart(a: seq<MetricPoint>, b: seq<MetricPoint>) {
    forall p, q :: p in a && q in b ==> !SameSeries(p, q)
  }

  /** Rows that report on different things. */
  ghost predicate DistinctRows(m: LagMetrics) {
    && (forall i, j :: 0 <= i < j < |m.partitionOffsets| ==>
          (m.partitionOffsets[i].topic, m.partitionOffsets[i].partition)
          != (m.partitionOffsets[j].topic, m.partitionOffsets[j].partition))
    && (forall i, j :: 0 <= i < j < |m.partitionMetrics| ==>
          (m.partitionMetrics[i].groupId, m.partitionMetrics[i].topic, m.partitionMetrics[i].partition)
          != (m.partitionMetrics[j].groupId, m.partitionMetrics[j].topic, m.partitionMetrics[j].partition))
    && (forall i, j :: 0 <= i < j < |m.groupMetrics| ==> m.groupMetrics[i].groupId != m.groupMetrics[j].groupId)
    && (forall i, j :: 0 <= i < j < |m.topicMetrics| ==>
          (m.topicMetrics[i].groupId, m.topicMetrics[i].topic) != (m.topicMetrics[j].groupId, m.topicMetrics[j].topic))
  }

  /** Custom labels that leave the three identifying labels alone. */
  predicate KeepsIdentity(custom: LabelMap) {
    GROUP !in custom && TOPIC !in custom && PARTITION !in custom
  }

  // ---- families of blocks ----

  ghost predicate Family(blocks: seq<seq<MetricPoint>>) {
    && (forall i :: 0 <= i < |blocks| ==> Unique(blocks[i]))
    && (forall i, j :: 0 <= i < j < |blocks| ==> Apart(blocks[i], blocks[j]))
  }

  lemma {:induction false} FlatMember(blocks: seq<seq<MetricPoint>>, p: MetricPoint)
    requires p in Flat(blocks)
    ensures exists i :: 0 <= i < |blocks| && p in blocks[i]
  {
    var n := |blocks| - 1;
    if p !in blocks[n] {
      FlatMember(blocks[..n], p);
    }
  }

  lemma UniqueConcat(a: seq<MetricPoint>, b: seq<MetricPoint>)
    requires Unique(a) && Unique(b) && Apart(a, b)
    ensures Unique(a + b)
  {
    forall i, j | 0 <= i < j < |a + b| ensures !SameSeries((a + b)[i], (a + b)[j]) {
      if i < |a| <= j {
        assert a[i] in a && b[j - |a|] in b;
      }
    }
  }

  lemma {:induction false} FlatUnique(blocks: seq<seq<MetricPoint>>)
    requires Family(blocks)
    ensures Unique(Flat(blocks))
  {
    if blocks != [] {
      var n := |blocks| - 1;
      FlatUnique(blocks[..n]);
      forall p, q | p in Flat(blocks[..n]) && q in blocks[n] ensures !SameSeries(p, q) {
        FlatMember(blocks[..n], p);
      }
      UniqueConcat(Flat(blocks[..n]), blocks[n]);
    }
  }

  /** Which kind of row a metric is reported for. */
  function Section(m: Metric): nat {
    match m
    case LatestOffset | EarliestOffset => 0
    case GroupOffset | GroupLag | GroupLagSeconds | MessagesLost | RetentionMargin | LagRetentionRatio => 1
    case GroupMaxLag | GroupSumLag | GroupMaxLagSeconds | GroupState => 2
    case GroupTopicSumLag => 3
    case PollTimeMs | CompactionDetected | DataLossPartitions => 4
  }

  ghost predicate Within(blocks: seq<seq<MetricPoint>>, low: nat, high: nat) {
    forall i, p :: 0 <= i < |blocks| && p in blocks[i] ==> low <= Section(p.metric) <= high
  }

  lemma FamilyConcat(a: seq<seq<MetricPoint>>, b: seq<seq<MetricPoint>>, low: nat, mid: nat, high: nat)
    requires Family(a) && Family(b) && low <= mid < high
    requires Within(a, low, mid) && Within(b, mid + 1, high)
    ensures Family(a + b) && Within(a + b, low, high)
  {
  }

  // ---- the rows' blocks ----

  lemma LabelNamesDiffer()
    ensures Distinct([CLUSTER_NAME, GROUP, TOPIC, PARTITION, MEMBER_HOST, CONSUMER_ID, CLIENT_ID,
                      COMPACTION_DETECTED, DATA_LOSS_DETECTED])
  {
    assert |GROUP| == 5 && |TOPIC| == 5 && GROUP[0] != TOPIC[0];
    assert |CLUSTER_NAME| == 12 && |MEMBER_HOST| == 11 && |CONSUMER_ID| == 11 && MEMBER_HOST[0] != CONSUMER_ID[0];
    assert |PARTITION| == 9 && |CLIENT_ID| == 9 && PARTITION[0] != CLIENT_ID[0];
    assert |COMPACTION_DETECTED| == 19 && |DATA_LOSS_DETECTED| == 18;
  }

  /** The labels of a point name this group, topic and partition, so far as they apply. */
  ghost predicate Identifies(labels: LabelMap, group: Option<string>, topic: Option<string>, partition: Option<int>) {
    && (group.Some? ==> GROUP in labels && labels[GROUP] == group.value)
    && (topic.Some? ==> TOPIC in labels && labels[TOPIC] == topic.value)
    && (partition.Some? ==> PARTITION in labels && labels[PARTITION] == Decimal(partition.value))
  }

  lemma IdentityTellsApart(
    a: LabelMap, b: LabelMap, g1: Option<string>, t1: Option<string>, p1: Option<int>,
    g2: Option<string>, t2: Option<string>, p2: Option<int>)
    requires Identifies(a, g1, t1, p1) && Identifies(b, g2, t2, p2)
    requires (g1.Some? <==> g2.Some?) && (t1.Some? <==> t2.Some?) && (p1.Some? <==> p2.Some?)
    requires g1 != g2 || t1 != t2 || p1 != p2
    ensures a != b
  {
    if p1.Some? {
      DecimalInjective(p1.value, p2.value);
    }
  }

  lemma OffsetBlock(m: PartitionOffsetMetric, custom: LabelMap)
    requires KeepsIdentity(custom)
    ensures Unique(OffsetPoints(m, custom))
    ensures forall p :: p in OffsetPoints(m, custom) ==>
      Section(p.metric) == 0 && Identifies(p.labels, None, Some(m.topic), Some(m.partition))
  {
    LabelNamesDiffer();
  }

  lemma PartitionLabels(m: PartitionLagMetric, custom: LabelMap)
    requires KeepsIdentity(custom)
    ensures forall labels :: labels in {LossLabels(m, custom), MemberLabels(m, custom), SecondsLabels(m, custom)} ==>
      Identifies(labels, Some(m.groupId), Some(m.topic), Some(m.partition))
  {
    LabelNamesDiffer();
  }

  lemma PartitionMetrics(m: PartitionLagMetric, custom: LabelMap)
    ensures var points := PartitionPoints(m, custom);
      && (forall i, j :: 0 <= i < j < |points| ==> points[i].metric != points[j].metric)
      && (forall i :: 0 <= i < |points| ==> Section(points[i].metric) == 1)
      && (forall i :: 0 <= i < |points| ==>
            points[i].labels in {LossLabels(m, custom), MemberLabels(m, custom), SecondsLabels(m, custom)})
  {
    match m.lagSeconds {
      case None =>
      case Some(_) =>
    }
  }

  lemma PartitionBlock(m: PartitionLagMetric, custom: LabelMap)
    requires KeepsIdentity(custom)
    ensures Unique(PartitionPoints(m, custom))
    ensures forall p :: p in PartitionPoints(m, custom) ==>
      Section(p.metric) == 1 && Identifies(p.labels, Some(m.groupId), Some(m.topic), Some(m.partition))
  {
    PartitionLabels(m, custom);
    PartitionMetrics(m, custom);
  }

  lemma GroupBlock(m: GroupLagMetric, custom: LabelMap)
    requires KeepsIdentity(custom)
    ensures Unique(GroupPoints(m, custom))
    ensures forall p :: p in GroupPoints(m, custom) ==>
      Section(p.metric) == 2 && Identifies(p.labels, Some(m.groupId), None, None)
  {
    LabelNamesDiffer();
  }

  lemma TopicBlock(m: TopicLagMetric, custom: LabelMap)
    requires KeepsIdentity(custom)
    ensures Unique(TopicPoints(m, custom))
    ensures forall p :: p in TopicPoints(m, custom) ==>
      Section(p.metric) == 3 && Identifies(p.labels, Some(m.groupId), Some(m.topic), None)
  {
    LabelNamesDiffer();
  }

  lemma OffsetsApart(a: PartitionOffsetMetric, b: PartitionOffsetMetric, custom: LabelMap)
    requires KeepsIdentity(custom) && (a.topic, a.partition) != (b.topic, b.partition)
    ensures Apart(OffsetPoints(a, custom), OffsetPoints(b, custom))
  {
    OffsetBlock(a, custom);
    OffsetBlock(b, custom);
    forall p: MetricPoint, q: MetricPoint | p in OffsetPoints(a, custom) && q in OffsetPoints(b, custom)
      ensures !SameSeries(p, q)
    {
      IdentityTellsApart(
        p.labels, q.labels, None, Some(a.topic), Some(a.partition), None, Some(b.topic), Some(b.partition));
    }
  }

  lemma OffsetFamily(m: LagMetrics, custom: LabelMap)
    requires DistinctRows(m) && KeepsIdentity(custom)
    ensures Family(OffsetBlocks(m, custom)) && Within(OffsetBlocks(m, custom), 0, 0)
  {
    var rows, blocks := m.partitionOffsets, OffsetBlocks(m, custom);
    forall i | 0 <= i < |blocks|
      ensures Unique(blocks[i]) && forall p: MetricPoint :: p in blocks[i] ==> Section(p.metric) == 0
    {
      OffsetBlock(rows[i], custom);
    }
    forall i, j | 0 <= i < j < |blocks| ensures Apart(blocks[i], blocks[j]) {
      OffsetsApart(rows[i], rows[j], custom);
    }
  }

  lemma PartitionsApart(a: PartitionLagMetric, b: PartitionLagMetric, custom: LabelMap)
    requires KeepsIdentity(custom) && (a.groupId, a.topic, a.partition) != (b.groupId, b.topic, b.partition)
    ensures Apart(PartitionPoints(a, custom), PartitionPoints(b, custom))
  {
    PartitionBlock(a, custom);
    PartitionBlock(b, custom);
    forall p: MetricPoint, q: MetricPoint | p in PartitionPoints(a, custom) && q in PartitionPoints(b, custom)
      ensures !SameSeries(p, q)
    {
      IdentityTellsApart(
        p.labels, q.labels, Some(a.groupId), Some(a.topic), Some(a.partition),
        Some(b.groupId), Some(b.topic), Some(b.partition));
    }
  }

  lemma PartitionFamily(m: LagMetrics, granularity: Granularity, custom: LabelMap)
    requires DistinctRows(m) && KeepsIdentity(custom)
    ensures Family(PartitionBlocks(m, granularity, custom)) && Within(PartitionBlocks(m, granularity, custom), 1, 1)
  {
    var rows, blocks := m.partitionMetrics, PartitionBlocks(m, granularity, custom);
    forall i | 0 <= i < |blocks|
      ensures Unique(blocks[i]) && forall p: MetricPoint :: p in blocks[i] ==> Section(p.metric) == 1
    {
      PartitionBlock(rows[i], custom);
    }
    forall i, j | 0 <= i < j < |blocks| ensures Apart(blocks[i], blocks[j]) {
      PartitionsApart(rows[i], rows[j], custom);
    }
  }

  lemma GroupsApart(a: GroupLagMetric, b: GroupLagMetric, custom: LabelMap)
    requires KeepsIdentity(custom) && a.groupId != b.groupId
    ensures Apart(GroupPoints(a, custom), GroupPoints(b, custom))
  {
    GroupBlock(a, custom);
    GroupBlock(b, custom);
    forall p: MetricPoint, q: MetricPoint | p in GroupPoints(a, custom) && q in GroupPoints(b, custom)
      ensures !SameSeries(p, q)
    {
      IdentityTellsApart(p.labels, q.labels, Some(a.groupId), None, None, Some(b.groupId), None, None);
    }
  }

  lemma GroupFamily(m: LagMetrics, custom: LabelMap)
    requires DistinctRows(m) && KeepsIdentity(custom)
    ensures Family(GroupBlocks(m, custom)) && Within(GroupBlocks(m, custom), 2, 2)
  {
    var rows, blocks := m.groupMetrics, GroupBlocks(m, custom);
    forall i | 0 <= i < |blocks|
      ensures Unique(blocks[i]) && forall p: MetricPoint :: p in blocks[i] ==> Section(p.metric) == 2
    {
      GroupBlock(rows[i], custom);
    }
    forall i, j | 0 <= i < j < |blocks| ensures Apart(blocks[i], blocks[j]) {
      GroupsApart(rows[i], rows[j], custom);
    }
  }

  lemma TopicsApart(a: TopicLagMetric, b: TopicLagMetric, custom: LabelMap)
    requires KeepsIdentity(custom) && (a.groupId, a.topic) != (b.groupId, b.topic)
    ensures Apart(TopicPoints(a, custom), TopicPoints(b, custom))
  {
    TopicBlock(a, custom);
    TopicBlock(b, custom);
    forall p: MetricPoint, q: MetricPoint | p in TopicPoints(a, custom) && q in TopicPoints(b, custom)
      ensures !SameSeries(p, q)
    {
      IdentityTellsApart(p.labels, q.labels, Some(a.groupId), Some(a.topic), None, Some(b.groupId), Some(b.topic), None);
    }
  }

  lemma TopicFamily(m: LagMetrics, custom: LabelMap)
    requires DistinctRows(m) && KeepsIdentity(custom)
    ensures Family(TopicBlocks(m, custom)) && Within(TopicBlocks(m, custom), 3, 3)
  {
    var rows, blocks := m.topicMetrics, TopicBlocks(m, custom);
    forall i | 0 <= i < |blocks|
      ensures Unique(blocks[i]) && forall p: MetricPoint :: p in blocks[i] ==> Section(p.metric) == 3
    {
      TopicBlock(rows[i], custom);
    }
    forall i, j | 0 <= i < j < |blocks| ensures Apart(blocks[i], blocks[j]) {
      TopicsApart(rows[i], rows[j], custom);
    }
  }

  lemma PointsAreUnique(cluster: string, m: LagMetrics, granularity: Granularity, custom: LabelMap)
    requires DistinctRows(m) && KeepsIdentity(custom)
    ensures Unique(AllPoints(cluster, m, granularity, custom))
  {
    var a, b := OffsetBlocks(m, custom), PartitionBlocks(m, granularity, custom);
    var c, d := GroupBlocks(m, custom), TopicBlocks(m, custom);
    var last := [ClusterPoints(cluster, m, custom)];
    OffsetFamily(m, custom);
    PartitionFamily(m, granularity, custom);
    GroupFamily(m, custom);
    TopicFamily(m, custom);
    FamilyConcat(a, b, 0, 0, 1);
    FamilyConcat(a + b, c, 0, 1, 2);
    FamilyConcat(a + b + c, d, 0, 2, 3);
    FamilyConcat(a + b + c + d, last, 0, 3, 4);
    FlatUnique(a + b + c + d + last);
    AllPointsAreBlocks(cluster, m, granularity, custom);
  }

  // ---- the exact condition ----

  const NO_METRICS := LagMetrics("c", [], [], [], [], 0, 0, 0)

  lemma OverriddenGroupCollides(granularity: Granularity, custom: LabelMap)
    requires GROUP in custom
    ensures exists m: LagMetrics :: DistinctRows(m) && !Unique(AllPoints("c", m, granularity, custom))
  {
    var g := GroupLagMetric("c", "a", 0, None, 0, 0);
    var h := g.(groupId := "b");
    var m := NO_METRICS.(groupMetrics := [g, h]);
    assert "a"[0] != "b"[0];
    LabelNamesDiffer();
    assert map[CLUSTER_NAME := "c", GROUP := "a"] + custom == map[CLUSTER_NAME := "c", GROUP := "b"] + custom;
    assert GroupPoints(g, custom) == GroupPoints(h, custom);
    var points := AllPoints("c", m, granularity, custom);
    assert OffsetBlocks(m, custom) == [] && PartitionBlocks(m, granularity, custom) == [] && TopicBlocks(m, custom) == [];
    assert GroupBlocks(m, custom)[..1][..0] == [];
    assert GroupBlocks(m, custom)[..1] == [GroupPoints(g, custom)];
    assert Flat(GroupBlocks(m, custom)) == GroupPoints(g, custom) + GroupPoints(h, custom);
    assert SameSeries(points[0], points[3]);
    assert DistinctRows(m);
  }

  lemma CollidingOffsets(
    a: PartitionOffsetMetric, b: PartitionOffsetMetric, granularity: Granularity, custom: LabelMap)
    requires (a.topic, a.partition) != (b.topic, b.partition)
    requires OffsetPoints(a, custom)[0].labels == OffsetPoints(b, custom)[0].labels
    ensures exists m: LagMetrics :: DistinctRows(m) && !Unique(AllPoints("c", m, granularity, custom))
  {
    var m := NO_METRICS.(partitionOffsets := [a, b]);
    var points := AllPoints("c", m, granularity, custom);
    var blocks := OffsetBlocks(m, custom);
    assert blocks[..1][..0] == [] && blocks[..1] == [OffsetPoints(a, custom)];
    assert Flat(blocks) == OffsetPoints(a, custom) + OffsetPoints(b, custom);
    assert points[0] == OffsetPoints(a, custom)[0] && points[2] == OffsetPoints(b, custom)[0];
    assert SameSeries(points[0], points[2]);
    assert DistinctRows(m);
  }

  lemma OverriddenOffsetCollides(granularity: Granularity, custom: LabelMap)
    requires TOPIC in custom || PARTITION in custom
    ensures exists m: LagMetrics :: DistinctRows(m) && !Unique(AllPoints("c", m, granularity, custom))
  {
    var a := PartitionOffsetMetric("c", "a", 0, 0, 0);
    LabelNamesDiffer();
    if TOPIC in custom {
      var b := a.(topic := "b");
      assert "a"[0] != "b"[0];
      assert OffsetPoints(a, custom)[0].labels == OffsetPoints(b, custom)[0].labels;
      CollidingOffsets(a, b, granularity, custom);
    } else {
      var b := a.(partition := 1);
      assert OffsetPoints(a, custom)[0].labels == OffsetPoints(b, custom)[0].labels;
      CollidingOffsets(a, b, granularity, custom);
    }
  }

  /** Rows that report on different things give different time series, for all
      metrics of a cluster and at either granularity, exactly when the custom
      labels leave `group`, `topic` and `partition` alone. */
  lemma UniqueIffIdentityKept(granularity: Granularity, custom: LabelMap)
    ensures (forall cluster, m: LagMetrics :: DistinctRows(m) ==> Unique(AllPoints(cluster, m, granularity, custom)))
       <==> KeepsIdentity(custom)
  {
    if KeepsIdentity(custom) {
      forall cluster, m: LagMetrics | DistinctRows(m) ensures Unique(AllPoints(cluster, m, granularity, custom)) {
        PointsAreUnique(cluster, m, granularity, custom);
      }
    } else if GROUP in custom {
      OverriddenGroupCollides(granularity, custom);
    } else {
      OverriddenOffsetCollides(granularity, custom);
    }
  }

  // ---- a cycle's own metrics ----

  ghost predicate Among(groups: seq<GroupSnapshot>, id: string) {
    exists n :: 0 <= n < |groups| && groups[n].groupId == id
  }

  lemma AmongGrows(groups: seq<GroupSnapshot>)
    requires groups != [] && DistinctGroups(groups)
    ensures var n := |groups| - 1;
      && Among(groups, groups[n].groupId) && !Among(groups[..n], groups[n].groupId)
      && forall id :: Among(groups[..n], id) ==> Among(groups, id)
  {
    var n := |groups| - 1;
    forall id | Among(groups[..n], id) ensures Among(groups, id) {
      var k :| 0 <= k < n && groups[..n][k].groupId == id;
      assert groups[k].groupId == id;
    }
  }

  ghost predicate DifferentRow(a: PartitionLagMetric, b: PartitionLagMetric) {
    (a.groupId, a.topic, a.partition) != (b.groupId, b.topic, b.partition)
  }

  ghost predicate DistinctPartitions(rows: seq<PartitionLagMetric>) {
    forall i, j :: 0 <= i < j < |rows| ==> DifferentRow(rows[i], rows[j])
  }

  lemma DistinctPartitionsConcat(a: seq<PartitionLagMetric>, b: seq<PartitionLagMetric>)
    requires DistinctPartitions(a) && DistinctPartitions(b) && forall r, q :: r in a && q in b ==> DifferentRow(r, q)
    ensures DistinctPartitions(a + b)
  {
    forall i, j | 0 <= i < j < |a + b| ensures DifferentRow((a + b)[i], (a + b)[j]) {
      if i < |a| <= j {
        assert a[i] in a && b[j - |a|] in b;
      }
    }
  }

  lemma GroupPartitionsDiffer(c: Cycle, g: GroupSnapshot, order: seq<TopicPartition>)
    requires Distinct(order) && forall tp :: tp in order ==> tp in g.offsets
    ensures DistinctPartitions(PartitionRows(c, g, order))
    ensures forall r :: r in PartitionRows(c, g, order) ==> r.groupId == g.groupId
  {
    forall i, j | 0 <= i < j < |order| ensures DifferentRow(PartitionRows(c, g, order)[i], PartitionRows(c, g, order)[j]) {
      assert order[i] != order[j];
    }
  }

  lemma {:induction false} DistinctPartitionsOverall(c: Cycle, groups: seq<GroupSnapshot>, orders: seq<seq<TopicPartition>>)
    requires GroupOrders(groups, orders) && DistinctGroups(groups)
    ensures forall r :: r in AllPartitionRows(c, groups, orders) ==> Among(groups, r.groupId)
    ensures DistinctPartitions(AllPartitionRows(c, groups, orders))
  {
    if groups != [] {
      var n := |groups| - 1;
      var before, last := AllPartitionRows(c, groups[..n], orders[..n]), PartitionRows(c, groups[n], orders[n]);
      DistinctPartitionsOverall(c, groups[..n], orders[..n]);
      GroupPartitionsDiffer(c, groups[n], orders[n]);
      AmongGrows(groups);
      DistinctPartitionsConcat(before, last);
    }
  }

  ghost predicate DifferentTopicRow(a: TopicLagMetric, b: TopicLagMetric) {
    (a.groupId, a.topic) != (b.groupId, b.topic)
  }

  ghost predicate DistinctTopics(rows: seq<TopicLagMetric>) {
    forall i, j :: 0 <= i < j < |rows| ==> DifferentTopicRow(rows[i], rows[j])
  }

  lemma DistinctTopicsConcat(a: seq<TopicLagMetric>, b: seq<TopicLagMetric>)
    requires DistinctTopics(a) && DistinctTopics(b) && forall r, q :: r in a && q in b ==> DifferentTopicRow(r, q)
    ensures DistinctTopics(a + b)
  {
    forall i, j | 0 <= i < j < |a + b| ensures DifferentTopicRow((a + b)[i], (a + b)[j]) {
      if i < |a| <= j {
        assert a[i] in a && b[j - |a|] in b;
      }
    }
  }

  lemma GroupTopicsDiffer(c: Cycle, g: GroupSnapshot, order: seq<string>)
    requires Distinct(order) && forall topic :: topic in order ==> topic in Topics(Lags(c.snapshot.watermarks, g.offsets))
    ensures DistinctTopics(TopicRows(c, g, order))
    ensures forall r :: r in TopicRows(c, g, order) ==> r.groupId == g.groupId
  {
    forall i, j | 0 <= i < j < |order| ensures DifferentTopicRow(TopicRows(c, g, order)[i], TopicRows(c, g, order)[j]) {
      assert order[i] != order[j];
    }
  }

  lemma {:induction false} DistinctTopicsOverall(c: Cycle, groups: seq<GroupSnapshot>, orders: seq<seq<string>>)
    requires TopicOrders(c, groups, orders) && DistinctGroups(groups)
    ensures forall r :: r in AllTopicRows(c, groups, orders) ==> Among(groups, r.groupId)
    ensures DistinctTopics(AllTopicRows(c, groups, orders))
  {
    if groups != [] {
      var n := |groups| - 1;
      var before, last := AllTopicRows(c, groups[..n], orders[..n]), TopicRows(c, groups[n], orders[n]);
      DistinctTopicsOverall(c, groups[..n], orders[..n]);
      GroupTopicsDiffer(c, groups[n], orders[n]);
      AmongGrows(groups);
      DistinctTopicsConcat(before, last);
    }
  }

  /** What the lag calculator reports about distinct groups never repeats a row. */
  lemma ReportRowsAreDistinct(
    c: Cycle, m: LagMetrics, orders: seq<seq<TopicPartition>>, topicOrders: seq<seq<string>>,
    offsetOrder: seq<TopicPartition>)
    requires IsReport(c, m, orders, topicOrders, offsetOrder) && DistinctGroups(c.snapshot.groups)
    ensures DistinctRows(m)
  {
    DistinctPartitionsOverall(c, c.snapshot.groups, orders);
    DistinctTopicsOverall(c, c.snapshot.groups, topicOrders);
    assert m.partitionMetrics == AllPartitionRows(c, c.snapshot.groups, orders);
    assert m.topicMetrics == AllTopicRows(c, c.snapshot.groups, topicOrders);
    forall i, j | 0 <= i < j < |m.partitionOffsets|
      ensures (m.partitionOffsets[i].topic, m.partitionOffsets[i].partition)
           != (m.partitionOffsets[j].topic, m.partitionOffsets[j].partition)
    {
      assert offsetOrder[i] != offsetOrder[j];
    }
    forall i, j | 0 <= i < j < |m.partitionMetrics|
      ensures (m.partitionMetrics[i].groupId, m.partitionMetrics[i].topic, m.partitionMetrics[i].partition)
           != (m.partitionMetrics[j].groupId, m.partitionMetrics[j].topic, m.partitionMetrics[j].partition)
    {
      assert DifferentRow(m.partitionMetrics[i], m.partitionMetrics[j]);
    }
    forall i, j | 0 <= i < j < |m.topicMetrics|
      ensures (m.topicMetrics[i].groupId, m.topicMetrics[i].topic) != (m.topicMetrics[j].groupId, m.topicMetrics[j].topic)
    {
      assert DifferentTopicRow(m.topicMetrics[i], m.topicMetrics[j]);
    }
    forall i, j | 0 <= i < j < |m.groupMetrics| ensures m.groupMetrics[i].groupId != m.groupMetrics[j].groupId {
      assert IsGroupRow(c, c.snapshot.groups[i], m.groupMetrics[i]);
      assert IsGroupRow(c, c.snapshot.groups[j], m.groupMetrics[j]);
    }
  }

  /** From snapshot to registry: a cycle over distinct groups publishes no time
      series twice. */
  lemma CyclePublishesUniqueSeries(
    c: Cycle, m: LagMetrics, orders: seq<seq<TopicPartition>>, topicOrders: seq<seq<string>>,
    offsetOrder: seq<TopicPartition>, granularity: Granularity, custom: LabelMap)
    requires IsReport(c, m, orders, topicOrders, offsetOrder) && DistinctGroups(c.snapshot.groups)
    requires KeepsIdentity(custom)
    ensures Unique(AllPoints(c.snapshot.clusterName, m, granularity, custom))
  {
    ReportRowsAreDistinct(c, m, orders, topicOrders, offsetOrder);
    PointsAreUnique(c.snapshot.clusterName, m, granularity, custom);
  }

  // ---- rendered lines ----

  const BUILT_IN: set<string> :=
    {CLUSTER_NAME, GROUP, TOPIC, PARTITION, MEMBER_HOST, CONSUMER_ID, CLIENT_ID, COMPACTION_DETECTED, DATA_LOSS_DETECTED}

  lemma BuiltInNamesHaveNoEquals(name: string)
    requires name in BUILT_IN
    ensures '=' !in name
  {
  }

  lemma BuiltInNamesArePlain(name: string)
    requires name in BUILT_IN
    ensures PlainName(name)
  {
    BuiltInNamesHaveNoEquals(name);
    NoEqualsIsPlain(name);
  }

  predicate Known(p: MetricPoint, custom: LabelMap) {
    p.labels.Keys <= BUILT_IN + custom.Keys
  }

  lemma OffsetLabelsKnown(m: PartitionOffsetMetric, custom: LabelMap)
    ensures forall p :: p in OffsetPoints(m, custom) ==> Known(p, custom)
  {
  }

  lemma PartitionLabelsKnown(m: PartitionLagMetric, custom: LabelMap)
    ensures forall p :: p in PartitionPoints(m, custom) ==> Known(p, custom)
  {
    var points := PartitionPoints(m, custom);
    assert LossLabels(m, custom).Keys <= BUILT_IN + custom.Keys;
    assert MemberLabels(m, custom).Keys <= BUILT_IN + custom.Keys;
    assert SecondsLabels(m, custom).Keys <= BUILT_IN + custom.Keys;
    forall i | 0 <= i < |points|
      ensures points[i].labels in {LossLabels(m, custom), MemberLabels(m, custom), SecondsLabels(m, custom)}
    {
    }
  }

  lemma GroupLabelsKnown(m: GroupLagMetric, custom: LabelMap)
    ensures forall p :: p in GroupPoints(m, custom) ==> Known(p, custom)
  {
  }

  lemma TopicLabelsKnown(m: TopicLagMetric, custom: LabelMap)
    ensures forall p :: p in TopicPoints(m, custom) ==> Known(p, custom)
  {
  }

  lemma AllLabelsAreKnown(
    cluster: string, m: LagMetrics, granularity: Granularity, custom: LabelMap, p: MetricPoint)
    requires p in AllPoints(cluster, m, granularity, custom)
    ensures Known(p, custom)
  {
    if p in Flat(OffsetBlocks(m, custom)) {
      FlatMember(OffsetBlocks(m, custom), p);
      var i :| 0 <= i < |m.partitionOffsets| && p in OffsetPoints(m.partitionOffsets[i], custom);
      OffsetLabelsKnown(m.partitionOffsets[i], custom);
    } else if p in Flat(PartitionBlocks(m, granularity, custom)) {
      FlatMember(PartitionBlocks(m, granularity, custom), p);
      var i :| 0 <= i < |m.partitionMetrics| && p in PartitionPoints(m.partitionMetrics[i], custom);
      PartitionLabelsKnown(m.partitionMetrics[i], custom);
    } else if p in Flat(GroupBlocks(m, custom)) {
      FlatMember(GroupBlocks(m, custom), p);
      var i :| 0 <= i < |m.groupMetrics| && p in GroupPoints(m.groupMetrics[i], custom);
      GroupLabelsKnown(m.groupMetrics[i], custom);
    } else if p in Flat(TopicBlocks(m, custom)) {
      FlatMember(TopicBlocks(m, custom), p);
      var i :| 0 <= i < |m.topicMetrics| && p in TopicPoints(m.topicMetrics[i], custom);
      TopicLabelsKnown(m.topicMetrics[i], custom);
    } else {
      assert p in ClusterPoints(cluster, m, custom);
    }
  }

  /** What identifies a sample line: everything before its value. */
  ghost function LineHead(p: MetricPoint): string {
    p.metric.Name() + RenderLabels(p.labels)
  }

  /** Three characters that tell most names apart. */
  lemma NameShape(m: Metric)
    ensures |m.Name()| >= 29
    ensures (m.Name()[20], m.Name()[26], m.Name()[27]) ==
      match m
      case LatestOffset => ('s', 's', 'e')
      case EarliestOffset => ('i', 'f', 'f')
      case GroupOffset => ('g', 'o', 'f')
      case GroupLag | GroupLagSeconds | LagRetentionRatio => ('g', 'l', 'a')
      case MessagesLost => ('g', 'm', 'e')
      case RetentionMargin => ('g', 'r', 'e')
      case GroupMaxLag | GroupMaxLagSeconds => ('g', 'm', 'a')
      case GroupSumLag => ('g', 's', 'u')
      case GroupState => ('g', 's', 't')
      case GroupTopicSumLag => ('g', 't', 'o')
      case PollTimeMs => ('p', 'i', 'm')
      case CompactionDetected => ('o', 'i', 'o')
      case DataLossPartitions => ('a', 's', 's')
  {
  }

  /** The names that others extend. */
  lemma ExtendedNames()
    ensures |GroupLag.Name()| == 29 && |GroupMaxLag.Name()| == 33
    ensures |GroupLagSeconds.Name()| == 37 && GroupLagSeconds.Name()[29] == '_' && GroupLagSeconds.Name()[30] == 's'
    ensures |LagRetentionRatio.Name()| == 45 && LagRetentionRatio.Name()[29] == '_' && LagRetentionRatio.Name()[30] == 'r'
    ensures |GroupMaxLagSeconds.Name()| == 41 && GroupMaxLagSeconds.Name()[33] == '_'
  {
  }

  lemma CharTellsApart(a: string, b: string, k: nat, r: string, s: string)
    requires k < |a| && k < |b| && a[k] != b[k]
    ensures a + r != b + s
  {
    assert (a + r)[k] != (b + s)[k];
  }

  lemma ExtensionTellsApart(short: string, long: string, r: string, s: string)
    requires |short| < |long| && long[|short|] == '_' && (r == "" || r[0] == '{')
    ensures short + r != long + s
  {
    if r != "" {
      assert (short + r)[|short|] != (long + s)[|short|];
    } else {
      assert |short + r| < |long + s|;
    }
  }

  /** Whatever follows two different names, be it nothing or a label block, the
      results differ: where one name extends another, it goes on with an
      underscore, not with a brace. */
  lemma NamesTellApart(m: Metric, n: Metric, r: string, s: string)
    requires m != n
    requires (r == "" || r[0] == '{') && (s == "" || s[0] == '{')
    ensures m.Name() + r != n.Name() + s
  {
    NameShape(m);
    NameShape(n);
    ExtendedNames();
    var (a, b) := (m.Name(), n.Name());
    if a[20] != b[20] {
      CharTellsApart(a, b, 20, r, s);
    } else if a[26] != b[26] {
      CharTellsApart(a, b, 26, r, s);
    } else if a[27] != b[27] {
      CharTellsApart(a, b, 27, r, s);
    } else if m.GroupLag? || m.GroupMaxLag? {
      ExtensionTellsApart(a, b, r, s);
    } else if n.GroupLag? || n.GroupMaxLag? {
      ExtensionTellsApart(b, a, s, r);
    } else {
      CharTellsApart(a, b, 30, r, s);
    }
  }

  /** Different series make different lines, for plain label names. */
  lemma HeadsDiffer(p: MetricPoint, q: MetricPoint)
    requires PlainNames(p.labels) && PlainNames(q.labels) && !SameSeries(p, q)
    ensures LineHead(p) != LineHead(q)
  {
    if p.metric != q.metric {
      NamesTellApart(p.metric, q.metric, RenderLabels(p.labels), RenderLabels(q.labels));
    } else {
      var name := p.metric.Name();
      assert LineHead(p)[|name|..] == RenderLabels(p.labels) && LineHead(q)[|name|..] == RenderLabels(q.labels);
      if RenderLabels(p.labels) == RenderLabels(q.labels) {
        RenderingIsInjective(p.labels, q.labels);
      }
    }
  }
}
