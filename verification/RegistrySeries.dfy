/** Time series across clusters: what the registry prints as a whole never
    repeats one (`src/metrics/registry.rs`). */
module RegistrySeries {
  import opened Basics
  import opened Labels
  import opened LagCalculator
  import opened Series
  import opened UniqueSeries
  import opened Registry

  // ---- points name their cluster ----

  ghost predicate OfCluster(m: LagMetrics, cluster: string) {
    && (forall i :: 0 <= i < |m.partitionOffsets| ==> m.partitionOffsets[i].clusterName == cluster)
    && (forall i :: 0 <= i < |m.partitionMetrics| ==> m.partitionMetrics[i].clusterName == cluster)
    && (forall i :: 0 <= i < |m.groupMetrics| ==> m.groupMetrics[i].clusterName == cluster)
    && (forall i :: 0 <= i < |m.topicMetrics| ==> m.topicMetrics[i].clusterName == cluster)
  }

  lemma {:induction false} PartitionRowsAreOfCluster(
    c: Cycle, groups: seq<GroupSnapshot>, orders: seq<seq<TopicPartition>>, i: nat)
    requires GroupOrders(groups, orders) && i < |AllPartitionRows(c, groups, orders)|
    ensures AllPartitionRows(c, groups, orders)[i].clusterName == c.snapshot.clusterName
  {
    var n := |groups| - 1;
    if i < |AllPartitionRows(c, groups[..n], orders[..n])| {
      PartitionRowsAreOfCluster(c, groups[..n], orders[..n], i);
    }
  }

  lemma {:induction false} TopicRowsAreOfCluster(
    c: Cycle, groups: seq<GroupSnapshot>, orders: seq<seq<string>>, i: nat)
    requires TopicOrders(c, groups, orders) && i < |AllTopicRows(c, groups, orders)|
    ensures AllTopicRows(c, groups, orders)[i].clusterName == c.snapshot.clusterName
  {
    var n := |groups| - 1;
    if i < |AllTopicRows(c, groups[..n], orders[..n])| {
      TopicRowsAreOfCluster(c, groups[..n], orders[..n], i);
    }
  }

  /** Every row of a report carries the name of the snapshot's cluster. */
  lemma ReportIsOfCluster(
    c: Cycle, m: LagMetrics, orders: seq<seq<TopicPartition>>, topicOrders: seq<seq<string>>,
    offsetOrder: seq<TopicPartition>)
    requires IsReport(c, m, orders, topicOrders, offsetOrder)
    ensures OfCluster(m, c.snapshot.clusterName)
  {
    forall i | 0 <= i < |m.partitionMetrics| ensures m.partitionMetrics[i].clusterName == c.snapshot.clusterName {
      PartitionRowsAreOfCluster(c, c.snapshot.groups, orders, i);
    }
    forall i | 0 <= i < |m.topicMetrics| ensures m.topicMetrics[i].clusterName == c.snapshot.clusterName {
      TopicRowsAreOfCluster(c, c.snapshot.groups, topicOrders, i);
    }
    forall i | 0 <= i < |m.groupMetrics| ensures m.groupMetrics[i].clusterName == c.snapshot.clusterName {
      assert IsGroupRow(c, c.snapshot.groups[i], m.groupMetrics[i]);
    }
  }

  // ---- what all points of a cluster have in common ----

  /** The built-in labels that tell the rows of one cluster apart. */
  const ROW_LABELS: set<string> :=
    {GROUP, TOPIC, PARTITION, MEMBER_HOST, CONSUMER_ID, CLIENT_ID, COMPACTION_DETECTED, DATA_LOSS_DETECTED}

  /** The cluster's name and its custom labels. */
  function BaseLabels(cluster: string, custom: LabelMap): LabelMap {
    map[CLUSTER_NAME := cluster] + custom
  }

  function CommonLabels(cluster: string, custom: LabelMap): LabelMap {
    BaseLabels(cluster, custom) - ROW_LABELS
  }

  predicate SharesCommon(p: MetricPoint, cluster: string, custom: LabelMap) {
    p.labels - ROW_LABELS == CommonLabels(cluster, custom)
  }

  lemma ClusterNameIsNoRowLabel()
    ensures CLUSTER_NAME !in ROW_LABELS
  {
    LabelNamesDiffer();
  }

  /** Row labels leave no trace in the common part, be they under the custom
      labels or set after them. */
  lemma RowLabelsVanish(row: LabelMap, cluster: string, custom: LabelMap)
    requires row - ROW_LABELS == map[CLUSTER_NAME := cluster] - ROW_LABELS
    ensures (row + custom) - ROW_LABELS == CommonLabels(cluster, custom)
  {
    var (a, b) := ((row + custom) - ROW_LABELS, CommonLabels(cluster, custom));
    forall k | k !in ROW_LABELS
      ensures k in row <==> k in map[CLUSTER_NAME := cluster]
      ensures k in row ==> row[k] == cluster
    {
      assert k in row <==> k in row - ROW_LABELS;
      assert k in map[CLUSTER_NAME := cluster] <==> k in map[CLUSTER_NAME := cluster] - ROW_LABELS;
    }
    assert a.Keys == b.Keys;
  }

  lemma LateLabelVanishes(labels: LabelMap, name: string, value: string)
    requires name in ROW_LABELS
    ensures labels[name := value] - ROW_LABELS == labels - ROW_LABELS
  {
  }

  lemma OffsetPointsShareCommon(m: PartitionOffsetMetric, custom: LabelMap)
    ensures forall p :: p in OffsetPoints(m, custom) ==> SharesCommon(p, m.clusterName, custom)
  {
    ClusterNameIsNoRowLabel();
    RowLabelsVanish(
      map[CLUSTER_NAME := m.clusterName, TOPIC := m.topic, PARTITION := Decimal(m.partition)], m.clusterName, custom);
  }

  lemma LossLabelsShareCommon(m: PartitionLagMetric, custom: LabelMap)
    ensures LossLabels(m, custom) - ROW_LABELS == CommonLabels(m.clusterName, custom)
  {
    ClusterNameIsNoRowLabel();
    RowLabelsVanish(
      map[CLUSTER_NAME := m.clusterName, GROUP := m.groupId, TOPIC := m.topic, PARTITION := Decimal(m.partition)],
      m.clusterName, custom);
  }

  lemma MemberLabelsShareCommon(m: PartitionLagMetric, custom: LabelMap)
    ensures MemberLabels(m, custom) - ROW_LABELS == CommonLabels(m.clusterName, custom)
  {
    ClusterNameIsNoRowLabel();
    RowLabelsVanish(
      map[CLUSTER_NAME := m.clusterName, GROUP := m.groupId, TOPIC := m.topic, PARTITION := Decimal(m.partition),
          MEMBER_HOST := m.memberHost, CONSUMER_ID := m.consumerId, CLIENT_ID := m.clientId],
      m.clusterName, custom);
  }

  lemma SecondsLabelsShareCommon(m: PartitionLagMetric, custom: LabelMap)
    ensures SecondsLabels(m, custom) - ROW_LABELS == CommonLabels(m.clusterName, custom)
  {
    MemberLabelsShareCommon(m, custom);
    var labels := MemberLabels(m, custom);
    LateLabelVanishes(labels, COMPACTION_DETECTED, FlagText(m.compactionDetected));
    LateLabelVanishes(
      labels[COMPACTION_DETECTED := FlagText(m.compactionDetected)],
      DATA_LOSS_DETECTED, FlagText(m.dataLossDetected));
  }

  lemma PartitionPointsShareCommon(m: PartitionLagMetric, custom: LabelMap)
    ensures forall p :: p in PartitionPoints(m, custom) ==> SharesCommon(p, m.clusterName, custom)
  {
    LossLabelsShareCommon(m, custom);
    MemberLabelsShareCommon(m, custom);
    SecondsLabelsShareCommon(m, custom);
    PartitionMetrics(m, custom);
  }

  lemma GroupPointsShareCommon(m: GroupLagMetric, custom: LabelMap)
    ensures forall p :: p in GroupPoints(m, custom) ==> SharesCommon(p, m.clusterName, custom)
  {
    ClusterNameIsNoRowLabel();
    RowLabelsVanish(map[CLUSTER_NAME := m.clusterName, GROUP := m.groupId], m.clusterName, custom);
  }

  lemma TopicPointsShareCommon(m: TopicLagMetric, custom: LabelMap)
    ensures forall p :: p in TopicPoints(m, custom) ==> SharesCommon(p, m.clusterName, custom)
  {
    ClusterNameIsNoRowLabel();
    RowLabelsVanish(
      map[CLUSTER_NAME := m.clusterName, GROUP := m.groupId, TOPIC := m.topic], m.clusterName, custom);
  }

  lemma ClusterPointsShareCommon(cluster: string, m: LagMetrics, custom: LabelMap, p: MetricPoint)
    requires p in ClusterPoints(cluster, m, custom)
    ensures SharesCommon(p, cluster, custom)
  {
    assert p.labels == BaseLabels(cluster, custom);
  }

  lemma OffsetsShareCommon(cluster: string, m: LagMetrics, custom: LabelMap, p: MetricPoint)
    requires OfCluster(m, cluster) && p in Flat(OffsetBlocks(m, custom))
    ensures SharesCommon(p, cluster, custom)
  {
    FlatMember(OffsetBlocks(m, custom), p);
    var i :| 0 <= i < |m.partitionOffsets| && p in OffsetPoints(m.partitionOffsets[i], custom);
    OffsetPointsShareCommon(m.partitionOffsets[i], custom);
  }

  lemma PartitionsShareCommon(
    cluster: string, m: LagMetrics, granularity: Granularity, custom: LabelMap, p: MetricPoint)
    requires OfCluster(m, cluster) && p in Flat(PartitionBlocks(m, granularity, custom))
    ensures SharesCommon(p, cluster, custom)
  {
    FlatMember(PartitionBlocks(m, granularity, custom), p);
    var i :| 0 <= i < |m.partitionMetrics| && p in PartitionPoints(m.partitionMetrics[i], custom);
    PartitionPointsShareCommon(m.partitionMetrics[i], custom);
  }

  lemma GroupsShareCommon(cluster: string, m: LagMetrics, custom: LabelMap, p: MetricPoint)
    requires OfCluster(m, cluster) && p in Flat(GroupBlocks(m, custom))
    ensures SharesCommon(p, cluster, custom)
  {
    FlatMember(GroupBlocks(m, custom), p);
    var i :| 0 <= i < |m.groupMetrics| && p in GroupPoints(m.groupMetrics[i], custom);
    GroupPointsShareCommon(m.groupMetrics[i], custom);
  }

  lemma TopicsShareCommon(cluster: string, m: LagMetrics, custom: LabelMap, p: MetricPoint)
    requires OfCluster(m, cluster) && p in Flat(TopicBlocks(m, custom))
    ensures SharesCommon(p, cluster, custom)
  {
    FlatMember(TopicBlocks(m, custom), p);
    var i :| 0 <= i < |m.topicMetrics| && p in TopicPoints(m.topicMetrics[i], custom);
    TopicPointsShareCommon(m.topicMetrics[i], custom);
  }

  /** Apart from what tells its rows apart, every point of a cluster has the same
      labels: its name, unless a custom label overrides it, and the custom ones. */
  lemma PointsShareCommon(
    cluster: string, m: LagMetrics, granularity: Granularity, custom: LabelMap, p: MetricPoint)
    requires OfCluster(m, cluster) && p in AllPoints(cluster, m, granularity, custom)
    ensures SharesCommon(p, cluster, custom)
  {
    if p in Flat(OffsetBlocks(m, custom)) {
      OffsetsShareCommon(cluster, m, custom, p);
    } else if p in Flat(PartitionBlocks(m, granularity, custom)) {
      PartitionsShareCommon(cluster, m, granularity, custom, p);
    } else if p in Flat(GroupBlocks(m, custom)) {
      GroupsShareCommon(cluster, m, custom, p);
    } else if p in Flat(TopicBlocks(m, custom)) {
      TopicsShareCommon(cluster, m, custom, p);
    } else {
      ClusterPointsShareCommon(cluster, m, custom, p);
    }
  }

  // ---- when clusters stay apart ----

  /** No report of the one cluster shares a time series with any of the other,
      each with custom labels of its own. */
  ghost predicate ClustersApart(a: string, ca: LabelMap, b: string, cb: LabelMap) {
    forall ma: LagMetrics, mb: LagMetrics, ga: Granularity, gb: Granularity ::
      OfCluster(ma, a) && OfCluster(mb, b) ==> Apart(AllPoints(a, ma, ga, ca), AllPoints(b, mb, gb, cb))
  }

  /** Different common labels are enough, whatever else is overridden. */
  lemma DifferentCommonLabelsKeepApart(
    a: string, ma: LagMetrics, ga: Granularity, ca: LabelMap,
    b: string, mb: LagMetrics, gb: Granularity, cb: LabelMap)
    requires OfCluster(ma, a) && OfCluster(mb, b) && CommonLabels(a, ca) != CommonLabels(b, cb)
    ensures Apart(AllPoints(a, ma, ga, ca), AllPoints(b, mb, gb, cb))
  {
    forall p, q | p in AllPoints(a, ma, ga, ca) && q in AllPoints(b, mb, gb, cb) ensures !SameSeries(p, q) {
      PointsShareCommon(a, ma, ga, ca, p);
      PointsShareCommon(b, mb, gb, cb, q);
    }
  }

  lemma PollTimePoint(cluster: string, custom: LabelMap)
    ensures MetricPoint(PollTimeMs, BaseLabels(cluster, custom), 0.0)
         in AllPoints(cluster, NO_METRICS, TopicLevel, custom)
  {
    assert ClusterPoints(cluster, NO_METRICS, custom)[0] == MetricPoint(PollTimeMs, BaseLabels(cluster, custom), 0.0);
    assert AllPoints(cluster, NO_METRICS, TopicLevel, custom) == ClusterPoints(cluster, NO_METRICS, custom);
  }

  lemma EqualBaseLabelsCollide(a: string, ca: LabelMap, b: string, cb: LabelMap)
    requires BaseLabels(a, ca) == BaseLabels(b, cb)
    ensures !ClustersApart(a, ca, b, cb)
  {
    PollTimePoint(a, ca);
    PollTimePoint(b, cb);
    var p := MetricPoint(PollTimeMs, BaseLabels(a, ca), 0.0);
    assert SameSeries(p, p);
    assert OfCluster(NO_METRICS, a) && OfCluster(NO_METRICS, b);
    assert !Apart(AllPoints(a, NO_METRICS, TopicLevel, ca), AllPoints(b, NO_METRICS, TopicLevel, cb));
  }

  lemma CommonIsBase(cluster: string, custom: LabelMap)
    requires custom.Keys !! ROW_LABELS
    ensures CommonLabels(cluster, custom) == BaseLabels(cluster, custom)
  {
    ClusterNameIsNoRowLabel();
  }

  /** Two clusters whose custom labels leave the row labels alone never share a
      time series exactly when their names and custom labels, merged as the
      registry merges them, differ. */
  lemma ClustersApartIff(a: string, ca: LabelMap, b: string, cb: LabelMap)
    requires ca.Keys !! ROW_LABELS && cb.Keys !! ROW_LABELS
    ensures ClustersApart(a, ca, b, cb)
       <==> map[CLUSTER_NAME := a] + ca != map[CLUSTER_NAME := b] + cb
  {
    if BaseLabels(a, ca) == BaseLabels(b, cb) {
      EqualBaseLabelsCollide(a, ca, b, cb);
    } else {
      CommonIsBase(a, ca);
      CommonIsBase(b, cb);
      forall ma: LagMetrics, mb: LagMetrics, ga: Granularity, gb: Granularity | OfCluster(ma, a) && OfCluster(mb, b)
        ensures Apart(AllPoints(a, ma, ga, ca), AllPoints(b, mb, gb, cb))
      {
        DifferentCommonLabelsKeepApart(a, ma, ga, ca, b, mb, gb, cb);
      }
    }
  }

  /** As long as nobody overrides `cluster_name`, different names are enough. */
  lemma NamesKeepApart(a: string, ca: LabelMap, b: string, cb: LabelMap)
    requires a != b && CLUSTER_NAME !in ca && CLUSTER_NAME !in cb
    ensures CommonLabels(a, ca) != CommonLabels(b, cb)
  {
    ClusterNameIsNoRowLabel();
    assert CommonLabels(a, ca)[CLUSTER_NAME] == a && CommonLabels(b, cb)[CLUSTER_NAME] == b;
  }

  // ---- everything that is printed ----

  /** What one cluster handed to the registry. */
  datatype Entry = Entry(m: LagMetrics, granularity: Granularity, custom: LabelMap)

  ghost predicate Proper(cluster: string, e: Entry) {
    && DistinctRows(e.m) && OfCluster(e.m, cluster)
    && KeepsIdentity(e.custom) && PlainNames(e.custom)
  }

  /** Every cluster is proper, and no two have the same common labels. */
  ghost predicate AllProper(entries: map<string, Entry>) {
    && (forall c :: c in entries ==> Proper(c, entries[c]))
    && (forall c, d :: c in entries && d in entries && c != d ==>
          CommonLabels(c, entries[c].custom) != CommonLabels(d, entries[d].custom))
  }

  function PointsOf(entries: map<string, Entry>): map<string, seq<MetricPoint>> {
    map c | c in entries :: AllPoints(c, entries[c].m, entries[c].granularity, entries[c].custom)
  }

  lemma {:induction false} GatheredMember(metrics: map<string, seq<MetricPoint>>, order: seq<string>, p: MetricPoint)
    requires (forall c :: c in order ==> c in metrics) && p in Gathered(metrics, order)
    ensures exists i :: 0 <= i < |order| && p in metrics[order[i]]
  {
    var n := |order| - 1;
    if p !in metrics[order[n]] {
      GatheredMember(metrics, order[..n], p);
    }
  }

  lemma GatheredApartFrom(entries: map<string, Entry>, order: seq<string>, last: string)
    requires AllProper(entries)
    requires last in entries && forall c :: c in order ==> c in entries && c != last
    ensures Apart(Gathered(PointsOf(entries), order), PointsOf(entries)[last])
  {
    var metrics := PointsOf(entries);
    forall p, q | p in Gathered(metrics, order) && q in metrics[last] ensures !SameSeries(p, q) {
      GatheredMember(metrics, order, p);
      var i :| 0 <= i < |order| && p in metrics[order[i]];
      var (x, y) := (entries[order[i]], entries[last]);
      DifferentCommonLabelsKeepApart(
        order[i], x.m, x.granularity, x.custom, last, y.m, y.granularity, y.custom);
    }
  }

  /** Whatever clusters are gathered, and in whatever order, no series comes twice. */
  lemma {:induction false} GatheredAreUnique(entries: map<string, Entry>, order: seq<string>)
    requires AllProper(entries)
    requires Distinct(order) && forall c :: c in order ==> c in entries
    ensures Unique(Gathered(PointsOf(entries), order))
  {
    if order != [] {
      var n := |order| - 1;
      var last := order[n];
      GatheredAreUnique(entries, order[..n]);
      PointsAreUnique(last, entries[last].m, entries[last].granularity, entries[last].custom);
      GatheredApartFrom(entries, order[..n], last);
      UniqueConcat(Gathered(PointsOf(entries), order[..n]), PointsOf(entries)[last]);
    }
  }

  lemma GatheredNamesArePlain(entries: map<string, Entry>, order: seq<string>)
    requires AllProper(entries) && forall c :: c in order ==> c in entries
    ensures forall p :: p in Gathered(PointsOf(entries), order) ==> PlainNames(p.labels)
  {
    forall p | p in Gathered(PointsOf(entries), order) ensures PlainNames(p.labels) {
      GatheredMember(PointsOf(entries), order, p);
      var i :| 0 <= i < |order| && p in PointsOf(entries)[order[i]];
      var e := entries[order[i]];
      AllLabelsAreKnown(order[i], e.m, e.granularity, e.custom, p);
      forall name | name in p.labels ensures PlainName(name) {
        if name in BUILT_IN {
          BuiltInNamesArePlain(name);
        }
      }
    }
  }
}
