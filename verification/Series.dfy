/** The points that `update_with_options` (`src/metrics/registry.rs`) builds from
    one cycle's metrics, and when no two of them are the same time series. */
module Series {
  import opened Basics
  import opened Labels
  import opened LagCalculator

  datatype Granularity = TopicLevel | PartitionLevel

  datatype Metric =
    | LatestOffset | EarliestOffset
    | GroupOffset | GroupLag | GroupLagSeconds | MessagesLost | RetentionMargin | LagRetentionRatio
    | GroupMaxLag | GroupSumLag | GroupMaxLagSeconds | GroupState
    | GroupTopicSumLag
    | PollTimeMs | CompactionDetected | DataLossPartitions
  {
    function Name(): string {
      match this
      case LatestOffset => "kafka_partition_latest_offset"
      case EarliestOffset => "kafka_partition_earliest_offset"
      case GroupOffset => "kafka_consumergroup_group_offset"
      case GroupLag => "kafka_consumergroup_group_lag"
      case GroupLagSeconds => "kafka_consumergroup_group_lag_seconds"
      case MessagesLost => "kafka_consumergroup_group_messages_lost"
      case RetentionMargin => "kafka_consumergroup_group_retention_margin"
      case LagRetentionRatio => "kafka_consumergroup_group_lag_retention_ratio"
      case GroupMaxLag => "kafka_consumergroup_group_max_lag"
      case GroupSumLag => "kafka_consumergroup_group_sum_lag"
      case GroupMaxLagSeconds => "kafka_consumergroup_group_max_lag_seconds"
      case GroupState => "kafka_consumergroup_group_state"
      case GroupTopicSumLag => "kafka_consumergroup_group_topic_sum_lag"
      case PollTimeMs => "kafka_consumergroup_poll_time_ms"
      case CompactionDetected => "kafka_lag_exporter_compaction_detected_total"
      case DataLossPartitions => "kafka_lag_exporter_data_loss_partitions_total"
    }
  }

  const CLUSTER_NAME := "cluster_name"
  const GROUP := "group"
  const TOPIC := "topic"
  const PARTITION := "partition"
  const MEMBER_HOST := "member_host"
  const CONSUMER_ID := "consumer_id"
  const CLIENT_ID := "client_id"
  const COMPACTION_DETECTED := "compaction_detected"
  const DATA_LOSS_DETECTED := "data_loss_detected"

  datatype MetricPoint = MetricPoint(metric: Metric, labels: LabelMap, value: real)

  // ---- numbers and flags as label values ----

  function Digits(n: nat): (s: string)
    ensures s != "" && forall i :: 0 <= i < |s| ==> '0' <= s[i] <= '9'
  {
    var last := [('0' as int + n % 10) as char];
    if n < 10 then last else Digits(n / 10) + last
  }

  function Decimal(n: int): string {
    if n < 0 then "-" + Digits(-n) else Digits(n)
  }

  function FlagText(b: bool): string {
    if b then "true" else "false"
  }

  lemma {:induction false} DigitsInjective(m: nat, n: nat)
    requires Digits(m) == Digits(n)
    ensures m == n
  {
    var (a, b) := (Digits(m), Digits(n));
    assert a[|a| - 1] == ('0' as int + m % 10) as char;
    assert b[|b| - 1] == ('0' as int + n % 10) as char;
    assert m % 10 == n % 10;
    if m >= 10 && n >= 10 {
      assert a[..|a| - 1] == Digits(m / 10) && b[..|b| - 1] == Digits(n / 10);
      DigitsInjective(m / 10, n / 10);
    }
  }

  lemma SignShows(m: int, n: int)
    requires m < 0 <= n
    ensures Decimal(m) != Decimal(n)
  {
    assert Decimal(m)[0] == '-' && Decimal(n)[0] != '-';
  }

  lemma DecimalInjective(m: int, n: int)
    ensures Decimal(m) == Decimal(n) ==> m == n
  {
    if m < 0 && n < 0 {
      assert Decimal(m)[1..] == Digits(-m) && Decimal(n)[1..] == Digits(-n);
      if Digits(-m) == Digits(-n) {
        DigitsInjective(-m, -n);
      }
    } else if m >= 0 && n >= 0 {
      if Digits(m) == Digits(n) {
        DigitsInjective(m, n);
      }
    } else if m < 0 {
      SignShows(m, n);
    } else {
      SignShows(n, m);
    }
  }

  // ---- the points of one row ----

  function OffsetPoints(m: PartitionOffsetMetric, custom: LabelMap): seq<MetricPoint> {
    var labels :=
      map[CLUSTER_NAME := m.clusterName, TOPIC := m.topic, PARTITION := Decimal(m.partition)] + custom;
    [MetricPoint(LatestOffset, labels, m.latestOffset as real),
     MetricPoint(EarliestOffset, labels, m.earliestOffset as real)]
  }

  function LossLabels(m: PartitionLagMetric, custom: LabelMap): LabelMap {
    map[CLUSTER_NAME := m.clusterName, GROUP := m.groupId, TOPIC := m.topic, PARTITION := Decimal(m.partition)]
    + custom
  }

  function MemberLabels(m: PartitionLagMetric, custom: LabelMap): LabelMap {
    map[CLUSTER_NAME := m.clusterName, GROUP := m.groupId, TOPIC := m.topic, PARTITION := Decimal(m.partition),
        MEMBER_HOST := m.memberHost, CONSUMER_ID := m.consumerId, CLIENT_ID := m.clientId]
    + custom
  }

  /** The time-lag labels; the two flags override custom labels of their names. */
  function SecondsLabels(m: PartitionLagMetric, custom: LabelMap): LabelMap {
    MemberLabels(m, custom)
      [COMPACTION_DETECTED := FlagText(m.compactionDetected)]
      [DATA_LOSS_DETECTED := FlagText(m.dataLossDetected)]
  }

  function PartitionPoints(m: PartitionLagMetric, custom: LabelMap): seq<MetricPoint> {
    var labels, lossLabels := MemberLabels(m, custom), LossLabels(m, custom);
    [MetricPoint(GroupOffset, labels, m.committedOffset as real), MetricPoint(GroupLag, labels, m.lag as real)]
    + (match m.lagSeconds
       case None => []
       case Some(s) => [MetricPoint(GroupLagSeconds, SecondsLabels(m, custom), s)])
    + [MetricPoint(MessagesLost, lossLabels, m.messagesLost as real),
       MetricPoint(RetentionMargin, lossLabels, m.retentionMargin as real),
       MetricPoint(LagRetentionRatio, lossLabels, m.lagRetentionRatio)]
  }

  function GroupPoints(m: GroupLagMetric, custom: LabelMap): seq<MetricPoint> {
    var labels := map[CLUSTER_NAME := m.clusterName, GROUP := m.groupId] + custom;
    [MetricPoint(GroupMaxLag, labels, m.maxLag as real), MetricPoint(GroupSumLag, labels, m.sumLag as real)]
    + (match m.maxLagSeconds
       case None => []
       case Some(s) => [MetricPoint(GroupMaxLagSeconds, labels, s)])
    + [MetricPoint(GroupState, labels, m.state as real)]
  }

  function TopicPoints(m: TopicLagMetric, custom: LabelMap): seq<MetricPoint> {
    var labels := map[CLUSTER_NAME := m.clusterName, GROUP := m.groupId, TOPIC := m.topic] + custom;
    [MetricPoint(GroupTopicSumLag, labels, m.sumLag as real)]
  }

  function ClusterPoints(cluster: string, m: LagMetrics, custom: LabelMap): seq<MetricPoint> {
    var labels := map[CLUSTER_NAME := cluster] + custom;
    [MetricPoint(PollTimeMs, labels, m.pollTimeMs as real),
     MetricPoint(CompactionDetected, labels, m.compactionDetectedCount as real),
     MetricPoint(DataLossPartitions, labels, m.dataLossPartitionCount as real)]
  }

  // ---- all points ----

  function Flat(blocks: seq<seq<MetricPoint>>): seq<MetricPoint> {
    if blocks == [] then [] else Flat(blocks[..|blocks| - 1]) + blocks[|blocks| - 1]
  }

  function OffsetBlocks(m: LagMetrics, custom: LabelMap): seq<seq<MetricPoint>> {
    seq(|m.partitionOffsets|, i requires 0 <= i < |m.partitionOffsets| => OffsetPoints(m.partitionOffsets[i], custom))
  }

  function PartitionBlocks(m: LagMetrics, granularity: Granularity, custom: LabelMap): seq<seq<MetricPoint>> {
    if granularity.TopicLevel? then []
    else seq(|m.partitionMetrics|, i requires 0 <= i < |m.partitionMetrics| => PartitionPoints(m.partitionMetrics[i], custom))
  }

  function GroupBlocks(m: LagMetrics, custom: LabelMap): seq<seq<MetricPoint>> {
    seq(|m.groupMetrics|, i requires 0 <= i < |m.groupMetrics| => GroupPoints(m.groupMetrics[i], custom))
  }

  function TopicBlocks(m: LagMetrics, custom: LabelMap): seq<seq<MetricPoint>> {
    seq(|m.topicMetrics|, i requires 0 <= i < |m.topicMetrics| => TopicPoints(m.topicMetrics[i], custom))
  }

  function AllBlocks(cluster: string, m: LagMetrics, granularity: Granularity, custom: LabelMap): seq<seq<MetricPoint>> {
    OffsetBlocks(m, custom) + PartitionBlocks(m, granularity, custom) + GroupBlocks(m, custom)
    + TopicBlocks(m, custom) + [ClusterPoints(cluster, m, custom)]
  }

  function AllPoints(cluster: string, m: LagMetrics, granularity: Granularity, custom: LabelMap): seq<MetricPoint> {
    Flat(OffsetBlocks(m, custom)) + Flat(PartitionBlocks(m, granularity, custom)) + Flat(GroupBlocks(m, custom))
    + Flat(TopicBlocks(m, custom)) + ClusterPoints(cluster, m, custom)
  }

  lemma {:induction false} FlatConcat(a: seq<seq<MetricPoint>>, b: seq<seq<MetricPoint>>)
    ensures Flat(a + b) == Flat(a) + Flat(b)
    decreases |b|
  {
    if b == [] {
      assert a + b == a;
    } else {
      FlatConcat(a, b[..|b| - 1]);
      assert (a + b)[..|a + b| - 1] == a + b[..|b| - 1] && (a + b)[|a + b| - 1] == b[|b| - 1];
      ConcatAssociates(Flat(a), Flat(b[..|b| - 1]), b[|b| - 1]);
    }
  }

  lemma FlatStep(points: seq<MetricPoint>, blocks: seq<seq<MetricPoint>>, i: nat, more: seq<MetricPoint>)
    requires i < |blocks| && blocks[i] == more
    ensures points + Flat(blocks[..i + 1]) == points + Flat(blocks[..i]) + more
  {
    assert blocks[..i + 1][..i] == blocks[..i];
    ConcatAssociates(points, Flat(blocks[..i]), more);
  }

  method AddOffsets(points: seq<MetricPoint>, m: LagMetrics, custom: LabelMap) returns (out: seq<MetricPoint>)
    ensures out == points + Flat(OffsetBlocks(m, custom))
  {
    out := points;
    ghost var blocks := OffsetBlocks(m, custom);
    for i := 0 to |m.partitionOffsets|
      invariant out == points + Flat(blocks[..i])
    {
      var more := OffsetPoints(m.partitionOffsets[i], custom);
      FlatStep(points, blocks, i, more);
      out := out + more;
    }
    assert blocks[..|blocks|] == blocks;
  }

  method AddPartitions(points: seq<MetricPoint>, m: LagMetrics, custom: LabelMap) returns (out: seq<MetricPoint>)
    ensures out == points + Flat(PartitionBlocks(m, PartitionLevel, custom))
  {
    out := points;
    ghost var blocks := PartitionBlocks(m, PartitionLevel, custom);
    for i := 0 to |m.partitionMetrics|
      invariant out == points + Flat(blocks[..i])
    {
      var more := PartitionPoints(m.partitionMetrics[i], custom);
      FlatStep(points, blocks, i, more);
      out := out + more;
    }
    assert blocks[..|blocks|] == blocks;
  }

  method AddGroups(points: seq<MetricPoint>, m: LagMetrics, custom: LabelMap) returns (out: seq<MetricPoint>)
    ensures out == points + Flat(GroupBlocks(m, custom))
  {
    out := points;
    ghost var blocks := GroupBlocks(m, custom);
    for i := 0 to |m.groupMetrics|
      invariant out == points + Flat(blocks[..i])
    {
      var more := GroupPoints(m.groupMetrics[i], custom);
      FlatStep(points, blocks, i, more);
      out := out + more;
    }
    assert blocks[..|blocks|] == blocks;
  }

  method AddTopics(points: seq<MetricPoint>, m: LagMetrics, custom: LabelMap) returns (out: seq<MetricPoint>)
    ensures out == points + Flat(TopicBlocks(m, custom))
  {
    out := points;
    ghost var blocks := TopicBlocks(m, custom);
    for i := 0 to |m.topicMetrics|
      invariant out == points + Flat(blocks[..i])
    {
      var more := TopicPoints(m.topicMetrics[i], custom);
      FlatStep(points, blocks, i, more);
      out := out + more;
    }
    assert blocks[..|blocks|] == blocks;
  }

  lemma FlatOfSections(
    a: seq<seq<MetricPoint>>, b: seq<seq<MetricPoint>>, c: seq<seq<MetricPoint>>, d: seq<seq<MetricPoint>>,
    last: seq<MetricPoint>)
    ensures Flat(a + b + c + d + [last]) == Flat(a) + Flat(b) + Flat(c) + Flat(d) + last
  {
    FlatConcat(a, b);
    FlatConcat(a + b, c);
    FlatConcat(a + b + c, d);
    assert (a + b + c + d + [last])[..|a + b + c + d|] == a + b + c + d;
  }

  lemma AllPointsAreBlocks(cluster: string, m: LagMetrics, granularity: Granularity, custom: LabelMap)
    ensures AllPoints(cluster, m, granularity, custom) == Flat(AllBlocks(cluster, m, granularity, custom))
  {
    FlatOfSections(
      OffsetBlocks(m, custom), PartitionBlocks(m, granularity, custom), GroupBlocks(m, custom),
      TopicBlocks(m, custom), ClusterPoints(cluster, m, custom));
  }

  /** The point-building part of `update_with_options`. */
  method BuildPoints(cluster: string, m: LagMetrics, granularity: Granularity, custom: LabelMap)
    returns (points: seq<MetricPoint>)
    ensures points == AllPoints(cluster, m, granularity, custom)
  {
    points := AddOffsets([], m, custom);
    assert points == Flat(OffsetBlocks(m, custom));
    match granularity {
      case PartitionLevel => points := AddPartitions(points, m, custom);
      case TopicLevel => assert points + Flat(PartitionBlocks(m, granularity, custom)) == points;
    }
    points := AddGroups(points, m, custom);
    points := AddTopics(points, m, custom);
    points := points + ClusterPoints(cluster, m, custom);
  }
}
