/** `src/collector/lag_calculator.rs`: one collection snapshot turned into
    partition, group and topic metrics. Floating point values are reals. */
module LagCalculator {
  import opened Basics
  import opened MapSums
  import opened Watermarks

  // ---- the snapshot ----

  datatype Member = Member(memberId: string, clientId: string, clientHost: string, assignments: seq<TopicPartition>)

  datatype GroupSnapshot = GroupSnapshot(
    groupId: string, state: int, members: seq<Member>, offsets: map<TopicPartition, int>)

  datatype OffsetsSnapshot = OffsetsSnapshot(clusterName: string, groups: seq<GroupSnapshot>, watermarks: Marks)

  ghost predicate DistinctGroups(groups: seq<GroupSnapshot>) {
    forall i, j :: 0 <= i < j < |groups| ==> groups[i].groupId != groups[j].groupId
  }

  /** Everything one call of `calculate` is given; `timestamps` maps a group's
      partition to the produce time of the message at its committed offset. */
  datatype Cycle = Cycle(
    snapshot: OffsetsSnapshot,
    timestamps: map<(string, TopicPartition), int>,
    nowMs: int,
    pollTimeMs: nat,
    compactedTopics: set<string>,
    timeLagEnabled: bool)

  // ---- the metrics ----

  datatype PartitionLagMetric = PartitionLagMetric(
    clusterName: string, groupId: string, topic: string, partition: int,
    memberHost: string, consumerId: string, clientId: string,
    committedOffset: int, lag: int, lagSeconds: Option<real>,
    compactionDetected: bool, dataLossDetected: bool,
    messagesLost: int, retentionMargin: int, lagRetentionRatio: real)

  datatype GroupLagMetric = GroupLagMetric(
    clusterName: string, groupId: string, maxLag: int, maxLagSeconds: Option<real>, sumLag: int, state: int)

  datatype TopicLagMetric = TopicLagMetric(clusterName: string, groupId: string, topic: string, sumLag: int)

  datatype PartitionOffsetMetric = PartitionOffsetMetric(
    clusterName: string, topic: string, partition: int, earliestOffset: int, latestOffset: int)

  datatype LagMetrics = LagMetrics(
    clusterName: string,
    partitionMetrics: seq<PartitionLagMetric>,
    groupMetrics: seq<GroupLagMetric>,
    topicMetrics: seq<TopicLagMetric>,
    partitionOffsets: seq<PartitionOffsetMetric>,
    pollTimeMs: nat,
    compactionDetectedCount: nat,
    dataLossPartitionCount: nat)

  // ---- one partition ----

  /** The last member, in response order, that claims the partition. */
  function Owner(members: seq<Member>, tp: TopicPartition): Option<Member> {
    if members == [] then None
    else if tp in members[|members| - 1].assignments then Some(members[|members| - 1])
    else Owner(members[..|members| - 1], tp)
  }

  /** `build_member_map`. */
  method BuildMemberMap(members: seq<Member>) returns (owners: map<TopicPartition, Member>)
    ensures forall tp :: if tp in owners then Owner(members, tp) == Some(owners[tp]) else Owner(members, tp) == None
  {
    owners := map[];
    for i := 0 to |members|
      invariant forall tp ::
        if tp in owners then Owner(members[..i], tp) == Some(owners[tp]) else Owner(members[..i], tp) == None
    {
      ghost var before := owners;
      var assignments := members[i].assignments;
      for j := 0 to |assignments|
        invariant forall tp ::
          if tp in assignments[..j] then tp in owners && owners[tp] == members[i]
          else (tp in owners <==> tp in before) && (tp in owners ==> owners[tp] == before[tp])
      {
        owners := owners[assignments[j] := members[i]];
      }
      assert assignments[..|assignments|] == assignments;
      assert members[..i + 1][..i] == members[..i];
    }
    assert members[..|members|] == members;
  }

  function MarksOf(watermarks: Marks, tp: TopicPartition, committed: int): (int, int) {
    if tp in watermarks then watermarks[tp] else (0, committed)
  }

  function LagOf(watermarks: Marks, tp: TopicPartition, committed: int): (lag: int)
    ensures lag >= 0
  {
    Max(MarksOf(watermarks, tp, committed).1 - committed, 0)
  }

  function DataLoss(watermarks: Marks, tp: TopicPartition, committed: int): bool {
    committed < MarksOf(watermarks, tp, committed).0
  }

  function LagSeconds(c: Cycle, groupId: string, tp: TopicPartition, committed: int): Option<real> {
    if !c.timeLagEnabled then None
    else if LagOf(c.snapshot.watermarks, tp, committed) > 0 then
      if (groupId, tp) in c.timestamps then
        Some(MaxReal((c.nowMs - c.timestamps[(groupId, tp)]) as real / 1000.0, 0.0))
      else if DataLoss(c.snapshot.watermarks, tp, committed) then Some(0.0)
      else None
    else Some(0.0)
  }

  function RetentionRatio(low: int, high: int, committed: int): real {
    if high - low > 0 then ((high - committed) as real / (high - low) as real) * 100.0 else 0.0
  }

  function PartitionRow(c: Cycle, g: GroupSnapshot, tp: TopicPartition): PartitionLagMetric
    requires tp in g.offsets
  {
    var committed := g.offsets[tp];
    var (low, high) := MarksOf(c.snapshot.watermarks, tp, committed);
    var (host, consumer, client) :=
      match Owner(g.members, tp)
      case Some(m) => (m.clientHost, m.memberId, m.clientId)
      case None => ("", "", "");
    PartitionLagMetric(
      c.snapshot.clusterName, g.groupId, tp.topic, tp.partition, host, consumer, client,
      committed,
      LagOf(c.snapshot.watermarks, tp, committed),
      LagSeconds(c, g.groupId, tp, committed),
      tp.topic in c.compactedTopics,
      DataLoss(c.snapshot.watermarks, tp, committed),
      Max(low - committed, 0),
      committed - low,
      RetentionRatio(low, high, committed))
  }

  // ---- one group ----

  function Lags(watermarks: Marks, offsets: map<TopicPartition, int>): map<TopicPartition, int> {
    map tp | tp in offsets :: LagOf(watermarks, tp, offsets[tp])
  }

  function OfTopic(lags: map<TopicPartition, int>, topic: string): map<TopicPartition, int> {
    map tp | tp in lags && tp.topic == topic :: lags[tp]
  }

  function Topics(lags: map<TopicPartition, int>): set<string> {
    set tp | tp in lags :: tp.topic
  }

  ghost function TopicSums(lags: map<TopicPartition, int>): map<string, int> {
    map topic | topic in Topics(lags) :: SumValues(OfTopic(lags, topic))
  }

  /** `x` is the largest of 0 and the lags. */
  ghost predicate IsMaxLag(lags: map<TopicPartition, int>, x: int) {
    && x >= 0
    && (forall tp :: tp in lags ==> lags[tp] <= x)
    && (x == 0 || exists tp :: tp in lags && lags[tp] == x)
  }

  ghost predicate PresentSeconds(c: Cycle, g: GroupSnapshot, tp: TopicPartition, s: real) {
    tp in g.offsets && LagSeconds(c, g.groupId, tp, g.offsets[tp]) == Some(s)
  }

  /** `x` is the largest of 0 and the time lags that are present in `part`, and
      absent exactly when time lag is switched off. */
  ghost predicate IsMaxSeconds(c: Cycle, g: GroupSnapshot, part: set<TopicPartition>, x: Option<real>) {
    && (x.Some? <==> c.timeLagEnabled)
    && (x.Some? ==>
          && x.value >= 0.0
          && (forall tp, s :: tp in part && PresentSeconds(c, g, tp, s) ==> s <= x.value)
          && (x.value == 0.0 || exists tp :: tp in part && PresentSeconds(c, g, tp, x.value)))
  }

  ghost predicate IsGroupRow(c: Cycle, g: GroupSnapshot, row: GroupLagMetric) {
    var lags := Lags(c.snapshot.watermarks, g.offsets);
    && row.clusterName == c.snapshot.clusterName && row.groupId == g.groupId && row.state == g.state
    && row.sumLag == SumValues(lags)
    && IsMaxLag(lags, row.maxLag)
    && IsMaxSeconds(c, g, g.offsets.Keys, row.maxLagSeconds)
  }

  ghost function PartitionRows(c: Cycle, g: GroupSnapshot, order: seq<TopicPartition>): (rows: seq<PartitionLagMetric>)
    requires forall tp :: tp in order ==> tp in g.offsets
    ensures |rows| == |order|
  {
    seq(|order|, i requires 0 <= i < |order| => PartitionRow(c, g, order[i]))
  }

  lemma TopicsStep(lags: map<TopicPartition, int>, done: set<TopicPartition>, tp: TopicPartition)
    requires tp in lags && tp !in done
    ensures Topics(Restrict(lags, done + {tp})) == Topics(Restrict(lags, done)) + {tp.topic}
    ensures tp.topic !in Topics(Restrict(lags, done)) ==> OfTopic(Restrict(lags, done), tp.topic) == map[]
  {
    var part, grown := Restrict(lags, done), Restrict(lags, done + {tp});
    assert grown == part[tp := lags[tp]];
    assert tp in grown;
    assert forall t :: t in part ==> t in grown;
  }

  lemma OneTopicStep(
    lags: map<TopicPartition, int>, done: set<TopicPartition>, tp: TopicPartition, topic: string)
    requires tp in lags && tp !in done
    ensures SumValues(OfTopic(Restrict(lags, done + {tp}), topic))
         == SumValues(OfTopic(Restrict(lags, done), topic)) + if topic == tp.topic then lags[tp] else 0
  {
    var part, grown := Restrict(lags, done), Restrict(lags, done + {tp});
    if topic == tp.topic {
      assert OfTopic(grown, topic) == OfTopic(part, topic)[tp := lags[tp]];
      SumInsert(OfTopic(part, topic), tp, lags[tp]);
    } else {
      assert OfTopic(grown, topic) == OfTopic(part, topic);
    }
  }

  lemma TopicSumStep(lags: map<TopicPartition, int>, done: set<TopicPartition>, tp: TopicPartition)
    requires tp in lags && tp !in done
    ensures TopicSums(Restrict(lags, done + {tp})) == TopicWith(TopicSums(Restrict(lags, done)), tp.topic, lags[tp])
  {
    var part, grown := Restrict(lags, done), Restrict(lags, done + {tp});
    TopicsStep(lags, done, tp);
    forall topic: string
      ensures SumValues(OfTopic(grown, topic))
           == SumValues(OfTopic(part, topic)) + if topic == tp.topic then lags[tp] else 0
    {
      OneTopicStep(lags, done, tp, topic);
    }
    TopicSumsWith(part, grown, tp.topic, lags[tp]);
  }

  lemma TopicSumsWith(
    part: map<TopicPartition, int>, grown: map<TopicPartition, int>, at: string, lag: int)
    requires Topics(grown) == Topics(part) + {at}
    requires at !in Topics(part) ==> OfTopic(part, at) == map[]
    requires forall topic :: SumValues(OfTopic(grown, topic))
                          == SumValues(OfTopic(part, topic)) + if topic == at then lag else 0
    ensures TopicSums(grown) == TopicWith(TopicSums(part), at, lag)
  {
    var sums, expected := TopicSums(grown), TopicWith(TopicSums(part), at, lag);
    assert sums.Keys == expected.Keys;
    forall topic | topic in sums ensures sums[topic] == expected[topic] {
      assert sums[topic] == SumValues(OfTopic(grown, topic));
    }
  }

  lemma SumStep(lags: map<TopicPartition, int>, done: set<TopicPartition>, tp: TopicPartition)
    requires tp in lags && tp !in done
    ensures SumValues(Restrict(lags, done + {tp})) == SumValues(Restrict(lags, done)) + lags[tp]
  {
    assert Restrict(lags, done + {tp}) == Restrict(lags, done)[tp := lags[tp]];
    SumInsert(Restrict(lags, done), tp, lags[tp]);
  }

  lemma MaxLagStep(lags: map<TopicPartition, int>, done: set<TopicPartition>, tp: TopicPartition, x: int)
    requires tp in lags && tp !in done
    requires IsMaxLag(Restrict(lags, done), x)
    ensures IsMaxLag(Restrict(lags, done + {tp}), Max(x, lags[tp]))
  {
    var part, grown := Restrict(lags, done), Restrict(lags, done + {tp});
    if lags[tp] > x {
      assert tp in grown && grown[tp] == lags[tp];
    } else if x != 0 {
      var at :| at in part && part[at] == x;
      assert at in grown && grown[at] == x;
    }
  }

  lemma MaxSecondsStep(
    c: Cycle, g: GroupSnapshot, done: set<TopicPartition>, tp: TopicPartition, x: Option<real>)
    requires tp in g.offsets && IsMaxSeconds(c, g, done, x)
    ensures IsMaxSeconds(c, g, done + {tp}, MaxSecondsWith(x, LagSeconds(c, g.groupId, tp, g.offsets[tp])))
  {
    var s := LagSeconds(c, g.groupId, tp, g.offsets[tp]);
    if s.Some? {
      assert PresentSeconds(c, g, tp, s.value);
    }
  }

  method MakeRow(c: Cycle, g: GroupSnapshot, tp: TopicPartition, owners: map<TopicPartition, Member>)
    returns (row: PartitionLagMetric)
    requires tp in g.offsets
    requires if tp in owners then Owner(g.members, tp) == Some(owners[tp]) else Owner(g.members, tp) == None
    ensures row == PartitionRow(c, g, tp)
  {
    var committed := g.offsets[tp];
    var (low, high) := MarksOf(c.snapshot.watermarks, tp, committed);
    var lag := Max(high - committed, 0);
    var dataLoss := committed < low;
    var lagSeconds := LagSeconds(c, g.groupId, tp, committed);
    var host, consumer, client := "", "", "";
    if tp in owners {
      host, consumer, client := owners[tp].clientHost, owners[tp].memberId, owners[tp].clientId;
    }
    row := PartitionLagMetric(
      c.snapshot.clusterName, g.groupId, tp.topic, tp.partition, host, consumer, client,
      committed, lag, lagSeconds, tp.topic in c.compactedTopics, dataLoss,
      Max(low - committed, 0), committed - low, RetentionRatio(low, high, committed));
  }

  /** The four accumulators of the loop over one group's partitions. */
  datatype Totals = Totals(sumLag: int, maxLag: int, maxSeconds: Option<real>, topicLags: map<string, int>)

  function NoTotals(c: Cycle): Totals {
    Totals(0, 0, if c.timeLagEnabled then Some(0.0) else None, map[])
  }

  function MaxSecondsWith(x: Option<real>, s: Option<real>): Option<real> {
    if s.None? then x else if x.None? then s else Some(MaxReal(x.value, s.value))
  }

  function TopicWith(sums: map<string, int>, topic: string, lag: int): map<string, int> {
    sums[topic := (if topic in sums then sums[topic] else 0) + lag]
  }

  function AddPartition(c: Cycle, g: GroupSnapshot, t: Totals, tp: TopicPartition): Totals
    requires tp in g.offsets
  {
    var lag := LagOf(c.snapshot.watermarks, tp, g.offsets[tp]);
    Totals(
      t.sumLag + lag,
      Max(t.maxLag, lag),
      MaxSecondsWith(t.maxSeconds, LagSeconds(c, g.groupId, tp, g.offsets[tp])),
      TopicWith(t.topicLags, tp.topic, lag))
  }

  ghost function TotalsAfter(c: Cycle, g: GroupSnapshot, order: seq<TopicPartition>): Totals
    requires forall tp :: tp in order ==> tp in g.offsets
  {
    if order == [] then NoTotals(c)
    else AddPartition(c, g, TotalsAfter(c, g, order[..|order| - 1]), order[|order| - 1])
  }

  /** The aggregate updates at the end of the loop body. */
  method UpdateTotals(t: Totals, row: PartitionLagMetric) returns (r: Totals)
    ensures r == Totals(
      t.sumLag + row.lag, Max(t.maxLag, row.lag), MaxSecondsWith(t.maxSeconds, row.lagSeconds),
      TopicWith(t.topicLags, row.topic, row.lag))
  {
    var maxLag, maxSeconds := t.maxLag, t.maxSeconds;
    if row.lag > maxLag {
      maxLag := row.lag;
    }
    if row.lagSeconds.Some? {
      maxSeconds := Some(if maxSeconds.None? then row.lagSeconds.value
                         else MaxReal(maxSeconds.value, row.lagSeconds.value));
    }
    var before := if row.topic in t.topicLags then t.topicLags[row.topic] else 0;
    r := Totals(t.sumLag + row.lag, maxLag, maxSeconds, t.topicLags[row.topic := before + row.lag]);
  }

  /** The loop over one group's committed offsets, for every order in which the
      hash map may yield them; `order` is the one it took. */
  method ProcessGroup(c: Cycle, g: GroupSnapshot)
    returns (rows: seq<PartitionLagMetric>, row: GroupLagMetric, topicLags: map<string, int>,
             ghost order: seq<TopicPartition>)
    ensures Enumerates(order, g.offsets.Keys)
    ensures rows == PartitionRows(c, g, order)
    ensures IsGroupRow(c, g, row)
    ensures topicLags == TopicSums(Lags(c.snapshot.watermarks, g.offsets))
  {
    var owners := BuildMemberMap(g.members);
    var totals := NoTotals(c);
    rows, order := [], [];
    var todo := g.offsets.Keys;
    while todo != {}
      invariant todo <= g.offsets.Keys
      invariant Enumerates(order, g.offsets.Keys - todo)
      invariant rows == PartitionRows(c, g, order)
      invariant totals == TotalsAfter(c, g, order)
      decreases todo
    {
      var tp :| tp in todo;
      todo := todo - {tp};
      var metric := MakeRow(c, g, tp, owners);
      rows := rows + [metric];
      totals := UpdateTotals(totals, metric);
      assert (order + [tp])[..|order|] == order;
      order := order + [tp];
    }
    row := GroupLagMetric(
      c.snapshot.clusterName, g.groupId, totals.maxLag, totals.maxSeconds, totals.sumLag, g.state);
    topicLags := totals.topicLags;
    AllVisited(c, g, order);
  }

  /** The accumulators are the sum, the maximum, the largest present time lag
      and the topic sums of the partitions in `part`. */
  ghost predicate SumUp(c: Cycle, g: GroupSnapshot, part: set<TopicPartition>, t: Totals) {
    var lags := Restrict(Lags(c.snapshot.watermarks, g.offsets), part);
    && t.sumLag == SumValues(lags)
    && IsMaxLag(lags, t.maxLag)
    && IsMaxSeconds(c, g, part, t.maxSeconds)
    && t.topicLags == TopicSums(lags)
  }

  lemma SumUpStep(c: Cycle, g: GroupSnapshot, part: set<TopicPartition>, tp: TopicPartition, t: Totals)
    requires tp in g.offsets && tp !in part && SumUp(c, g, part, t)
    ensures SumUp(c, g, part + {tp}, AddPartition(c, g, t, tp))
  {
    var lags := Lags(c.snapshot.watermarks, g.offsets);
    SumStep(lags, part, tp);
    TopicSumStep(lags, part, tp);
    MaxLagStep(lags, part, tp, t.maxLag);
    MaxSecondsStep(c, g, part, tp, t.maxSeconds);
  }

  /** Whatever order was taken, the accumulators sum up what was visited. */
  lemma {:induction false} TotalsSumUp(c: Cycle, g: GroupSnapshot, order: seq<TopicPartition>)
    requires Distinct(order) && forall tp :: tp in order ==> tp in g.offsets
    ensures SumUp(c, g, Elements(order), TotalsAfter(c, g, order))
  {
    if order == [] {
      assert Restrict(Lags(c.snapshot.watermarks, g.offsets), Elements(order)) == map[];
      assert TopicSums(map[]) == map[];
    } else {
      var front, tp := order[..|order| - 1], order[|order| - 1];
      TotalsSumUp(c, g, front);
      ElementsSplit(order);
      SumUpStep(c, g, Elements(front), tp, TotalsAfter(c, g, front));
    }
  }

  lemma AllVisited(c: Cycle, g: GroupSnapshot, order: seq<TopicPartition>)
    requires Enumerates(order, g.offsets.Keys)
    ensures SumUp(c, g, g.offsets.Keys, TotalsAfter(c, g, order))
    ensures Restrict(Lags(c.snapshot.watermarks, g.offsets), g.offsets.Keys) == Lags(c.snapshot.watermarks, g.offsets)
  {
    TotalsSumUp(c, g, order);
    assert Elements(order) == g.offsets.Keys;
  }

  // ---- the whole cycle ----

  ghost predicate GroupOrders(groups: seq<GroupSnapshot>, orders: seq<seq<TopicPartition>>) {
    |orders| == |groups| && forall i :: 0 <= i < |groups| ==> Enumerates(orders[i], groups[i].offsets.Keys)
  }

  ghost predicate TopicOrders(c: Cycle, groups: seq<GroupSnapshot>, orders: seq<seq<string>>) {
    |orders| == |groups| &&
    forall i :: 0 <= i < |groups| ==>
      Enumerates(orders[i], Topics(Lags(c.snapshot.watermarks, groups[i].offsets)))
  }

  ghost function AllPartitionRows(c: Cycle, groups: seq<GroupSnapshot>, orders: seq<seq<TopicPartition>>)
    : seq<PartitionLagMetric>
    requires GroupOrders(groups, orders)
  {
    if groups == [] then []
    else
      var n := |groups| - 1;
      AllPartitionRows(c, groups[..n], orders[..n]) + PartitionRows(c, groups[n], orders[n])
  }

  ghost function TopicRows(c: Cycle, g: GroupSnapshot, order: seq<string>): (rows: seq<TopicLagMetric>)
    requires forall topic :: topic in order ==> topic in Topics(Lags(c.snapshot.watermarks, g.offsets))
    ensures |rows| == |order|
  {
    var sums := TopicSums(Lags(c.snapshot.watermarks, g.offsets));
    seq(|order|, i requires 0 <= i < |order| =>
      TopicLagMetric(c.snapshot.clusterName, g.groupId, order[i], sums[order[i]]))
  }

  ghost function AllTopicRows(c: Cycle, groups: seq<GroupSnapshot>, orders: seq<seq<string>>): seq<TopicLagMetric>
    requires TopicOrders(c, groups, orders)
  {
    if groups == [] then []
    else
      var n := |groups| - 1;
      AllTopicRows(c, groups[..n], orders[..n]) + TopicRows(c, groups[n], orders[n])
  }

  ghost function OffsetRows(s: OffsetsSnapshot, order: seq<TopicPartition>): (rows: seq<PartitionOffsetMetric>)
    requires forall tp :: tp in order ==> tp in s.watermarks
    ensures |rows| == |order|
  {
    seq(|order|, i requires 0 <= i < |order| =>
      PartitionOffsetMetric(
        s.clusterName, order[i].topic, order[i].partition, s.watermarks[order[i]].0, s.watermarks[order[i]].1))
  }

  method EmitOffsets(s: OffsetsSnapshot)
    returns (rows: seq<PartitionOffsetMetric>, ghost order: seq<TopicPartition>)
    ensures Enumerates(order, s.watermarks.Keys)
    ensures rows == OffsetRows(s, order)
    ensures exists o :: Enumerates(o, s.watermarks.Keys) && rows == OffsetRows(s, o)
  {
    rows, order := [], [];
    var todo := s.watermarks.Keys;
    while todo != {}
      invariant todo <= s.watermarks.Keys
      invariant Enumerates(order, s.watermarks.Keys - todo)
      invariant rows == OffsetRows(s, order)
      decreases todo
    {
      var tp :| tp in todo;
      todo := todo - {tp};
      rows := rows + [PartitionOffsetMetric(
        s.clusterName, tp.topic, tp.partition, s.watermarks[tp].0, s.watermarks[tp].1)];
      order := order + [tp];
    }
  }

  method EmitTopics(c: Cycle, g: GroupSnapshot, topicLags: map<string, int>)
    returns (rows: seq<TopicLagMetric>, ghost order: seq<string>)
    requires topicLags == TopicSums(Lags(c.snapshot.watermarks, g.offsets))
    ensures Enumerates(order, Topics(Lags(c.snapshot.watermarks, g.offsets)))
    ensures rows == TopicRows(c, g, order)
    ensures exists o :: Enumerates(o, Topics(Lags(c.snapshot.watermarks, g.offsets))) && rows == TopicRows(c, g, o)
  {
    rows, order := [], [];
    var todo := topicLags.Keys;
    while todo != {}
      invariant todo <= topicLags.Keys
      invariant Enumerates(order, topicLags.Keys - todo)
      invariant rows == TopicRows(c, g, order)
      decreases todo
    {
      var topic :| topic in todo;
      todo := todo - {topic};
      rows := rows + [TopicLagMetric(c.snapshot.clusterName, g.groupId, topic, topicLags[topic])];
      order := order + [topic];
    }
  }

  predicate IsCompacted(r: PartitionLagMetric) {
    r.compactionDetected
  }

  predicate IsDataLoss(r: PartitionLagMetric) {
    r.dataLossDetected
  }

  /** What the loop over the groups builds. */
  ghost predicate IsGroupPart(
    c: Cycle, groups: seq<GroupSnapshot>, orders: seq<seq<TopicPartition>>, topicOrders: seq<seq<string>>,
    rows: seq<PartitionLagMetric>, groupRows: seq<GroupLagMetric>, topicRows: seq<TopicLagMetric>)
  {
    && GroupOrders(groups, orders) && TopicOrders(c, groups, topicOrders)
    && rows == AllPartitionRows(c, groups, orders)
    && |groupRows| == |groups|
    && (forall i :: 0 <= i < |groups| ==> IsGroupRow(c, groups[i], groupRows[i]))
    && topicRows == AllTopicRows(c, groups, topicOrders)
  }

  lemma OneMoreGroup(
    c: Cycle, groups: seq<GroupSnapshot>, orders: seq<seq<TopicPartition>>, topicOrders: seq<seq<string>>,
    rows: seq<PartitionLagMetric>, groupRows: seq<GroupLagMetric>, topicRows: seq<TopicLagMetric>,
    g: GroupSnapshot, order: seq<TopicPartition>, topicOrder: seq<string>, row: GroupLagMetric)
    requires IsGroupPart(c, groups, orders, topicOrders, rows, groupRows, topicRows)
    requires Enumerates(order, g.offsets.Keys) && IsGroupRow(c, g, row)
    requires Enumerates(topicOrder, Topics(Lags(c.snapshot.watermarks, g.offsets)))
    ensures IsGroupPart(
      c, groups + [g], orders + [order], topicOrders + [topicOrder],
      rows + PartitionRows(c, g, order), groupRows + [row], topicRows + TopicRows(c, g, topicOrder))
  {
    assert (groups + [g])[..|groups|] == groups;
    assert (orders + [order])[..|orders|] == orders;
    assert (topicOrders + [topicOrder])[..|topicOrders|] == topicOrders;
  }

  /** The metrics a cycle reports, given the orders in which its maps were visited. */
  ghost predicate IsReport(
    c: Cycle, m: LagMetrics, orders: seq<seq<TopicPartition>>, topicOrders: seq<seq<string>>,
    offsetOrder: seq<TopicPartition>)
  {
    && IsGroupPart(
         c, c.snapshot.groups, orders, topicOrders, m.partitionMetrics, m.groupMetrics, m.topicMetrics)
    && Enumerates(offsetOrder, c.snapshot.watermarks.Keys)
    && m.partitionOffsets == OffsetRows(c.snapshot, offsetOrder)
    && m.clusterName == c.snapshot.clusterName && m.pollTimeMs == c.pollTimeMs
    && m.compactionDetectedCount == CountIf(m.partitionMetrics, IsCompacted)
    && m.dataLossPartitionCount == CountIf(m.partitionMetrics, IsDataLoss)
  }

  /** The same for some orders of visiting. */
  ghost predicate IsSomeReport(c: Cycle, m: LagMetrics) {
    exists orders, topicOrders, offsetOrder :: IsReport(c, m, orders, topicOrders, offsetOrder)
  }

  method CountFlags(rows: seq<PartitionLagMetric>, flagged: PartitionLagMetric -> bool) returns (n: nat)
    ensures n == CountIf(rows, flagged)
  {
    n := 0;
    for i := 0 to |rows|
      invariant n == CountIf(rows[..i], flagged)
    {
      assert rows[..i + 1][..i] == rows[..i];
      if flagged(rows[i]) {
        n := n + 1;
      }
    }
    assert rows[..|rows|] == rows;
  }

  /** One turn of the loop over the groups. */
  method AddGroup(
    c: Cycle, ghost done: seq<GroupSnapshot>, g: GroupSnapshot,
    rows: seq<PartitionLagMetric>, groupRows: seq<GroupLagMetric>, topicRows: seq<TopicLagMetric>,
    ghost orders: seq<seq<TopicPartition>>, ghost topicOrders: seq<seq<string>>)
    returns (rows': seq<PartitionLagMetric>, groupRows': seq<GroupLagMetric>, topicRows': seq<TopicLagMetric>,
             ghost orders': seq<seq<TopicPartition>>, ghost topicOrders': seq<seq<string>>)
    requires IsGroupPart(c, done, orders, topicOrders, rows, groupRows, topicRows)
    ensures IsGroupPart(c, done + [g], orders', topicOrders', rows', groupRows', topicRows')
  {
    var newRows, row, topicLags;
    ghost var order;
    newRows, row, topicLags, order := ProcessGroup(c, g);
    var newTopicRows;
    ghost var topicOrder;
    newTopicRows, topicOrder := EmitTopics(c, g, topicLags);
    OneMoreGroup(c, done, orders, topicOrders, rows, groupRows, topicRows, g, order, topicOrder, row);
    rows', groupRows', topicRows' := rows + newRows, groupRows + [row], topicRows + newTopicRows;
    orders', topicOrders' := orders + [order], topicOrders + [topicOrder];
  }

  /** The loop over the groups. */
  method ProcessGroups(c: Cycle)
    returns (rows: seq<PartitionLagMetric>, groupRows: seq<GroupLagMetric>, topicRows: seq<TopicLagMetric>,
             ghost orders: seq<seq<TopicPartition>>, ghost topicOrders: seq<seq<string>>)
    ensures IsGroupPart(c, c.snapshot.groups, orders, topicOrders, rows, groupRows, topicRows)
  {
    var groups := c.snapshot.groups;
    rows, groupRows, topicRows := [], [], [];
    orders, topicOrders := [], [];
    for i := 0 to |groups|
      invariant IsGroupPart(c, groups[..i], orders, topicOrders, rows, groupRows, topicRows)
    {
      assert groups[..i + 1] == groups[..i] + [groups[i]];
      rows, groupRows, topicRows, orders, topicOrders :=
        AddGroup(c, groups[..i], groups[i], rows, groupRows, topicRows, orders, topicOrders);
    }
    assert groups[..|groups|] == groups;
  }

  /** `LagCalculator::calculate`. */
  method Calculate(c: Cycle)
    returns (m: LagMetrics, ghost orders: seq<seq<TopicPartition>>, ghost topicOrders: seq<seq<string>>,
             ghost offsetOrder: seq<TopicPartition>)
    ensures IsReport(c, m, orders, topicOrders, offsetOrder)
    ensures IsSomeReport(c, m)
  {
    var partitionOffsets;
    partitionOffsets, offsetOrder := EmitOffsets(c.snapshot);
    var rows, groupRows, topicRows;
    rows, groupRows, topicRows, orders, topicOrders := ProcessGroups(c);
    var compacted := CountFlags(rows, IsCompacted);
    var lost := CountFlags(rows, IsDataLoss);
    m := LagMetrics(
      c.snapshot.clusterName, rows, groupRows, topicRows, partitionOffsets, c.pollTimeMs, compacted, lost);
    assert IsReport(c, m, orders, topicOrders, offsetOrder);
  }

  // ---- what the report means ----

  /** The owner of a partition is a member that claims it and that no later
      member outbids; there is none exactly when nobody claims it. */
  lemma {:induction false} OwnerIsLastClaim(members: seq<Member>, tp: TopicPartition)
    ensures Owner(members, tp).None? <==> forall i :: 0 <= i < |members| ==> tp !in members[i].assignments
    ensures Owner(members, tp).Some? ==>
      exists i :: && 0 <= i < |members| && tp in members[i].assignments && Owner(members, tp) == Some(members[i])
                  && forall j :: i < j < |members| ==> tp !in members[j].assignments
  {
    if members != [] {
      OwnerIsLastClaim(members[..|members| - 1], tp);
    }
  }

  lemma OtherTopicsUnchanged(lags: map<TopicPartition, int>, topic: string)
    requires topic in Topics(lags)
    ensures TopicSums(lags - set tp | tp in lags && tp.topic == topic) == TopicSums(lags) - {topic}
  {
    var rest := lags - set tp | tp in lags && tp.topic == topic;
    assert Topics(rest) == Topics(lags) - {topic};
    forall t | t in Topics(rest) ensures OfTopic(rest, t) == OfTopic(lags, t) {
    }
  }

  /** Per group, lag is conserved: the partitions' lags, the topic sums and the
      group sum all add up to the same number, with one topic row per topic
      that has a committed offset. */
  lemma {:induction false} TopicSumsConserveLag(lags: map<TopicPartition, int>)
    ensures SumValues(TopicSums(lags)) == SumValues(lags)
    ensures TopicSums(lags).Keys == Topics(lags)
    decreases |Topics(lags)|
  {
    if topic :| topic in Topics(lags) {
      var part := set tp | tp in lags && tp.topic == topic;
      var rest := lags - part;
      assert Restrict(lags, part) == OfTopic(lags, topic);
      SumSplit(lags, part);
      assert Topics(rest) == Topics(lags) - {topic};
      TopicSumsConserveLag(rest);
      SumRemove(TopicSums(lags), topic);
      OtherTopicsUnchanged(lags, topic);
    } else {
      assert forall tp :: tp in lags ==> tp.topic in Topics(lags);
      assert lags == map[];
      assert TopicSums(lags) == map[];
    }
  }

  /** The largest lag is between the average and the sum. */
  lemma GroupLagBounds(c: Cycle, g: GroupSnapshot, row: GroupLagMetric)
    requires IsGroupRow(c, g, row)
    ensures row.maxLag <= row.sumLag <= row.maxLag * |g.offsets|
  {
    var lags := Lags(c.snapshot.watermarks, g.offsets);
    if row.maxLag > 0 {
      var tp :| tp in lags && lags[tp] == row.maxLag;
      ElementAtMostSum(lags, tp);
    } else {
      SumNonNegative(lags);
    }
    SumAtMost(lags, row.maxLag);
    assert lags.Keys == g.offsets.Keys;
    assert |lags| == |lags.Keys| == |g.offsets.Keys| == |g.offsets|;
  }

  /** The running total never leaves the i64 range, in any visiting order,
      exactly when the final sum is in it; `max_lag * n` being in range is enough. */
  lemma NoOverflowIff(c: Cycle, g: GroupSnapshot, row: GroupLagMetric)
    requires IsGroupRow(c, g, row)
    ensures var lags := Lags(c.snapshot.watermarks, g.offsets);
      && ((forall part: set<TopicPartition> :: 0 <= SumValues(Restrict(lags, part)) <= I64_MAX)
          <==> row.sumLag <= I64_MAX)
      && (row.maxLag * |g.offsets| <= I64_MAX ==> row.sumLag <= I64_MAX)
  {
    var lags := Lags(c.snapshot.watermarks, g.offsets);
    GroupLagBounds(c, g, row);
    assert Restrict(lags, lags.Keys) == lags;
    forall part: set<TopicPartition> ensures 0 <= SumValues(Restrict(lags, part)) <= row.sumLag {
      SumSplit(lags, part);
      SumNonNegative(Restrict(lags, part));
      SumNonNegative(lags - part);
    }
  }

  /** A group's row is a function of the snapshot: no visiting order can show. */
  lemma GroupRowIsUnique(c: Cycle, g: GroupSnapshot, a: GroupLagMetric, b: GroupLagMetric)
    requires IsGroupRow(c, g, a) && IsGroupRow(c, g, b)
    ensures a == b
  {
    if c.timeLagEnabled {
      assert a.maxLagSeconds.value <= b.maxLagSeconds.value <= a.maxLagSeconds.value;
    }
  }

  /** The group's partitions whose row has the flag. */
  function FlaggedPartitions(c: Cycle, g: GroupSnapshot, flagged: PartitionLagMetric -> bool): set<TopicPartition> {
    set tp | tp in g.offsets && flagged(PartitionRow(c, g, tp))
  }

  ghost function FlaggedCount(c: Cycle, groups: seq<GroupSnapshot>, flagged: PartitionLagMetric -> bool): nat {
    if groups == [] then 0
    else FlaggedCount(c, groups[..|groups| - 1], flagged) + |FlaggedPartitions(c, groups[|groups| - 1], flagged)|
  }

  lemma IntersectOneMore<T>(visited: set<T>, last: T, flags: set<T>)
    requires last !in visited
    ensures |(visited + {last}) * flags| == |visited * flags| + if last in flags then 1 else 0
  {
    if last in flags {
      assert (visited + {last}) * flags == visited * flags + {last};
    } else {
      assert (visited + {last}) * flags == visited * flags;
    }
  }

  lemma PartitionRowsSplit(
    c: Cycle, g: GroupSnapshot, order: seq<TopicPartition>, flagged: PartitionLagMetric -> bool)
    requires order != [] && forall tp :: tp in order ==> tp in g.offsets
    ensures var front, last := order[..|order| - 1], order[|order| - 1];
      CountIf(PartitionRows(c, g, order), flagged)
      == CountIf(PartitionRows(c, g, front), flagged) + if last in FlaggedPartitions(c, g, flagged) then 1 else 0
  {
    var rows := PartitionRows(c, g, order);
    assert rows[..|rows| - 1] == PartitionRows(c, g, order[..|order| - 1]);
  }

  lemma {:induction false} GroupFlagCount(
    c: Cycle, g: GroupSnapshot, order: seq<TopicPartition>, flagged: PartitionLagMetric -> bool)
    requires Distinct(order) && forall tp :: tp in order ==> tp in g.offsets
    ensures CountIf(PartitionRows(c, g, order), flagged) == |Elements(order) * FlaggedPartitions(c, g, flagged)|
  {
    if order == [] {
      assert Elements(order) * FlaggedPartitions(c, g, flagged) == {};
    } else {
      var front, last := order[..|order| - 1], order[|order| - 1];
      GroupFlagCount(c, g, front, flagged);
      PartitionRowsSplit(c, g, order, flagged);
      ElementsSplit(order);
      IntersectOneMore(Elements(front), last, FlaggedPartitions(c, g, flagged));
    }
  }

  lemma {:induction false} FlagCountUpTo(
    c: Cycle, groups: seq<GroupSnapshot>, orders: seq<seq<TopicPartition>>, flagged: PartitionLagMetric -> bool)
    requires GroupOrders(groups, orders)
    ensures CountIf(AllPartitionRows(c, groups, orders), flagged) == FlaggedCount(c, groups, flagged)
  {
    if groups != [] {
      var n := |groups| - 1;
      var flags := FlaggedPartitions(c, groups[n], flagged);
      FlagCountUpTo(c, groups[..n], orders[..n], flagged);
      CountIfConcat(
        AllPartitionRows(c, groups[..n], orders[..n]), PartitionRows(c, groups[n], orders[n]), flagged);
      GroupFlagCount(c, groups[n], orders[n], flagged);
      assert Elements(orders[n]) * flags == flags;
    }
  }

  function LostPartitions(c: Cycle, g: GroupSnapshot): set<TopicPartition> {
    set tp | tp in g.offsets
             && g.offsets[tp] < (if tp in c.snapshot.watermarks then c.snapshot.watermarks[tp].0 else 0)
  }

  function CompactedPartitions(c: Cycle, g: GroupSnapshot): set<TopicPartition> {
    set tp | tp in g.offsets && tp.topic in c.compactedTopics
  }

  ghost function TotalSize(c: Cycle, groups: seq<GroupSnapshot>, part: (Cycle, GroupSnapshot) -> set<TopicPartition>): nat {
    if groups == [] then 0
    else TotalSize(c, groups[..|groups| - 1], part) + |part(c, groups[|groups| - 1])|
  }

  lemma {:induction false} FlaggedAre(
    c: Cycle, groups: seq<GroupSnapshot>, flagged: PartitionLagMetric -> bool,
    part: (Cycle, GroupSnapshot) -> set<TopicPartition>)
    requires forall g :: FlaggedPartitions(c, g, flagged) == part(c, g)
    ensures FlaggedCount(c, groups, flagged) == TotalSize(c, groups, part)
  {
    if groups != [] {
      FlaggedAre(c, groups[..|groups| - 1], flagged, part);
    }
  }

  /** The two cluster counters are numbers of partitions, over all groups: those
      whose committed offset is below the low watermark, and those of a
      compacted topic. */
  lemma CountersCountPartitions(c: Cycle, m: LagMetrics)
    requires IsSomeReport(c, m)
    ensures m.dataLossPartitionCount == TotalSize(c, c.snapshot.groups, LostPartitions)
    ensures m.compactionDetectedCount == TotalSize(c, c.snapshot.groups, CompactedPartitions)
  {
    var orders, topicOrders, offsetOrder :| IsReport(c, m, orders, topicOrders, offsetOrder);
    FlagCountUpTo(c, c.snapshot.groups, orders, IsDataLoss);
    FlagCountUpTo(c, c.snapshot.groups, orders, IsCompacted);
    FlaggedAre(c, c.snapshot.groups, IsDataLoss, LostPartitions);
    FlaggedAre(c, c.snapshot.groups, IsCompacted, CompactedPartitions);
  }

  // ---- which rows there are ----

  lemma {:induction false} RowHasOrigin(
    c: Cycle, groups: seq<GroupSnapshot>, orders: seq<seq<TopicPartition>>, row: PartitionLagMetric)
    requires GroupOrders(groups, orders) && row in AllPartitionRows(c, groups, orders)
    ensures exists n, tp :: 0 <= n < |groups| && tp in groups[n].offsets && row == PartitionRow(c, groups[n], tp)
  {
    var n := |groups| - 1;
    if row in AllPartitionRows(c, groups[..n], orders[..n]) {
      RowHasOrigin(c, groups[..n], orders[..n], row);
      var k, tp :| 0 <= k < n && tp in groups[..n][k].offsets && row == PartitionRow(c, groups[..n][k], tp);
      assert tp in groups[k].offsets && row == PartitionRow(c, groups[k], tp);
    } else {
      var j :| 0 <= j < |orders[n]| && row == PartitionRow(c, groups[n], orders[n][j]);
      assert orders[n][j] in groups[n].offsets;
    }
  }

  lemma {:induction false} OriginHasRow(
    c: Cycle, groups: seq<GroupSnapshot>, orders: seq<seq<TopicPartition>>, n: nat, tp: TopicPartition)
    requires GroupOrders(groups, orders) && n < |groups| && tp in groups[n].offsets
    ensures PartitionRow(c, groups[n], tp) in AllPartitionRows(c, groups, orders)
  {
    var last := |groups| - 1;
    if n < last {
      OriginHasRow(c, groups[..last], orders[..last], n, tp);
    } else {
      assert Enumerates(orders[n], groups[n].offsets.Keys) && tp in orders[n];
      var j :| 0 <= j < |orders[n]| && orders[n][j] == tp;
      assert PartitionRows(c, groups[n], orders[n])[j] == PartitionRow(c, groups[n], tp);
    }
  }

  // ---- one partition's numbers ----

  /** `messages_lost` and `retention_margin` tell the same story as the flag. */
  lemma DataLossNumbersAgree(c: Cycle, g: GroupSnapshot, tp: TopicPartition)
    requires tp in g.offsets
    ensures var row := PartitionRow(c, g, tp);
      && (row.dataLossDetected <==> row.messagesLost > 0)
      && (row.dataLossDetected <==> row.retentionMargin < 0)
      && row.messagesLost == Max(-row.retentionMargin, 0)
  {
  }

  /** Which topics are compacted shows in a row's own compaction flag and nowhere
      else: data loss is not suppressed for them. */
  lemma CompactionShowsOnlyInItsFlag(c: Cycle, compacted: set<string>, g: GroupSnapshot, tp: TopicPartition)
    requires tp in g.offsets
    ensures PartitionRow(c.(compactedTopics := compacted), g, tp)
         == PartitionRow(c, g, tp).(compactionDetected := tp.topic in compacted)
  {
  }

  lemma ScaleUp(a: real, b: real, w: real)
    requires w > 0.0 && a < b
    ensures a * w < b * w
  {
  }

  lemma QuotientTimesDivisor(p: real, w: real)
    requires w > 0.0
    ensures (p / w) * w == p
  {
  }

  lemma QuotientAgainst(p: real, w: real, b: real)
    requires w > 0.0
    ensures p / w < b ==> p < b * w
    ensures p / w > b ==> p > b * w
    ensures p / w == b ==> p == b * w
  {
    QuotientTimesDivisor(p, w);
    if p / w < b {
      ScaleUp(p / w, b, w);
    } else if p / w > b {
      ScaleUp(b, p / w, w);
    }
  }

  lemma RatioAgainst100(part: int, window: int)
    requires window > 0
    ensures (part as real / window as real) * 100.0 > 100.0 <==> part > window
    ensures (part as real / window as real) * 100.0 == 100.0 <==> part == window
    ensures (part as real / window as real) * 100.0 <= 0.0 <==> part <= 0
  {
    QuotientAgainst(part as real, window as real, 1.0);
    QuotientAgainst(part as real, window as real, 0.0);
  }

  /** The documented reading of the ratio (0 caught up, 100 at the deletion
      boundary, above 100 data loss) holds whenever the retained window is not
      empty. */
  lemma RatioReading(c: Cycle, g: GroupSnapshot, tp: TopicPartition)
    requires tp in g.offsets
    ensures var row := PartitionRow(c, g, tp);
      var (low, high) := MarksOf(c.snapshot.watermarks, tp, g.offsets[tp]);
      high > low ==>
        && (row.lagRetentionRatio > 100.0 <==> row.dataLossDetected)
        && (row.lagRetentionRatio == 100.0 <==> row.retentionMargin == 0)
        && (row.lagRetentionRatio <= 0.0 <==> row.lag == 0)
  {
    var (low, high) := MarksOf(c.snapshot.watermarks, tp, g.offsets[tp]);
    if high > low {
      RatioAgainst100(high - g.offsets[tp], high - low);
    }
  }

  /** The ratio is the unclamped lag as a percentage of the retained window. */
  lemma RatioIsShareOfWindow(c: Cycle, g: GroupSnapshot, tp: TopicPartition)
    requires tp in g.offsets
    ensures var row := PartitionRow(c, g, tp);
      var (low, high) := MarksOf(c.snapshot.watermarks, tp, g.offsets[tp]);
      if high > low then row.lagRetentionRatio * (high - low) as real == 100.0 * (high - g.offsets[tp]) as real
      else row.lagRetentionRatio == 0.0
  {
    var (low, high) := MarksOf(c.snapshot.watermarks, tp, g.offsets[tp]);
    if high > low {
      var p, w := (high - g.offsets[tp]) as real, (high - low) as real;
      QuotientTimesDivisor(p, w);
      TimesHundred(p / w, w);
    }
  }

  lemma TimesHundred(q: real, w: real)
    ensures (q * 100.0) * w == 100.0 * (q * w)
  {
  }

  /** With an empty window the ratio is 0 whatever was lost, so "above 100 means
      data loss" holds for a partition exactly when its window is not empty or
      nothing was lost. */
  lemma RatioShowsLossIff(c: Cycle, g: GroupSnapshot, tp: TopicPartition)
    requires tp in g.offsets
    ensures var row := PartitionRow(c, g, tp);
      var (low, high) := MarksOf(c.snapshot.watermarks, tp, g.offsets[tp]);
      (row.lagRetentionRatio > 100.0 <==> row.dataLossDetected) <==> (high > low || low <= g.offsets[tp])
  {
    RatioReading(c, g, tp);
  }
}
