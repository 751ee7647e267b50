/** The hash maps of `src/collector/lag_calculator.rs` yield their entries in any
    order; all that can show of it in a report is the order of the rows. */
module ReportOrder {
  import opened Basics
  import opened LagCalculator

  // ---- one row per key, in any order ----

  ghost predicate Lists<K(!new), V>(m: map<K, V>, order: seq<K>, rows: seq<V>) {
    && Enumerates(order, m.Keys) && |rows| == |order|
    && forall i :: 0 <= i < |order| ==> order[i] in m && rows[i] == m[order[i]]
  }

  lemma ListsWithout<K(!new), V>(m: map<K, V>, order: seq<K>, rows: seq<V>, k: K, j: nat)
    requires Lists(m, order, rows) && j < |order| && order[j] == k
    ensures Lists(m - {k}, order[..j] + order[j + 1..], rows[..j] + rows[j + 1..])
  {
    var less := order[..j] + order[j + 1..];
    forall x ensures x in less <==> x in (m - {k}).Keys {
      if x in m && x != k {
        assert x in order;
        var i :| 0 <= i < |order| && order[i] == x;
        assert less[if i < j then i else i - 1] == x;
      }
    }
  }

  lemma TakenOut<V>(rows: seq<V>, j: nat)
    requires j < |rows|
    ensures multiset(rows) == multiset(rows[..j] + rows[j + 1..]) + multiset{rows[j]}
  {
    assert rows == rows[..j] + [rows[j]] + rows[j + 1..];
  }

  lemma FirstIsIn<K>(order: seq<K>)
    ensures order == [] || order[0] in order
  {
  }

  lemma {:induction false} ListingsArePermutations<K(!new), V>(
    m: map<K, V>, order: seq<K>, rows: seq<V>, order2: seq<K>, rows2: seq<V>)
    requires Lists(m, order, rows) && Lists(m, order2, rows2)
    ensures multiset(rows) == multiset(rows2)
    decreases |order|
  {
    assert forall k :: k in order2 ==> k in order;
    FirstIsIn(order2);
    if order != [] {
      var k := order[0];
      assert k in order2;
      var j :| 0 <= j < |order2| && order2[j] == k;
      ListsWithout(m, order, rows, k, 0);
      ListsWithout(m, order2, rows2, k, j);
      ListingsArePermutations(
        m - {k}, order[..0] + order[1..], rows[..0] + rows[1..],
        order2[..j] + order2[j + 1..], rows2[..j] + rows2[j + 1..]);
      TakenOut(rows, 0);
      TakenOut(rows2, j);
    }
  }

  // ---- the rows of a report ----

  lemma PartitionRowsArePermutations(
    c: Cycle, g: GroupSnapshot, order: seq<TopicPartition>, order2: seq<TopicPartition>)
    requires Enumerates(order, g.offsets.Keys) && Enumerates(order2, g.offsets.Keys)
    ensures multiset(PartitionRows(c, g, order)) == multiset(PartitionRows(c, g, order2))
  {
    var m := map tp | tp in g.offsets :: PartitionRow(c, g, tp);
    assert m.Keys == g.offsets.Keys;
    ListingsArePermutations(m, order, PartitionRows(c, g, order), order2, PartitionRows(c, g, order2));
  }

  lemma {:induction false} AllPartitionRowsArePermutations(
    c: Cycle, groups: seq<GroupSnapshot>, orders: seq<seq<TopicPartition>>, orders2: seq<seq<TopicPartition>>)
    requires GroupOrders(groups, orders) && GroupOrders(groups, orders2)
    ensures multiset(AllPartitionRows(c, groups, orders)) == multiset(AllPartitionRows(c, groups, orders2))
  {
    if groups != [] {
      var n := |groups| - 1;
      AllPartitionRowsArePermutations(c, groups[..n], orders[..n], orders2[..n]);
      PartitionRowsArePermutations(c, groups[n], orders[n], orders2[n]);
    }
  }

  lemma TopicRowsArePermutations(c: Cycle, g: GroupSnapshot, order: seq<string>, order2: seq<string>)
    requires Enumerates(order, Topics(Lags(c.snapshot.watermarks, g.offsets)))
    requires Enumerates(order2, Topics(Lags(c.snapshot.watermarks, g.offsets)))
    ensures multiset(TopicRows(c, g, order)) == multiset(TopicRows(c, g, order2))
  {
    var sums := TopicSums(Lags(c.snapshot.watermarks, g.offsets));
    var m := map topic | topic in sums :: TopicLagMetric(c.snapshot.clusterName, g.groupId, topic, sums[topic]);
    assert m.Keys == Topics(Lags(c.snapshot.watermarks, g.offsets));
    ListingsArePermutations(m, order, TopicRows(c, g, order), order2, TopicRows(c, g, order2));
  }

  lemma {:induction false} AllTopicRowsArePermutations(
    c: Cycle, groups: seq<GroupSnapshot>, orders: seq<seq<string>>, orders2: seq<seq<string>>)
    requires TopicOrders(c, groups, orders) && TopicOrders(c, groups, orders2)
    ensures multiset(AllTopicRows(c, groups, orders)) == multiset(AllTopicRows(c, groups, orders2))
  {
    if groups != [] {
      var n := |groups| - 1;
      AllTopicRowsArePermutations(c, groups[..n], orders[..n], orders2[..n]);
      TopicRowsArePermutations(c, groups[n], orders[n], orders2[n]);
    }
  }

  lemma OffsetRowsArePermutations(s: OffsetsSnapshot, order: seq<TopicPartition>, order2: seq<TopicPartition>)
    requires Enumerates(order, s.watermarks.Keys) && Enumerates(order2, s.watermarks.Keys)
    ensures multiset(OffsetRows(s, order)) == multiset(OffsetRows(s, order2))
  {
    var m := map tp | tp in s.watermarks :: PartitionOffsetMetric(
      s.clusterName, tp.topic, tp.partition, s.watermarks[tp].0, s.watermarks[tp].1);
    assert m.Keys == s.watermarks.Keys;
    ListingsArePermutations(m, order, OffsetRows(s, order), order2, OffsetRows(s, order2));
  }

  /** Whatever orders the maps took, two reports of one cycle have the same group
      rows, the same counters, and the same other rows up to their order. */
  lemma ReportsArePermutations(c: Cycle, a: LagMetrics, b: LagMetrics)
    requires IsSomeReport(c, a) && IsSomeReport(c, b)
    ensures multiset(a.partitionMetrics) == multiset(b.partitionMetrics)
    ensures multiset(a.topicMetrics) == multiset(b.topicMetrics)
    ensures multiset(a.partitionOffsets) == multiset(b.partitionOffsets)
    ensures b == a.(partitionMetrics := b.partitionMetrics, topicMetrics := b.topicMetrics,
                    partitionOffsets := b.partitionOffsets)
  {
    var orders, topicOrders, offsetOrder :| IsReport(c, a, orders, topicOrders, offsetOrder);
    var orders2, topicOrders2, offsetOrder2 :| IsReport(c, b, orders2, topicOrders2, offsetOrder2);
    AllPartitionRowsArePermutations(c, c.snapshot.groups, orders, orders2);
    AllTopicRowsArePermutations(c, c.snapshot.groups, topicOrders, topicOrders2);
    OffsetRowsArePermutations(c.snapshot, offsetOrder, offsetOrder2);
    CountersCountPartitions(c, a);
    CountersCountPartitions(c, b);
    forall i | 0 <= i < |c.snapshot.groups| ensures a.groupMetrics[i] == b.groupMetrics[i] {
      GroupRowIsUnique(c, c.snapshot.groups[i], a.groupMetrics[i], b.groupMetrics[i]);
    }
  }
}
