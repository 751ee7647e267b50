/** The reads of `collect_parallel` (`src/collector/offset_collector.rs`)
    against a broker that keeps moving. Producing, retention and commits
    interleave with the three reads in every possible way; each partition and
    each group is read at an instant of its own, or not at all. */
module Snapshot {
  import opened Basics
  import opened Watermarks
  import opened LagCalculator

  datatype Log = Log(low: int, high: int)

  datatype Broker = Broker(logs: map<TopicPartition, Log>, committed: map<(string, TopicPartition), int>)

  /** Which of the three reads the collector is at. */
  datatype Phase = Earliest | Latest | Committed | Finished
  {
    function Rank(): nat {
      match this
      case Earliest => 0
      case Latest => 1
      case Committed => 2
      case Finished => 3
    }
  }

  datatype Collector = Collector(
    phase: Phase,
    lows: map<TopicPartition, int>,
    highs: map<TopicPartition, int>,
    offsets: map<(string, TopicPartition), int>)

  datatype World = World(broker: Broker, collector: Collector)

  /** What can happen next. An answer that never comes is a read that is never
      taken before `NextPhase`. */
  datatype Step =
    | Produce(tp: TopicPartition, count: nat)
    | Retain(tp: TopicPartition, low: int)
    /** Forward as consumers do, or backward as an offset reset does. */
    | Commit(group: string, tp: TopicPartition, offset: int)
    | ReadLow(tp: TopicPartition)
    | ReadHigh(tp: TopicPartition)
    | ReadCommitted(group: string, tp: TopicPartition)
    | NextPhase

  ghost predicate Enabled(w: World, step: Step) {
    var (logs, committed, phase) := (w.broker.logs, w.broker.committed, w.collector.phase);
    match step
    case Produce(tp, _) => tp in logs
    case Retain(tp, low) => tp in logs && logs[tp].low <= low <= logs[tp].high
    case Commit(group, tp, offset) => offset >= 0
    case ReadLow(tp) => phase.Earliest? && tp in logs
    case ReadHigh(tp) => phase.Latest? && tp in logs
    case ReadCommitted(group, tp) => phase.Committed? && (group, tp) in committed
    case NextPhase => !phase.Finished?
  }

  ghost function Apply(w: World, step: Step): World
    requires Enabled(w, step)
  {
    var (b, c) := (w.broker, w.collector);
    match step
    case Produce(tp, count) =>
      World(b.(logs := b.logs[tp := Log(b.logs[tp].low, b.logs[tp].high + count)]), c)
    case Retain(tp, low) =>
      World(b.(logs := b.logs[tp := Log(low, b.logs[tp].high)]), c)
    case Commit(group, tp, offset) =>
      World(b.(committed := b.committed[(group, tp) := offset]), c)
    case ReadLow(tp) => World(b, c.(lows := c.lows[tp := b.logs[tp].low]))
    case ReadHigh(tp) => World(b, c.(highs := c.highs[tp := b.logs[tp].high]))
    case ReadCommitted(group, tp) =>
      World(b, c.(offsets := c.offsets[(group, tp) := b.committed[(group, tp)]]))
    case NextPhase =>
      World(b, c.(phase := if c.phase.Earliest? then Latest else if c.phase.Latest? then Committed else Finished))
  }

  ghost predicate Initial(w: World) {
    && w.collector == Collector(Earliest, map[], map[], map[])
    && (forall tp :: tp in w.broker.logs ==> w.broker.logs[tp].low <= w.broker.logs[tp].high)
    && (forall k :: k in w.broker.committed ==> w.broker.committed[k] >= 0)
  }

  /** One execution: `trace[n + 1]` is `trace[n]` after `steps[n]`. */
  ghost predicate Execution(trace: seq<World>, steps: seq<Step>) {
    && |trace| == |steps| + 1
    && Initial(trace[0])
    && forall n :: 0 <= n < |steps| ==> Enabled(trace[n], steps[n]) && trace[n + 1] == Apply(trace[n], steps[n])
  }

  ghost predicate Collected(trace: seq<World>, steps: seq<Step>) {
    Execution(trace, steps) && trace[|steps|].collector.phase.Finished?
  }

  // ---- the logs only move forward ----

  ghost predicate Forward(a: Broker, b: Broker) {
    && a.logs.Keys == b.logs.Keys && a.committed.Keys <= b.committed.Keys
    && (forall tp :: tp in a.logs ==> a.logs[tp].low <= b.logs[tp].low && a.logs[tp].high <= b.logs[tp].high)
  }

  ghost predicate Sane(b: Broker) {
    && (forall tp :: tp in b.logs ==> b.logs[tp].low <= b.logs[tp].high)
    && (forall k :: k in b.committed ==> b.committed[k] >= 0)
  }

  lemma StepMovesForward(w: World, step: Step)
    requires Enabled(w, step) && Sane(w.broker)
    ensures var v := Apply(w, step);
      Forward(w.broker, v.broker) && Sane(v.broker) && w.collector.phase.Rank() <= v.collector.phase.Rank()
  {
  }

  lemma ForwardTransitive(a: Broker, b: Broker, c: Broker)
    requires Forward(a, b) && Forward(b, c)
    ensures Forward(a, c)
  {
  }

  lemma {:induction false} TraceMovesForward(trace: seq<World>, steps: seq<Step>, m: nat, n: nat)
    requires Execution(trace, steps) && m <= n <= |steps|
    ensures Forward(trace[m].broker, trace[n].broker) && Sane(trace[n].broker)
    ensures trace[m].collector.phase.Rank() <= trace[n].collector.phase.Rank()
    decreases n
  {
    if m < n {
      TraceMovesForward(trace, steps, m, n - 1);
      StepMovesForward(trace[n - 1], steps[n - 1]);
      ForwardTransitive(trace[m].broker, trace[n - 1].broker, trace[n].broker);
    } else if n > 0 {
      TraceMovesForward(trace, steps, 0, n - 1);
      StepMovesForward(trace[n - 1], steps[n - 1]);
    }
  }

  // ---- every value the collector holds was the broker's at some instant of its phase ----

  ghost predicate LowReadAt(trace: seq<World>, tp: TopicPartition, low: int, i: nat) {
    && i < |trace| && trace[i].collector.phase.Earliest?
    && tp in trace[i].broker.logs && trace[i].broker.logs[tp].low == low
  }

  ghost predicate HighReadAt(trace: seq<World>, tp: TopicPartition, high: int, j: nat) {
    && j < |trace| && trace[j].collector.phase.Latest?
    && tp in trace[j].broker.logs && trace[j].broker.logs[tp].high == high
  }

  ghost predicate CommittedReadAt(trace: seq<World>, key: (string, TopicPartition), offset: int, k: nat) {
    && k < |trace| && trace[k].collector.phase.Committed?
    && key in trace[k].broker.committed && trace[k].broker.committed[key] == offset
  }

  lemma {:induction false} LowWasRead(trace: seq<World>, steps: seq<Step>, n: nat, tp: TopicPartition)
    requires Execution(trace, steps) && n <= |steps| && tp in trace[n].collector.lows
    ensures exists i: nat :: LowReadAt(trace, tp, trace[n].collector.lows[tp], i)
  {
    if tp in trace[n - 1].collector.lows && trace[n - 1].collector.lows[tp] == trace[n].collector.lows[tp] {
      LowWasRead(trace, steps, n - 1, tp);
    } else {
      assert LowReadAt(trace, tp, trace[n].collector.lows[tp], n - 1);
    }
  }

  lemma {:induction false} HighWasRead(trace: seq<World>, steps: seq<Step>, n: nat, tp: TopicPartition)
    requires Execution(trace, steps) && n <= |steps| && tp in trace[n].collector.highs
    ensures exists j: nat :: HighReadAt(trace, tp, trace[n].collector.highs[tp], j)
  {
    if tp in trace[n - 1].collector.highs && trace[n - 1].collector.highs[tp] == trace[n].collector.highs[tp] {
      HighWasRead(trace, steps, n - 1, tp);
    } else {
      assert HighReadAt(trace, tp, trace[n].collector.highs[tp], n - 1);
    }
  }

  lemma {:induction false} CommittedWasRead(
    trace: seq<World>, steps: seq<Step>, n: nat, key: (string, TopicPartition))
    requires Execution(trace, steps) && n <= |steps| && key in trace[n].collector.offsets
    ensures exists k: nat :: CommittedReadAt(trace, key, trace[n].collector.offsets[key], k)
  {
    if key in trace[n - 1].collector.offsets && trace[n - 1].collector.offsets[key] == trace[n].collector.offsets[key] {
      CommittedWasRead(trace, steps, n - 1, key);
    } else {
      assert CommittedReadAt(trace, key, trace[n].collector.offsets[key], n - 1);
    }
  }

  /** Reads of earlier phases come earlier. */
  lemma PhasesOrderReads(trace: seq<World>, steps: seq<Step>, m: nat, n: nat)
    requires Execution(trace, steps) && m < |trace| && n < |trace|
    requires trace[m].collector.phase.Rank() < trace[n].collector.phase.Rank()
    ensures m < n
  {
    if n <= m {
      TraceMovesForward(trace, steps, n, m);
    }
  }

  // ---- the truth at one instant ----

  ghost predicate Known(w: World, key: (string, TopicPartition)) {
    key in w.broker.committed && key.1 in w.broker.logs
  }

  ghost function TrueLag(w: World, key: (string, TopicPartition)): int
    requires Known(w, key)
  {
    Max(w.broker.logs[key.1].high - w.broker.committed[key], 0)
  }

  ghost function TrulyLost(w: World, key: (string, TopicPartition)): int
    requires Known(w, key)
  {
    Max(w.broker.logs[key.1].low - w.broker.committed[key], 0)
  }

  /** The metrics row of a partition of group `key.0`, computed by the lag
      calculator from what the collector holds at the end. */
  ghost predicate Reports(trace: seq<World>, steps: seq<Step>, c: Cycle, g: GroupSnapshot, tp: TopicPartition) {
    && Collected(trace, steps)
    && var end := trace[|steps|].collector;
      && IsMerge(end.lows, end.highs, c.snapshot.watermarks)
      && tp in g.offsets && (g.groupId, tp) in end.offsets && end.offsets[(g.groupId, tp)] == g.offsets[tp]
  }

  /** The group's offset was there at `i` and is no lower at `k`: in between it
      was not set back, or not for good. */
  ghost predicate NotSetBack(trace: seq<World>, key: (string, TopicPartition), i: nat, k: nat)
    requires i < |trace| && k < |trace| && Known(trace[k], key)
  {
    Known(trace[i], key) && trace[i].broker.committed[key] <= trace[k].broker.committed[key]
  }

  /** What is reported about lag, seen from the instant `j` at which the high
      watermark was read and the instant `k` at which the offset was. */
  ghost predicate LagSound(trace: seq<World>, key: (string, TopicPartition), row: PartitionLagMetric, j: nat, k: nat) {
    && j <= k < |trace| && Known(trace[k], key) && key.1 in trace[j].broker.logs
    && row.lag <= TrueLag(trace[k], key)
    && TrueLag(trace[k], key) - row.lag <= trace[k].broker.logs[key.1].high - trace[j].broker.logs[key.1].high
    && (Known(trace[j], key) ==>
          (row.lag <= TrueLag(trace[j], key) <==> row.lag == 0 || NotSetBack(trace, key, j, k)))
  }

  /** What is reported about data loss, seen from the instant `i` at which the
      low watermark was read and the instant `k`. */
  ghost predicate LossSound(trace: seq<World>, key: (string, TopicPartition), row: PartitionLagMetric, i: nat, k: nat) {
    && i <= k < |trace| && Known(trace[k], key)
    && row.messagesLost <= TrulyLost(trace[k], key)
    && (row.dataLossDetected ==> TrulyLost(trace[k], key) > 0)
    && (Known(trace[i], key) ==>
          (row.messagesLost <= TrulyLost(trace[i], key) <==> row.messagesLost == 0 || NotSetBack(trace, key, i, k)))
    && (NotSetBack(trace, key, i, k) && row.dataLossDetected ==> TrulyLost(trace[i], key) > 0)
  }

  lemma SoundAtReads(
    trace: seq<World>, steps: seq<Step>, c: Cycle, g: GroupSnapshot, tp: TopicPartition, i: nat, j: nat, k: nat)
    requires Execution(trace, steps)
    requires tp in c.snapshot.watermarks && tp in g.offsets
    requires LowReadAt(trace, tp, c.snapshot.watermarks[tp].0, i)
    requires HighReadAt(trace, tp, c.snapshot.watermarks[tp].1, j)
    requires CommittedReadAt(trace, (g.groupId, tp), g.offsets[tp], k)
    ensures i < j < k && c.snapshot.watermarks[tp].0 <= c.snapshot.watermarks[tp].1
    ensures LagSound(trace, (g.groupId, tp), PartitionRow(c, g, tp), j, k)
    ensures LossSound(trace, (g.groupId, tp), PartitionRow(c, g, tp), i, k)
  {
    PhasesOrderReads(trace, steps, i, j);
    PhasesOrderReads(trace, steps, j, k);
    TraceMovesForward(trace, steps, i, j);
    TraceMovesForward(trace, steps, j, k);
    TraceMovesForward(trace, steps, i, k);
  }

  /** The main result. Where both watermarks were answered, whatever happened
      between the reads: the merged pair is ordered; the reported lag does not
      exceed the true lag when the offset was read, and misses it by at most what
      was produced since LATEST was read; a data-loss flag, and the number of
      messages lost, are true when the offset was read; and lag and loss
      overstate what was true when the watermarks were read exactly if there is
      any and the offset was set back in between. */
  lemma SnapshotIsSound(trace: seq<World>, steps: seq<Step>, c: Cycle, g: GroupSnapshot, tp: TopicPartition)
    requires Reports(trace, steps, c, g, tp)
    requires tp in trace[|steps|].collector.lows && tp in trace[|steps|].collector.highs
    ensures tp in c.snapshot.watermarks && c.snapshot.watermarks[tp].0 <= c.snapshot.watermarks[tp].1
    ensures exists i: nat, j: nat, k: nat ::
      && LowReadAt(trace, tp, trace[|steps|].collector.lows[tp], i)
      && HighReadAt(trace, tp, trace[|steps|].collector.highs[tp], j)
      && CommittedReadAt(trace, (g.groupId, tp), g.offsets[tp], k)
      && i < j < k
      && LagSound(trace, (g.groupId, tp), PartitionRow(c, g, tp), j, k)
      && LossSound(trace, (g.groupId, tp), PartitionRow(c, g, tp), i, k)
  {
    var end := trace[|steps|].collector;
    LowWasRead(trace, steps, |steps|, tp);
    HighWasRead(trace, steps, |steps|, tp);
    CommittedWasRead(trace, steps, |steps|, (g.groupId, tp));
    var i: nat :| LowReadAt(trace, tp, end.lows[tp], i);
    var j: nat :| HighReadAt(trace, tp, end.highs[tp], j);
    var k: nat :| CommittedReadAt(trace, (g.groupId, tp), end.offsets[(g.groupId, tp)], k);
    SoundAtReads(trace, steps, c, g, tp, i, j, k);
  }

  /** The lag bound needs neither answer: with whatever watermark answers came
      back, the reported lag never exceeds the true lag at the committed read. */
  lemma LagNeverOverstated(trace: seq<World>, steps: seq<Step>, c: Cycle, g: GroupSnapshot, tp: TopicPartition)
    requires Reports(trace, steps, c, g, tp)
    requires tp in trace[0].broker.logs
    ensures exists k: nat ::
      && CommittedReadAt(trace, (g.groupId, tp), g.offsets[tp], k)
      && Known(trace[k], (g.groupId, tp))
      && PartitionRow(c, g, tp).lag <= TrueLag(trace[k], (g.groupId, tp))
  {
    var end := trace[|steps|].collector;
    var key := (g.groupId, tp);
    CommittedWasRead(trace, steps, |steps|, key);
    var k: nat :| CommittedReadAt(trace, key, end.offsets[key], k);
    TraceMovesForward(trace, steps, 0, k);
    assert Known(trace[k], key);
    if tp in end.highs {
      HighWasRead(trace, steps, |steps|, tp);
      var j: nat :| HighReadAt(trace, tp, end.highs[tp], j);
      PhasesOrderReads(trace, steps, j, k);
      TraceMovesForward(trace, steps, j, k);
    } else if tp in end.lows {
      LowWasRead(trace, steps, |steps|, tp);
      var i: nat :| LowReadAt(trace, tp, end.lows[tp], i);
      PhasesOrderReads(trace, steps, i, k);
      TraceMovesForward(trace, steps, i, k);
    }
  }

  /** And as long as EARLIEST was answered, the number of messages lost never
      exceeds the true loss at the committed read, LATEST or not. */
  lemma LossNeverOverstated(trace: seq<World>, steps: seq<Step>, c: Cycle, g: GroupSnapshot, tp: TopicPartition)
    requires Reports(trace, steps, c, g, tp)
    requires tp in trace[0].broker.logs && tp in trace[|steps|].collector.lows
    ensures exists k: nat ::
      && CommittedReadAt(trace, (g.groupId, tp), g.offsets[tp], k)
      && Known(trace[k], (g.groupId, tp))
      && PartitionRow(c, g, tp).messagesLost <= TrulyLost(trace[k], (g.groupId, tp))
  {
    var end := trace[|steps|].collector;
    var key := (g.groupId, tp);
    CommittedWasRead(trace, steps, |steps|, key);
    var k: nat :| CommittedReadAt(trace, key, end.offsets[key], k);
    TraceMovesForward(trace, steps, 0, k);
    LowWasRead(trace, steps, |steps|, tp);
    var i: nat :| LowReadAt(trace, tp, end.lows[tp], i);
    PhasesOrderReads(trace, steps, i, k);
    TraceMovesForward(trace, steps, i, k);
    assert Known(trace[k], key);
  }

  // ---- were the offset read first ----

  const QUIET_TP := TopicPartition("t", 0)
  const QUIET_KEY := ("g", QUIET_TP)

  function QuietBroker(high: int, offset: int): Broker {
    Broker(map[QUIET_TP := Log(0, high)], map[QUIET_KEY := offset])
  }

  /** The lag that would be reported, were the offset read at instant `i` and the
      high watermark only at instant `j`. */
  ghost function OffsetFirstLag(early: World, late: World, key: (string, TopicPartition)): int
    requires Known(early, key) && Known(late, key)
  {
    Max(late.broker.logs[key.1].high - early.broker.committed[key], 0)
  }

  /** Why LATEST must be read before the offsets. In the other order the lag
      exceeds the true lag at the earlier read by everything produced in between,
      and the true lag at the later read by everything committed in between, as
      far as there is that much of it. Only an offset that was set back in
      between makes it fall short of the latter, by as much. */
  lemma OffsetFirstExcess(trace: seq<World>, steps: seq<Step>, key: (string, TopicPartition), i: nat, j: nat)
    requires Execution(trace, steps) && i <= j < |trace| && Known(trace[i], key)
    ensures Known(trace[j], key)
    ensures var lag := OffsetFirstLag(trace[i], trace[j], key);
      var moved := trace[j].broker.committed[key] - trace[i].broker.committed[key];
      && lag - TrueLag(trace[i], key) == Min(trace[j].broker.logs[key.1].high - trace[i].broker.logs[key.1].high, lag)
      && lag >= TrueLag(trace[i], key)
      && lag - TrueLag(trace[j], key)
         == if moved >= 0 then Min(moved, lag) else -Min(-moved, TrueLag(trace[j], key))
  {
    TraceMovesForward(trace, steps, i, j);
  }

  /** There is no limit to it: a group that is level with its partition at both
      instants could be reported with any lag. */
  lemma OffsetFirstWouldOverstate(lag: nat)
    ensures exists trace, steps, key, i: nat, j: nat ::
      && Execution(trace, steps) && i <= j < |trace| && Known(trace[i], key) && Known(trace[j], key)
      && TrueLag(trace[i], key) == 0 && TrueLag(trace[j], key) == 0
      && OffsetFirstLag(trace[i], trace[j], key) == lag
  {
    var c := Collector(Earliest, map[], map[], map[]);
    var steps := [Produce(QUIET_TP, lag), Commit("g", QUIET_TP, lag)];
    var produced := Broker(map[QUIET_TP := Log(0, lag)], map[QUIET_KEY := 0]);
    var trace := [World(QuietBroker(0, 0), c), World(produced, c), World(QuietBroker(lag, lag), c)];
    assert Apply(trace[0], steps[0]) == trace[1] && Apply(trace[1], steps[1]) == trace[2];
    assert Execution(trace, steps) && Known(trace[0], QUIET_KEY) && Known(trace[2], QUIET_KEY);
    assert TrueLag(trace[0], QUIET_KEY) == 0 && TrueLag(trace[2], QUIET_KEY) == 0;
  }

  // ---- when the data-loss flag can be trusted ----

  /** When EARLIEST stayed silent and LATEST answered, the flag is just another
      name for lag, and every lagging message counts as lost. */
  lemma FallbackFlagsEveryLag(c: Cycle, g: GroupSnapshot, tp: TopicPartition, lows: Offsets, highs: Offsets)
    requires IsMerge(lows, highs, c.snapshot.watermarks)
    requires tp in g.offsets && tp in highs && tp !in lows
    ensures var row := PartitionRow(c, g, tp);
      (row.dataLossDetected <==> row.lag > 0) && row.messagesLost == row.lag
  {
  }

  function Answer(m: map<TopicPartition, int>, tp: TopicPartition): Option<int> {
    if tp in m then Some(m[tp]) else None
  }

  /** In every execution in which the collector gets these answers for a
      partition, a raised flag means that the group really was below the low
      watermark at some instant of the collection. */
  ghost predicate FlagReliable(low: Option<int>, high: Option<int>, offset: int) {
    forall trace: seq<World>, steps: seq<Step>, c: Cycle, g: GroupSnapshot, tp ::
      Reports(trace, steps, c, g, tp)
      && Answer(trace[|steps|].collector.lows, tp) == low
      && Answer(trace[|steps|].collector.highs, tp) == high
      && g.offsets[tp] == offset
      && PartitionRow(c, g, tp).dataLossDetected
      ==> exists n :: 0 <= n < |trace| && Known(trace[n], (g.groupId, tp)) && TrulyLost(trace[n], (g.groupId, tp)) > 0
  }

  lemma FlagTruthful(
    trace: seq<World>, steps: seq<Step>, c: Cycle, g: GroupSnapshot, tp: TopicPartition)
    requires Reports(trace, steps, c, g, tp) && PartitionRow(c, g, tp).dataLossDetected
    requires tp in trace[|steps|].collector.lows
    ensures exists n :: 0 <= n < |trace| && Known(trace[n], (g.groupId, tp)) && TrulyLost(trace[n], (g.groupId, tp)) > 0
  {
    var end := trace[|steps|].collector;
    var key := (g.groupId, tp);
    LowWasRead(trace, steps, |steps|, tp);
    CommittedWasRead(trace, steps, |steps|, key);
    var i: nat :| LowReadAt(trace, tp, end.lows[tp], i);
    var k: nat :| CommittedReadAt(trace, key, end.offsets[key], k);
    PhasesOrderReads(trace, steps, i, k);
    TraceMovesForward(trace, steps, i, k);
    assert Known(trace[k], key) && TrulyLost(trace[k], key) > 0;
  }

  lemma OffsetsAreNonNegative(trace: seq<World>, steps: seq<Step>, key: (string, TopicPartition))
    requires Execution(trace, steps) && key in trace[|steps|].collector.offsets
    ensures trace[|steps|].collector.offsets[key] >= 0
  {
    CommittedWasRead(trace, steps, |steps|, key);
    var k: nat :| CommittedReadAt(trace, key, trace[|steps|].collector.offsets[key], k);
    TraceMovesForward(trace, steps, 0, k);
  }

  /** A broker at rest, and a collector that gets no EARLIEST answer from it. */
  lemma QuietRun(high: int, offset: int) returns (trace: seq<World>, steps: seq<Step>)
    requires 0 <= offset < high
    ensures Collected(trace, steps) && forall n :: 0 <= n < |trace| ==> trace[n].broker == QuietBroker(high, offset)
    ensures trace[|steps|].collector
         == Collector(Finished, map[], map[QUIET_TP := high], map[QUIET_KEY := offset])
  {
    var broker := QuietBroker(high, offset);
    var c0 := Collector(Earliest, map[], map[], map[]);
    var c1 := c0.(phase := Latest);
    var c2 := c1.(highs := map[QUIET_TP := high]);
    var c3 := c2.(phase := Committed);
    var c4 := c3.(offsets := map[QUIET_KEY := offset]);
    steps := [NextPhase, ReadHigh(QUIET_TP), NextPhase, ReadCommitted("g", QUIET_TP), NextPhase];
    trace := [World(broker, c0), World(broker, c1), World(broker, c2), World(broker, c3),
              World(broker, c4), World(broker, c4.(phase := Finished))];
    assert Initial(trace[0]);
  }

  /** Nothing was ever deleted, and yet the flag is raised. */
  lemma FalseAlarm(high: int, offset: int)
    requires 0 <= offset < high
    ensures !FlagReliable(None, Some(high), offset)
  {
    var trace, steps := QuietRun(high, offset);
    var g := GroupSnapshot("g", 0, [], map[QUIET_TP := offset]);
    var c := Cycle(OffsetsSnapshot("c", [g], map[QUIET_TP := (high, high)]), map[], 0, 0, {}, false);
    assert Reports(trace, steps, c, g, QUIET_TP);
    assert Answer(trace[|steps|].collector.lows, QUIET_TP) == None;
    assert Answer(trace[|steps|].collector.highs, QUIET_TP) == Some(high);
    assert PartitionRow(c, g, QUIET_TP).dataLossDetected;
    assert forall n :: 0 <= n < |trace| ==> TrulyLost(trace[n], (g.groupId, QUIET_TP)) == 0;
  }

  /** A broker at rest that has deleted everything, and a collector that gets all
      its answers. */
  lemma EmptyRun(high: int, offset: int) returns (trace: seq<World>, steps: seq<Step>)
    requires 0 <= offset < high
    ensures Collected(trace, steps) && forall n :: 0 <= n < |trace| ==> trace[n].broker == EmptyBroker(high, offset)
    ensures trace[|steps|].collector
         == Collector(Finished, map[QUIET_TP := high], map[QUIET_TP := high], map[QUIET_KEY := offset])
  {
    var broker := EmptyBroker(high, offset);
    var c0 := Collector(Earliest, map[], map[], map[]);
    var c1 := c0.(lows := map[QUIET_TP := high]);
    var c2 := c1.(phase := Latest);
    var c3 := c2.(highs := map[QUIET_TP := high]);
    var c4 := c3.(phase := Committed);
    var c5 := c4.(offsets := map[QUIET_KEY := offset]);
    steps := [ReadLow(QUIET_TP), NextPhase, ReadHigh(QUIET_TP), NextPhase, ReadCommitted("g", QUIET_TP), NextPhase];
    trace := [World(broker, c0), World(broker, c1), World(broker, c2), World(broker, c3), World(broker, c4),
              World(broker, c5), World(broker, c5.(phase := Finished))];
    assert Initial(trace[0]);
  }

  function EmptyBroker(high: int, offset: int): Broker {
    Broker(map[QUIET_TP := Log(high, high)], map[QUIET_KEY := offset])
  }

  /** With every answer there, messages can be lost at every instant and yet the
      retention ratio be 0, because nothing is retained. */
  lemma EmptyWindowHidesLoss(high: int, offset: int)
    requires 0 <= offset < high
    ensures exists trace: seq<World>, steps: seq<Step>, c: Cycle, g: GroupSnapshot, tp ::
      && Reports(trace, steps, c, g, tp)
      && tp in trace[|steps|].collector.lows && tp in trace[|steps|].collector.highs
      && g.offsets[tp] == offset && c.snapshot.watermarks[tp] == (high, high)
      && PartitionRow(c, g, tp).dataLossDetected && PartitionRow(c, g, tp).lagRetentionRatio == 0.0
      && forall n :: 0 <= n < |trace| ==>
           Known(trace[n], (g.groupId, tp)) && TrulyLost(trace[n], (g.groupId, tp)) == high - offset
  {
    var trace, steps := EmptyRun(high, offset);
    var g := GroupSnapshot("g", 0, [], map[QUIET_TP := offset]);
    var c := Cycle(OffsetsSnapshot("c", [g], map[QUIET_TP := (high, high)]), map[], 0, 0, {}, false);
    assert Reports(trace, steps, c, g, QUIET_TP);
    assert PartitionRow(c, g, QUIET_TP).dataLossDetected && PartitionRow(c, g, QUIET_TP).lagRetentionRatio == 0.0;
    assert forall n :: 0 <= n < |trace| ==>
      Known(trace[n], (g.groupId, QUIET_TP)) && TrulyLost(trace[n], (g.groupId, QUIET_TP)) == high - offset;
  }

  /** The flag can be trusted exactly when EARLIEST answered, or LATEST did not
      either, or there is no lag to mistake for a loss. */
  lemma FlagReliableIff(low: Option<int>, high: Option<int>, offset: int)
    requires offset >= 0
    ensures FlagReliable(low, high, offset) <==> low.Some? || high.None? || offset >= high.value
  {
    if low.Some? || high.None? || offset >= high.value {
      forall trace: seq<World>, steps: seq<Step>, c: Cycle, g: GroupSnapshot, tp |
        Reports(trace, steps, c, g, tp)
        && Answer(trace[|steps|].collector.lows, tp) == low
        && Answer(trace[|steps|].collector.highs, tp) == high
        && g.offsets[tp] == offset
        && PartitionRow(c, g, tp).dataLossDetected
        ensures exists n ::
          0 <= n < |trace| && Known(trace[n], (g.groupId, tp)) && TrulyLost(trace[n], (g.groupId, tp)) > 0
      {
        assert tp in trace[|steps|].collector.lows;
        FlagTruthful(trace, steps, c, g, tp);
      }
    } else {
      FalseAlarm(high.value, offset);
    }
  }
}
