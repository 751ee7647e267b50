/** `src/collector/rate_sampler.rs`: a ring buffer of high watermarks for each
    partition, and the production rate read off its two ends. Instants are
    nanoseconds on a monotonic clock; rates are reals. */
module RateSampler {
  import opened Basics
  import opened Watermarks

  datatype Sample = Sample(at: int, hwm: int)

  // ---- the declarative window ----

  ghost predicate SortedByTime(log: seq<Sample>) {
    forall i, j :: 0 <= i <= j < |log| ==> log[i].at <= log[j].at
  }

  /** The samples that are no older than `maxAge`. */
  function Recent(log: seq<Sample>, now: int, maxAge: int): seq<Sample> {
    if log == [] then []
    else
      var front, last := log[..|log| - 1], log[|log| - 1];
      Recent(front, now, maxAge) + if Age(now, last) > maxAge then [] else [last]
  }

  /** `now.duration_since(at)`, which saturates at zero. */
  function Age(now: int, s: Sample): nat {
    Max(now - s.at, 0)
  }

  function LastN<T>(s: seq<T>, n: nat): seq<T> {
    if |s| <= n then s else s[|s| - n..]
  }

  /** What a buffer should hold: the last `maxSamples` of all samples of the
      partition's current run that are recent. */
  function Window(log: seq<Sample>, now: int, maxSamples: nat, maxAge: int): seq<Sample> {
    LastN(Recent(log, now, maxAge), maxSamples)
  }

  // ---- one buffer, as the code maintains it ----

  /** The first loop: drop samples from the front until one is young enough. */
  function DropOld(buf: seq<Sample>, now: int, maxAge: int): seq<Sample> {
    if buf != [] && Age(now, buf[0]) > maxAge then DropOld(buf[1..], now, maxAge) else buf
  }

  function Record(buf: seq<Sample>, now: int, high: int, maxSamples: nat, maxAge: int): seq<Sample> {
    LastN(DropOld(buf, now, maxAge) + [Sample(now, high)], maxSamples)
  }

  method RecordOne(buf: seq<Sample>, now: int, high: int, maxSamples: nat, maxAge: int)
    returns (r: seq<Sample>)
    ensures r == Record(buf, now, high, maxSamples, maxAge)
  {
    r := buf;
    while r != [] && Age(now, r[0]) > maxAge
      invariant DropOld(r, now, maxAge) == DropOld(buf, now, maxAge)
      decreases |r|
    {
      r := r[1..];
    }
    r := r + [Sample(now, high)];
    while |r| > maxSamples
      invariant LastN(r, maxSamples) == LastN(DropOld(buf, now, maxAge) + [Sample(now, high)], maxSamples)
      decreases |r|
    {
      r := r[1..];
    }
  }

  // ---- front-only eviction misses nothing ----

  /** Dropping from the front of a sorted buffer keeps exactly the recent samples. */
  lemma {:induction false} DropOldIsRecent(buf: seq<Sample>, now: int, maxAge: int)
    requires SortedByTime(buf)
    ensures DropOld(buf, now, maxAge) == Recent(buf, now, maxAge)
  {
    if buf != [] {
      RecentSplitsOffFirst(buf, now, maxAge);
      if Age(now, buf[0]) > maxAge {
        DropOldIsRecent(buf[1..], now, maxAge);
      } else {
        AllRecent(buf, now, maxAge);
      }
    }
  }

  lemma {:induction false} RecentSplitsOffFirst(log: seq<Sample>, now: int, maxAge: int)
    requires log != []
    ensures Recent(log, now, maxAge)
         == (if Age(now, log[0]) > maxAge then [] else [log[0]]) + Recent(log[1..], now, maxAge)
  {
    if |log| > 1 {
      var front := log[..|log| - 1];
      RecentSplitsOffFirst(front, now, maxAge);
      assert log[1..][..|log[1..]| - 1] == front[1..];
    } else {
      assert log[..0] == [] && log[1..] == [];
    }
  }

  lemma {:induction false} AllRecent(log: seq<Sample>, now: int, maxAge: int)
    requires forall i :: 0 <= i < |log| ==> Age(now, log[i]) <= maxAge
    ensures Recent(log, now, maxAge) == log
  {
    if log != [] {
      AllRecent(log[..|log| - 1], now, maxAge);
    }
  }

  /** How many samples at the front of the log are too old. */
  function OldCount(log: seq<Sample>, now: int, maxAge: int): (k: nat)
    ensures k <= |log|
  {
    if log == [] || Age(now, log[0]) <= maxAge then 0 else 1 + OldCount(log[1..], now, maxAge)
  }

  lemma {:induction false} OldCountSplits(log: seq<Sample>, now: int, maxAge: int)
    ensures var k := OldCount(log, now, maxAge);
      && (forall i :: 0 <= i < k ==> Age(now, log[i]) > maxAge)
      && (k < |log| ==> Age(now, log[k]) <= maxAge)
  {
    if log != [] && Age(now, log[0]) > maxAge {
      OldCountSplits(log[1..], now, maxAge);
      var k := OldCount(log, now, maxAge);
      forall i | 0 <= i < k ensures Age(now, log[i]) > maxAge {
        assert i > 0 ==> log[i] == log[1..][i - 1];
      }
    }
  }

  lemma LastNOfSuffix<T>(s: seq<T>, p: nat, n: nat)
    requires p <= |s|
    ensures LastN(s[p..], n) == s[Max(p, |s| - n)..]
  {
  }

  lemma {:induction false} OldCountSkips(log: seq<Sample>, m: nat, now: int, maxAge: int)
    requires SortedByTime(log) && m <= |log|
    ensures OldCount(log[m..], now, maxAge) == Max(OldCount(log, now, maxAge) - m, 0)
  {
    var k := OldCount(log, now, maxAge);
    var j := OldCount(log[m..], now, maxAge);
    OldCountSplits(log, now, maxAge);
    OldCountSplits(log[m..], now, maxAge);
    assert m + j < |log| ==> log[m..][j] == log[m + j];
    assert j > 0 ==> log[m..][j - 1] == log[m + j - 1];
  }

  /** The window over a sorted log is one of its suffixes. */
  lemma WindowIsSuffix(log: seq<Sample>, now: int, maxSamples: nat, maxAge: int)
    requires SortedByTime(log)
    ensures Window(log, now, maxSamples, maxAge) == log[Max(OldCount(log, now, maxAge), |log| - maxSamples)..]
  {
    DropOldIsRecent(log, now, maxAge);
    DropOldIsSuffix(log, now, maxAge);
    LastNOfSuffix(log, OldCount(log, now, maxAge), maxSamples);
  }

  lemma {:induction false} DropOldIsSuffix(buf: seq<Sample>, now: int, maxAge: int)
    ensures DropOld(buf, now, maxAge) == buf[OldCount(buf, now, maxAge)..]
  {
    if buf != [] && Age(now, buf[0]) > maxAge {
      DropOldIsSuffix(buf[1..], now, maxAge);
    }
  }

  lemma OldCountGrows(log: seq<Sample>, before: int, now: int, high: int, maxAge: int)
    requires SortedByTime(log) && before <= now && maxAge >= 0
    ensures OldCount(log, before, maxAge) <= OldCount(log, now, maxAge)
         == OldCount(log + [Sample(now, high)], now, maxAge)
  {
    var k0, k1 := OldCount(log, before, maxAge), OldCount(log, now, maxAge);
    var grown := log + [Sample(now, high)];
    var k := OldCount(grown, now, maxAge);
    OldCountSplits(log, before, maxAge);
    OldCountSplits(log, now, maxAge);
    OldCountSplits(grown, now, maxAge);
    assert k < |grown| ==> (k < |log| ==> grown[k] == log[k]);
    assert k1 < |log| ==> grown[k1] == log[k1];
    assert forall i :: 0 <= i < k1 ==> grown[i] == log[i];
    assert grown[|log|] == Sample(now, high);
  }

  lemma DropDrop<T>(s: seq<T>, m: nat, k: nat)
    requires m <= |s| && k <= |s|
    ensures s[m..][Max(k - m, 0)..] == s[Max(m, k)..]
  {
  }

  lemma DropOldOfSuffix(log: seq<Sample>, m: nat, now: int, maxAge: int)
    requires m <= |log| && OldCount(log[m..], now, maxAge) == Max(OldCount(log, now, maxAge) - m, 0)
    ensures DropOld(log[m..], now, maxAge) == log[Max(m, OldCount(log, now, maxAge))..]
  {
    DropOldIsSuffix(log[m..], now, maxAge);
    DropDrop(log, m, OldCount(log, now, maxAge));
  }

  lemma AppendToSuffix<T>(s: seq<T>, p: nat, x: T)
    requires p <= |s|
    ensures s[p..] + [x] == (s + [x])[p..]
  {
  }

  /** Recording into a suffix of the log gives a suffix of the grown log. */
  lemma RecordOfSuffix(log: seq<Sample>, m: nat, now: int, high: int, maxSamples: nat, maxAge: int)
    requires SortedByTime(log) && m <= |log|
    ensures var grown := log + [Sample(now, high)];
      Record(log[m..], now, high, maxSamples, maxAge)
      == grown[Max(Max(m, OldCount(log, now, maxAge)), |grown| - maxSamples)..]
  {
    var p := Max(m, OldCount(log, now, maxAge));
    OldCountSkips(log, m, now, maxAge);
    DropOldOfSuffix(log, m, now, maxAge);
    AppendToSuffix(log, p, Sample(now, high));
    LastNOfSuffix(log + [Sample(now, high)], p, maxSamples);
  }

  lemma AppendKeepsSorted(log: seq<Sample>, before: int, now: int, high: int)
    requires SortedByTime(log) && before <= now
    requires forall i :: 0 <= i < |log| ==> log[i].at <= before
    ensures SortedByTime(log + [Sample(now, high)])
  {
  }

  lemma SameStart<T>(s: seq<T>, k0: nat, k: nat, maxSamples: nat)
    requires k0 <= k < |s|
    ensures s[Max(k, |s| - maxSamples)..] == s[Max(Max(Max(k0, |s| - 1 - maxSamples), k), |s| - maxSamples)..]
  {
  }

  /** Where the window over the grown log starts. */
  lemma GrownStart(log: seq<Sample>, before: int, now: int, high: int, maxSamples: nat, maxAge: int)
    requires SortedByTime(log) && before <= now && maxAge >= 0
    ensures var grown := log + [Sample(now, high)];
      var m := Max(OldCount(log, before, maxAge), |log| - maxSamples);
      grown[Max(OldCount(grown, now, maxAge), |grown| - maxSamples)..]
      == grown[Max(Max(m, OldCount(log, now, maxAge)), |grown| - maxSamples)..]
  {
    OldCountGrows(log, before, now, high, maxAge);
    SameStart(log + [Sample(now, high)], OldCount(log, before, maxAge), OldCount(log, now, maxAge), maxSamples);
  }

  lemma RecordOfWindow(log: seq<Sample>, before: int, now: int, high: int, maxSamples: nat, maxAge: int)
    requires SortedByTime(log) && before <= now && maxAge >= 0
    ensures var grown := log + [Sample(now, high)];
      Record(log[Max(OldCount(log, before, maxAge), |log| - maxSamples)..], now, high, maxSamples, maxAge)
      == grown[Max(OldCount(grown, now, maxAge), |grown| - maxSamples)..]
  {
    RecordOfSuffix(log, Max(OldCount(log, before, maxAge), |log| - maxSamples), now, high, maxSamples, maxAge);
    GrownStart(log, before, now, high, maxSamples, maxAge);
  }

  lemma GrownWindow(log: seq<Sample>, before: int, now: int, high: int, maxSamples: nat, maxAge: int)
    requires SortedByTime(log) && before <= now
    requires forall i :: 0 <= i < |log| ==> log[i].at <= before
    ensures var grown := log + [Sample(now, high)];
      Window(grown, now, maxSamples, maxAge) == grown[Max(OldCount(grown, now, maxAge), |grown| - maxSamples)..]
  {
    AppendKeepsSorted(log, before, now, high);
    WindowIsSuffix(log + [Sample(now, high)], now, maxSamples, maxAge);
  }

  /** One recording step keeps the buffer equal to the window over the grown
      log: what was evicted earlier, by count or by age, would not be in the
      new window either. */
  lemma RecordIsWindow(log: seq<Sample>, before: int, now: int, high: int, maxSamples: nat, maxAge: int)
    requires SortedByTime(log) && before <= now && maxSamples >= 1 && maxAge >= 0
    requires forall i :: 0 <= i < |log| ==> log[i].at <= before
    ensures Record(Window(log, before, maxSamples, maxAge), now, high, maxSamples, maxAge)
         == Window(log + [Sample(now, high)], now, maxSamples, maxAge)
  {
    WindowIsSuffix(log, before, maxSamples, maxAge);
    RecordOfWindow(log, before, now, high, maxSamples, maxAge);
    GrownWindow(log, before, now, high, maxSamples, maxAge);
  }

  // ---- the rate ----

  /** `compute_rate`: the rise between the two ends of the buffer, per second. */
  function ComputeRate(buf: seq<Sample>, minMsgsPerSec: real): Option<real> {
    if |buf| < 2 then None
    else
      var first, last := buf[0], buf[|buf| - 1];
      var dHwm := (last.hwm - first.hwm) as real;
      var dT := Seconds(Max(last.at - first.at, 0));
      if dT <= 0.0 || dHwm <= 0.0 then None
      else if dHwm / dT < minMsgsPerSec then None
      else Some(dHwm / dT)
  }

  function Seconds(ns: int): real {
    ns as real / 1_000_000_000.0
  }

  /** Rise and time of the i-th interval between neighbouring samples. */
  function Rise(buf: seq<Sample>, i: nat): real
    requires i + 1 < |buf|
  {
    (buf[i + 1].hwm - buf[i].hwm) as real
  }

  function Elapsed(buf: seq<Sample>, i: nat): real
    requires i + 1 < |buf|
  {
    Seconds(buf[i + 1].at - buf[i].at)
  }

  lemma SecondsAdds(a: int, b: int)
    ensures Seconds(a) + Seconds(b) == Seconds(a + b)
  {
  }

  /** Telescoping: when no interval is slower than `q`, neither is the whole. */
  lemma {:induction false} RiseAtLeast(buf: seq<Sample>, q: real)
    requires |buf| >= 2
    requires forall i: nat :: i + 1 < |buf| ==> Rise(buf, i) >= q * Elapsed(buf, i)
    ensures (buf[|buf| - 1].hwm - buf[0].hwm) as real >= q * Seconds(buf[|buf| - 1].at - buf[0].at)
  {
    var n := |buf| - 1;
    assert Rise(buf, n - 1) >= q * Elapsed(buf, n - 1);
    if n > 1 {
      var front := buf[..n];
      forall i: nat | i + 1 < |front| ensures Rise(front, i) >= q * Elapsed(front, i) {
        assert Rise(front, i) == Rise(buf, i);
      }
      RiseAtLeast(front, q);
      SecondsAdds(buf[n - 1].at - buf[0].at, buf[n].at - buf[n - 1].at);
      Distribute(q, Seconds(buf[n - 1].at - buf[0].at), Elapsed(buf, n - 1));
    }
  }

  lemma Distribute(q: real, a: real, b: real)
    ensures q * (a + b) == q * a + q * b
    ensures (-q) * a == -(q * a)
  {
  }

  function Negated(buf: seq<Sample>): (r: seq<Sample>)
    ensures |r| == |buf|
  {
    seq(|buf|, i requires 0 <= i < |buf| => Sample(buf[i].at, -buf[i].hwm))
  }

  lemma RiseAtMost(buf: seq<Sample>, q: real)
    requires |buf| >= 2
    requires forall i: nat :: i + 1 < |buf| ==> Rise(buf, i) <= q * Elapsed(buf, i)
    ensures (buf[|buf| - 1].hwm - buf[0].hwm) as real <= q * Seconds(buf[|buf| - 1].at - buf[0].at)
  {
    var neg := Negated(buf);
    forall i: nat | i + 1 < |neg| ensures Rise(neg, i) >= (-q) * Elapsed(neg, i) {
      assert Rise(neg, i) == -Rise(buf, i) && Elapsed(neg, i) == Elapsed(buf, i);
      Distribute(q, Elapsed(buf, i), 0.0);
    }
    RiseAtLeast(neg, -q);
    Distribute(q, Seconds(buf[|buf| - 1].at - buf[0].at), 0.0);
  }

  lemma RateTimesElapsed(buf: seq<Sample>, minMsgsPerSec: real)
    requires ComputeRate(buf, minMsgsPerSec).Some?
    ensures var rate := ComputeRate(buf, minMsgsPerSec).value;
      var span := Seconds(buf[|buf| - 1].at - buf[0].at);
      span > 0.0 && rate * span == (buf[|buf| - 1].hwm - buf[0].hwm) as real
  {
  }

  lemma ScaleStrict(a: real, b: real, span: real)
    requires span > 0.0 && a * span >= b * span
    ensures a >= b
  {
  }

  /** Every emitted rate is positive and at least the floor. */
  lemma RateAboveFloor(buf: seq<Sample>, minMsgsPerSec: real)
    requires ComputeRate(buf, minMsgsPerSec).Some?
    ensures var rate := ComputeRate(buf, minMsgsPerSec).value;
      rate > 0.0 && rate >= minMsgsPerSec
  {
  }

  /** The endpoint rate is a mediant: it is no smaller than every lower bound,
      and no larger than every upper bound, of the rates between neighbouring
      samples. */
  lemma RateIsMediant(buf: seq<Sample>, minMsgsPerSec: real, q: real)
    requires ComputeRate(buf, minMsgsPerSec).Some?
    ensures (forall i: nat :: i + 1 < |buf| ==> Rise(buf, i) >= q * Elapsed(buf, i))
        ==> ComputeRate(buf, minMsgsPerSec).value >= q
    ensures (forall i: nat :: i + 1 < |buf| ==> Rise(buf, i) <= q * Elapsed(buf, i))
        ==> ComputeRate(buf, minMsgsPerSec).value <= q
  {
    RateTimesElapsed(buf, minMsgsPerSec);
    var rate, span := ComputeRate(buf, minMsgsPerSec).value, Seconds(buf[|buf| - 1].at - buf[0].at);
    if forall i: nat :: i + 1 < |buf| ==> Rise(buf, i) >= q * Elapsed(buf, i) {
      RiseAtLeast(buf, q);
      ScaleStrict(rate, q, span);
    }
    if forall i: nat :: i + 1 < |buf| ==> Rise(buf, i) <= q * Elapsed(buf, i) {
      RiseAtMost(buf, q);
      ScaleStrict(q, rate, span);
    }
  }

  /** Some interval is at most as fast as the emitted rate and some at least as fast. */
  lemma RateIsBetweenIntervals(buf: seq<Sample>, minMsgsPerSec: real)
    requires ComputeRate(buf, minMsgsPerSec).Some?
    ensures var rate := ComputeRate(buf, minMsgsPerSec).value;
      && (exists i: nat :: i + 1 < |buf| && Rise(buf, i) <= rate * Elapsed(buf, i))
      && (exists i: nat :: i + 1 < |buf| && Rise(buf, i) >= rate * Elapsed(buf, i))
  {
    var rate := ComputeRate(buf, minMsgsPerSec).value;
    RateTimesElapsed(buf, minMsgsPerSec);
    if forall i: nat :: i + 1 < |buf| ==> Rise(buf, i) > rate * Elapsed(buf, i) {
      StrictRise(buf, rate);
    }
    if forall i: nat :: i + 1 < |buf| ==> Rise(buf, i) < rate * Elapsed(buf, i) {
      StrictFall(buf, rate);
    }
  }

  lemma {:induction false} StrictRise(buf: seq<Sample>, q: real)
    requires |buf| >= 2
    requires forall i: nat :: i + 1 < |buf| ==> Rise(buf, i) > q * Elapsed(buf, i)
    ensures (buf[|buf| - 1].hwm - buf[0].hwm) as real > q * Seconds(buf[|buf| - 1].at - buf[0].at)
  {
    var n := |buf| - 1;
    assert Rise(buf, n - 1) > q * Elapsed(buf, n - 1);
    if n > 1 {
      var front := buf[..n];
      forall i: nat | i + 1 < |front| ensures Rise(front, i) >= q * Elapsed(front, i) {
        assert Rise(front, i) == Rise(buf, i);
      }
      RiseAtLeast(front, q);
      SecondsAdds(buf[n - 1].at - buf[0].at, buf[n].at - buf[n - 1].at);
      Distribute(q, Seconds(buf[n - 1].at - buf[0].at), Elapsed(buf, n - 1));
    }
  }

  lemma StrictFall(buf: seq<Sample>, q: real)
    requires |buf| >= 2
    requires forall i: nat :: i + 1 < |buf| ==> Rise(buf, i) < q * Elapsed(buf, i)
    ensures (buf[|buf| - 1].hwm - buf[0].hwm) as real < q * Seconds(buf[|buf| - 1].at - buf[0].at)
  {
    var neg := Negated(buf);
    forall i: nat | i + 1 < |neg| ensures Rise(neg, i) > (-q) * Elapsed(neg, i) {
      assert Rise(neg, i) == -Rise(buf, i) && Elapsed(neg, i) == Elapsed(buf, i);
      Distribute(q, Elapsed(buf, i), 0.0);
    }
    StrictRise(neg, -q);
    Distribute(q, Seconds(buf[|buf| - 1].at - buf[0].at), 0.0);
  }

  /** A producer that keeps a constant rate is measured exactly. */
  lemma ConstantRateIsExact(buf: seq<Sample>, minMsgsPerSec: real, q: real)
    requires |buf| >= 2 && buf[0].at < buf[|buf| - 1].at
    requires forall i: nat :: i + 1 < |buf| ==> Rise(buf, i) == q * Elapsed(buf, i)
    ensures ComputeRate(buf, minMsgsPerSec) == if q > 0.0 && q >= minMsgsPerSec then Some(q) else None
  {
    RiseAtLeast(buf, q);
    RiseAtMost(buf, q);
    var span := Seconds(buf[|buf| - 1].at - buf[0].at);
    var rise := (buf[|buf| - 1].hwm - buf[0].hwm) as real;
    assert span > 0.0 && rise == q * span;
    if q > 0.0 {
      assert rise > 0.0;
      assert rise / span == q;
    }
  }

  // ---- the sampler ----

  /** One call of `record_watermarks`. */
  datatype Call = Call(now: int, watermarks: Marks)

  /** The samples of a partition's current unbroken monitored run: it starts
      anew after every call whose watermarks lack the partition. */
  ghost function RunLog(calls: seq<Call>, tp: TopicPartition): seq<Sample> {
    if calls == [] then []
    else
      var last := calls[|calls| - 1];
      if tp !in last.watermarks then []
      else RunLog(calls[..|calls| - 1], tp) + [Sample(last.now, last.watermarks[tp].1)]
  }

  /** The monotonic clock. */
  ghost predicate InOrder(calls: seq<Call>) {
    forall i, j :: 0 <= i <= j < |calls| ==> calls[i].now <= calls[j].now
  }

  ghost function Clock(calls: seq<Call>): int {
    if calls == [] then 0 else calls[|calls| - 1].now
  }

  lemma {:induction false} RunLogIsSorted(calls: seq<Call>, tp: TopicPartition)
    requires InOrder(calls)
    ensures SortedByTime(RunLog(calls, tp))
    ensures forall i :: 0 <= i < |RunLog(calls, tp)| ==> RunLog(calls, tp)[i].at <= Clock(calls)
  {
    if calls != [] {
      RunLogIsSorted(calls[..|calls| - 1], tp);
    }
  }

  /** The production rate of every partition whose buffer yields one. */
  function Rates(history: map<TopicPartition, seq<Sample>>, minMsgsPerSec: real): map<TopicPartition, real> {
    map tp | tp in history && ComputeRate(history[tp], minMsgsPerSec).Some? ::
      ComputeRate(history[tp], minMsgsPerSec).value
  }

  /** What one call of `record_watermarks` makes of all buffers. */
  function Recorded(
    history: map<TopicPartition, seq<Sample>>, watermarks: Marks, now: int, maxSamples: nat, maxAge: nat)
    : map<TopicPartition, seq<Sample>>
  {
    map tp | tp in watermarks ::
      Record(if tp in history then history[tp] else [], now, watermarks[tp].1, maxSamples, maxAge)
  }

  /** The retain pass and the loop over the watermarks, in any order. */
  method RecordAll(
    history: map<TopicPartition, seq<Sample>>, watermarks: Marks, now: int, maxSamples: nat, maxAge: nat)
    returns (buffers: map<TopicPartition, seq<Sample>>)
    ensures buffers == Recorded(history, watermarks, now, maxSamples, maxAge)
  {
    buffers := map tp | tp in history && tp in watermarks :: history[tp];
    var todo := watermarks.Keys;
    while todo != {}
      invariant todo <= watermarks.Keys
      invariant buffers.Keys == (history.Keys * watermarks.Keys) + (watermarks.Keys - todo)
      invariant forall tp :: tp in buffers ==>
        buffers[tp] == if tp in todo then history[tp] else Recorded(history, watermarks, now, maxSamples, maxAge)[tp]
      decreases todo
    {
      var tp :| tp in todo;
      todo := todo - {tp};
      var buf := RecordOne(if tp in buffers then buffers[tp] else [], now, watermarks[tp].1, maxSamples, maxAge);
      buffers := buffers[tp := buf];
    }
  }

  /** After these calls, exactly the partitions of the latest one are tracked,
      and every buffer is the window over its partition's current run. */
  ghost predicate WindowsOver(
    history: map<TopicPartition, seq<Sample>>, calls: seq<Call>, maxSamples: nat, maxAge: nat)
  {
    && history.Keys == (if calls == [] then {} else calls[|calls| - 1].watermarks.Keys)
    && forall tp :: tp in history ==>
         history[tp] == Window(RunLog(calls, tp), Clock(calls), maxSamples, maxAge)
  }

  lemma InOrderPrefix(calls: seq<Call>, next: Call)
    requires InOrder(calls + [next])
    ensures InOrder(calls) && (calls != [] ==> Clock(calls) <= next.now)
  {
    var after := calls + [next];
    assert forall i :: 0 <= i < |calls| ==> after[i] == calls[i];
    assert after[|calls|] == next;
  }

  lemma OneRecordedIsWindow(
    history: map<TopicPartition, seq<Sample>>, calls: seq<Call>, next: Call, maxSamples: nat, maxAge: nat,
    tp: TopicPartition)
    requires WindowsOver(history, calls, maxSamples, maxAge) && InOrder(calls + [next]) && maxSamples >= 1
    requires tp in next.watermarks
    ensures Recorded(history, next.watermarks, next.now, maxSamples, maxAge)[tp]
         == Window(RunLog(calls + [next], tp), next.now, maxSamples, maxAge)
  {
    var log, high := RunLog(calls, tp), next.watermarks[tp].1;
    InOrderPrefix(calls, next);
    RunLogIsSorted(calls, tp);
    assert (calls + [next])[..|calls|] == calls;
    if tp in history {
      RecordIsWindow(log, Clock(calls), next.now, high, maxSamples, maxAge);
    } else {
      assert log == [];
      RecordIsWindow(log, next.now, next.now, high, maxSamples, maxAge);
    }
  }

  lemma RecordedIsWindows(
    history: map<TopicPartition, seq<Sample>>, calls: seq<Call>, next: Call, maxSamples: nat, maxAge: nat)
    requires WindowsOver(history, calls, maxSamples, maxAge) && InOrder(calls + [next]) && maxSamples >= 1
    ensures WindowsOver(
      Recorded(history, next.watermarks, next.now, maxSamples, maxAge), calls + [next], maxSamples, maxAge)
  {
    forall tp | tp in next.watermarks
      ensures Recorded(history, next.watermarks, next.now, maxSamples, maxAge)[tp]
           == Window(RunLog(calls + [next], tp), next.now, maxSamples, maxAge)
    {
      OneRecordedIsWindow(history, calls, next, maxSamples, maxAge, tp);
    }
  }

  class RateSampler {
    var history: map<TopicPartition, seq<Sample>>
    const maxSamples: nat
    const maxAge: nat
    const minMsgsPerSec: real

    /** Every call of `RecordWatermarks` so far. */
    ghost var calls: seq<Call>

    ghost predicate Valid()
      reads this
    {
      maxSamples >= 2 && InOrder(calls) && WindowsOver(history, calls, maxSamples, maxAge)
    }

    constructor (maxSamples: nat, maxAge: nat, minMsgsPerSec: real)
      ensures Valid() && history == map[] && calls == []
      ensures this.maxSamples == Max(maxSamples, 2) && this.maxAge == maxAge && this.minMsgsPerSec == minMsgsPerSec
    {
      this.maxSamples := Max(maxSamples, 2);
      this.maxAge := maxAge;
      this.minMsgsPerSec := minMsgsPerSec;
      history, calls := map[], [];
    }

    /** Record one watermark per monitored partition, forget the others. Every
        buffer stays the window over its partition's current run, and the tracked
        partitions are those of the latest watermarks. */
    method RecordWatermarks(watermarks: Marks, now: int)
      requires Valid() && (calls != [] ==> Clock(calls) <= now)
      modifies this
      ensures Valid() && calls == old(calls) + [Call(now, watermarks)]
    {
      RecordedIsWindows(history, calls, Call(now, watermarks), maxSamples, maxAge);
      history := RecordAll(history, watermarks, now, maxSamples, maxAge);
      calls := calls + [Call(now, watermarks)];
    }

    method RatesSnapshot() returns (out: map<TopicPartition, real>)
      ensures out == Rates(history, minMsgsPerSec)
    {
      out := map[];
      var todo := history.Keys;
      while todo != {}
        invariant todo <= history.Keys
        invariant out == Rates(map tp | tp in history && tp !in todo :: history[tp], minMsgsPerSec)
        decreases todo
      {
        var tp :| tp in todo;
        todo := todo - {tp};
        var rate := ComputeRate(history[tp], minMsgsPerSec);
        if rate.Some? {
          out := out[tp := rate.value];
        }
      }
      assert (map tp | tp in history && tp !in todo :: history[tp]) == history;
    }

    /** For a positive lag, the estimate is lag over the rate that
        `RatesSnapshot` reports for the same partition, or absent with it. */
    method EstimateLagSeconds(tp: TopicPartition, lag: int) returns (r: Option<real>)
      ensures lag <= 0 ==> r == Some(0.0)
      ensures lag > 0 ==> (r.Some? <==> tp in Rates(history, minMsgsPerSec))
      ensures lag > 0 && r.Some? ==> r.value * Rates(history, minMsgsPerSec)[tp] == lag as real && r.value > 0.0
    {
      if lag <= 0 {
        return Some(0.0);
      }
      if tp !in history {
        return None;
      }
      var rate := ComputeRate(history[tp], minMsgsPerSec);
      if rate.None? {
        return None;
      }
      RateAboveFloor(history[tp], minMsgsPerSec);
      DivideBack(lag as real, rate.value);
      r := Some(lag as real / rate.value);
    }
  }

  lemma DivideBack(a: real, b: real)
    requires a > 0.0 && b > 0.0
    ensures (a / b) * b == a && a / b > 0.0
  {
  }

  /** What the window over a log whose newest sample was taken now looks like:
      it is never empty nor too long, ends with that sample, is in time order,
      holds only recent samples of the log, and lacks a recent one only because
      `maxSamples` newer ones are there. */
  lemma WindowShape(log: seq<Sample>, now: int, maxSamples: nat, maxAge: nat)
    requires log != [] && SortedByTime(log) && log[|log| - 1].at == now && maxSamples >= 1
    ensures var w := Window(log, now, maxSamples, maxAge);
      exists m: nat ::
        && m < |log| && w == log[m..] && 1 <= |w| <= maxSamples
        && (forall i :: m <= i < |log| ==> Age(now, log[i]) <= maxAge)
        && (|w| == maxSamples || forall i :: 0 <= i < m ==> Age(now, log[i]) > maxAge)
  {
    var k := OldCount(log, now, maxAge);
    var m := Max(k, |log| - maxSamples);
    WindowIsSuffix(log, now, maxSamples, maxAge);
    OldCountSplits(log, now, maxAge);
    assert Age(now, log[|log| - 1]) == 0;
    assert k < |log|;
    forall i | m <= i < |log| ensures Age(now, log[i]) <= maxAge {
      assert log[k].at <= log[i].at;
    }
  }

  /** A time lag computed from an emitted rate
      never exceeds lag over the floor. */
  lemma TimeLagBoundedByFloor(buf: seq<Sample>, minMsgsPerSec: real, lag: nat)
    requires minMsgsPerSec > 0.0 && ComputeRate(buf, minMsgsPerSec).Some?
    ensures lag as real / ComputeRate(buf, minMsgsPerSec).value <= lag as real / minMsgsPerSec
  {
    var rate := ComputeRate(buf, minMsgsPerSec).value;
    var s := lag as real / rate;
    assert s * rate == lag as real && s >= 0.0;
    assert s * minMsgsPerSec <= s * rate;
    assert (lag as real / minMsgsPerSec) * minMsgsPerSec == lag as real;
    ScaleStrict(lag as real / minMsgsPerSec, s, minMsgsPerSec);
  }
}
