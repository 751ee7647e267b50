/** The two sampling modes of `src/collector/timestamp_sampler.rs`, and what
    the lag calculator makes of their timestamps. */
module TimestampSampler {
  import opened Basics
  import opened Watermarks
  import opened LagCalculator
  import opened RateSampler
  import opened ReportOrder

  /** Timestamps by group and partition, in milliseconds. */
  type Timestamps = map<(string, TopicPartition), int>

  // ---- rate mode ----

  /** `x as i64`: truncation towards zero that saturates at both ends. */
  function TruncateToI64(x: real): int {
    if x >= 0.0 then Min(x.Floor, I64_MAX) else Max(-(-x).Floor, -I64_MAX - 1)
  }

  /** A made-up produce time that lies the estimated lag before now. */
  function SyntheticTimestamp(nowMs: int, lag: int, rate: real): int
    requires rate > 0.0
  {
    nowMs - TruncateToI64((lag as real / rate) * 1000.0)
  }

  /** The sampler's own idea of lag: without a watermark there is none. */
  function SampledLag(watermarks: Marks, tp: TopicPartition, committed: int): int {
    (if tp in watermarks then watermarks[tp].1 else committed) - committed
  }

  ghost predicate PositiveRates(rates: map<TopicPartition, real>) {
    forall tp :: tp in rates ==> rates[tp] > 0.0
  }

  predicate RateKnown(g: GroupSnapshot, watermarks: Marks, rates: map<TopicPartition, real>, tp: TopicPartition) {
    tp in g.offsets && SampledLag(watermarks, tp, g.offsets[tp]) > 0 && tp in rates
  }

  /** The entries of one group for the partitions in `part`. */
  function PartTimestamps(
    g: GroupSnapshot, watermarks: Marks, rates: map<TopicPartition, real>, nowMs: int, part: set<TopicPartition>)
    : Timestamps
    requires PositiveRates(rates)
  {
    map tp | tp in part && RateKnown(g, watermarks, rates, tp) ::
      (g.groupId, tp) := SyntheticTimestamp(nowMs, SampledLag(watermarks, tp, g.offsets[tp]), rates[tp])
  }

  function GroupTimestamps(g: GroupSnapshot, watermarks: Marks, rates: map<TopicPartition, real>, nowMs: int)
    : Timestamps
    requires PositiveRates(rates)
  {
    PartTimestamps(g, watermarks, rates, nowMs, g.offsets.Keys)
  }

  lemma PartTimestampsStep(
    g: GroupSnapshot, watermarks: Marks, rates: map<TopicPartition, real>, nowMs: int,
    part: set<TopicPartition>, tp: TopicPartition)
    requires PositiveRates(rates) && tp in g.offsets
    ensures var before := PartTimestamps(g, watermarks, rates, nowMs, part);
      PartTimestamps(g, watermarks, rates, nowMs, part + {tp})
      == if RateKnown(g, watermarks, rates, tp)
         then before[(g.groupId, tp) := SyntheticTimestamp(nowMs, SampledLag(watermarks, tp, g.offsets[tp]), rates[tp])]
         else before
  {
  }

  function RateTimestamps(
    groups: seq<GroupSnapshot>, watermarks: Marks, rates: map<TopicPartition, real>, nowMs: int): Timestamps
    requires PositiveRates(rates)
  {
    if groups == [] then map[]
    else
      RateTimestamps(groups[..|groups| - 1], watermarks, rates, nowMs)
      + GroupTimestamps(groups[|groups| - 1], watermarks, rates, nowMs)
  }

  lemma UnionUpdate(a: Timestamps, b: Timestamps, key: (string, TopicPartition), value: int)
    ensures (a + b)[key := value] == a + b[key := value]
  {
  }

  /** The inner loop of `compute_time_lags_rate`, in any visiting order; its
      entries override those of an earlier group of the same name. */
  method AddGroupTimestamps(
    g: GroupSnapshot, watermarks: Marks, rates: map<TopicPartition, real>, nowMs: int, before: Timestamps)
    returns (out: Timestamps)
    requires PositiveRates(rates)
    ensures out == before + GroupTimestamps(g, watermarks, rates, nowMs)
  {
    out := before;
    var todo := g.offsets.Keys;
    ghost var part: Timestamps := map[];
    ghost var done: set<TopicPartition> := {};
    while todo != {}
      invariant todo + done == g.offsets.Keys && todo !! done
      invariant out == before + part
      invariant part == PartTimestamps(g, watermarks, rates, nowMs, done)
      decreases todo
    {
      var tp :| tp in todo;
      todo := todo - {tp};
      PartTimestampsStep(g, watermarks, rates, nowMs, done, tp);
      done := done + {tp};
      var high := if tp in watermarks then watermarks[tp].1 else g.offsets[tp];
      var lag := high - g.offsets[tp];
      if lag <= 0 {
        continue;
      }
      if tp in rates {
        var synthetic := SyntheticTimestamp(nowMs, lag, rates[tp]);
        UnionUpdate(before, part, (g.groupId, tp), synthetic);
        out := out[(g.groupId, tp) := synthetic];
        part := part[(g.groupId, tp) := synthetic];
      }
    }
    assert done == g.offsets.Keys;
  }

  method CollectRateTimestamps(
    groups: seq<GroupSnapshot>, watermarks: Marks, rates: map<TopicPartition, real>, nowMs: int)
    returns (out: Timestamps)
    requires PositiveRates(rates)
    ensures out == RateTimestamps(groups, watermarks, rates, nowMs)
  {
    out := map[];
    for i := 0 to |groups|
      invariant out == RateTimestamps(groups[..i], watermarks, rates, nowMs)
    {
      out := AddGroupTimestamps(groups[i], watermarks, rates, nowMs, out);
      assert groups[..i + 1][..i] == groups[..i];
    }
    assert groups[..|groups|] == groups;
  }

  /** `compute_time_lags_rate`: record first, then estimate. */
  method ComputeTimeLagsRate(sampler: RateSampler, snapshot: OffsetsSnapshot, now: int, nowMs: int)
    returns (out: Timestamps)
    requires sampler.Valid() && (sampler.calls != [] ==> Clock(sampler.calls) <= now)
    modifies sampler
    ensures sampler.Valid() && sampler.calls == old(sampler.calls) + [Call(now, snapshot.watermarks)]
    ensures PositiveRates(Rates(sampler.history, sampler.minMsgsPerSec))
    ensures out == RateTimestamps(
      snapshot.groups, snapshot.watermarks, Rates(sampler.history, sampler.minMsgsPerSec), nowMs)
  {
    sampler.RecordWatermarks(snapshot.watermarks, now);
    var rates := sampler.RatesSnapshot();
    RatesArePositive(sampler.history, sampler.minMsgsPerSec);
    out := CollectRateTimestamps(snapshot.groups, snapshot.watermarks, rates, nowMs);
  }

  lemma RatesArePositive(history: map<TopicPartition, seq<Sample>>, minMsgsPerSec: real)
    ensures PositiveRates(Rates(history, minMsgsPerSec))
  {
    forall tp | tp in Rates(history, minMsgsPerSec) ensures Rates(history, minMsgsPerSec)[tp] > 0.0 {
      RateAboveFloor(history[tp], minMsgsPerSec);
    }
  }

  function Lookup(all: Timestamps, key: (string, TopicPartition)): Option<int> {
    if key in all then Some(all[key]) else None
  }

  /** The last group of a name has the say about it. */
  lemma LookupStep(
    groups: seq<GroupSnapshot>, watermarks: Marks, rates: map<TopicPartition, real>, nowMs: int,
    key: (string, TopicPartition))
    requires PositiveRates(rates) && groups != []
    ensures var own := Lookup(GroupTimestamps(groups[|groups| - 1], watermarks, rates, nowMs), key);
      && Lookup(RateTimestamps(groups, watermarks, rates, nowMs), key)
         == (if own.Some? then own else Lookup(RateTimestamps(groups[..|groups| - 1], watermarks, rates, nowMs), key))
      && (own.Some? ==> key.0 == groups[|groups| - 1].groupId)
  {
  }

  lemma OwnTimestamp(
    g: GroupSnapshot, watermarks: Marks, rates: map<TopicPartition, real>, nowMs: int, tp: TopicPartition)
    requires PositiveRates(rates)
    ensures Lookup(GroupTimestamps(g, watermarks, rates, nowMs), (g.groupId, tp))
         == if RateKnown(g, watermarks, rates, tp)
            then Some(SyntheticTimestamp(nowMs, SampledLag(watermarks, tp, g.offsets[tp]), rates[tp]))
            else None
  {
  }

  lemma {:induction false} TimestampOfGroup(
    groups: seq<GroupSnapshot>, watermarks: Marks, rates: map<TopicPartition, real>, nowMs: int,
    i: nat, tp: TopicPartition)
    requires PositiveRates(rates) && DistinctGroups(groups) && i < |groups|
    ensures var key := (groups[i].groupId, tp);
      Lookup(RateTimestamps(groups, watermarks, rates, nowMs), key)
      == Lookup(GroupTimestamps(groups[i], watermarks, rates, nowMs), key)
  {
    var front := groups[..|groups| - 1];
    LookupStep(groups, watermarks, rates, nowMs, (groups[i].groupId, tp));
    if i == |groups| - 1 {
      NoOtherTimestamps(front, watermarks, rates, nowMs, groups[i].groupId, tp);
    } else {
      TimestampOfGroup(front, watermarks, rates, nowMs, i, tp);
    }
  }

  lemma {:induction false} NoOtherTimestamps(
    groups: seq<GroupSnapshot>, watermarks: Marks, rates: map<TopicPartition, real>, nowMs: int,
    id: string, tp: TopicPartition)
    requires PositiveRates(rates) && forall i :: 0 <= i < |groups| ==> groups[i].groupId != id
    ensures Lookup(RateTimestamps(groups, watermarks, rates, nowMs), (id, tp)) == None
  {
    if groups != [] {
      LookupStep(groups, watermarks, rates, nowMs, (id, tp));
      NoOtherTimestamps(groups[..|groups| - 1], watermarks, rates, nowMs, id, tp);
    }
  }

  lemma FloorBounds(x: real)
    ensures x.Floor as real <= x < (x.Floor + 1) as real
  {
  }

  /** The seconds between now and a synthetic timestamp. */
  function SyntheticSeconds(nowMs: int, lag: int, rate: real): real
    requires rate > 0.0
  {
    (nowMs - SyntheticTimestamp(nowMs, lag, rate)) as real / 1000.0
  }

  /** Truncating to whole milliseconds loses less than one of them, exactly as
      long as the value fits an i64. */
  lemma TruncationError(nowMs: int, lag: int, rate: real)
    requires lag > 0 && rate > 0.0
    ensures var (exact, s) := (lag as real / rate, SyntheticSeconds(nowMs, lag, rate));
      && 0.0 <= s <= exact
      && (exact - s < 1.0 / 1000.0 <==> exact * 1000.0 < (I64_MAX + 1) as real)
  {
    DivideBack(lag as real, rate);
    var x := (lag as real / rate) * 1000.0;
    FloorBounds(x);
    var whole := TruncateToI64(x);
    assert SyntheticSeconds(nowMs, lag, rate) == whole as real / 1000.0;
    assert 0 <= whole && whole as real <= x;
    assert x < (I64_MAX + 1) as real <==> x - whole as real < 1.0;
    assert lag as real / rate - whole as real / 1000.0 == (x - whole as real) / 1000.0;
  }

  lemma SecondsFromTimestamp(c: Cycle, id: string, tp: TopicPartition, committed: int, ts: Option<int>)
    requires c.timeLagEnabled && Lookup(c.timestamps, (id, tp)) == ts
    ensures var lag := LagOf(c.snapshot.watermarks, tp, committed);
      LagSeconds(c, id, tp, committed) ==
        if lag > 0 && ts.Some? then Some(MaxReal((c.nowMs - ts.value) as real / 1000.0, 0.0))
        else if lag == 0 || DataLoss(c.snapshot.watermarks, tp, committed) then Some(0.0)
        else None
  {
  }

  lemma RateModeSeconds(c: Cycle, rates: map<TopicPartition, real>, i: nat, tp: TopicPartition)
    requires PositiveRates(rates) && DistinctGroups(c.snapshot.groups) && c.timeLagEnabled
    requires i < |c.snapshot.groups| && tp in c.snapshot.groups[i].offsets
    requires c.timestamps == RateTimestamps(c.snapshot.groups, c.snapshot.watermarks, rates, c.nowMs)
    ensures var (id, committed) := (c.snapshot.groups[i].groupId, c.snapshot.groups[i].offsets[tp]);
      var lag := LagOf(c.snapshot.watermarks, tp, committed);
      LagSeconds(c, id, tp, committed) ==
        if lag > 0 && tp in rates then Some(MaxReal(SyntheticSeconds(c.nowMs, lag, rates[tp]), 0.0))
        else if lag == 0 || DataLoss(c.snapshot.watermarks, tp, committed) then Some(0.0)
        else None
  {
    var committed := c.snapshot.groups[i].offsets[tp];
    var lag := LagOf(c.snapshot.watermarks, tp, committed);
    TimestampOfGroup(c.snapshot.groups, c.snapshot.watermarks, rates, c.nowMs, i, tp);
    OwnTimestamp(c.snapshot.groups[i], c.snapshot.watermarks, rates, c.nowMs, tp);
    var id := c.snapshot.groups[i].groupId;
    SecondsFromTimestamp(c, id, tp, committed, Lookup(c.timestamps, (id, tp)));
    assert lag > 0 ==> SampledLag(c.snapshot.watermarks, tp, committed) == lag;
  }

  /** Rate mode from end to end. A time lag is reported exactly when there is no
      lag, or a rate is known, or data was lost, although sampler and calculator
      treat a missing watermark differently. For a lagging partition with a
      rate it is the lag over the rate, short by less than a millisecond unless
      the value overflows an i64 of milliseconds. */
  lemma RateModeEndToEnd(c: Cycle, rates: map<TopicPartition, real>, i: nat, tp: TopicPartition)
    requires PositiveRates(rates) && DistinctGroups(c.snapshot.groups) && c.timeLagEnabled
    requires i < |c.snapshot.groups| && tp in c.snapshot.groups[i].offsets
    requires c.timestamps == RateTimestamps(c.snapshot.groups, c.snapshot.watermarks, rates, c.nowMs)
    ensures var row := PartitionRow(c, c.snapshot.groups[i], tp);
      && (row.lagSeconds.Some? <==> row.lag == 0 || tp in rates || row.dataLossDetected)
      && (row.lag > 0 && tp in rates ==>
            var exact := row.lag as real / rates[tp];
            && 0.0 <= row.lagSeconds.value <= exact
            && (exact - row.lagSeconds.value < 1.0 / 1000.0 <==> exact * 1000.0 < (I64_MAX + 1) as real))
  {
    RateModeSeconds(c, rates, i, tp);
    var lag := PartitionRow(c, c.snapshot.groups[i], tp).lag;
    if lag > 0 && tp in rates {
      TruncationError(c.nowMs, lag, rates[tp]);
    }
  }

  // ---- message mode: which messages are asked for ----

  type Request = (string, TopicPartition, int)

  /** The sampler's fallback for a missing watermark: no lag and no loss. */
  function SampledMarks(watermarks: Marks, tp: TopicPartition, committed: int): (int, int) {
    if tp in watermarks then watermarks[tp] else (committed, committed)
  }

  predicate Wanted(watermarks: Marks, tp: TopicPartition, committed: int, skip: bool) {
    var (low, high) := SampledMarks(watermarks, tp, committed);
    !(skip && committed < low) && high - committed > 0
  }

  function GroupRequests(g: GroupSnapshot, watermarks: Marks, order: seq<TopicPartition>, skip: bool): seq<Request>
    requires forall tp :: tp in order ==> tp in g.offsets
  {
    if order == [] then []
    else
      var front, tp := order[..|order| - 1], order[|order| - 1];
      GroupRequests(g, watermarks, front, skip)
      + if Wanted(watermarks, tp, g.offsets[tp], skip) then [(g.groupId, tp, g.offsets[tp])] else []
  }

  function AllRequests(
    groups: seq<GroupSnapshot>, watermarks: Marks, orders: seq<seq<TopicPartition>>, skip: bool): seq<Request>
    requires |orders| == |groups|
    requires forall i :: 0 <= i < |groups| ==> forall tp :: tp in orders[i] ==> tp in groups[i].offsets
  {
    if groups == [] then []
    else
      var n := |groups| - 1;
      AllRequests(groups[..n], watermarks, orders[..n], skip) + GroupRequests(groups[n], watermarks, orders[n], skip)
  }

  method CollectGroupRequests(g: GroupSnapshot, watermarks: Marks, skip: bool)
    returns (requests: seq<Request>, ghost order: seq<TopicPartition>)
    ensures Enumerates(order, g.offsets.Keys)
    ensures requests == GroupRequests(g, watermarks, order, skip)
  {
    requests, order := [], [];
    var todo := g.offsets.Keys;
    while todo != {}
      invariant todo <= g.offsets.Keys
      invariant Enumerates(order, g.offsets.Keys - todo)
      invariant requests == GroupRequests(g, watermarks, order, skip)
      decreases todo
    {
      var tp :| tp in todo;
      todo := todo - {tp};
      assert (order + [tp])[..|order|] == order;
      order := order + [tp];
      var committed := g.offsets[tp];
      var (low, high) := SampledMarks(watermarks, tp, committed);
      if skip && committed < low {
        continue;
      }
      if high - committed > 0 {
        requests := requests + [(g.groupId, tp, committed)];
      }
    }
  }

  /** `build_fetch_requests`; `orders` is the order in which each group's hash
      map happened to be visited. */
  method BuildFetchRequests(snapshot: OffsetsSnapshot, skip: bool)
    returns (requests: seq<Request>, ghost orders: seq<seq<TopicPartition>>)
    ensures GroupOrders(snapshot.groups, orders)
    ensures requests == AllRequests(snapshot.groups, snapshot.watermarks, orders, skip)
    ensures exists o ::
      GroupOrders(snapshot.groups, o) && requests == AllRequests(snapshot.groups, snapshot.watermarks, o, skip)
  {
    var groups := snapshot.groups;
    requests, orders := [], [];
    for i := 0 to |groups|
      invariant GroupOrders(groups[..i], orders)
      invariant requests == AllRequests(groups[..i], snapshot.watermarks, orders, skip)
    {
      var more;
      ghost var order;
      more, order := CollectGroupRequests(groups[i], snapshot.watermarks, skip);
      assert groups[..i + 1][..i] == groups[..i] && (orders + [order])[..i] == orders;
      requests, orders := requests + more, orders + [order];
    }
    assert groups[..|groups|] == groups;
  }

  function KeepReadable(requests: seq<Request>, watermarks: Marks): seq<Request> {
    if requests == [] then []
    else
      var front, last := requests[..|requests| - 1], requests[|requests| - 1];
      KeepReadable(front, watermarks)
      + if last.2 < SampledMarks(watermarks, last.1, last.2).0 then [] else [last]
  }

  lemma {:induction false} KeepReadableConcat(a: seq<Request>, b: seq<Request>, watermarks: Marks)
    ensures KeepReadable(a + b, watermarks) == KeepReadable(a, watermarks) + KeepReadable(b, watermarks)
    decreases |b|
  {
    if b == [] {
      assert a + b == a;
    } else {
      assert (a + b)[..|a + b| - 1] == a + b[..|b| - 1];
      KeepReadableConcat(a, b[..|b| - 1], watermarks);
    }
  }

  lemma {:induction false} GroupSkipsLost(g: GroupSnapshot, watermarks: Marks, order: seq<TopicPartition>)
    requires forall tp :: tp in order ==> tp in g.offsets
    ensures GroupRequests(g, watermarks, order, true) == KeepReadable(GroupRequests(g, watermarks, order, false), watermarks)
  {
    if order != [] {
      var front, tp := order[..|order| - 1], order[|order| - 1];
      GroupSkipsLost(g, watermarks, front);
      var request: Request := (g.groupId, tp, g.offsets[tp]);
      var one: seq<Request> := [request];
      assert one[..0] == [];
      KeepReadableConcat(GroupRequests(g, watermarks, front, false), one, watermarks);
      if !Wanted(watermarks, tp, g.offsets[tp], false) {
        assert GroupRequests(g, watermarks, order, false) == GroupRequests(g, watermarks, front, false);
        assert GroupRequests(g, watermarks, order, true) == GroupRequests(g, watermarks, front, true);
      }
    }
  }

  /** Turning the flag on removes exactly the requests whose offset is below
      the low watermark, and reorders nothing. */
  lemma {:induction false} SkipRemovesExactlyLost(
    groups: seq<GroupSnapshot>, watermarks: Marks, orders: seq<seq<TopicPartition>>)
    requires |orders| == |groups|
    requires forall i :: 0 <= i < |groups| ==> forall tp :: tp in orders[i] ==> tp in groups[i].offsets
    ensures AllRequests(groups, watermarks, orders, true)
         == KeepReadable(AllRequests(groups, watermarks, orders, false), watermarks)
  {
    if groups != [] {
      var n := |groups| - 1;
      SkipRemovesExactlyLost(groups[..n], watermarks, orders[..n]);
      GroupSkipsLost(groups[n], watermarks, orders[n]);
      KeepReadableConcat(
        AllRequests(groups[..n], watermarks, orders[..n], false), GroupRequests(groups[n], watermarks, orders[n], false),
        watermarks);
    }
  }

  // ---- message mode: what the calculator makes of the answers ----

  /** The collected timestamps when `fetch` answers each request. */
  function Fetched(requests: seq<Request>, fetch: Request -> Option<int>): Timestamps {
    if requests == [] then map[]
    else
      var before, last := Fetched(requests[..|requests| - 1], fetch), requests[|requests| - 1];
      if fetch(last).Some? then before[(last.0, last.1) := fetch(last).value] else before
  }

  /** The end of `compute_time_lags_message`: only a fetched timestamp counts;
      an empty partition, an error and a failed task leave no entry. */
  method CollectTimestamps<E>(requests: seq<Request>, results: seq<Result<Option<int>, E>>, fetch: Request -> Option<int>)
    returns (out: Timestamps)
    requires |results| == |requests|
    requires forall i :: 0 <= i < |requests| ==>
      fetch(requests[i]) == if results[i].Ok? then results[i].value else None
    ensures out == Fetched(requests, fetch)
  {
    out := map[];
    for i := 0 to |requests|
      invariant out == Fetched(requests[..i], fetch)
    {
      assert requests[..i + 1][..i] == requests[..i];
      match results[i] {
        case Ok(Some(ts)) => out := out[(requests[i].0, requests[i].1) := ts];
        case Ok(None) =>
        case Err(_) =>
      }
    }
    assert requests[..|requests|] == requests;
  }

  /** What a request's answer contributes. */
  function Present<E>(answer: Request -> Result<Option<int>, E>): Request -> Option<int> {
    r => if answer(r).Ok? then answer(r).value else None
  }

  /** What message mode collects, in some visiting order. */
  ghost predicate AreFetched<E>(
    snapshot: OffsetsSnapshot, skip: bool, answer: Request -> Result<Option<int>, E>, timestamps: Timestamps)
  {
    exists orders :: GroupOrders(snapshot.groups, orders)
      && timestamps == Fetched(AllRequests(snapshot.groups, snapshot.watermarks, orders, skip), Present(answer))
  }

  /** `compute_time_lags_message`, when `answer` is what becomes of each request. */
  method ComputeTimeLagsMessage<E>(snapshot: OffsetsSnapshot, skip: bool, answer: Request -> Result<Option<int>, E>)
    returns (out: Timestamps, ghost orders: seq<seq<TopicPartition>>)
    ensures GroupOrders(snapshot.groups, orders)
    ensures out == Fetched(AllRequests(snapshot.groups, snapshot.watermarks, orders, skip), Present(answer))
    ensures AreFetched(snapshot, skip, answer, out)
  {
    var requests;
    requests, orders := BuildFetchRequests(snapshot, skip);
    var results := seq(|requests|, i requires 0 <= i < |requests| => answer(requests[i]));
    out := CollectTimestamps(requests, results, Present(answer));
  }

  lemma GroupRequestStep(g: GroupSnapshot, watermarks: Marks, order: seq<TopicPartition>, skip: bool, r: Request)
    requires order != [] && forall tp :: tp in order ==> tp in g.offsets
    ensures var front, tp := order[..|order| - 1], order[|order| - 1];
      r in GroupRequests(g, watermarks, order, skip)
      <==> || r in GroupRequests(g, watermarks, front, skip)
           || (Wanted(watermarks, tp, g.offsets[tp], skip) && r == (g.groupId, tp, g.offsets[tp]))
  {
  }

  lemma InFrontOrLast<T>(s: seq<T>, x: T)
    requires s != []
    ensures x in s <==> x in s[..|s| - 1] || x == s[|s| - 1]
  {
    assert s == s[..|s| - 1] + [s[|s| - 1]];
  }

  lemma {:induction false} GroupRequestMembers(
    g: GroupSnapshot, watermarks: Marks, order: seq<TopicPartition>, skip: bool, r: Request)
    requires forall tp :: tp in order ==> tp in g.offsets
    ensures r in GroupRequests(g, watermarks, order, skip)
       <==> r.0 == g.groupId && r.1 in order && r.2 == g.offsets[r.1] && Wanted(watermarks, r.1, r.2, skip)
  {
    if order != [] {
      GroupRequestMembers(g, watermarks, order[..|order| - 1], skip, r);
      GroupRequestStep(g, watermarks, order, skip, r);
      InFrontOrLast(order, r.1);
    }
  }

  /** The requests are those of each group's wanted partitions. */
  lemma {:induction false} RequestMembers(
    groups: seq<GroupSnapshot>, watermarks: Marks, orders: seq<seq<TopicPartition>>, skip: bool, r: Request)
    requires GroupOrders(groups, orders)
    ensures r in AllRequests(groups, watermarks, orders, skip)
       <==> exists i :: && 0 <= i < |groups| && r.0 == groups[i].groupId && r.1 in groups[i].offsets
                        && r.2 == groups[i].offsets[r.1] && Wanted(watermarks, r.1, r.2, skip)
  {
    if groups != [] {
      var n := |groups| - 1;
      RequestMembers(groups[..n], watermarks, orders[..n], skip, r);
      GroupRequestMembers(groups[n], watermarks, orders[n], skip, r);
      if r in GroupRequests(groups[n], watermarks, orders[n], skip) {
        assert r.0 == groups[n].groupId;
      }
    }
  }

  lemma {:induction false} FetchedValue(requests: seq<Request>, fetch: Request -> Option<int>, r: Request)
    requires forall q :: q in requests && q.0 == r.0 && q.1 == r.1 ==> q == r
    ensures var all := Fetched(requests, fetch);
      && ((r.0, r.1) in all <==> r in requests && fetch(r).Some?)
      && ((r.0, r.1) in all ==> all[(r.0, r.1)] == fetch(r).value)
  {
    if requests != [] {
      FetchedValue(requests[..|requests| - 1], fetch, r);
      assert requests == requests[..|requests| - 1] + [requests[|requests| - 1]];
    }
  }

  lemma TimestampIffWanted(
    groups: seq<GroupSnapshot>, watermarks: Marks, orders: seq<seq<TopicPartition>>, skip: bool,
    fetch: Request -> Option<int>, i: nat, tp: TopicPartition)
    requires GroupOrders(groups, orders) && DistinctGroups(groups)
    requires i < |groups| && tp in groups[i].offsets
    ensures var (g, all) := (groups[i], Fetched(AllRequests(groups, watermarks, orders, skip), fetch));
      var r := (g.groupId, tp, g.offsets[tp]);
      && ((g.groupId, tp) in all <==> Wanted(watermarks, tp, g.offsets[tp], skip) && fetch(r).Some?)
      && ((g.groupId, tp) in all ==> all[(g.groupId, tp)] == fetch(r).value)
  {
    var requests := AllRequests(groups, watermarks, orders, skip);
    var r := (groups[i].groupId, tp, groups[i].offsets[tp]);
    forall q | q in requests && q.0 == r.0 && q.1 == r.1 ensures q == r {
      RequestMembers(groups, watermarks, orders, skip, q);
    }
    FetchedValue(requests, fetch, r);
    RequestMembers(groups, watermarks, orders, skip, r);
  }

  /** Two message-mode cycles over the same snapshot with the same answers from
      the broker, the second with `skip_data_loss_partitions` on. */
  ghost predicate DifferInSkip(
    plain: Cycle, skipping: Cycle, fetch: Request -> Option<int>,
    orders: seq<seq<TopicPartition>>, skipOrders: seq<seq<TopicPartition>>)
  {
    var (groups, watermarks) := (plain.snapshot.groups, plain.snapshot.watermarks);
    && DistinctGroups(groups) && GroupOrders(groups, orders) && GroupOrders(groups, skipOrders)
    && plain.timestamps == Fetched(AllRequests(groups, watermarks, orders, false), fetch)
    && skipping == plain.(timestamps := Fetched(AllRequests(groups, watermarks, skipOrders, true), fetch))
  }

  ghost predicate AtMost(a: Option<real>, b: Option<real>) {
    (a.Some? <==> b.Some?) && (a.Some? ==> a.value <= b.value)
  }

  /** What the flag may do to a partition row, and to a group row. */
  ghost predicate Lowered(a: PartitionLagMetric, b: PartitionLagMetric) {
    && b == a.(lagSeconds := b.lagSeconds)
    && (!a.dataLossDetected ==> b.lagSeconds == a.lagSeconds)
    && AtMost(b.lagSeconds, a.lagSeconds)
  }

  ghost predicate GroupLowered(a: GroupLagMetric, b: GroupLagMetric) {
    b == a.(maxLagSeconds := b.maxLagSeconds) && AtMost(b.maxLagSeconds, a.maxLagSeconds)
  }

  /** The flag is a controlled approximation: nothing but time lag changes; a
      partition without data loss keeps its time lag; one with data loss still
      reports one, which can only be smaller. */
  lemma SkipChangesOnlyLostSeconds(
    plain: Cycle, skipping: Cycle, fetch: Request -> Option<int>,
    orders: seq<seq<TopicPartition>>, skipOrders: seq<seq<TopicPartition>>, i: nat, tp: TopicPartition)
    requires DifferInSkip(plain, skipping, fetch, orders, skipOrders)
    requires i < |plain.snapshot.groups| && tp in plain.snapshot.groups[i].offsets
    ensures var g := plain.snapshot.groups[i]; Lowered(PartitionRow(plain, g, tp), PartitionRow(skipping, g, tp))
  {
    var (groups, watermarks) := (plain.snapshot.groups, plain.snapshot.watermarks);
    TimestampIffWanted(groups, watermarks, orders, false, fetch, i, tp);
    TimestampIffWanted(groups, watermarks, skipOrders, true, fetch, i, tp);
  }

  /** On the group level, only the largest time lag can change, downwards. */
  lemma SkipLowersGroupSeconds(
    plain: Cycle, skipping: Cycle, fetch: Request -> Option<int>,
    orders: seq<seq<TopicPartition>>, skipOrders: seq<seq<TopicPartition>>, i: nat,
    a: GroupLagMetric, b: GroupLagMetric)
    requires DifferInSkip(plain, skipping, fetch, orders, skipOrders)
    requires i < |plain.snapshot.groups|
    requires IsGroupRow(plain, plain.snapshot.groups[i], a) && IsGroupRow(skipping, plain.snapshot.groups[i], b)
    ensures GroupLowered(a, b)
  {
    var g := plain.snapshot.groups[i];
    if b.maxLagSeconds.Some? && b.maxLagSeconds.value > 0.0 {
      var tp :| tp in g.offsets && PresentSeconds(skipping, g, tp, b.maxLagSeconds.value);
      SkipChangesOnlyLostSeconds(plain, skipping, fetch, orders, skipOrders, i, tp);
      var s := LagSeconds(plain, g.groupId, tp, g.offsets[tp]);
      assert PresentSeconds(plain, g, tp, s.value);
    }
  }

  // ---- message mode: the whole report with and without the flag ----

  ghost predicate AllLowered(a: seq<PartitionLagMetric>, b: seq<PartitionLagMetric>) {
    |a| == |b| && forall i :: 0 <= i < |a| ==> Lowered(a[i], b[i])
  }

  lemma AllLoweredConcat(
    a: seq<PartitionLagMetric>, b: seq<PartitionLagMetric>, c: seq<PartitionLagMetric>, d: seq<PartitionLagMetric>)
    requires AllLowered(a, b) && AllLowered(c, d)
    ensures AllLowered(a + c, b + d)
  {
  }

  lemma GroupRowsLowered(
    plain: Cycle, skipping: Cycle, fetch: Request -> Option<int>,
    orders: seq<seq<TopicPartition>>, skipOrders: seq<seq<TopicPartition>>, i: nat, order: seq<TopicPartition>)
    requires DifferInSkip(plain, skipping, fetch, orders, skipOrders)
    requires i < |plain.snapshot.groups| && forall tp :: tp in order ==> tp in plain.snapshot.groups[i].offsets
    ensures var g := plain.snapshot.groups[i];
      AllLowered(PartitionRows(plain, g, order), PartitionRows(skipping, g, order))
  {
    var g := plain.snapshot.groups[i];
    forall j | 0 <= j < |order|
      ensures Lowered(PartitionRows(plain, g, order)[j], PartitionRows(skipping, g, order)[j])
    {
      assert order[j] in order;
      SkipChangesOnlyLostSeconds(plain, skipping, fetch, orders, skipOrders, i, order[j]);
    }
  }

  lemma {:induction false} LoweredUpTo(
    plain: Cycle, skipping: Cycle, fetch: Request -> Option<int>,
    orders: seq<seq<TopicPartition>>, skipOrders: seq<seq<TopicPartition>>,
    n: nat, rowOrders: seq<seq<TopicPartition>>)
    requires DifferInSkip(plain, skipping, fetch, orders, skipOrders)
    requires n <= |plain.snapshot.groups| && GroupOrders(plain.snapshot.groups[..n], rowOrders)
    ensures AllLowered(AllPartitionRows(plain, plain.snapshot.groups[..n], rowOrders),
                       AllPartitionRows(skipping, plain.snapshot.groups[..n], rowOrders))
  {
    if n > 0 {
      var groups := plain.snapshot.groups;
      assert groups[..n][..n - 1] == groups[..n - 1];
      LoweredUpTo(plain, skipping, fetch, orders, skipOrders, n - 1, rowOrders[..n - 1]);
      GroupRowsLowered(plain, skipping, fetch, orders, skipOrders, n - 1, rowOrders[n - 1]);
      AllLoweredConcat(
        AllPartitionRows(plain, groups[..n - 1], rowOrders[..n - 1]),
        AllPartitionRows(skipping, groups[..n - 1], rowOrders[..n - 1]),
        PartitionRows(plain, groups[n - 1], rowOrders[n - 1]),
        PartitionRows(skipping, groups[n - 1], rowOrders[n - 1]));
    }
  }

  lemma {:induction false} LoweredCount(
    a: seq<PartitionLagMetric>, b: seq<PartitionLagMetric>, flagged: PartitionLagMetric -> bool)
    requires AllLowered(a, b) && flagged in {IsCompacted, IsDataLoss}
    ensures CountIf(a, flagged) == CountIf(b, flagged)
  {
    if a != [] {
      LoweredCount(a[..|a| - 1], b[..|b| - 1], flagged);
      assert Lowered(a[|a| - 1], b[|b| - 1]);
    }
  }

  lemma {:induction false} TopicRowsIgnoreTimestamps(
    c: Cycle, timestamps: Timestamps, groups: seq<GroupSnapshot>, orders: seq<seq<string>>)
    requires TopicOrders(c, groups, orders)
    ensures TopicOrders(c.(timestamps := timestamps), groups, orders)
    ensures AllTopicRows(c.(timestamps := timestamps), groups, orders) == AllTopicRows(c, groups, orders)
  {
    if groups != [] {
      var n := |groups| - 1;
      TopicRowsIgnoreTimestamps(c, timestamps, groups[..n], orders[..n]);
    }
  }

  /** The plain cycle's report in the order of a given skipping one. */
  ghost function PlainInOrder(plain: Cycle, a: LagMetrics, b: LagMetrics, orders: seq<seq<TopicPartition>>): LagMetrics
    requires GroupOrders(plain.snapshot.groups, orders)
  {
    a.(partitionMetrics := AllPartitionRows(plain, plain.snapshot.groups, orders),
       topicMetrics := b.topicMetrics, partitionOffsets := b.partitionOffsets)
  }

  lemma PlainInOrderIsReport(
    plain: Cycle, skipping: Cycle, fetch: Request -> Option<int>,
    orders: seq<seq<TopicPartition>>, skipOrders: seq<seq<TopicPartition>>,
    a: LagMetrics, b: LagMetrics, rowOrders: seq<seq<TopicPartition>>, topicOrders: seq<seq<string>>,
    offsetOrder: seq<TopicPartition>)
    requires DifferInSkip(plain, skipping, fetch, orders, skipOrders)
    requires IsSomeReport(plain, a) && IsReport(skipping, b, rowOrders, topicOrders, offsetOrder)
    ensures IsReport(plain, PlainInOrder(plain, a, b, rowOrders), rowOrders, topicOrders, offsetOrder)
  {
    var groups := plain.snapshot.groups;
    TopicRowsIgnoreTimestamps(skipping, plain.timestamps, groups, topicOrders);
    assert skipping.(timestamps := plain.timestamps) == plain;
    var aOrders, aTopicOrders, aOffsetOrder :| IsReport(plain, a, aOrders, aTopicOrders, aOffsetOrder);
    FlagCountUpTo(plain, groups, aOrders, IsCompacted);
    FlagCountUpTo(plain, groups, aOrders, IsDataLoss);
    FlagCountUpTo(plain, groups, rowOrders, IsCompacted);
    FlagCountUpTo(plain, groups, rowOrders, IsDataLoss);
  }

  /** Whatever orders the two cycles took, their reports differ only by the time
      lags of partitions with data loss and the groups' largest time lags, none
      of which the flag raises: topic rows, offset rows and both counters stay. */
  lemma SkipKeepsTheRest(
    plain: Cycle, skipping: Cycle, fetch: Request -> Option<int>,
    orders: seq<seq<TopicPartition>>, skipOrders: seq<seq<TopicPartition>>, a: LagMetrics, b: LagMetrics)
    requires DifferInSkip(plain, skipping, fetch, orders, skipOrders)
    requires IsSomeReport(plain, a) && IsSomeReport(skipping, b)
    ensures b == a.(partitionMetrics := b.partitionMetrics, groupMetrics := b.groupMetrics,
                    topicMetrics := b.topicMetrics, partitionOffsets := b.partitionOffsets)
    ensures multiset(b.topicMetrics) == multiset(a.topicMetrics)
    ensures multiset(b.partitionOffsets) == multiset(a.partitionOffsets)
    ensures exists rows :: multiset(rows) == multiset(a.partitionMetrics) && AllLowered(rows, b.partitionMetrics)
    ensures |b.groupMetrics| == |a.groupMetrics|
    ensures forall i :: 0 <= i < |a.groupMetrics| ==> GroupLowered(a.groupMetrics[i], b.groupMetrics[i])
  {
    var groups := plain.snapshot.groups;
    var rowOrders, topicOrders, offsetOrder :| IsReport(skipping, b, rowOrders, topicOrders, offsetOrder);
    var same := PlainInOrder(plain, a, b, rowOrders);
    PlainInOrderIsReport(plain, skipping, fetch, orders, skipOrders, a, b, rowOrders, topicOrders, offsetOrder);
    assert IsSomeReport(plain, same);
    ReportsArePermutations(plain, a, same);
    assert groups[..|groups|] == groups;
    LoweredUpTo(plain, skipping, fetch, orders, skipOrders, |groups|, rowOrders);
    LoweredCount(same.partitionMetrics, b.partitionMetrics, IsCompacted);
    LoweredCount(same.partitionMetrics, b.partitionMetrics, IsDataLoss);
    forall i | 0 <= i < |a.groupMetrics| ensures GroupLowered(a.groupMetrics[i], b.groupMetrics[i]) {
      SkipLowersGroupSeconds(plain, skipping, fetch, orders, skipOrders, i, a.groupMetrics[i], b.groupMetrics[i]);
    }
  }
}
