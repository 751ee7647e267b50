/** `fetch_watermarks_for_partitions` in `src/kafka/client.rs` and the per-entry
    handling of `list_offsets_batched` below it: two separate reads, EARLIEST
    first, merged with one fallback for each side that stayed silent. */
module Watermarks {
  import opened Basics

  type Offsets = map<TopicPartition, int>

  /** A partition's (low, high) pair. */
  type Marks = map<TopicPartition, (int, int)>

  /** One entry of a ListOffsets response. */
  datatype OffsetInfo = OffsetInfo(tp: TopicPartition, failed: bool, offset: int)

  function Answered(infos: seq<OffsetInfo>): Offsets {
    if infos == [] then map[]
    else
      var front, last := infos[..|infos| - 1], infos[|infos| - 1];
      if last.failed then Answered(front) else Answered(front)[last.tp := last.offset]
  }

  /** Entry `i` is the last one for the partition that has no error. */
  ghost predicate IsLastGood(infos: seq<OffsetInfo>, tp: TopicPartition, i: int) {
    && 0 <= i < |infos| && !infos[i].failed && infos[i].tp == tp
    && forall j :: i < j < |infos| ==> infos[j].failed || infos[j].tp != tp
  }

  ghost predicate HasGood(infos: seq<OffsetInfo>, tp: TopicPartition) {
    exists i :: 0 <= i < |infos| && !infos[i].failed && infos[i].tp == tp
  }

  lemma HasGoodStep(infos: seq<OffsetInfo>, tp: TopicPartition)
    requires infos != []
    ensures var last := infos[|infos| - 1];
      HasGood(infos, tp) <==> (!last.failed && last.tp == tp) || HasGood(infos[..|infos| - 1], tp)
  {
    var front := infos[..|infos| - 1];
    if i :| 0 <= i < |front| && !front[i].failed && front[i].tp == tp {
      assert !infos[i].failed && infos[i].tp == tp;
    }
  }

  /** A partition is answered exactly when it has an entry without an error, by
      the last of them. */
  lemma {:induction false} AnsweredIsLastGoodEntry(infos: seq<OffsetInfo>, tp: TopicPartition)
    ensures tp in Answered(infos) <==> HasGood(infos, tp)
    ensures tp in Answered(infos) ==> exists i :: IsLastGood(infos, tp, i) && Answered(infos)[tp] == infos[i].offset
  {
    if infos != [] {
      var n := |infos| - 1;
      AnsweredIsLastGoodEntry(infos[..n], tp);
      HasGoodStep(infos, tp);
      if !infos[n].failed && infos[n].tp == tp {
        assert IsLastGood(infos, tp, n);
      } else if tp in Answered(infos[..n]) {
        var i :| IsLastGood(infos[..n], tp, i) && Answered(infos[..n])[tp] == infos[..n][i].offset;
        assert IsLastGood(infos, tp, i);
      }
    }
  }

  /** Entries with an error are left out; the others are kept. */
  method ListOffsets(infos: seq<OffsetInfo>) returns (out: Offsets)
    ensures out == Answered(infos)
  {
    out := map[];
    for i := 0 to |infos|
      invariant out == Answered(infos[..i])
    {
      assert infos[..i + 1][..i] == infos[..i];
      if infos[i].failed {
        continue;
      }
      out := out[infos[i].tp := infos[i].offset];
    }
    assert infos[..|infos|] == infos;
  }

  /** The two answers side by side: a missing EARLIEST is replaced by LATEST,
      a missing LATEST by EARLIEST. */
  ghost predicate IsMerge(lows: Offsets, highs: Offsets, merged: Marks) {
    && merged.Keys == lows.Keys + highs.Keys
    && (forall tp :: tp in lows && tp in highs ==> merged[tp] == (lows[tp], highs[tp]))
    && (forall tp :: tp !in lows && tp in highs ==> merged[tp] == (highs[tp], highs[tp]))
    && (forall tp :: tp in lows && tp !in highs ==> merged[tp] == (lows[tp], lows[tp]))
  }

  /** `lows` and `highs` are hash maps: each is visited in an arbitrary order. */
  method MergeWatermarks(lows: Offsets, highs: Offsets) returns (merged: Marks)
    ensures IsMerge(lows, highs, merged)
  {
    merged := map[];
    var todo := highs.Keys;
    while todo != {}
      invariant todo <= highs.Keys
      invariant merged.Keys == highs.Keys - todo
      invariant forall tp :: tp in merged ==> merged[tp] == (if tp in lows then lows[tp] else highs[tp], highs[tp])
      decreases todo
    {
      var tp :| tp in todo;
      todo := todo - {tp};
      var low := if tp in lows then lows[tp] else highs[tp];
      merged := merged[tp := (low, highs[tp])];
    }
    todo := lows.Keys;
    while todo != {}
      invariant todo <= lows.Keys
      invariant merged.Keys == highs.Keys + (lows.Keys - todo)
      invariant forall tp :: tp in highs ==> merged[tp] == (if tp in lows then lows[tp] else highs[tp], highs[tp])
      invariant forall tp :: tp in merged && tp !in highs ==> merged[tp] == (lows[tp], lows[tp])
      decreases todo
    {
      var tp :| tp in todo;
      todo := todo - {tp};
      if tp !in merged {
        merged := merged[tp := (lows[tp], lows[tp])];
      }
    }
  }

  /** The merge is a function of the two answers, whatever order the maps had. */
  lemma MergeIsUnique(lows: Offsets, highs: Offsets, a: Marks, b: Marks)
    requires IsMerge(lows, highs, a) && IsMerge(lows, highs, b)
    ensures a == b
  {
    forall tp | tp in a ensures a[tp] == b[tp] {
      assert tp in lows || tp in highs;
    }
  }

  /** The whole fetch. A failed call fails the fetch, and a failed EARLIEST call
      means that LATEST is never asked. */
  method FetchWatermarks<E>(
    partitions: seq<TopicPartition>, earliest: Result<seq<OffsetInfo>, E>, latest: Result<seq<OffsetInfo>, E>)
    returns (r: Result<Marks, E>)
    ensures partitions == [] ==> r == Ok(map[])
    ensures partitions != [] && earliest.Err? ==> r == Err(earliest.error)
    ensures partitions != [] && earliest.Ok? && latest.Err? ==> r == Err(latest.error)
    ensures partitions != [] && earliest.Ok? && latest.Ok? ==>
              r.Ok? && IsMerge(Answered(earliest.value), Answered(latest.value), r.value)
  {
    if partitions == [] {
      return Ok(map[]);
    }
    if earliest.Err? {
      return Err(earliest.error);
    }
    var lows := ListOffsets(earliest.value);
    if latest.Err? {
      return Err(latest.error);
    }
    var highs := ListOffsets(latest.value);
    var merged := MergeWatermarks(lows, highs);
    r := Ok(merged);
  }
}
