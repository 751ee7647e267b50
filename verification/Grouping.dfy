/** Grouping points by metric name and printing them, for any way of naming
    metrics (`render_prometheus_with_staleness_check` and `get_otel_metrics` in
    `src/metrics/registry.rs`). A value is printed by the formatter of the
    standard library, so a line here is a record of its parts; HELP texts are
    looked up by name and left out. */
module Grouping {
  import opened Basics
  import opened Strings
  import opened Series

  type Naming = Metric -> string

  datatype Line =
    | Help(name: string)
    | Type(name: string)
    | Sample(point: MetricPoint)
    | Plain(name: string, value: real)
    | LastUpdate(cluster: string, timestamp: nat)

  const SCRAPE_DURATION := "kafka_lag_exporter_scrape_duration_seconds"
  const UP := "kafka_lag_exporter_up"
  const LAST_UPDATE := "kafka_lag_exporter_last_update_timestamp_seconds"

  // ---- grouping by name ----

  function Names(points: seq<MetricPoint>, nameOf: Naming): set<string> {
    set p | p in points :: nameOf(p.metric)
  }

  /** The points of one name, in their order. */
  function Named(points: seq<MetricPoint>, nameOf: Naming, name: string): seq<MetricPoint> {
    if points == [] then []
    else
      var front, last := points[..|points| - 1], points[|points| - 1];
      Named(front, nameOf, name) + if nameOf(last.metric) == name then [last] else []
  }

  function Samples(points: seq<MetricPoint>): (lines: seq<Line>)
    ensures |lines| == |points|
  {
    seq(|points|, i requires 0 <= i < |points| => Sample(points[i]))
  }

  function Block(points: seq<MetricPoint>, nameOf: Naming, name: string): seq<Line> {
    [Help(name), Type(name)] + Samples(Named(points, nameOf, name))
  }

  function Blocks(points: seq<MetricPoint>, nameOf: Naming, names: seq<string>): seq<Line> {
    if names == [] then []
    else Blocks(points, nameOf, names[..|names| - 1]) + Block(points, nameOf, names[|names| - 1])
  }

  /** The lines for all points: one block for each name, names ascending. */
  ghost function PointLines(points: seq<MetricPoint>, nameOf: Naming): seq<Line> {
    Blocks(points, nameOf, SortKeys(Names(points, nameOf)))
  }

  /** `byName` holds under `name` the points of that name, and nothing when
      there are none. */
  ghost predicate GroupedAt(
    points: seq<MetricPoint>, nameOf: Naming, byName: map<string, seq<MetricPoint>>, name: string)
  {
    && (name in byName <==> name in Names(points, nameOf))
    && Named(points, nameOf, name) == if name in byName then byName[name] else []
  }

  function AddNamed(byName: map<string, seq<MetricPoint>>, name: string, p: MetricPoint): map<string, seq<MetricPoint>> {
    byName[name := (if name in byName then byName[name] else []) + [p]]
  }

  lemma NamesGrow(points: seq<MetricPoint>, nameOf: Naming, p: MetricPoint)
    ensures Names(points + [p], nameOf) == Names(points, nameOf) + {nameOf(p.metric)}
  {
  }

  lemma GroupedGrows(
    points: seq<MetricPoint>, nameOf: Naming, byName: map<string, seq<MetricPoint>>, p: MetricPoint, name: string)
    requires GroupedAt(points, nameOf, byName, name)
    ensures GroupedAt(points + [p], nameOf, AddNamed(byName, nameOf(p.metric), p), name)
  {
    NamesGrow(points, nameOf, p);
    assert (points + [p])[..|points|] == points;
  }

  method GroupByName(points: seq<MetricPoint>, nameOf: Naming) returns (byName: map<string, seq<MetricPoint>>)
    ensures byName.Keys == Names(points, nameOf)
    ensures forall name :: name in byName ==> byName[name] == Named(points, nameOf, name)
  {
    byName := map[];
    for i := 0 to |points|
      invariant forall name :: GroupedAt(points[..i], nameOf, byName, name)
    {
      forall name
        ensures GroupedAt(
          points[..i] + [points[i]], nameOf, AddNamed(byName, nameOf(points[i].metric), points[i]), name)
      {
        GroupedGrows(points[..i], nameOf, byName, points[i], name);
      }
      assert points[..i + 1] == points[..i] + [points[i]];
      byName := AddNamed(byName, nameOf(points[i].metric), points[i]);
    }
    assert points[..|points|] == points;
    forall name ensures (name in byName <==> name in Names(points, nameOf))
      && (name in byName ==> byName[name] == Named(points, nameOf, name))
    {
      assert GroupedAt(points, nameOf, byName, name);
    }
  }

  lemma OneMoreBlock(points: seq<MetricPoint>, nameOf: Naming, names: seq<string>, i: nat)
    requires i < |names|
    ensures Blocks(points, nameOf, names[..i + 1]) == Blocks(points, nameOf, names[..i]) + Block(points, nameOf, names[i])
  {
    assert names[..i + 1][..i] == names[..i];
  }

  /** The HELP and TYPE lines of a name, and its points. */
  method EmitBlock(name: string, points: seq<MetricPoint>) returns (lines: seq<Line>)
    ensures lines == [Help(name), Type(name)] + Samples(points)
  {
    lines := [Help(name), Type(name)];
    for i := 0 to |points|
      invariant lines == [Help(name), Type(name)] + Samples(points[..i])
    {
      assert Samples(points[..i + 1]) == Samples(points[..i]) + [Sample(points[i])];
      lines := lines + [Sample(points[i])];
    }
    assert points[..|points|] == points;
  }

  method EmitBlocks(points: seq<MetricPoint>, nameOf: Naming) returns (lines: seq<Line>)
    ensures lines == PointLines(points, nameOf)
  {
    var byName := GroupByName(points, nameOf);
    var names := SortNames(byName.Keys);
    lines := [];
    for i := 0 to |names|
      invariant lines == Blocks(points, nameOf, names[..i])
    {
      assert names[i] in byName;
      OneMoreBlock(points, nameOf, names, i);
      var block := EmitBlock(names[i], byName[names[i]]);
      lines := lines + block;
    }
    assert names[..|names|] == names;
  }

  // ---- nothing lost, nothing duplicated ----

  function IsPoint(p: MetricPoint): MetricPoint -> bool {
    q => q == p
  }

  function IsSampleOf(p: MetricPoint): Line -> bool {
    l => l == Sample(p)
  }

  ghost function Occurrences(points: seq<MetricPoint>, p: MetricPoint): nat {
    CountIf(points, IsPoint(p))
  }

  ghost function SampleCount(lines: seq<Line>, p: MetricPoint): nat {
    CountIf(lines, IsSampleOf(p))
  }

  lemma {:induction false} OccursMeansMember(points: seq<MetricPoint>, p: MetricPoint)
    ensures Occurrences(points, p) > 0 <==> p in points
  {
    if points != [] {
      OccursMeansMember(points[..|points| - 1], p);
      assert points == points[..|points| - 1] + [points[|points| - 1]];
    }
  }

  lemma {:induction false} SamplesCount(points: seq<MetricPoint>, p: MetricPoint)
    ensures SampleCount(Samples(points), p) == Occurrences(points, p)
  {
    if points != [] {
      SamplesCount(points[..|points| - 1], p);
      assert Samples(points)[..|points| - 1] == Samples(points[..|points| - 1]);
    }
  }

  lemma {:induction false} NamedCount(points: seq<MetricPoint>, nameOf: Naming, name: string, p: MetricPoint)
    ensures Occurrences(Named(points, nameOf, name), p) == if nameOf(p.metric) == name then Occurrences(points, p) else 0
  {
    if points != [] {
      var front, last := points[..|points| - 1], points[|points| - 1];
      NamedCount(front, nameOf, name, p);
      if nameOf(last.metric) == name {
        assert (Named(front, nameOf, name) + [last])[..|Named(front, nameOf, name)|] == Named(front, nameOf, name);
      } else {
        assert Named(points, nameOf, name) == Named(front, nameOf, name);
      }
    }
  }

  lemma BlockCount(points: seq<MetricPoint>, nameOf: Naming, name: string, p: MetricPoint)
    ensures SampleCount(Block(points, nameOf, name), p) == if nameOf(p.metric) == name then Occurrences(points, p) else 0
  {
    var head := [Help(name), Type(name)];
    CountIfConcat(head, Samples(Named(points, nameOf, name)), IsSampleOf(p));
    var help := [Help(name)];
    assert help[..0] == [] && head[..1] == help;
    assert CountIf(help[..0], IsSampleOf(p)) == 0;
    assert SampleCount(help, p) == 0 && SampleCount(head, p) == 0;
    SamplesCount(Named(points, nameOf, name), p);
    NamedCount(points, nameOf, name, p);
  }

  ghost predicate CountsOwnName(points: seq<MetricPoint>, nameOf: Naming, p: MetricPoint, own: string, name: string) {
    SampleCount(Block(points, nameOf, name), p) == if own == name then Occurrences(points, p) else 0
  }

  lemma {:induction false} BlocksCount(
    points: seq<MetricPoint>, nameOf: Naming, names: seq<string>, p: MetricPoint, own: string)
    requires Distinct(names)
    requires forall name :: CountsOwnName(points, nameOf, p, own, name)
    ensures SampleCount(Blocks(points, nameOf, names), p) == if own in names then Occurrences(points, p) else 0
  {
    if names != [] {
      var front, last := names[..|names| - 1], names[|names| - 1];
      BlocksCount(points, nameOf, front, p, own);
      assert CountsOwnName(points, nameOf, p, own, last);
      CountIfConcat(Blocks(points, nameOf, front), Block(points, nameOf, last), IsSampleOf(p));
      OwnIsInFrontOrLast(names, own);
    }
  }

  lemma OwnIsInFrontOrLast(names: seq<string>, own: string)
    requires names != [] && Distinct(names)
    ensures var front, last := names[..|names| - 1], names[|names| - 1];
      (own in names <==> own in front || own == last) && last !in front
  {
    assert names == names[..|names| - 1] + [names[|names| - 1]];
  }

  lemma {:induction false} OccursMeansNamed(points: seq<MetricPoint>, nameOf: Naming, p: MetricPoint)
    ensures Occurrences(points, p) > 0 ==> nameOf(p.metric) in Names(points, nameOf)
  {
    if points != [] {
      var front := points[..|points| - 1];
      OccursMeansNamed(front, nameOf, p);
      assert forall q :: q in front ==> q in points;
      assert points[|points| - 1] in points;
    }
  }

  /** Grouping by name prints every point exactly as often as it is there. */
  lemma NothingLostOrDuplicated(points: seq<MetricPoint>, nameOf: Naming, p: MetricPoint)
    ensures SampleCount(PointLines(points, nameOf), p) == Occurrences(points, p)
  {
    AscendingIsDistinct(SortKeys(Names(points, nameOf)));
    forall name ensures CountsOwnName(points, nameOf, p, nameOf(p.metric), name) {
      BlockCount(points, nameOf, name, p);
    }
    BlocksCount(points, nameOf, SortKeys(Names(points, nameOf)), p, nameOf(p.metric));
    OccursMeansNamed(points, nameOf, p);
  }

  // ---- one block for each name ----

  function LineName(l: Line, nameOf: Naming): string {
    match l
    case Help(name) => name
    case Type(name) => name
    case Sample(p) => nameOf(p.metric)
    case Plain(name, _) => name
    case LastUpdate(_, _) => LAST_UPDATE
  }

  /** Line `i` opens its name's block exactly when it is a HELP line, and only a
      TYPE line follows it. */
  ghost predicate Opens(lines: seq<Line>, nameOf: Naming, i: nat)
    requires i < |lines|
  {
    && (lines[i].Help? <==> i == 0 || LineName(lines[i - 1], nameOf) != LineName(lines[i], nameOf))
    && (lines[i].Type? <==> i > 0 && lines[i - 1].Help?)
  }

  ghost predicate Ascends(lines: seq<Line>, nameOf: Naming, i: nat, j: nat)
    requires i < |lines| && j < |lines|
  {
    var (a, b) := (LineName(lines[i], nameOf), LineName(lines[j], nameOf));
    a == b || LexLess(a, b)
  }

  /** Names ascend, so the lines of one name are contiguous; a HELP line stands
      exactly where a name begins, and a TYPE line exactly after a HELP line. */
  ghost predicate WellGrouped(lines: seq<Line>, nameOf: Naming) {
    && (forall i: nat, j: nat :: i < j < |lines| ==> Ascends(lines, nameOf, i, j))
    && (forall i: nat :: i < |lines| ==> Opens(lines, nameOf, i))
  }

  lemma {:induction false} NamedHasName(points: seq<MetricPoint>, nameOf: Naming, name: string)
    ensures forall p :: p in Named(points, nameOf, name) ==> nameOf(p.metric) == name
  {
    if points != [] {
      NamedHasName(points[..|points| - 1], nameOf, name);
    }
  }

  lemma BlockLines(points: seq<MetricPoint>, nameOf: Naming, name: string)
    ensures var b := Block(points, nameOf, name);
      && |b| >= 2 && b[0] == Help(name) && b[1] == Type(name)
      && (forall i :: 0 <= i < |b| ==> LineName(b[i], nameOf) == name)
      && (forall i :: 2 <= i < |b| ==> b[i].Sample?)
  {
    NamedHasName(points, nameOf, name);
    var named := Named(points, nameOf, name);
    assert forall i :: 0 <= i < |named| ==> named[i] in named;
  }

  lemma AppendOpens(lines: seq<Line>, b: seq<Line>, nameOf: Naming, name: string, j: nat)
    requires j < |b| && LineName(b[j], nameOf) == name
    requires lines != [] ==> LineName(lines[|lines| - 1], nameOf) != name && !lines[|lines| - 1].Help?
    requires if j == 0 then b[j].Help? else if j == 1 then b[j].Type? else b[j].Sample?
    requires j > 0 ==> LineName(b[j - 1], nameOf) == name && (b[j - 1].Help? <==> j == 1)
    ensures Opens(lines + b, nameOf, |lines| + j)
  {
    var all, i := lines + b, |lines| + j;
    assert all[i] == b[j];
    if j == 0 {
      assert i > 0 ==> all[i - 1] == lines[i - 1];
    } else {
      assert all[i - 1] == b[j - 1];
    }
  }

  lemma AppendAscends(lines: seq<Line>, b: seq<Line>, nameOf: Naming, name: string, i: nat, j: nat)
    requires i < j < |lines + b|
    requires j < |lines| ==> Ascends(lines, nameOf, i, j)
    requires i < |lines| <= j ==> LexLess(LineName(lines[i], nameOf), name)
    requires i >= |lines| ==> LineName(b[i - |lines|], nameOf) == name
    requires j >= |lines| ==> LineName(b[j - |lines|], nameOf) == name
    ensures Ascends(lines + b, nameOf, i, j)
  {
    assert (lines + b)[i] == if i < |lines| then lines[i] else b[i - |lines|];
    assert (lines + b)[j] == if j < |lines| then lines[j] else b[j - |lines|];
  }

  lemma KeepsOpens(lines: seq<Line>, b: seq<Line>, nameOf: Naming, i: nat)
    requires i < |lines| && Opens(lines, nameOf, i)
    ensures Opens(lines + b, nameOf, i)
  {
    assert (lines + b)[i] == lines[i] && (i > 0 ==> (lines + b)[i - 1] == lines[i - 1]);
  }

  lemma AppendBlock(lines: seq<Line>, points: seq<MetricPoint>, nameOf: Naming, name: string)
    requires WellGrouped(lines, nameOf)
    requires forall i :: 0 <= i < |lines| ==> LexLess(LineName(lines[i], nameOf), name)
    requires lines != [] ==> lines[|lines| - 1].Type? || lines[|lines| - 1].Sample?
    ensures WellGrouped(lines + Block(points, nameOf, name), nameOf)
  {
    var b := Block(points, nameOf, name);
    BlockLines(points, nameOf, name);
    LexTrichotomy(name, name);
    forall i: nat, j: nat | i < j < |lines + b| ensures Ascends(lines + b, nameOf, i, j) {
      AppendAscends(lines, b, nameOf, name, i, j);
    }
    forall i: nat | i < |lines + b| ensures Opens(lines + b, nameOf, i) {
      if i < |lines| {
        KeepsOpens(lines, b, nameOf, i);
      } else {
        AppendOpens(lines, b, nameOf, name, i - |lines|);
      }
    }
  }

  lemma {:induction false} BlocksWellGrouped(points: seq<MetricPoint>, nameOf: Naming, names: seq<string>)
    requires StrictlyAscending(names)
    ensures var lines := Blocks(points, nameOf, names);
      && WellGrouped(lines, nameOf)
      && (forall i :: 0 <= i < |lines| ==> LineName(lines[i], nameOf) in names)
      && (lines != [] ==> lines[|lines| - 1].Type? || lines[|lines| - 1].Sample?)
  {
    if names != [] {
      var front, last := names[..|names| - 1], names[|names| - 1];
      BlocksWellGrouped(points, nameOf, front);
      BlockLines(points, nameOf, last);
      AppendBlock(Blocks(points, nameOf, front), points, nameOf, last);
    }
  }

  /** The printed points form one contiguous block for each name, in ascending
      order of names, each opened by its one HELP and one TYPE line. */
  lemma PointLinesAreGrouped(points: seq<MetricPoint>, nameOf: Naming)
    ensures var lines := PointLines(points, nameOf);
      && WellGrouped(lines, nameOf)
      && forall i :: 0 <= i < |lines| ==> LineName(lines[i], nameOf) in Names(points, nameOf)
  {
    BlocksWellGrouped(points, nameOf, SortKeys(Names(points, nameOf)));
  }
}
