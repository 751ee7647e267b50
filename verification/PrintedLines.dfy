/** Everything `render_prometheus_with_staleness_check` prints
    (`src/metrics/registry.rs`): no two lines begin alike. */
module PrintedLines {
  import opened Basics
  import opened Strings
  import opened Labels
  import opened Series
  import opened UniqueSeries
  import opened Grouping
  import opened Registry
  import opened RegistrySeries
  import Rendering

  // ---- what a line begins with ----

  /** What stands before the value of a line, or before the text of a comment. */
  ghost function HeadOf(l: Line): string {
    match l
    case Help(name) => "# HELP " + name
    case Type(name) => "# TYPE " + name
    case Sample(point) => LineHead(point)
    case Plain(name, _) => name
    case LastUpdate(cluster, _) => LAST_UPDATE + ("{" + CLUSTER_NAME + "=\"" + cluster + "\"}")
  }

  /** The two lines are of one kind and about the same thing. */
  ghost predicate Alike(a: Line, b: Line) {
    match a
    case Help(name) => b.Help? && b.name == name
    case Type(name) => b.Type? && b.name == name
    case Sample(point) => b.Sample? && SameSeries(point, b.point)
    case Plain(name, _) => b.Plain? && b.name == name
    case LastUpdate(cluster, _) => b.LastUpdate? && b.cluster == cluster
  }

  /** The lines that are ever printed. */
  ghost predicate Printable(l: Line) {
    && (l.Sample? ==> PlainNames(l.point.labels))
    && (l.Plain? ==> l.name in {SCRAPE_DURATION, UP})
  }

  lemma CommentHeads(name: string, other: string)
    ensures "# HELP " + name != "# TYPE " + other
    ensures "# HELP " + name == "# HELP " + other ==> name == other
    ensures "# TYPE " + name == "# TYPE " + other ==> name == other
  {
    assert ("# HELP " + name)[2] == 'H' && ("# TYPE " + other)[2] == 'T';
    assert ("# HELP " + name)[7..] == name && ("# HELP " + other)[7..] == other;
    assert ("# TYPE " + name)[7..] == name && ("# TYPE " + other)[7..] == other;
  }

  lemma StampHead(cluster: string, other: string)
    ensures HeadOf(LastUpdate(cluster, 0)) == HeadOf(LastUpdate(other, 0)) ==> cluster == other
  {
    Enclosed(LAST_UPDATE, "{" + CLUSTER_NAME + "=\"", "\"}", cluster, other);
  }

  lemma Enclosed(name: string, before: string, after: string, a: string, b: string)
    ensures name + (before + a + after) == name + (before + b + after) ==> a == b
  {
    var (x, y) := (name + (before + a + after), name + (before + b + after));
    var start := |name| + |before|;
    assert x[start..|x| - |after|] == a && y[start..|y| - |after|] == b;
  }

  /** Which kind of line begins like this. */
  function KindOf(head: string): nat {
    if |head| > 5 && head[5] != '_' then 0
    else if |head| < 29 then 1
    else if head[20] == 'c' then 2
    else if head[20] == 'a' && head[26] == 'd' then 3
    else 4
  }

  lemma OwnKinds(cluster: string)
    ensures KindOf(UP) == 1 && KindOf(SCRAPE_DURATION) == 2 && KindOf(HeadOf(LastUpdate(cluster, 0))) == 3
  {
    Rendering.OwnNameShapes();
    assert UP[5] == '_' && SCRAPE_DURATION[5] == '_' && LAST_UPDATE[5] == '_';
    var rest := "{" + CLUSTER_NAME + "=\"" + cluster + "\"}";
    var head := LAST_UPDATE + rest;
    assert head[5] == LAST_UPDATE[5] && head[20] == LAST_UPDATE[20] && head[26] == LAST_UPDATE[26];
  }

  lemma NameStarts(m: Metric)
    ensures "kafka_" <= m.Name()
  {
  }

  lemma SampleKind(p: MetricPoint)
    ensures KindOf(LineHead(p)) == 4
  {
    NameShape(p.metric);
    NameStarts(p.metric);
    var (name, head) := (p.metric.Name(), LineHead(p));
    assert name[5] == "kafka_"[5];
    assert head[5] == name[5] && head[20] == name[20] && head[26] == name[26];
  }

  lemma LineKind(l: Line)
    requires Printable(l)
    ensures KindOf(HeadOf(l)) ==
      match l
      case Help(_) => 0
      case Type(_) => 0
      case Sample(_) => 4
      case Plain(name, _) => if name == UP then 1 else 2
      case LastUpdate(_, _) => 3
  {
    match l {
      case Help(name) => assert ("# HELP " + name)[5] == 'P';
      case Type(name) => assert ("# TYPE " + name)[5] == 'E';
      case Sample(point) => SampleKind(point);
      case Plain(_, _) => OwnKinds("");
      case LastUpdate(cluster, _) => OwnKinds(cluster);
    }
  }

  /** Lines that are not alike already differ in what they begin with. */
  lemma HeadsTellApart(a: Line, b: Line)
    requires Printable(a) && Printable(b) && !Alike(a, b)
    ensures HeadOf(a) != HeadOf(b)
  {
    LineKind(a);
    LineKind(b);
    Rendering.OwnNameShapes();
    if KindOf(HeadOf(a)) == KindOf(HeadOf(b)) {
      match a {
        case Help(name) => CommentHeads(name, b.name);
        case Type(name) => CommentHeads(b.name, name); CommentHeads(name, b.name);
        case Sample(point) => HeadsDiffer(point, b.point);
        case Plain(_, _) =>
        case LastUpdate(cluster, _) => StampHead(cluster, b.cluster);
      }
    }
  }

  // ---- no two printed lines are alike ----

  ghost predicate NoneAlike(lines: seq<Line>) {
    forall i, j :: 0 <= i < j < |lines| ==> !Alike(lines[i], lines[j])
  }

  lemma NoneAlikeConcat(a: seq<Line>, b: seq<Line>)
    requires NoneAlike(a) && NoneAlike(b) && forall x, y :: x in a && y in b ==> !Alike(x, y)
    ensures NoneAlike(a + b)
  {
    forall i, j | 0 <= i < j < |a + b| ensures !Alike((a + b)[i], (a + b)[j]) {
      if i < |a| <= j {
        assert a[i] in a && b[j - |a|] in b;
      }
    }
  }

  lemma {:induction false} UniqueOccursOnce(points: seq<MetricPoint>, p: MetricPoint)
    requires Unique(points)
    ensures Occurrences(points, p) <= 1
  {
    if points != [] {
      var front := points[..|points| - 1];
      UniqueOccursOnce(front, p);
      OccursMeansMember(front, p);
      if p in front {
        var i :| 0 <= i < |front| && front[i] == p;
        assert !SameSeries(points[i], points[|points| - 1]);
      }
    }
  }

  lemma {:induction false} LinesAreCounted(lines: seq<Line>, i: nat, p: MetricPoint)
    requires i < |lines| && lines[i] == Sample(p)
    ensures SampleCount(lines, p) >= 1
  {
    if i < |lines| - 1 {
      LinesAreCounted(lines[..|lines| - 1], i, p);
    }
  }

  lemma {:induction false} RepeatedLinesAreCounted(lines: seq<Line>, i: nat, j: nat, p: MetricPoint)
    requires i < j < |lines| && lines[i] == lines[j] == Sample(p)
    ensures SampleCount(lines, p) >= 2
  {
    if j < |lines| - 1 {
      RepeatedLinesAreCounted(lines[..|lines| - 1], i, j, p);
    } else {
      LinesAreCounted(lines[..j], i, p);
    }
  }

  ghost predicate SamplesDiffer(points: seq<MetricPoint>, a: Line, b: Line) {
    a.Sample? && b.Sample? ==> a.point in points && b.point in points && !SameSeries(a.point, b.point)
  }

  lemma PrintedSeriesAreUnique(points: seq<MetricPoint>, i: nat, j: nat)
    requires Unique(points) && i < j
    ensures j < |PointLines(points, NameOf)| ==>
      SamplesDiffer(points, PointLines(points, NameOf)[i], PointLines(points, NameOf)[j])
  {
    var lines := PointLines(points, NameOf);
    if j < |lines| && lines[i].Sample? && lines[j].Sample? {
      var p, q := lines[i].point, lines[j].point;
      LinesAreCounted(lines, i, p);
      LinesAreCounted(lines, j, q);
      NothingLostOrDuplicated(points, NameOf, p);
      NothingLostOrDuplicated(points, NameOf, q);
      OccursMeansMember(points, p);
      OccursMeansMember(points, q);
      if p == q {
        RepeatedLinesAreCounted(lines, i, j, p);
        UniqueOccursOnce(points, p);
      } else {
        var m :| 0 <= m < |points| && points[m] == p;
        var n :| 0 <= n < |points| && points[n] == q;
        assert m != n;
      }
    }
  }

  lemma NamesStay(lines: seq<Line>, i: nat, j: nat)
    requires WellGrouped(lines, NameOf) && i < j < |lines|
    requires LineName(lines[i], NameOf) == LineName(lines[j], NameOf)
    ensures !lines[j].Help?
  {
    assert Opens(lines, NameOf, j);
    if i < j - 1 {
      assert Ascends(lines, NameOf, i, j - 1) && Ascends(lines, NameOf, j - 1, j);
      LexTrichotomy(LineName(lines[i], NameOf), LineName(lines[j - 1], NameOf));
    }
  }

  lemma TypeFollowsHelp(lines: seq<Line>, j: nat)
    requires WellGrouped(lines, NameOf) && j < |lines| && lines[j].Type?
    ensures j > 0 && lines[j - 1] == Help(lines[j].name)
  {
    assert Opens(lines, NameOf, j);
  }

  /** A HELP or a TYPE line of one name is not printed twice. */
  lemma CommentsAreNotRepeated(lines: seq<Line>, i: nat, j: nat)
    requires WellGrouped(lines, NameOf) && i < j < |lines|
    ensures lines[i].Help? || lines[i].Type? ==> !Alike(lines[i], lines[j])
  {
    if lines[i].Help? && lines[i] == lines[j] {
      NamesStay(lines, i, j);
    } else if lines[i].Type? && lines[i] == lines[j] {
      TypeFollowsHelp(lines, i);
      TypeFollowsHelp(lines, j);
      NamesStay(lines, i - 1, j - 1);
    }
  }

  /** A line for one of these points, or a comment on one of their names. */
  ghost predicate OfPoints(l: Line, points: seq<MetricPoint>) {
    match l
    case Help(name) => name in Names(points, NameOf)
    case Type(name) => name in Names(points, NameOf)
    case Sample(point) => point in points
    case Plain(_, _) => false
    case LastUpdate(_, _) => false
  }

  lemma PointLineOf(points: seq<MetricPoint>, i: nat)
    ensures i < |PointLines(points, NameOf)| ==> OfPoints(PointLines(points, NameOf)[i], points)
  {
    var lines := PointLines(points, NameOf);
    if i < |lines| {
      PointLinesAreGrouped(points, NameOf);
      assert LineName(lines[i], NameOf) in Names(points, NameOf);
      PointLineKinds(points, SortKeys(Names(points, NameOf)), i);
      if lines[i].Sample? {
        LinesAreCounted(lines, i, lines[i].point);
        NothingLostOrDuplicated(points, NameOf, lines[i].point);
        OccursMeansMember(points, lines[i].point);
      }
    }
  }

  lemma {:induction false} PointLineKinds(points: seq<MetricPoint>, names: seq<string>, i: nat)
    requires i < |Blocks(points, NameOf, names)|
    ensures !Blocks(points, NameOf, names)[i].Plain? && !Blocks(points, NameOf, names)[i].LastUpdate?
  {
    var front := names[..|names| - 1];
    if i < |Blocks(points, NameOf, front)| {
      PointLineKinds(points, front, i);
    } else {
      BlockLines(points, NameOf, names[|names| - 1]);
    }
  }

  lemma PointLinesNoneAlike(points: seq<MetricPoint>)
    requires Unique(points)
    ensures NoneAlike(PointLines(points, NameOf))
  {
    var lines := PointLines(points, NameOf);
    PointLinesAreGrouped(points, NameOf);
    forall i, j | 0 <= i < j < |lines| ensures !Alike(lines[i], lines[j]) {
      PointLineOf(points, i);
      CommentsAreNotRepeated(lines, i, j);
      if lines[i].Sample? && lines[j].Sample? {
        PrintedSeriesAreUnique(points, i, j);
      }
    }
  }

  /** The lines are comments on this name, or its plain value. */
  ghost predicate OfName(lines: seq<Line>, name: string) {
    forall l :: l in lines ==> (l.Help? || l.Type? || l.Plain?) && l.name == name
  }

  lemma OtherNamesDiffer(a: seq<Line>, b: seq<Line>, name: string, other: string)
    requires OfName(a, name) && OfName(b, other) && name != other
    ensures forall x, y :: x in a && y in b ==> !Alike(x, y)
  {
  }

  lemma OwnBlock(name: string, value: real)
    ensures var lines := [Help(name), Type(name), Plain(name, value)]; NoneAlike(lines) && OfName(lines, name)
    ensures var lines := [Help(name), Type(name)]; NoneAlike(lines) && OfName(lines, name)
  {
  }

  lemma OwnLinesNoneAlike(
    durationName: string, upName: string, stampName: string, duration: real, up: real, stamped: bool)
    requires durationName != upName && durationName != stampName && upName != stampName
    ensures var own := OwnLines(durationName, upName, stampName, duration, up, stamped);
      && NoneAlike(own)
      && forall l :: l in own ==>
           && !l.Sample? && !l.LastUpdate?
           && l.name in {durationName, upName, stampName} && (l.Plain? ==> l.name != stampName)
  {
    var a, b := [Help(durationName), Type(durationName), Plain(durationName, duration)],
                [Help(upName), Type(upName), Plain(upName, up)];
    var c := if stamped then [Help(stampName), Type(stampName)] else [];
    OwnBlock(durationName, duration);
    OwnBlock(upName, up);
    OwnBlock(stampName, 0.0);
    OtherNamesDiffer(a, b, durationName, upName);
    OtherNamesDiffer(a, c, durationName, stampName);
    OtherNamesDiffer(b, c, upName, stampName);
    NoneAlikeConcat(a, b);
    NoneAlikeConcat(a + b, c);
  }

  lemma {:induction false} StampLineAt(stamps: map<string, nat>, order: seq<string>, i: nat)
    requires i < |order| && forall c :: c in order ==> c in stamps
    ensures |StampLines(stamps, order)| == |order|
    ensures StampLines(stamps, order)[i] == LastUpdate(order[i], stamps[order[i]])
    decreases order
  {
    var n := |order| - 1;
    if n > 0 {
      StampLineAt(stamps, order[..n], if i < n then i else 0);
    }
  }

  lemma StampLinesNoneAlike(stamps: map<string, nat>, order: seq<string>)
    requires Distinct(order) && forall c :: c in order ==> c in stamps
    ensures NoneAlike(StampLines(stamps, order))
    ensures forall l :: l in StampLines(stamps, order) ==> l.LastUpdate?
  {
    if order != [] {
      StampLineAt(stamps, order, 0);
      var lines := StampLines(stamps, order);
      forall i | 0 <= i < |lines| ensures lines[i] == LastUpdate(order[i], stamps[order[i]]) {
        StampLineAt(stamps, order, i);
      }
    }
  }

  lemma PointsAndOwnDiffer(points: seq<MetricPoint>, own: seq<Line>)
    requires forall l :: l in own ==> !l.Sample? && !l.LastUpdate? && l.name in {SCRAPE_DURATION, UP, LAST_UPDATE}
    ensures forall x, y :: x in PointLines(points, NameOf) && y in own ==> !Alike(x, y)
  {
    Rendering.OwnNamesAreFree(points);
    var lines := PointLines(points, NameOf);
    forall x, y | x in lines && y in own ensures !Alike(x, y) {
      var i :| 0 <= i < |lines| && lines[i] == x;
      PointLineOf(points, i);
    }
  }

  lemma NoStamps(points: seq<MetricPoint>)
    ensures forall l :: l in PointLines(points, NameOf) ==> !l.LastUpdate?
  {
    var lines := PointLines(points, NameOf);
    forall l | l in lines ensures !l.LastUpdate? {
      var i :| 0 <= i < |lines| && lines[i] == l;
      PointLineOf(points, i);
    }
  }

  lemma PartsNoneAlike(a: seq<Line>, own: seq<Line>, stamps: seq<Line>)
    requires NoneAlike(a) && NoneAlike(own) && NoneAlike(stamps)
    requires forall x, y :: x in a && y in own ==> !Alike(x, y)
    requires (forall l :: l in a ==> !l.LastUpdate?) && (forall l :: l in own ==> !l.LastUpdate?)
    requires forall l :: l in stamps ==> l.LastUpdate?
    ensures NoneAlike(a + own + stamps)
  {
    NoneAlikeConcat(a, own);
    NoneAlikeConcat(a + own, stamps);
  }

  ghost predicate AllPlain(points: seq<MetricPoint>) {
    forall p :: p in points ==> PlainNames(p.labels)
  }

  ghost predicate AllPrintable(lines: seq<Line>) {
    forall i :: 0 <= i < |lines| ==> Printable(lines[i])
  }

  lemma PointLinesArePrintable(points: seq<MetricPoint>)
    ensures AllPlain(points) ==> AllPrintable(PointLines(points, NameOf))
  {
    if AllPlain(points) {
      forall i | 0 <= i < |PointLines(points, NameOf)| ensures Printable(PointLines(points, NameOf)[i]) {
        PointLineOf(points, i);
      }
    }
  }

  ghost predicate HeadsAllDiffer(lines: seq<Line>) {
    forall i, j :: 0 <= i < j < |lines| ==> HeadOf(lines[i]) != HeadOf(lines[j])
  }

  lemma PrintableHeadsDiffer(lines: seq<Line>)
    requires NoneAlike(lines) && AllPrintable(lines)
    ensures HeadsAllDiffer(lines)
  {
    forall i, j | 0 <= i < j < |lines| ensures HeadOf(lines[i]) != HeadOf(lines[j]) {
      HeadsTellApart(lines[i], lines[j]);
    }
  }

  /** What the lines about the exporter itself are like. */
  ghost predicate AreOwn(own: seq<Line>) {
    && NoneAlike(own)
    && forall l :: l in own ==>
         !l.Sample? && !l.LastUpdate? && l.name in {SCRAPE_DURATION, UP, LAST_UPDATE} && Printable(l)
  }

  lemma OwnLinesAreOwn(
    own: seq<Line>, durationName: string, upName: string, stampName: string, duration: real, up: real, stamped: bool)
    requires own == OwnLines(durationName, upName, stampName, duration, up, stamped)
    requires durationName == SCRAPE_DURATION && upName == UP && stampName == LAST_UPDATE
    ensures AreOwn(own)
  {
    Rendering.OwnNameShapes();
    OwnLinesNoneAlike(durationName, upName, stampName, duration, up, stamped);
  }

  lemma OwnPartIsOwn(r: MetricsRegistry)
    ensures AreOwn(r.OwnPart())
  {
    OwnLinesAreOwn(
      r.OwnPart(), SCRAPE_DURATION, UP, LAST_UPDATE,
      r.lastScrapeDurationMs as real / 1000.0, if r.healthy then 1.0 else 0.0, r.lastUpdateTimestamp != map[]);
  }

  lemma PartsDiffer(points: seq<MetricPoint>, own: seq<Line>, stamps: seq<Line>)
    requires Unique(points) && AllPlain(points) && AreOwn(own)
    requires NoneAlike(stamps) && forall l :: l in stamps ==> l.LastUpdate?
    ensures HeadsAllDiffer(PointLines(points, NameOf) + own + stamps)
  {
    PointsAndOwnDiffer(points, own);
    PointLinesNoneAlike(points);
    NoStamps(points);
    PartsNoneAlike(PointLines(points, NameOf), own, stamps);
    PointLinesArePrintable(points);
    assert forall i :: 0 <= i < |own| ==> own[i] in own;
    assert forall i :: 0 <= i < |stamps| ==> stamps[i] in stamps;
    PrintableHeadsDiffer(PointLines(points, NameOf) + own + stamps);
  }

  /** The main result: of everything the exporter prints, points, its own metrics
      and timestamps alike, no two lines begin alike. So no time series, and no
      comment on a name, is printed twice. */
  lemma PrintedLinesDiffer(
    r: MetricsRegistry, entries: map<string, Entry>, order: seq<string>, stampOrder: seq<string>)
    requires AllProper(entries) && r.metrics == PointsOf(entries)
    requires Distinct(order) && forall c :: c in order ==> c in r.metrics
    requires Distinct(stampOrder) && forall c :: c in stampOrder ==> c in r.lastUpdateTimestamp
    ensures HeadsAllDiffer(r.RenderedLines(order, stampOrder))
  {
    GatheredAreUnique(entries, order);
    GatheredNamesArePlain(entries, order);
    StampLinesNoneAlike(r.lastUpdateTimestamp, stampOrder);
    OwnPartIsOwn(r);
    PartsDiffer(Gathered(r.metrics, order), r.OwnPart(), StampLines(r.lastUpdateTimestamp, stampOrder));
  }
}
