/** `MetricsRegistry` (`src/metrics/registry.rs`): the points of every cluster,
    when they were stored, and the two views that are printed from them. */
module Registry {
  import opened Basics
  import opened Labels
  import opened LagCalculator
  import opened Series
  import opened Grouping

  function NameOf(m: Metric): string {
    m.Name()
  }

  /** The points of the clusters in `order`, one cluster after the other. */
  function Gathered(metrics: map<string, seq<MetricPoint>>, order: seq<string>): seq<MetricPoint>
    requires forall c :: c in order ==> c in metrics
  {
    if order == [] then []
    else Gathered(metrics, order[..|order| - 1]) + metrics[order[|order| - 1]]
  }

  // ---- the registry ----

  /** Whether a cluster's points are printed: when stale clusters are left out,
      only if it was updated and that not too long ago. */
  predicate Shown(lastUpdate: map<string, int>, threshold: nat, cluster: string, filterStale: bool, now: int) {
    !filterStale || (cluster in lastUpdate && Max(now - lastUpdate[cluster], 0) <= threshold)
  }

  /** The timestamp line has a filter of its own: it is left out only for a
      cluster that is known to be stale. */
  predicate StampShown(lastUpdate: map<string, int>, threshold: nat, cluster: string, filterStale: bool, now: int) {
    !(filterStale && cluster in lastUpdate && Max(now - lastUpdate[cluster], 0) > threshold)
  }

  function StampLines(stamps: map<string, nat>, order: seq<string>): seq<Line>
    requires forall c :: c in order ==> c in stamps
  {
    if order == [] then []
    else StampLines(stamps, order[..|order| - 1]) + [LastUpdate(order[|order| - 1], stamps[order[|order| - 1]])]
  }

  /** The lines about the exporter itself, up to the timestamp lines. */
  function OwnLines(
    durationName: string, upName: string, stampName: string, duration: real, up: real, stamped: bool): seq<Line>
  {
    [Help(durationName), Type(durationName), Plain(durationName, duration)]
    + [Help(upName), Type(upName), Plain(upName, up)]
    + if stamped then [Help(stampName), Type(stampName)] else []
  }

  lemma OwnLinesInSteps(
    lines: seq<Line>, durationName: string, upName: string, stampName: string, duration: real, up: real)
    ensures var steps := lines + [Help(durationName), Type(durationName), Plain(durationName, duration)]
                               + [Help(upName), Type(upName), Plain(upName, up)];
      && lines + OwnLines(durationName, upName, stampName, duration, up, false) == steps
      && lines + OwnLines(durationName, upName, stampName, duration, up, true)
         == steps + [Help(stampName), Type(stampName)]
  {
  }

  class MetricsRegistry {
    var metrics: map<string, seq<MetricPoint>>
    var lastUpdate: map<string, int>
    var lastUpdateTimestamp: map<string, nat>
    var healthy: bool
    var lastScrapeDurationMs: nat
    const stalenessThreshold: nat

    constructor (stalenessThreshold: nat)
      ensures metrics == map[] && lastUpdate == map[] && lastUpdateTimestamp == map[]
      ensures healthy && lastScrapeDurationMs == 0 && this.stalenessThreshold == stalenessThreshold
    {
      this.stalenessThreshold := stalenessThreshold;
      metrics, lastUpdate, lastUpdateTimestamp := map[], map[], map[];
      healthy, lastScrapeDurationMs := true, 0;
    }

    /** `update_with_options`: replace one cluster's points; all others stay. */
    method Update(
      cluster: string, m: LagMetrics, granularity: Granularity, custom: LabelMap, now: int, unixTime: nat)
      modifies this
      ensures metrics == old(metrics)[cluster := AllPoints(cluster, m, granularity, custom)]
      ensures lastUpdate == old(lastUpdate)[cluster := now]
      ensures lastUpdateTimestamp == old(lastUpdateTimestamp)[cluster := unixTime]
      ensures healthy == old(healthy) && lastScrapeDurationMs == old(lastScrapeDurationMs)
    {
      var points := BuildPoints(cluster, m, granularity, custom);
      metrics := metrics[cluster := points];
      lastUpdate := lastUpdate[cluster := now];
      lastUpdateTimestamp := lastUpdateTimestamp[cluster := unixTime];
    }

    method RemoveCluster(cluster: string)
      modifies this
      ensures metrics == old(metrics) - {cluster}
      ensures lastUpdate == old(lastUpdate) - {cluster}
      ensures lastUpdateTimestamp == old(lastUpdateTimestamp) - {cluster}
      ensures healthy == old(healthy) && lastScrapeDurationMs == old(lastScrapeDurationMs)
    {
      metrics := metrics - {cluster};
      lastUpdate := lastUpdate - {cluster};
      lastUpdateTimestamp := lastUpdateTimestamp - {cluster};
    }

    method SetHealthy(value: bool)
      modifies this`healthy
      ensures healthy == value
    {
      healthy := value;
    }

    function ShownClusters(filterStale: bool, now: int): set<string>
      reads this
    {
      set c | c in metrics && Shown(lastUpdate, stalenessThreshold, c, filterStale, now)
    }

    function StampedClusters(filterStale: bool, now: int): set<string>
      reads this
    {
      set c | c in lastUpdateTimestamp && StampShown(lastUpdate, stalenessThreshold, c, filterStale, now)
    }

    method Gather(filterStale: bool, now: int) returns (points: seq<MetricPoint>, ghost order: seq<string>)
      ensures Enumerates(order, ShownClusters(filterStale, now))
      ensures points == Gathered(metrics, order)
      ensures exists o :: Enumerates(o, ShownClusters(filterStale, now)) && points == Gathered(metrics, o)
    {
      points, order := [], [];
      var todo := metrics.Keys;
      while todo != {}
        invariant todo <= metrics.Keys
        invariant Enumerates(order, ShownClusters(filterStale, now) - todo)
        invariant points == Gathered(metrics, order)
        decreases todo
      {
        var c :| c in todo;
        todo := todo - {c};
        if !filterStale || (c in lastUpdate && Max(now - lastUpdate[c], 0) <= stalenessThreshold) {
          assert (order + [c])[..|order|] == order;
          points := points + metrics[c];
          order := order + [c];
        }
      }
    }

    method RenderStamps(filterStale: bool, now: int) returns (lines: seq<Line>, ghost order: seq<string>)
      ensures Enumerates(order, StampedClusters(filterStale, now))
      ensures lines == StampLines(lastUpdateTimestamp, order)
    {
      lines, order := [], [];
      var todo := lastUpdateTimestamp.Keys;
      while todo != {}
        invariant todo <= lastUpdateTimestamp.Keys
        invariant Enumerates(order, StampedClusters(filterStale, now) - todo)
        invariant lines == StampLines(lastUpdateTimestamp, order)
        decreases todo
      {
        var c :| c in todo;
        todo := todo - {c};
        if filterStale && c in lastUpdate && Max(now - lastUpdate[c], 0) > stalenessThreshold {
          continue;
        }
        assert (order + [c])[..|order|] == order;
        lines := lines + [LastUpdate(c, lastUpdateTimestamp[c])];
        order := order + [c];
      }
    }

    function OwnPart(): seq<Line>
      reads this
    {
      OwnLines(
        SCRAPE_DURATION, UP, LAST_UPDATE,
        lastScrapeDurationMs as real / 1000.0, if healthy then 1.0 else 0.0, lastUpdateTimestamp != map[])
    }

    /** All lines, for one order of visiting each of the two maps. */
    ghost function RenderedLines(order: seq<string>, stampOrder: seq<string>): seq<Line>
      requires forall c :: c in order ==> c in metrics
      requires forall c :: c in stampOrder ==> c in lastUpdateTimestamp
      reads this
    {
      PointLines(Gathered(metrics, order), NameOf)
      + OwnPart()
      + StampLines(lastUpdateTimestamp, stampOrder)
    }

    /** `render_prometheus_with_staleness_check`, for every order in which the
        concurrent maps may yield their entries. */
    method Render(filterStale: bool, now: int)
      returns (lines: seq<Line>, ghost order: seq<string>, ghost stampOrder: seq<string>)
      ensures Enumerates(order, ShownClusters(filterStale, now))
      ensures Enumerates(stampOrder, StampedClusters(filterStale, now))
      ensures lines == RenderedLines(order, stampOrder)
      ensures exists o, s ::
        && Enumerates(o, ShownClusters(filterStale, now)) && Enumerates(s, StampedClusters(filterStale, now))
        && lines == RenderedLines(o, s)
    {
      var points;
      points, order := Gather(filterStale, now);
      lines := EmitBlocks(points, NameOf);
      ghost var pointLines := lines;
      var duration, up := lastScrapeDurationMs as real / 1000.0, if healthy then 1.0 else 0.0;
      lines := lines + [Help(SCRAPE_DURATION), Type(SCRAPE_DURATION), Plain(SCRAPE_DURATION, duration)];
      lines := lines + [Help(UP), Type(UP), Plain(UP, up)];
      OwnLinesInSteps(pointLines, SCRAPE_DURATION, UP, LAST_UPDATE, duration, up);
      if lastUpdateTimestamp != map[] {
        lines := lines + [Help(LAST_UPDATE), Type(LAST_UPDATE)];
        var stamps;
        stamps, stampOrder := RenderStamps(filterStale, now);
        lines := lines + stamps;
      } else {
        stampOrder := [];
      }
    }

    /** `get_otel_metrics`: every cluster's points by name, with no regard to
        staleness, and the two metrics of the exporter itself. */
    method OtelMetrics() returns (otel: map<string, seq<MetricPoint>>, own: map<string, real>, ghost order: seq<string>)
      ensures Enumerates(order, metrics.Keys)
      ensures otel.Keys == Names(Gathered(metrics, order), NameOf)
      ensures forall name :: name in otel ==> otel[name] == Named(Gathered(metrics, order), NameOf, name)
      ensures own == map[SCRAPE_DURATION := lastScrapeDurationMs as real / 1000.0, UP := if healthy then 1.0 else 0.0]
    {
      var points;
      points, order := Gather(false, 0);
      assert ShownClusters(false, 0) == metrics.Keys;
      otel := GroupByName(points, NameOf);
      own := map[SCRAPE_DURATION := lastScrapeDurationMs as real / 1000.0, UP := if healthy then 1.0 else 0.0];
    }
  }
}
