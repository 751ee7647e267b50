/** What the printed views show of the registry: every point of the shown
    clusters, the exporter's own metrics apart from them, and no cluster that
    was not updated. */
module Rendering {
  import opened Basics
  import opened MapSums
  import opened Series
  import opened Grouping
  import opened Registry
  import UniqueSeries

  // ---- the exporter's own metrics ----

  /** The exporter's own three metrics never share a name with a point, so
      their HELP and TYPE lines, and their entries in the OTel view, are the
      only ones of their names. */
  lemma OwnNamesAreFree(points: seq<MetricPoint>)
    ensures SCRAPE_DURATION !in Names(points, NameOf) && UP !in Names(points, NameOf)
    ensures LAST_UPDATE !in Names(points, NameOf)
  {
    OwnNameShapes();
    forall p | p in points
      ensures NameOf(p.metric) != SCRAPE_DURATION && NameOf(p.metric) != UP && NameOf(p.metric) != LAST_UPDATE
    {
      UniqueSeries.NameShape(p.metric);
    }
  }

  lemma OwnNameShapes()
    ensures |UP| == 21
    ensures |SCRAPE_DURATION| == 42 && SCRAPE_DURATION[20] == 'c'
    ensures |LAST_UPDATE| == 48 && LAST_UPDATE[20] == 'a' && LAST_UPDATE[26] == 'd'
  {
  }

  // ---- the order of the maps does not show ----

  ghost function CountPerCluster(
    metrics: map<string, seq<MetricPoint>>, clusters: set<string>, p: MetricPoint): map<string, int>
  {
    map c | c in clusters && c in metrics :: Occurrences(metrics[c], p)
  }

  lemma OneMoreCluster(metrics: map<string, seq<MetricPoint>>, clusters: set<string>, c: string, p: MetricPoint)
    requires c in metrics && c !in clusters
    ensures SumValues(CountPerCluster(metrics, clusters + {c}, p))
         == SumValues(CountPerCluster(metrics, clusters, p)) + Occurrences(metrics[c], p)
  {
    var before := CountPerCluster(metrics, clusters, p);
    assert CountPerCluster(metrics, clusters + {c}, p) == before[c := Occurrences(metrics[c], p)];
    SumInsert(before, c, Occurrences(metrics[c], p));
  }

  lemma {:induction false} GatheredCount(metrics: map<string, seq<MetricPoint>>, order: seq<string>, p: MetricPoint)
    requires Distinct(order) && forall c :: c in order ==> c in metrics
    ensures Occurrences(Gathered(metrics, order), p) == SumValues(CountPerCluster(metrics, Elements(order), p))
  {
    if order == [] {
      assert CountPerCluster(metrics, Elements(order), p) == map[];
    } else {
      var front, last := order[..|order| - 1], order[|order| - 1];
      GatheredCount(metrics, front, p);
      CountIfConcat(Gathered(metrics, front), metrics[last], IsPoint(p));
      ElementsSplit(order);
      OneMoreCluster(metrics, Elements(front), last, p);
    }
  }

  /** In every rendering, each point is printed as often as the shown clusters
      hold it, whatever order the concurrent maps took. */
  lemma RenderedCount(
    metrics: map<string, seq<MetricPoint>>, shown: set<string>, order: seq<string>, p: MetricPoint)
    requires Enumerates(order, shown) && shown <= metrics.Keys
    ensures SampleCount(PointLines(Gathered(metrics, order), NameOf), p) == SumValues(CountPerCluster(metrics, shown, p))
  {
    NothingLostOrDuplicated(Gathered(metrics, order), NameOf, p);
    GatheredCount(metrics, order, p);
    assert Elements(order) == shown;
  }

  lemma ShownAndHiddenCount(metrics: map<string, seq<MetricPoint>>, shown: set<string>, p: MetricPoint)
    requires shown <= metrics.Keys
    ensures SumValues(CountPerCluster(metrics, metrics.Keys, p))
         == SumValues(CountPerCluster(metrics, shown, p)) + SumValues(CountPerCluster(metrics, metrics.Keys - shown, p))
  {
    var all := CountPerCluster(metrics, metrics.Keys, p);
    SumSplit(all, shown);
    assert Restrict(all, shown) == CountPerCluster(metrics, shown, p);
    assert all - shown == CountPerCluster(metrics, metrics.Keys - shown, p);
  }

  /** The two views count `p` equally often. */
  ghost predicate ViewsAgreeOn(
    metrics: map<string, seq<MetricPoint>>, order: seq<string>, otelOrder: seq<string>, p: MetricPoint)
    requires forall c :: c in order ==> c in metrics
    requires forall c :: c in otelOrder ==> c in metrics
  {
    SampleCount(PointLines(Gathered(metrics, order), NameOf), p)
      == Occurrences(Named(Gathered(metrics, otelOrder), NameOf, NameOf(p.metric)), p)
  }

  /** The OTel view holds a point more often by what the hidden clusters hold. */
  lemma ViewsAgreeOnIff(
    metrics: map<string, seq<MetricPoint>>, shown: set<string>,
    order: seq<string>, otelOrder: seq<string>, p: MetricPoint)
    requires Enumerates(order, shown) && shown <= metrics.Keys && Enumerates(otelOrder, metrics.Keys)
    ensures ViewsAgreeOn(metrics, order, otelOrder, p)
       <==> SumValues(CountPerCluster(metrics, metrics.Keys - shown, p)) == 0
  {
    RenderedCount(metrics, shown, order, p);
    GatheredCount(metrics, otelOrder, p);
    assert Elements(otelOrder) == metrics.Keys;
    NamedCount(Gathered(metrics, otelOrder), NameOf, NameOf(p.metric), p);
    ShownAndHiddenCount(metrics, shown, p);
  }

  lemma {:induction false} ZerosSumToZero(m: map<string, int>)
    requires forall c :: c in m ==> m[c] == 0
    ensures SumValues(m) == 0
  {
    SumAtMost(m, 0);
    SumNonNegative(m);
  }

  /** The printed view and the OTel view, which has no staleness filter, hold
      the same points exactly when no hidden cluster holds any. */
  lemma ViewsAgreeIff(r: MetricsRegistry, now: int, order: seq<string>, otelOrder: seq<string>)
    requires Enumerates(order, r.ShownClusters(true, now)) && Enumerates(otelOrder, r.metrics.Keys)
    ensures (forall p :: ViewsAgreeOn(r.metrics, order, otelOrder, p))
       <==> forall c :: c in r.metrics && c !in r.ShownClusters(true, now) ==> r.metrics[c] == []
  {
    var shown, hidden := r.ShownClusters(true, now), r.metrics.Keys - r.ShownClusters(true, now);
    if c :| c in hidden && r.metrics[c] != [] {
      var p := r.metrics[c][0];
      OccursMeansMember(r.metrics[c], p);
      ElementAtMostSum(CountPerCluster(r.metrics, hidden, p), c);
      ViewsAgreeOnIff(r.metrics, shown, order, otelOrder, p);
      assert !ViewsAgreeOn(r.metrics, order, otelOrder, p);
    } else {
      forall p ensures ViewsAgreeOn(r.metrics, order, otelOrder, p) {
        ZerosSumToZero(CountPerCluster(r.metrics, hidden, p));
        ViewsAgreeOnIff(r.metrics, shown, order, otelOrder, p);
      }
    }
  }

  // ---- rendering in the middle of an update or a removal ----

  /** One cluster's entries in the three concurrent maps. */
  datatype Slot = Slot(points: Option<seq<MetricPoint>>, updated: Option<int>, stamp: Option<nat>)

  datatype Change = Store(points: seq<MetricPoint>, at: int, stamp: nat) | Remove

  /** A change touches the three maps one after the other; this is the slot
      after the first `n` of the three steps. */
  function Midway(s: Slot, c: Change, n: nat): Slot {
    match c
    case Store(points, at, stamp) =>
      Slot(if n >= 1 then Some(points) else s.points,
           if n >= 2 then Some(at) else s.updated,
           if n >= 3 then Some(stamp) else s.stamp)
    case Remove =>
      Slot(if n >= 1 then None else s.points,
           if n >= 2 then None else s.updated,
           if n >= 3 then None else s.stamp)
  }

  function Settled(changes: seq<Change>): Slot {
    if changes == [] then Slot(None, None, None)
    else Midway(Settled(changes[..|changes| - 1]), changes[|changes| - 1], 3)
  }

  /** What a render that skips stale clusters prints of the slot. */
  predicate PointsPrinted(s: Slot, threshold: nat, now: int) {
    s.points.Some? && s.updated.Some? && Max(now - s.updated.value, 0) <= threshold
  }

  predicate StampPrinted(s: Slot, threshold: nat, now: int) {
    s.stamp.Some? && !(s.updated.Some? && Max(now - s.updated.value, 0) > threshold)
  }

  /** A cluster's slot in a registry. */
  function SlotOf(r: MetricsRegistry, cluster: string): Slot
    reads r
  {
    Slot(
      if cluster in r.metrics then Some(r.metrics[cluster]) else None,
      if cluster in r.lastUpdate then Some(r.lastUpdate[cluster]) else None,
      if cluster in r.lastUpdateTimestamp then Some(r.lastUpdateTimestamp[cluster]) else None)
  }

  /** What the slot says about printing is what the registry's renderer does. */
  lemma SlotTellsWhatIsPrinted(r: MetricsRegistry, cluster: string, now: int)
    ensures cluster in r.ShownClusters(true, now) <==> PointsPrinted(SlotOf(r, cluster), r.stalenessThreshold, now)
    ensures cluster in r.StampedClusters(true, now) <==> StampPrinted(SlotOf(r, cluster), r.stalenessThreshold, now)
  {
  }

  lemma {:induction false} SettledIsAllOrNothing(changes: seq<Change>)
    ensures var s := Settled(changes); (s.points.Some? <==> s.updated.Some?) && (s.updated.Some? <==> s.stamp.Some?)
  {
    if changes != [] {
      SettledIsAllOrNothing(changes[..|changes| - 1]);
    }
  }

  /** Whatever happened before, a render that falls between the steps of a
      cluster's first update, or of a removal, prints none of its points until
      the update is known, and none once the removal has begun. */
  lemma MidwayRenderHidesUnknown(changes: seq<Change>, c: Change, n: nat, threshold: nat, now: int)
    requires n <= 3
    ensures var s := Settled(changes);
      && (c.Store? && s.updated.None? && n < 2 ==> !PointsPrinted(Midway(s, c, n), threshold, now))
      && (c.Remove? && n >= 1 ==> !PointsPrinted(Midway(s, c, n), threshold, now))
  {
    SettledIsAllOrNothing(changes);
  }

  /** The timestamp line is not as careful. It is printed for a cluster without
      a known update exactly between the last two steps of a removal. */
  lemma StampOutlivesUpdateIff(changes: seq<Change>, c: Change, n: nat, threshold: nat, now: int)
    requires n <= 3
    ensures var s := Settled(changes);
      Midway(s, c, n).updated.None? && StampPrinted(Midway(s, c, n), threshold, now)
      <==> c.Remove? && n == 2 && s.stamp.Some?
  {
    SettledIsAllOrNothing(changes);
  }

  /** It is printed for a cluster none of whose points are printed exactly after
      the first step of the removal of a fresh cluster, and after the second step
      of the removal of any. */
  lemma StampOutlivesPointsIff(changes: seq<Change>, c: Change, n: nat, threshold: nat, now: int)
    requires n <= 3
    ensures var s := Settled(changes);
      StampPrinted(Midway(s, c, n), threshold, now) && !PointsPrinted(Midway(s, c, n), threshold, now)
      <==> && c.Remove? && s.stamp.Some?
           && (n == 2 || (n == 1 && Max(now - s.updated.value, 0) <= threshold))
  {
    SettledIsAllOrNothing(changes);
  }
}
