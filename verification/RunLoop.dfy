/** `ClusterManager::run` (`src/cluster/manager.rs`): the loop that collects while
    it leads, counts errors, backs off, recycles clients and cleans up. Durations
    are seconds; `u32` arithmetic wraps, as it does in a release build. */
module RunLoop {
  import opened Basics
  import opened Labels
  import opened LagCalculator
  import opened Series
  import opened Registry

  const MAX_BACKOFF: nat := 300
  const U32_RANGE: nat := 0x1_0000_0000

  /** How one collection ended. The registry is updated after the last point at
      which a collection can be abandoned, so only a success updates it. */
  datatype Outcome = Success(metrics: LagMetrics, now: int, unixTime: nat, scrapeMs: nat) | Failure | Timeout

  datatype Event = Tick(isLeader: bool, outcome: Outcome) | CacheCleanup | Shutdown

  /** The loop's local variables, and what it did on the way. */
  datatype Locals = Locals(
    consecutiveErrors: nat, currentBackoff: nat, wasLeader: bool, cycleCount: nat,
    recycles: nat, sleeps: seq<nat>)

  // ---- the history, seen from outside ----

  /** How the collections of the leading ticks ended. */
  function Outcomes(events: seq<Event>): seq<Outcome> {
    if events == [] then []
    else
      var front, last := events[..|events| - 1], events[|events| - 1];
      Outcomes(front) + if last.Tick? && last.isLeader then [last.outcome] else []
  }

  /** Collections that did not succeed since the last one that did. */
  function FailedSince(outcomes: seq<Outcome>): nat {
    if outcomes == [] || outcomes[|outcomes| - 1].Success? then 0
    else FailedSince(outcomes[..|outcomes| - 1]) + 1
  }

  function Successes(outcomes: seq<Outcome>): nat {
    if outcomes == [] then 0
    else Successes(outcomes[..|outcomes| - 1]) + if outcomes[|outcomes| - 1].Success? then 1 else 0
  }

  /** A failure, not a timeout, that came third or later in its run. */
  predicate LateFailure(before: seq<Outcome>, o: Outcome) {
    o.Failure? && (FailedSince(before) + 1) % U32_RANGE >= 3
  }

  /** Late failures since the last success. */
  function LateFailures(outcomes: seq<Outcome>): nat {
    if outcomes == [] then 0
    else
      var front, last := outcomes[..|outcomes| - 1], outcomes[|outcomes| - 1];
      if last.Success? then 0 else LateFailures(front) + if LateFailure(front, last) then 1 else 0
  }

  function BackoffAfter(late: nat): nat {
    Min(Pow2(late), MAX_BACKOFF)
  }

  /** The sleeps taken, one for each late failure. */
  function SleepsOf(outcomes: seq<Outcome>): seq<nat> {
    if outcomes == [] then []
    else
      var front, last := outcomes[..|outcomes| - 1], outcomes[|outcomes| - 1];
      SleepsOf(front) + if LateFailure(front, last) then [BackoffAfter(LateFailures(front))] else []
  }

  /** Leadership as observed at the latest tick, or at the start. */
  function LastSeenLeading(atStart: bool, events: seq<Event>): bool {
    if events == [] then atStart
    else if events[|events| - 1].Tick? then events[|events| - 1].isLeader
    else LastSeenLeading(atStart, events[..|events| - 1])
  }

  /** What the cluster has in the registry: the metrics of its latest success,
      until leadership is lost. */
  function Published(atStart: bool, events: seq<Event>): Option<LagMetrics> {
    if events == [] then None
    else
      var front, last := events[..|events| - 1], events[|events| - 1];
      if last.Tick? && last.isLeader && last.outcome.Success? then Some(last.outcome.metrics)
      else if last.Tick? && !last.isLeader && LastSeenLeading(atStart, front) then None
      else Published(atStart, front)
  }

  function BeforeShutdown(events: seq<Event>): (r: seq<Event>)
    ensures Shutdown !in r && (Shutdown !in events ==> r == events)
  {
    if events == [] || events[0].Shutdown? then []
    else [events[0]] + BeforeShutdown(events[1..])
  }

  // ---- the loop ----

  /** The counters agree with the collections so far. */
  ghost predicate MatchesCounts(l: Locals, interval: nat, outcomes: seq<Outcome>) {
    && l.consecutiveErrors == FailedSince(outcomes) % U32_RANGE
    && l.currentBackoff == BackoffAfter(LateFailures(outcomes))
    && l.cycleCount == (if interval == 0 then 0 else Successes(outcomes) % interval)
    && l.recycles == (if interval == 0 then 0 else Successes(outcomes) / interval)
    && l.sleeps == SleepsOf(outcomes)
  }

  /** The locals agree with what happened. */
  ghost predicate Matches(l: Locals, atStart: bool, interval: nat, seen: seq<Event>) {
    MatchesCounts(l, interval, Outcomes(seen)) && l.wasLeader == LastSeenLeading(atStart, seen)
  }

  /** The locals after a collection. */
  function LocalsAfter(l: Locals, outcome: Outcome, interval: nat): Locals {
    var errors := (l.consecutiveErrors + 1) % U32_RANGE;
    match outcome
    case Success(_, _, _, _) =>
      var cycles := l.cycleCount + 1;
      if interval == 0 then l.(consecutiveErrors := 0, currentBackoff := 1)
      else if cycles >= interval then
        l.(consecutiveErrors := 0, currentBackoff := 1, cycleCount := 0, recycles := l.recycles + 1)
      else l.(consecutiveErrors := 0, currentBackoff := 1, cycleCount := cycles)
    case Failure =>
      if errors < 3 then l.(consecutiveErrors := errors)
      else l.(consecutiveErrors := errors,
              currentBackoff := Min(l.currentBackoff * 2, MAX_BACKOFF),
              sleeps := l.sleeps + [Min(l.currentBackoff, MAX_BACKOFF)])
    case Timeout => l.(consecutiveErrors := errors)
  }

  class ClusterManager {
    const clusterName: string
    const customLabels: LabelMap
    const granularity: Granularity
    const clientRecycleInterval: nat
    const registry: MetricsRegistry

    constructor (
      clusterName: string, customLabels: LabelMap, granularity: Granularity, interval: nat, registry: MetricsRegistry)
      ensures this.clusterName == clusterName && this.customLabels == customLabels
      ensures this.granularity == granularity && this.clientRecycleInterval == interval && this.registry == registry
    {
      this.clusterName, this.customLabels, this.granularity := clusterName, customLabels, granularity;
      this.clientRecycleInterval, this.registry := interval, registry;
    }

    /** The registry holds this cluster's latest metrics, or nothing of it. */
    ghost predicate Holds(published: Option<LagMetrics>)
      reads registry
    {
      && (clusterName in registry.metrics <==> published.Some?)
      && (clusterName in registry.lastUpdate <==> published.Some?)
      && (clusterName in registry.lastUpdateTimestamp <==> published.Some?)
      && (published.Some? ==>
            registry.metrics[clusterName] == AllPoints(clusterName, published.value, granularity, customLabels))
    }

    /** Nothing of any other cluster was touched. */
    twostate predicate OthersUntouched()
      reads registry
    {
      && registry.metrics - {clusterName} == old(registry.metrics) - {clusterName}
      && registry.lastUpdate - {clusterName} == old(registry.lastUpdate) - {clusterName}
      && registry.lastUpdateTimestamp - {clusterName} == old(registry.lastUpdateTimestamp) - {clusterName}
    }

    /** What follows a collection that ended one way or another. */
    method AfterCollection(l: Locals, outcome: Outcome) returns (r: Locals)
      modifies registry`healthy
      ensures r == LocalsAfter(l, outcome, clientRecycleInterval)
      ensures registry.healthy == (outcome.Success? || (old(registry.healthy) && r.consecutiveErrors < 3))
    {
      r := l;
      match outcome {
        case Success(_, _, _, _) =>
          r := r.(consecutiveErrors := 0, currentBackoff := 1);
          registry.SetHealthy(true);
          if clientRecycleInterval > 0 {
            r := r.(cycleCount := r.cycleCount + 1);
            if r.cycleCount >= clientRecycleInterval {
              r := r.(cycleCount := 0, recycles := r.recycles + 1);
            }
          }
        case Failure =>
          r := r.(consecutiveErrors := (r.consecutiveErrors + 1) % U32_RANGE);
          if r.consecutiveErrors >= 3 {
            registry.SetHealthy(false);
            r := r.(sleeps := r.sleeps + [Min(r.currentBackoff, MAX_BACKOFF)]);
            r := r.(currentBackoff := Min(r.currentBackoff * 2, MAX_BACKOFF));
          }
        case Timeout =>
          r := r.(consecutiveErrors := (r.consecutiveErrors + 1) % U32_RANGE);
          if r.consecutiveErrors >= 3 {
            registry.SetHealthy(false);
          }
      }
    }

    /** Note the leadership; on losing it, clear what the cluster published. */
    method ObserveLeadership(l: Locals, isLeader: bool, ghost published: Option<LagMetrics>) returns (r: Locals)
      requires Holds(published) && (!l.wasLeader ==> published.None?)
      modifies registry
      ensures r == l.(wasLeader := isLeader)
      ensures Holds(if isLeader then published else None) && OthersUntouched()
      ensures registry.healthy == old(registry.healthy)
    {
      r := l;
      if isLeader != r.wasLeader {
        if !isLeader {
          registry.RemoveCluster(clusterName);
        }
        r := r.(wasLeader := isLeader);
      }
    }

    /** The registry update at the end of a successful collection. */
    method Publish(o: Outcome)
      requires o.Success?
      modifies registry
      ensures Holds(Some(o.metrics)) && OthersUntouched()
      ensures registry.healthy == old(registry.healthy)
    {
      registry.Update(clusterName, o.metrics, granularity, customLabels, o.now, o.unixTime);
      registry.lastScrapeDurationMs := o.scrapeMs;
    }

    /** One tick of the collection interval. */
    method HandleTick(l: Locals, isLeader: bool, outcome: Outcome, ghost published: Option<LagMetrics>)
      returns (r: Locals)
      requires Holds(published) && (!l.wasLeader ==> published.None?)
      modifies registry
      ensures r == if isLeader then LocalsAfter(l.(wasLeader := true), outcome, clientRecycleInterval)
                   else l.(wasLeader := false)
      ensures Holds(if !isLeader then None else if outcome.Success? then Some(outcome.metrics) else published)
      ensures OthersUntouched()
      ensures registry.healthy ==
        if !isLeader then old(registry.healthy)
        else outcome.Success? || (old(registry.healthy) && r.consecutiveErrors < 3)
    {
      r := ObserveLeadership(l, isLeader, published);
      if !isLeader {
        return;
      }
      if outcome.Success? {
        Publish(outcome);
      }
      r := AfterCollection(r, outcome);
    }

    /** At a loop head: locals, registry and health agree with the history. */
    ghost predicate InStep(l: Locals, atStart: bool, seen: seq<Event>)
      reads registry
    {
      && Matches(l, atStart, clientRecycleInterval, seen)
      && Holds(Published(atStart, seen))
      && (registry.healthy <==> FailedSince(Outcomes(seen)) < 3)
    }

    /** One turn of the loop. */
    method HandleEvent(l: Locals, e: Event, ghost atStart: bool, ghost seen: seq<Event>) returns (r: Locals)
      requires !e.Shutdown? && InStep(l, atStart, seen)
      modifies registry
      ensures InStep(r, atStart, seen + [e]) && OthersUntouched()
    {
      match e {
        case Tick(isLeader, outcome) =>
          TickAdvances(l, atStart, clientRecycleInterval, seen, isLeader, outcome);
          r := HandleTick(l, isLeader, outcome, Published(atStart, seen));
        case CacheCleanup =>
          CleanupChangesNothing(atStart, seen);
          r := l;
      }
    }

    /** Shutdown: nothing of the cluster stays behind. */
    method Stop(ghost published: Option<LagMetrics>)
      requires Holds(published)
      modifies registry
      ensures Holds(None) && OthersUntouched() && registry.healthy == old(registry.healthy)
    {
      registry.RemoveCluster(clusterName);
    }

    /** The whole loop, for every sequence of events up to here. Without a
        shutdown this is the state at the loop head. */
    method Run(events: seq<Event>, atStart: bool) returns (l: Locals, stopped: bool)
      requires Holds(None) && registry.healthy
      modifies registry
      ensures stopped <==> Shutdown in events
      ensures Matches(l, atStart, clientRecycleInterval, BeforeShutdown(events))
      ensures Holds(if stopped then None else Published(atStart, events)) && OthersUntouched()
      ensures registry.healthy <==> FailedSince(Outcomes(BeforeShutdown(events))) < 3
    {
      l := Locals(0, 1, atStart, 0, 0, []);
      stopped := false;
      var i := 0;
      while i < |events| && !events[i].Shutdown?
        invariant 0 <= i <= |events| && Shutdown !in events[..i]
        invariant InStep(l, atStart, events[..i]) && OthersUntouched()
        decreases |events| - i
      {
        assert events[..i + 1] == events[..i] + [events[i]];
        l := HandleEvent(l, events[i], atStart, events[..i]);
        i := i + 1;
      }
      UpToShutdown(events, i);
      if i < |events| {
        stopped := true;
        Stop(Published(atStart, events[..i]));
      } else {
        assert events[..i] == events;
      }
    }
  }

  // ---- lemmas about the history ----

  lemma {:induction false} UpToShutdown(events: seq<Event>, i: nat)
    requires i <= |events| && Shutdown !in events[..i] && (i == |events| || events[i].Shutdown?)
    ensures BeforeShutdown(events) == events[..i]
  {
    if i > 0 {
      assert events[..i] == [events[0]] + events[1..][..i - 1];
      assert events[0] in events[..i];
      forall e | e in events[1..][..i - 1] ensures e in events[..i] {
      }
      UpToShutdown(events[1..], i - 1);
    }
  }

  lemma DoublingIsCapped(late: nat)
    ensures Min(BackoffAfter(late) * 2, MAX_BACKOFF) == BackoffAfter(late + 1)
    ensures 1 <= BackoffAfter(late) <= MAX_BACKOFF
  {
  }

  lemma DivModStep(n: nat, k: nat)
    requires k > 0
    ensures n % k + 1 < k ==> (n + 1) % k == n % k + 1 && (n + 1) / k == n / k
    ensures n % k + 1 >= k ==> (n + 1) % k == 0 && (n + 1) / k == n / k + 1
  {
    var (q, r) := (n / k, n % k);
    assert n == q * k + r;
    if r + 1 < k {
      Quotient(n + 1, k, q, r + 1);
    } else {
      Quotient(n + 1, k, q + 1, 0);
    }
  }

  lemma AtLeastOnce(a: nat, k: nat)
    requires a >= 1
    ensures a * k >= k
  {
  }

  lemma Quotient(n: nat, k: nat, q: nat, r: nat)
    requires r < k && n == q * k + r
    ensures n / k == q && n % k == r
  {
    var (p, s) := (n / k, n % k);
    assert n == p * k + s;
    assert (p - q) * k == r - s && (q - p) * k == s - r;
    if p > q {
      AtLeastOnce(p - q, k);
    } else if p < q {
      AtLeastOnce(q - p, k);
    }
  }

  /** What one more collection does to the errors, the backoff and the sleeps. */
  lemma ErrorsAdvance(before: seq<Outcome>, o: Outcome)
    ensures var after := before + [o];
      && FailedSince(after) == (if o.Success? then 0 else FailedSince(before) + 1)
      && BackoffAfter(LateFailures(after)) ==
           (if o.Success? then 1
            else if LateFailure(before, o) then Min(BackoffAfter(LateFailures(before)) * 2, MAX_BACKOFF)
            else BackoffAfter(LateFailures(before)))
      && SleepsOf(after) == SleepsOf(before)
           + (if LateFailure(before, o) then [Min(BackoffAfter(LateFailures(before)), MAX_BACKOFF)] else [])
  {
    assert (before + [o])[..|before|] == before;
    DoublingIsCapped(LateFailures(before));
  }

  /** What one more collection does to the cycle and recycle counts. */
  lemma CyclesAdvance(before: seq<Outcome>, o: Outcome, interval: nat)
    ensures Successes(before + [o]) == Successes(before) + (if o.Success? then 1 else 0)
    ensures interval > 0 && o.Success? ==>
      var n := Successes(before);
      && (n % interval + 1 < interval ==>
            Successes(before + [o]) % interval == n % interval + 1 && Successes(before + [o]) / interval == n / interval)
      && (n % interval + 1 >= interval ==>
            Successes(before + [o]) % interval == 0 && Successes(before + [o]) / interval == n / interval + 1)
  {
    assert (before + [o])[..|before|] == before;
    if interval > 0 {
      DivModStep(Successes(before), interval);
    }
  }

  lemma WrapStep(n: nat)
    ensures (n % U32_RANGE + 1) % U32_RANGE == (n + 1) % U32_RANGE
  {
  }

  /** What a tick makes of the published metrics. */
  lemma PublishedAdvances(atStart: bool, seen: seq<Event>, isLeader: bool, outcome: Outcome)
    ensures Published(atStart, seen + [Tick(isLeader, outcome)]) ==
      if !isLeader then None
      else if outcome.Success? then Some(outcome.metrics) else Published(atStart, seen)
    ensures !LastSeenLeading(atStart, seen) ==> Published(atStart, seen).None?
  {
    assert (seen + [Tick(isLeader, outcome)])[..|seen|] == seen;
    if !LastSeenLeading(atStart, seen) {
      StandbyPublishesNothing(atStart, seen);
    }
  }

  lemma OutcomesAdvance(seen: seq<Event>, isLeader: bool, outcome: Outcome)
    ensures Outcomes(seen + [Tick(isLeader, outcome)]) == if isLeader then Outcomes(seen) + [outcome] else Outcomes(seen)
  {
    assert (seen + [Tick(isLeader, outcome)])[..|seen|] == seen;
  }

  lemma CountsStayMatched(l: Locals, interval: nat, before: seq<Outcome>, o: Outcome)
    requires MatchesCounts(l, interval, before)
    ensures MatchesCounts(LocalsAfter(l, o, interval), interval, before + [o])
  {
    ErrorsAdvance(before, o);
    CyclesAdvance(before, o, interval);
    WrapStep(FailedSince(before));
    match o {
      case Success(_, _, _, _) =>
      case Failure =>
      case Timeout =>
    }
  }

  /** One tick keeps the locals in step with the history. */
  lemma MatchesAdvances(
    l: Locals, atStart: bool, interval: nat, seen: seq<Event>, isLeader: bool, outcome: Outcome)
    requires Matches(l, atStart, interval, seen)
    ensures Matches(
      if isLeader then LocalsAfter(l.(wasLeader := true), outcome, interval) else l.(wasLeader := false),
      atStart, interval, seen + [Tick(isLeader, outcome)])
  {
    OutcomesAdvance(seen, isLeader, outcome);
    if isLeader {
      CountsStayMatched(l.(wasLeader := true), interval, Outcomes(seen), outcome);
    }
  }

  /** The health flag needs no unbounded counter: it is cleared at the third
      failure in a row and stays so until a success, even if the counter wraps. */
  lemma HealthAdvances(errors: nat, before: seq<Outcome>, outcome: Outcome)
    requires errors == FailedSince(before) % U32_RANGE
    ensures FailedSince(before + [outcome]) < 3 <==>
      outcome.Success? || (FailedSince(before) < 3 && (errors + 1) % U32_RANGE < 3)
  {
    assert (before + [outcome])[..|before|] == before;
  }

  /** All that a tick changes, together. */
  lemma TickAdvances(
    l: Locals, atStart: bool, interval: nat, seen: seq<Event>, isLeader: bool, outcome: Outcome)
    requires Matches(l, atStart, interval, seen)
    ensures var after := seen + [Tick(isLeader, outcome)];
      var r := if isLeader then LocalsAfter(l.(wasLeader := true), outcome, interval) else l.(wasLeader := false);
      && Matches(r, atStart, interval, after)
      && Published(atStart, after) ==
           (if !isLeader then None
            else if outcome.Success? then Some(outcome.metrics) else Published(atStart, seen))
      && (FailedSince(Outcomes(after)) < 3 <==>
            if !isLeader then FailedSince(Outcomes(seen)) < 3
            else outcome.Success? || (FailedSince(Outcomes(seen)) < 3 && r.consecutiveErrors < 3))
    ensures !l.wasLeader ==> Published(atStart, seen).None?
  {
    PublishedAdvances(atStart, seen, isLeader, outcome);
    MatchesAdvances(l, atStart, interval, seen, isLeader, outcome);
    HealthAdvances(l.consecutiveErrors, Outcomes(seen), outcome);
    OutcomesAdvance(seen, isLeader, outcome);
  }

  lemma CleanupChangesNothing(atStart: bool, seen: seq<Event>)
    ensures var now := seen + [CacheCleanup];
      && Outcomes(now) == Outcomes(seen)
      && LastSeenLeading(atStart, now) == LastSeenLeading(atStart, seen)
      && Published(atStart, now) == Published(atStart, seen)
  {
    assert (seen + [CacheCleanup])[..|seen|] == seen;
  }

  /** A cluster that was last seen in standby has nothing in the registry. */
  lemma {:induction false} StandbyPublishesNothing(atStart: bool, events: seq<Event>)
    requires !LastSeenLeading(atStart, events)
    ensures Published(atStart, events) == None
  {
    if events != [] {
      var front := events[..|events| - 1];
      if !LastSeenLeading(atStart, front) {
        StandbyPublishesNothing(atStart, front);
      }
    }
  }

  /** The sleeps of one run of failures double from one second up to five
      minutes: a sleep is 2^m seconds, cut off, after m late failures. */
  lemma {:induction false} SleepsAreBounded(outcomes: seq<Outcome>)
    ensures forall i :: 0 <= i < |SleepsOf(outcomes)| ==> 1 <= SleepsOf(outcomes)[i] <= MAX_BACKOFF
    ensures LateFailures(outcomes) <= |SleepsOf(outcomes)|
    ensures LateFailures(outcomes) > 0 ==>
      SleepsOf(outcomes)[|SleepsOf(outcomes)| - 1] == BackoffAfter(LateFailures(outcomes) - 1)
  {
    if outcomes != [] {
      var front := outcomes[..|outcomes| - 1];
      SleepsAreBounded(front);
      DoublingIsCapped(LateFailures(front));
    }
  }
}
