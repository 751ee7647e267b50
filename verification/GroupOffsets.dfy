/** `fetch_all_group_offsets_batched` in `src/collector/offset_collector.rs`
    and the single-group reply handling of `src/kafka/admin.rs` below it: one
    task per group, a shared semaphore, blocking calls and retries, as a state
    machine whose steps interleave in every possible order. */
module GroupOffsets {
  import opened Basics
  import opened Retry
  import opened Admin

  type Offsets = map<TopicPartition, int>

  /** The raw committed-offset list of one group; a negative offset means none. */
  type RawOffsets = seq<(TopicPartition, int)>

  // ---- one group's reply ----

  datatype CallOutcome =
    | CallAnswered(results: seq<GroupResult<RawOffsets>>)
    | CallFailed(error: AdminRequestError)
    | CallTaskFailed

  datatype GroupOffsetsResponse = GroupOffsetsResponse(
    offsets: map<string, Offsets>, failures: seq<GroupRequestFailure>)

  type Reply = Result<map<string, Offsets>, AdminRequestError>

  function CommittedOffsets(raw: RawOffsets): (m: Offsets)
    ensures forall tp :: tp in m ==> m[tp] >= 0 && (tp, m[tp]) in raw
    ensures forall tp, offset :: (tp, offset) in raw && offset >= 0 ==> tp in m
  {
    if raw == [] then map[]
    else
      var front, (tp, offset) := raw[..|raw| - 1], raw[|raw| - 1];
      if offset >= 0 then CommittedOffsets(front)[tp := offset] else CommittedOffsets(front)
  }

  function OffsetsByGroup(results: seq<GroupResult<RawOffsets>>): map<string, Offsets> {
    if results == [] then map[]
    else
      var front, last := results[..|results| - 1], results[|results| - 1];
      if last.error.Some? then OffsetsByGroup(front)
      else OffsetsByGroup(front)[last.groupId := CommittedOffsets(last.payload)]
  }

  /** `list_consumer_group_offsets_one_chunk`, after the call itself succeeded. */
  method OffsetsOneChunk(groupIds: seq<string>, results: seq<GroupResult<RawOffsets>>)
    returns (r: GroupOffsetsResponse)
    ensures r.offsets == OffsetsByGroup(results)
    ensures r.failures == ErrorFailures(results) + OmittedFailures(groupIds, ReturnedIds(results))
  {
    var byGroup: map<string, Offsets> := map[];
    var failures: seq<GroupRequestFailure> := [];
    var returned: set<string> := {};
    for i := 0 to |results|
      invariant returned == ReturnedIds(results[..i])
      invariant byGroup == OffsetsByGroup(results[..i])
      invariant failures == ErrorFailures(results[..i])
    {
      var entry := results[i];
      assert results[..i + 1][..i] == results[..i];
      assert forall e :: e in results[..i + 1] <==> e in results[..i] || e == entry;
      returned := returned + {entry.groupId};
      if entry.error.Some? {
        failures := failures + [GroupRequestFailure(entry.groupId, FromGroupError(entry.error.value))];
        continue;
      }
      byGroup := byGroup[entry.groupId := CommittedOffsets(entry.payload)];
    }
    assert results[..|results|] == results;
    for i := 0 to |groupIds|
      invariant failures == ErrorFailures(results) + OmittedFailures(groupIds[..i], returned)
    {
      assert groupIds[..i + 1][..i] == groupIds[..i];
      if groupIds[i] !in returned {
        failures := failures + [GroupRequestFailure(groupIds[i], TaskError())];
      }
    }
    assert groupIds[..|groupIds|] == groupIds;
    r := GroupOffsetsResponse(byGroup, failures);
  }

  /** `into_single_group_result`: the last failure wins over any offsets. */
  function IntoSingleGroupResult(r: GroupOffsetsResponse): Reply {
    if r.failures != [] then Err(r.failures[|r.failures| - 1].error) else Ok(r.offsets)
  }

  function ReplyTo(groupId: string, outcome: CallOutcome): Reply {
    match outcome
    case CallAnswered(results) =>
      IntoSingleGroupResult(GroupOffsetsResponse(
        OffsetsByGroup(results), ErrorFailures(results) + OmittedFailures([groupId], ReturnedIds(results))))
    case CallFailed(error) => Err(error)
    case CallTaskFailed => Err(TaskError())
  }

  lemma TwoResultsCountTwice(groupId: string, results: seq<GroupResult<RawOffsets>>)
    requires |results| >= 2
    ensures !WellAnswered([groupId], results)
  {
    var front := results[..|results| - 1];
    var (a, b) := (front[|front| - 1].groupId, results[|results| - 1].groupId);
    assert ResultCount(front, a) >= 1;
    assert ResultCount(results, a) >= 1 && ResultCount(results, b) >= 1;
    assert a == b ==> ResultCount(results, a) >= 2;
    CountInSingle(groupId, a);
    CountInSingle(groupId, b);
  }

  lemma CountInSingle(groupId: string, g: string)
    ensures Count([groupId], g) == if g == groupId then 1 else 0
  {
    assert [groupId][..0] == [];
    assert CountIf([groupId][..0], Is(g)) == 0;
  }

  /** Against a broker that keeps to the protocol, a reply succeeds exactly when
      the group's entry is there without an error, and then it holds that one
      group with its committed offsets, be they none; a reply without the
      group's entry is a failure that is never retried. */
  lemma SingleReplyMeaning(groupId: string, results: seq<GroupResult<RawOffsets>>)
    requires WellAnswered([groupId], results)
    ensures var reply := ReplyTo(groupId, CallAnswered(results));
      if results == [] then reply == Err(TaskError()) && !reply.error.retriable
      else
        && |results| == 1 && results[0].groupId == groupId
        && reply == match results[0].error
                    case Some(error) => Err(FromGroupError(error))
                    case None => Ok(map[groupId := CommittedOffsets(results[0].payload)])
  {
    var omitted := OmittedFailures([groupId], ReturnedIds(results));
    forall g ensures Count([groupId], g) == if g == groupId then 1 else 0 {
      CountInSingle(groupId, g);
    }
    assert OmittedFailures([groupId], ReturnedIds(results))
        == if groupId in ReturnedIds(results) then [] else [GroupRequestFailure(groupId, TaskError())];
    if results != [] {
      var front, last := results[..|results| - 1], results[|results| - 1];
      assert ResultCount(results, last.groupId) == 1;
      if |results| >= 2 {
        TwoResultsCountTwice(groupId, results);
      }
      assert front == [] && results == [last];
      assert last in results;
      assert ReturnedIds(results) == {groupId};
      assert ErrorFailures(front) == [] && OffsetsByGroup(front) == map[];
      match last.error {
        case Some(error) =>
          assert ErrorFailures(results) == [GroupRequestFailure(groupId, FromGroupError(error))];
        case None =>
          assert ErrorFailures(results) == [];
          assert OffsetsByGroup(results) == map[groupId := CommittedOffsets(last.payload)];
      }
    }
  }

  // ---- the tasks ----

  /** One spawned task. From `Holding` to the end of the call it owns a permit;
      only while `Calling` does it occupy a blocking thread. */
  datatype Task =
    | Waiting(attempt: nat)
    | Holding(attempt: nat)
    | Calling(attempt: nat)
    | BackingOff(attempt: nat)
    | Done(outcome: Outcome<map<string, Offsets>, AdminRequestError>)

  datatype State = State(permits: nat, tasks: seq<Task>)

  datatype Step = Acquire(i: nat) | Start(i: nat) | Finish(i: nat) | Wake(i: nat)

  /** The performance settings one cycle runs under. `others` counts blocking
      calls made on behalf of something else at the same time. */
  datatype Settings = Settings(
    maxConcurrent: nat, maxRetries: usize, maxBlockingThreads: nat, samplerThreads: nat, others: nat)
  {
    /** What configuration validation enforces. */
    predicate Validated() {
      maxConcurrent >= 1 && maxBlockingThreads >= maxConcurrent + samplerThreads + 4
    }

    /** Everything else stays within the headroom that validation reserves for it. */
    predicate OthersFit() {
      others <= samplerThreads + 4
    }
  }

  /** `replies(i)(k)` answers the k-th attempt of task `i`. */
  type Replies = nat -> (nat -> Reply)

  function IsRetriable(): AdminRequestError -> bool {
    (e: AdminRequestError) => e.retriable
  }

  function HoldsPermit(t: Task): nat {
    if t.Holding? || t.Calling? then 1 else 0
  }

  function UsesThread(t: Task): nat {
    if t.Calling? then 1 else 0
  }

  function Total(tasks: seq<Task>, weight: Task -> nat): nat {
    if tasks == [] then 0 else Total(tasks[..|tasks| - 1], weight) + weight(tasks[|tasks| - 1])
  }

  ghost predicate Enabled(c: Settings, s: State, step: Step) {
    && step.i < |s.tasks|
    && match step
       case Acquire(i) => s.tasks[i].Waiting? && s.permits > 0
       case Start(i) => s.tasks[i].Holding? && Total(s.tasks, UsesThread) + c.others < c.maxBlockingThreads
       case Finish(i) => s.tasks[i].Calling?
       case Wake(i) => s.tasks[i].BackingOff?
  }

  /** Where an answered attempt leaves its task. */
  function AfterReply(c: Settings, reply: Reply, attempt: nat): Task {
    match reply
    case Ok(offsets) => Done(Ok((offsets, attempt)))
    case Err(error) =>
      if !error.retriable then Done(Err(RetryFailure(error, attempt, NonRetriable)))
      else if attempt >= MaxAttempts(c.maxRetries) then Done(Err(RetryFailure(error, attempt, Exhausted)))
      else BackingOff(attempt)
  }

  ghost function Apply(c: Settings, replies: Replies, s: State, step: Step): State
    requires Enabled(c, s, step)
  {
    var i := step.i;
    match step
    case Acquire(_) => State(s.permits - 1, s.tasks[i := Holding(s.tasks[i].attempt)])
    case Start(_) => State(s.permits, s.tasks[i := Calling(s.tasks[i].attempt)])
    case Finish(_) =>
      State(s.permits + 1, s.tasks[i := AfterReply(c, replies(i)(s.tasks[i].attempt), s.tasks[i].attempt)])
    case Wake(_) => State(s.permits, s.tasks[i := Waiting(s.tasks[i].attempt + 1)])
  }

  function Initial(c: Settings, groups: nat): State {
    State(c.maxConcurrent, seq(groups, _ => Waiting(1)))
  }

  /** The state after `steps`, or `None` when some step was not enabled. */
  ghost function Run(c: Settings, replies: Replies, groups: nat, steps: seq<Step>): Option<State> {
    if steps == [] then Some(Initial(c, groups))
    else
      match Run(c, replies, groups, steps[..|steps| - 1])
      case None => None
      case Some(s) =>
        if Enabled(c, s, steps[|steps| - 1]) then Some(Apply(c, replies, s, steps[|steps| - 1])) else None
  }

  // ---- what every interleaving keeps ----

  lemma {:induction false} TotalUpdate(tasks: seq<Task>, i: nat, t: Task, weight: Task -> nat)
    requires i < |tasks|
    ensures Total(tasks[i := t], weight) + weight(tasks[i]) == Total(tasks, weight) + weight(t)
  {
    var front := tasks[..|tasks| - 1];
    if i == |tasks| - 1 {
      assert tasks[i := t][..i] == front;
    } else {
      TotalUpdate(front, i, t, weight);
      assert tasks[i := t][..|tasks| - 1] == front[i := t];
    }
  }

  lemma {:induction false} TotalOfEqual(n: nat, t: Task, weight: Task -> nat)
    ensures Total(seq(n, _ => t), weight) == n * weight(t)
  {
    if n > 0 {
      TotalOfEqual(n - 1, t, weight);
      assert seq(n, _ => t)[..n - 1] == seq(n - 1, _ => t);
    }
  }

  lemma {:induction false} TotalCompare(tasks: seq<Task>, low: Task -> nat, high: Task -> nat)
    requires forall t :: low(t) <= high(t)
    ensures Total(tasks, low) <= Total(tasks, high)
    ensures Total(tasks, low) == Total(tasks, high) ==> forall i :: 0 <= i < |tasks| ==> low(tasks[i]) == high(tasks[i])
  {
    if tasks != [] {
      TotalCompare(tasks[..|tasks| - 1], low, high);
    }
  }

  /** A task is on its way to the very outcome that retrying its operation on
      its own would report. */
  ghost predicate OnTrack(c: Settings, replies: Replies, i: nat, t: Task) {
    var max := MaxAttempts(c.maxRetries);
    var final := OutcomeFrom(replies(i), IsRetriable(), max, 1);
    match t
    case Done(outcome) => outcome == final
    case BackingOff(k) => 1 <= k < max && OutcomeFrom(replies(i), IsRetriable(), max, k + 1) == final
    case _ => 1 <= t.attempt <= max && OutcomeFrom(replies(i), IsRetriable(), max, t.attempt) == final
  }

  ghost predicate Invariant(c: Settings, replies: Replies, groups: nat, s: State) {
    && |s.tasks| == groups
    && s.permits + Total(s.tasks, HoldsPermit) == c.maxConcurrent
    && forall i :: 0 <= i < groups ==> OnTrack(c, replies, i, s.tasks[i])
  }

  lemma StepKeepsInvariant(c: Settings, replies: Replies, groups: nat, s: State, step: Step)
    requires Invariant(c, replies, groups, s) && Enabled(c, s, step)
    ensures Invariant(c, replies, groups, Apply(c, replies, s, step))
  {
    var s' := Apply(c, replies, s, step);
    var i := step.i;
    assert OnTrack(c, replies, i, s.tasks[i]);
    assert OnTrack(c, replies, i, s'.tasks[i]);
    TotalUpdate(s.tasks, i, s'.tasks[i], HoldsPermit);
  }

  /** In every interleaving, the permits that are free and those that tasks
      hold add up to `max_concurrent_groups`; every task is on track. */
  lemma {:induction false} RunKeepsInvariant(c: Settings, replies: Replies, groups: nat, steps: seq<Step>)
    requires Run(c, replies, groups, steps).Some?
    ensures Invariant(c, replies, groups, Run(c, replies, groups, steps).value)
  {
    if steps == [] {
      TotalOfEqual(groups, Waiting(1), HoldsPermit);
    } else {
      var front := steps[..|steps| - 1];
      RunKeepsInvariant(c, replies, groups, front);
      StepKeepsInvariant(c, replies, groups, Run(c, replies, groups, front).value, steps[|steps| - 1]);
    }
  }

  /** At no point are more blocking calls in flight than permits held; and under a
      validated configuration there is a blocking thread for every permit held. */
  lemma CallsAreBounded(c: Settings, replies: Replies, groups: nat, steps: seq<Step>)
    requires Run(c, replies, groups, steps).Some?
    ensures var s := Run(c, replies, groups, steps).value;
      && Total(s.tasks, UsesThread) <= Total(s.tasks, HoldsPermit) <= c.maxConcurrent
      && (c.Validated() && c.OthersFit() ==> Total(s.tasks, HoldsPermit) + c.others <= c.maxBlockingThreads)
  {
    RunKeepsInvariant(c, replies, groups, steps);
    TotalCompare(Run(c, replies, groups, steps).value.tasks, UsesThread, HoldsPermit);
  }

  // ---- whether a permit is enough to go on ----

  /** The first `started` tasks call, the next ones hold a permit, up to
      `acquired`, and the rest wait for one. */
  function Filled(c: Settings, groups: nat, acquired: nat, started: nat): State
    requires started <= acquired <= groups && acquired <= c.maxConcurrent
  {
    State(
      c.maxConcurrent - acquired,
      seq(groups, i requires 0 <= i < groups =>
        if i < started then Calling(1) else if i < acquired then Holding(1) else Waiting(1)))
  }

  lemma {:induction false} ThreadsOfFirst(tasks: seq<Task>, started: nat)
    requires started <= |tasks|
    requires forall i :: 0 <= i < |tasks| ==> (tasks[i].Calling? <==> i < started)
    ensures Total(tasks, UsesThread) == started
  {
    if tasks != [] {
      ThreadsOfFirst(tasks[..|tasks| - 1], if started == |tasks| then started - 1 else started);
    }
  }

  /** That state is reached, as far as there are permits and threads. */
  lemma {:induction false} FilledIsReached(c: Settings, replies: Replies, groups: nat, acquired: nat, started: nat)
    returns (steps: seq<Step>)
    requires started <= acquired <= groups && acquired <= c.maxConcurrent
    requires started > 0 ==> started + c.others <= c.maxBlockingThreads
    ensures Run(c, replies, groups, steps) == Some(Filled(c, groups, acquired, started))
    decreases acquired + started
  {
    if acquired == 0 {
      steps := [];
      assert Initial(c, groups) == Filled(c, groups, 0, 0);
    } else {
      var last := if started > 0 then Start(started - 1) else Acquire(acquired - 1);
      var front;
      if started > 0 {
        front := FilledIsReached(c, replies, groups, acquired, started - 1);
        ThreadsOfFirst(Filled(c, groups, acquired, started - 1).tasks, started - 1);
        assert Apply(c, replies, Filled(c, groups, acquired, started - 1), last) == Filled(c, groups, acquired, started);
      } else {
        front := FilledIsReached(c, replies, groups, acquired - 1, 0);
        assert Apply(c, replies, Filled(c, groups, acquired - 1, 0), last) == Filled(c, groups, acquired, 0);
      }
      steps := front + [last];
      assert steps[..|front|] == front;
    }
  }

  /** In every run, a task that holds a permit can start its call at once. */
  ghost predicate HoldersNeverWait(c: Settings, groups: nat) {
    forall replies: Replies, steps: seq<Step>, i: nat ::
      Run(c, replies, groups, steps).Some? ==> !WaitsForThread(c, Run(c, replies, groups, steps).value, i)
  }

  ghost predicate WaitsForThread(c: Settings, s: State, i: nat) {
    i < |s.tasks| && s.tasks[i].Holding? && !Enabled(c, s, Start(i))
  }

  lemma {:induction false} HoldersAtMostTasks(tasks: seq<Task>)
    ensures Total(tasks, HoldsPermit) <= |tasks|
  {
    if tasks != [] {
      HoldersAtMostTasks(tasks[..|tasks| - 1]);
    }
  }

  lemma EnoughThreads(c: Settings, replies: Replies, groups: nat, steps: seq<Step>, i: nat)
    requires Run(c, replies, groups, steps).Some?
    requires Min(c.maxConcurrent, groups) + c.others <= c.maxBlockingThreads
    ensures !WaitsForThread(c, Run(c, replies, groups, steps).value, i)
  {
    var s := Run(c, replies, groups, steps).value;
    RunKeepsInvariant(c, replies, groups, steps);
    HoldersAtMostTasks(s.tasks);
    TotalCompare(s.tasks, UsesThread, HoldsPermit);
    if i < |s.tasks| && s.tasks[i].Holding? {
      assert UsesThread(s.tasks[i]) != HoldsPermit(s.tasks[i]);
    }
  }

  /** Exactly when that is so: there is a thread for as many tasks as can hold a
      permit at once, besides those for everything else. */
  lemma HoldersNeverWaitIff(c: Settings, groups: nat)
    requires c.maxConcurrent >= 1 && groups >= 1
    ensures HoldersNeverWait(c, groups) <==> Min(c.maxConcurrent, groups) + c.others <= c.maxBlockingThreads
  {
    var most := Min(c.maxConcurrent, groups);
    if most + c.others <= c.maxBlockingThreads {
      forall replies: Replies, steps: seq<Step>, i: nat | Run(c, replies, groups, steps).Some?
        ensures !WaitsForThread(c, Run(c, replies, groups, steps).value, i)
      {
        EnoughThreads(c, replies, groups, steps, i);
      }
    } else {
      var replies: Replies := _ => _ => Err(TaskError());
      var started := Max(c.maxBlockingThreads - c.others, 0);
      var steps := FilledIsReached(c, replies, groups, most, started);
      ThreadsOfFirst(Filled(c, groups, most, started).tasks, started);
      assert WaitsForThread(c, Run(c, replies, groups, steps).value, most - 1);
    }
  }

  /** So the validation asks for exactly what is needed: whatever the number of
      groups, and however much of its headroom the rest uses. */
  lemma ValidationIsExact(c: Settings)
    requires c.maxConcurrent >= 1
    ensures (forall groups: nat, others: nat :: groups >= 1 && c.(others := others).OthersFit()
              ==> HoldersNeverWait(c.(others := others), groups))
       <==> c.Validated()
  {
    if c.Validated() {
      forall groups: nat, others: nat | groups >= 1 && c.(others := others).OthersFit()
        ensures HoldersNeverWait(c.(others := others), groups)
      {
        HoldersNeverWaitIff(c.(others := others), groups);
      }
    } else {
      var all := c.(others := c.samplerThreads + 4);
      HoldersNeverWaitIff(all, c.maxConcurrent);
      assert all.OthersFit() && !HoldersNeverWait(c.(others := c.samplerThreads + 4), c.maxConcurrent);
    }
  }

  ghost predicate AllDone(s: State) {
    forall i :: 0 <= i < |s.tasks| ==> s.tasks[i].Done?
  }

  /** The step a task can take when neither permits nor threads are short. */
  function NextStep(t: Task, i: nat): Step {
    match t
    case Waiting(_) => Acquire(i)
    case Holding(_) => Start(i)
    case Calling(_) => Finish(i)
    case _ => Wake(i)
  }

  /** A task that holds a permit can always move on. */
  lemma HolderMoves(c: Settings, s: State, i: nat)
    requires c.Validated() && c.OthersFit() && i < |s.tasks| && HoldsPermit(s.tasks[i]) == 1
    requires s.permits + Total(s.tasks, HoldsPermit) == c.maxConcurrent
    ensures Enabled(c, s, NextStep(s.tasks[i], i))
  {
    TotalCompare(s.tasks, UsesThread, HoldsPermit);
    if s.tasks[i].Holding? {
      assert UsesThread(s.tasks[i]) != HoldsPermit(s.tasks[i]);
    }
  }

  lemma {:induction false} TotalOfZero(tasks: seq<Task>)
    requires forall i :: 0 <= i < |tasks| ==> HoldsPermit(tasks[i]) == 0
    ensures Total(tasks, HoldsPermit) == 0
  {
    if tasks != [] {
      TotalOfZero(tasks[..|tasks| - 1]);
    }
  }

  /** No deadlock: under a validated configuration, until every task is done,
      some step is enabled. */
  lemma SomeStepIsEnabled(c: Settings, replies: Replies, groups: nat, steps: seq<Step>)
    requires Run(c, replies, groups, steps).Some? && c.Validated() && c.OthersFit()
    requires !AllDone(Run(c, replies, groups, steps).value)
    ensures exists step :: Enabled(c, Run(c, replies, groups, steps).value, step)
  {
    var s := Run(c, replies, groups, steps).value;
    RunKeepsInvariant(c, replies, groups, steps);
    if j: nat :| j < |s.tasks| && HoldsPermit(s.tasks[j]) == 1 {
      HolderMoves(c, s, j);
    } else {
      TotalOfZero(s.tasks);
      var i: nat :| i < |s.tasks| && !s.tasks[i].Done?;
      assert HoldsPermit(s.tasks[i]) != 1;
      assert Enabled(c, s, NextStep(s.tasks[i], i));
    }
  }

  /** The validation of `max_concurrent_groups >= 1` is not optional: without a
      permit the fan-out over any group can never take its first step. */
  lemma NoPermitsNoProgress(c: Settings, replies: Replies, groups: nat, steps: seq<Step>)
    requires c.maxConcurrent == 0 && groups > 0
    requires Run(c, replies, groups, steps).Some?
    ensures steps == [] && !AllDone(Run(c, replies, groups, steps).value)
    decreases |steps|
  {
    if steps == [] {
      assert Initial(c, groups).tasks[0].Waiting?;
    } else {
      NoPermitsNoProgress(c, replies, groups, steps[..|steps| - 1]);
    }
  }

  /** Steps a task still has before it. */
  function Rank(c: Settings, t: Task): nat {
    var left := SaturatingSub(MaxAttempts(c.maxRetries), if t.Done? then 0 else t.attempt);
    match t
    case Waiting(_) => 4 * left + 4
    case Holding(_) => 4 * left + 3
    case Calling(_) => 4 * left + 2
    case BackingOff(_) => 4 * left + 1
    case Done(_) => 0
  }

  function RankIn(c: Settings): Task -> nat {
    t => Rank(c, t)
  }

  lemma StepLowersRank(c: Settings, replies: Replies, s: State, step: Step)
    requires Enabled(c, s, step) && OnTrack(c, replies, step.i, s.tasks[step.i])
    ensures Rank(c, Apply(c, replies, s, step).tasks[step.i]) < Rank(c, s.tasks[step.i])
  {
  }

  /** Every run ends: no interleaving is longer than four steps per permitted
      attempt and group. */
  lemma {:induction false} RunsAreFinite(c: Settings, replies: Replies, groups: nat, steps: seq<Step>)
    requires Run(c, replies, groups, steps).Some?
    ensures |steps| + Total(Run(c, replies, groups, steps).value.tasks, RankIn(c))
         <= groups * (4 * MaxAttempts(c.maxRetries))
  {
    if steps == [] {
      TotalOfEqual(groups, Waiting(1), RankIn(c));
      assert RankIn(c)(Waiting(1)) == 4 * MaxAttempts(c.maxRetries);
    } else {
      var front, step := steps[..|steps| - 1], steps[|steps| - 1];
      var s := Run(c, replies, groups, front).value;
      RunsAreFinite(c, replies, groups, front);
      RunKeepsInvariant(c, replies, groups, front);
      StepLowersRank(c, replies, s, step);
      TotalUpdate(s.tasks, step.i, Apply(c, replies, s, step).tasks[step.i], RankIn(c));
    }
  }

  // ---- what the collector makes of the results ----

  /** Later groups' entries are merged over earlier ones; failures are dropped. */
  function Merged(outcomes: seq<Outcome<map<string, Offsets>, AdminRequestError>>): map<string, Offsets> {
    if outcomes == [] then map[]
    else
      var before := Merged(outcomes[..|outcomes| - 1]);
      match outcomes[|outcomes| - 1]
      case Ok((offsets, _)) => before + offsets
      case Err(_) => before
  }

  method MergeResults(outcomes: seq<Outcome<map<string, Offsets>, AdminRequestError>>)
    returns (merged: map<string, Offsets>)
    ensures merged == Merged(outcomes)
  {
    merged := map[];
    for i := 0 to |outcomes|
      invariant merged == Merged(outcomes[..i])
    {
      assert outcomes[..i + 1][..i] == outcomes[..i];
      match outcomes[i] {
        case Ok((offsets, _)) => merged := merged + offsets;
        case Err(_) =>
      }
    }
    assert outcomes[..|outcomes|] == outcomes;
  }

  /** What group `i` ends with, whatever the schedule. */
  ghost function FinalOutcome(c: Settings, replies: Replies, i: nat): Outcome<map<string, Offsets>, AdminRequestError> {
    OutcomeFrom(replies(i), IsRetriable(), MaxAttempts(c.maxRetries), 1)
  }

  ghost function FinalOutcomes(c: Settings, replies: Replies, groups: nat)
    : seq<Outcome<map<string, Offsets>, AdminRequestError>>
  {
    seq(groups, i requires 0 <= i < groups => FinalOutcome(c, replies, i))
  }

  /** The collector's result does not depend on the interleaving: any two
      finished runs leave every task with the same outcome. */
  lemma ScheduleDoesNotMatter(c: Settings, replies: Replies, groups: nat, steps: seq<Step>)
    requires Run(c, replies, groups, steps).Some? && AllDone(Run(c, replies, groups, steps).value)
    ensures var tasks := Run(c, replies, groups, steps).value.tasks;
      && |tasks| == groups
      && forall i :: 0 <= i < groups ==> tasks[i] == Done(FinalOutcome(c, replies, i))
  {
    RunKeepsInvariant(c, replies, groups, steps);
    var tasks := Run(c, replies, groups, steps).value.tasks;
    forall i | 0 <= i < groups ensures tasks[i] == Done(FinalOutcome(c, replies, i)) {
      assert OnTrack(c, replies, i, tasks[i]);
    }
  }

  /** Each group's replies speak of that group alone. */
  ghost predicate OwnRepliesOnly(groupIds: seq<string>, replies: Replies) {
    forall i, k :: 0 <= i < |groupIds| && replies(i)(k).Ok? ==> replies(i)(k).value.Keys == {groupIds[i]}
  }

  /** Every reply is what became of one call for that group alone, and no call
      was answered against the protocol. */
  ghost predicate FromGoodCalls(groupIds: seq<string>, replies: Replies, calls: (nat, nat) -> CallOutcome) {
    forall i: nat, k: nat :: i < |groupIds| ==>
      && replies(i)(k) == ReplyTo(groupIds[i], calls(i, k))
      && (calls(i, k).CallAnswered? ==> WellAnswered([groupIds[i]], calls(i, k).results))
  }

  /** So each group's replies speak of that group alone. */
  lemma GoodCallsKeepToTheirGroup(groupIds: seq<string>, replies: Replies, calls: (nat, nat) -> CallOutcome)
    requires FromGoodCalls(groupIds, replies, calls)
    ensures OwnRepliesOnly(groupIds, replies)
  {
    forall i: nat, k: nat | i < |groupIds| && replies(i)(k).Ok?
      ensures replies(i)(k).value.Keys == {groupIds[i]}
    {
      assert replies(i)(k) == ReplyTo(groupIds[i], calls(i, k));
      SingleReplyMeaning(groupIds[i], calls(i, k).results);
    }
  }

  lemma {:induction false} OutcomeIsAReply<T, E>(
    operation: nat -> Result<T, E>, retriable: E -> bool, max: nat, k: nat)
    requires OutcomeFrom(operation, retriable, max, k).Ok?
    ensures var r := OutcomeFrom(operation, retriable, max, k); operation(r.value.1) == Ok(r.value.0)
    decreases max - k
  {
    if operation(k).Err? {
      OutcomeIsAReply(operation, retriable, max, k + 1);
    }
  }

  lemma MergedStep(c: Settings, replies: Replies, groupIds: seq<string>, n: nat, g: string)
    requires OwnRepliesOnly(groupIds, replies) && n < |groupIds|
    ensures var before, after := Merged(FinalOutcomes(c, replies, n)), Merged(FinalOutcomes(c, replies, n + 1));
      if g == groupIds[n] && FinalOutcome(c, replies, n).Ok? then
        var own := FinalOutcome(c, replies, n).value.0;
        g in own && g in after && after[g] == own[g]
      else (g in after <==> g in before) && (g in after ==> after[g] == before[g])
  {
    assert FinalOutcomes(c, replies, n + 1)[..n] == FinalOutcomes(c, replies, n);
    if FinalOutcome(c, replies, n).Ok? {
      OutcomeIsAReply(replies(n), IsRetriable(), MaxAttempts(c.maxRetries), 1);
      assert FinalOutcome(c, replies, n).value.0.Keys == {groupIds[n]};
    }
  }

  ghost predicate Succeeds(c: Settings, replies: Replies, groupIds: seq<string>, i: nat, g: string)
    requires i < |groupIds|
  {
    groupIds[i] == g && FinalOutcome(c, replies, i).Ok?
  }

  /** The merged map holds exactly the groups whose task ended in success. */
  lemma {:induction false} MergedHasTheSuccesses(
    c: Settings, replies: Replies, groupIds: seq<string>, n: nat, g: string)
    requires OwnRepliesOnly(groupIds, replies) && n <= |groupIds|
    ensures g in Merged(FinalOutcomes(c, replies, n)) <==> exists i: nat :: i < n && Succeeds(c, replies, groupIds, i, g)
  {
    if n > 0 {
      MergedHasTheSuccesses(c, replies, groupIds, n - 1, g);
      MergedStep(c, replies, groupIds, n - 1, g);
      assert Succeeds(c, replies, groupIds, n - 1, g) ==> g in Merged(FinalOutcomes(c, replies, n));
    }
  }

  /** With distinct groups, each is there with the offsets of its own successful
      reply, including those that had none committed. */
  lemma {:induction false} MergedHoldsOwnOffsets(
    c: Settings, replies: Replies, groupIds: seq<string>, n: nat, i: nat)
    requires Distinct(groupIds) && OwnRepliesOnly(groupIds, replies) && i < n <= |groupIds|
    requires FinalOutcome(c, replies, i).Ok?
    ensures var (merged, own) := (Merged(FinalOutcomes(c, replies, n)), FinalOutcome(c, replies, i).value.0);
      groupIds[i] in own && groupIds[i] in merged && merged[groupIds[i]] == own[groupIds[i]]
    decreases n
  {
    MergedStep(c, replies, groupIds, n - 1, groupIds[i]);
    if i < n - 1 {
      MergedHoldsOwnOffsets(c, replies, groupIds, n - 1, i);
    }
  }
}
