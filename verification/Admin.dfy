/** `src/kafka/admin.rs`: batched consumer-group requests. The broker is an
    oracle; what is modelled is the accounting around it: which groups a call
    answers, which failures are retried, and what is sent again. */
module Admin {
  import opened Basics
  import opened Retry

  // ---- errors ----

  /** librdkafka response codes; every code outside the allow-list is `Other`. */
  datatype ErrorCode =
    | Transport | AllBrokersDown | TimedOut | TimedOutQueue | WaitCoord
    | RequestTimedOut | BrokerNotAvailable | NetworkException
    | CoordinatorLoadInProgress | CoordinatorNotAvailable | NotCoordinator
    | Other(code: int)

  datatype AdminRequestError = AdminRequestError(code: Option<ErrorCode>, retriable: bool)

  function IsRetriableAdminCode(code: ErrorCode): bool {
    match code
    case Transport | AllBrokersDown | TimedOut | TimedOutQueue | WaitCoord => true
    case RequestTimedOut | BrokerNotAvailable | NetworkException => true
    case CoordinatorLoadInProgress | CoordinatorNotAvailable | NotCoordinator => true
    case Other(_) => false
  }

  function NewError(code: Option<ErrorCode>): AdminRequestError {
    AdminRequestError(code, code.Some? && IsRetriableAdminCode(code.value))
  }

  /** A failure of the calling side: it carries no code and is never retried. */
  function TaskError(): AdminRequestError {
    NewError(None)
  }

  /** An error inside an answer; the native flag does not always survive. */
  datatype BrokerError = BrokerError(code: ErrorCode, nativeRetriable: bool)

  function FromGroupError(e: BrokerError): AdminRequestError {
    var converted := NewError(Some(e.code));
    converted.(retriable := converted.retriable || e.nativeRetriable)
  }

  // ---- one call ----

  /** One group's entry in a broker response; `None` is `NO_ERROR`. */
  datatype GroupResult<+T> = GroupResult(groupId: string, error: Option<BrokerError>, payload: T)

  datatype GroupRequestFailure = GroupRequestFailure(groupId: string, error: AdminRequestError)

  datatype GroupDescription = GroupDescription(groupId: string, description: string)

  datatype DescribeGroupsResponse = DescribeGroupsResponse(
    descriptions: seq<GroupDescription>, failures: seq<GroupRequestFailure>)

  /** How one chunk's blocking call ended. */
  datatype ChunkOutcome =
    | Answered(results: seq<GroupResult<string>>)
    | RequestFailed(error: AdminRequestError)
    | TaskFailed

  // How often a group occurs in each kind of list.

  function Is(g: string): string -> bool {
    id => id == g
  }

  function IsResultOf<T>(g: string): GroupResult<T> -> bool {
    (e: GroupResult<T>) => e.groupId == g
  }

  function IsDescriptionOf(g: string): GroupDescription -> bool {
    (d: GroupDescription) => d.groupId == g
  }

  function IsFailureOf(g: string): GroupRequestFailure -> bool {
    (f: GroupRequestFailure) => f.groupId == g
  }

  function Count(ids: seq<string>, g: string): nat {
    CountIf(ids, Is(g))
  }

  function ResultCount<T>(results: seq<GroupResult<T>>, g: string): nat {
    CountIf(results, IsResultOf(g))
  }

  function DescribedCount(ds: seq<GroupDescription>, g: string): nat {
    CountIf(ds, IsDescriptionOf(g))
  }

  function FailedCount(fs: seq<GroupRequestFailure>, g: string): nat {
    CountIf(fs, IsFailureOf(g))
  }

  lemma DescribedCountAppend(ds: seq<GroupDescription>, d: GroupDescription, g: string)
    ensures DescribedCount(ds + [d], g) == DescribedCount(ds, g) + if d.groupId == g then 1 else 0
  {
    assert (ds + [d])[..|ds|] == ds;
  }

  lemma FailedCountAppend(fs: seq<GroupRequestFailure>, f: GroupRequestFailure, g: string)
    ensures FailedCount(fs + [f], g) == FailedCount(fs, g) + if f.groupId == g then 1 else 0
  {
    assert (fs + [f])[..|fs|] == fs;
  }

  lemma {:induction false} CountPositive(ids: seq<string>, g: string)
    ensures Count(ids, g) > 0 <==> g in ids
  {
    if ids != [] {
      CountPositive(ids[..|ids| - 1], g);
      assert ids == ids[..|ids| - 1] + [ids[|ids| - 1]];
    }
  }

  lemma {:induction false} ResultCountPositive<T>(results: seq<GroupResult<T>>, g: string)
    ensures ResultCount(results, g) > 0 <==> exists e :: e in results && e.groupId == g
  {
    if results != [] {
      var front, last := results[..|results| - 1], results[|results| - 1];
      ResultCountPositive(front, g);
      assert results == front + [last];
      assert last in results;
    }
  }

  lemma {:induction false} CountInDistinct(ids: seq<string>, g: string)
    requires Distinct(ids)
    ensures Count(ids, g) <= 1
  {
    if ids != [] {
      CountInDistinct(ids[..|ids| - 1], g);
      CountPositive(ids[..|ids| - 1], g);
    }
  }

  // ---- one call: what the code computes ----

  function Descriptions(results: seq<GroupResult<string>>): seq<GroupDescription> {
    if results == [] then []
    else
      var front, last := results[..|results| - 1], results[|results| - 1];
      Descriptions(front) + if last.error.None? then [GroupDescription(last.groupId, last.payload)] else []
  }

  function ErrorFailures<T>(results: seq<GroupResult<T>>): seq<GroupRequestFailure> {
    if results == [] then []
    else
      var front, last := results[..|results| - 1], results[|results| - 1];
      ErrorFailures(front)
      + if last.error.None? then [] else [GroupRequestFailure(last.groupId, FromGroupError(last.error.value))]
  }

  /** A requested group without an entry is a failure that is never retried. */
  function OmittedFailures(groupIds: seq<string>, returned: set<string>): seq<GroupRequestFailure> {
    if groupIds == [] then []
    else
      var front, last := groupIds[..|groupIds| - 1], groupIds[|groupIds| - 1];
      OmittedFailures(front, returned) + if last in returned then [] else [GroupRequestFailure(last, TaskError())]
  }

  function ReturnedIds<T(==)>(results: seq<GroupResult<T>>): set<string> {
    set e | e in results :: e.groupId
  }

  function OneChunkResponse(groupIds: seq<string>, results: seq<GroupResult<string>>): DescribeGroupsResponse {
    DescribeGroupsResponse(
      Descriptions(results), ErrorFailures(results) + OmittedFailures(groupIds, ReturnedIds(results)))
  }

  /** `describe_consumer_groups_one_chunk`, after the call itself succeeded. */
  method DescribeOneChunk(groupIds: seq<string>, results: seq<GroupResult<string>>)
    returns (r: DescribeGroupsResponse)
    ensures r == OneChunkResponse(groupIds, results)
  {
    var descriptions: seq<GroupDescription> := [];
    var failures: seq<GroupRequestFailure> := [];
    var returned: set<string> := {};
    for i := 0 to |results|
      invariant returned == ReturnedIds(results[..i])
      invariant descriptions == Descriptions(results[..i])
      invariant failures == ErrorFailures(results[..i])
    {
      var entry := results[i];
      assert results[..i + 1][..i] == results[..i];
      assert forall e :: e in results[..i + 1] <==> e in results[..i] || e == entry;
      returned := returned + {entry.groupId};
      if entry.error.Some? {
        failures := failures + [GroupRequestFailure(entry.groupId, FromGroupError(entry.error.value))];
        continue;
      }
      descriptions := descriptions + [GroupDescription(entry.groupId, entry.payload)];
    }
    assert results[..|results|] == results;
    for i := 0 to |groupIds|
      invariant failures == ErrorFailures(results) + OmittedFailures(groupIds[..i], returned)
    {
      assert groupIds[..i + 1][..i] == groupIds[..i];
      if groupIds[i] !in returned {
        failures := failures + [GroupRequestFailure(groupIds[i], TaskError())];
      }
    }
    assert groupIds[..|groupIds|] == groupIds;
    r := DescribeGroupsResponse(descriptions, failures);
  }

  /** A chunk that failed as a whole fails each of its groups with that error. */
  function FailedResponse(groupIds: seq<string>, error: AdminRequestError): DescribeGroupsResponse {
    DescribeGroupsResponse(
      [], seq(|groupIds|, i requires 0 <= i < |groupIds| => GroupRequestFailure(groupIds[i], error)))
  }

  function ResponseTo(chunk: seq<string>, outcome: ChunkOutcome): DescribeGroupsResponse {
    match outcome
    case Answered(results) => OneChunkResponse(chunk, results)
    case RequestFailed(error) => FailedResponse(chunk, error)
    case TaskFailed => FailedResponse(chunk, TaskError())
  }

  // ---- one call: what it accounts for ----

  /** How often a response speaks of group `g`. */
  ghost function Accounted(r: DescribeGroupsResponse, g: string): nat {
    DescribedCount(r.descriptions, g) + FailedCount(r.failures, g)
  }

  lemma {:induction false} EntriesCount(results: seq<GroupResult<string>>, g: string)
    ensures DescribedCount(Descriptions(results), g) + FailedCount(ErrorFailures(results), g)
         == ResultCount(results, g)
  {
    if results != [] {
      var front, last := results[..|results| - 1], results[|results| - 1];
      EntriesCount(front, g);
      if last.error.Some? {
        assert Descriptions(results) == Descriptions(front);
        FailedCountAppend(ErrorFailures(front), GroupRequestFailure(last.groupId, FromGroupError(last.error.value)), g);
      } else {
        assert ErrorFailures(results) == ErrorFailures(front);
        DescribedCountAppend(Descriptions(front), GroupDescription(last.groupId, last.payload), g);
      }
    }
  }

  lemma {:induction false} OmittedCount(groupIds: seq<string>, returned: set<string>, g: string)
    ensures FailedCount(OmittedFailures(groupIds, returned), g) == if g in returned then 0 else Count(groupIds, g)
  {
    if groupIds != [] {
      var front, last := groupIds[..|groupIds| - 1], groupIds[|groupIds| - 1];
      OmittedCount(front, returned, g);
      if last in returned {
        assert OmittedFailures(groupIds, returned) == OmittedFailures(front, returned);
      } else {
        FailedCountAppend(OmittedFailures(front, returned), GroupRequestFailure(last, TaskError()), g);
      }
    }
  }

  lemma OneChunkCount(groupIds: seq<string>, results: seq<GroupResult<string>>, g: string)
    ensures Accounted(OneChunkResponse(groupIds, results), g)
         == if ResultCount(results, g) == 0 then Count(groupIds, g) else ResultCount(results, g)
  {
    var returned := ReturnedIds(results);
    EntriesCount(results, g);
    OmittedCount(groupIds, returned, g);
    CountIfConcat(ErrorFailures(results), OmittedFailures(groupIds, returned), IsFailureOf(g));
    ResultCountPositive(results, g);
  }

  /** The broker answered for a group either not at all or exactly as often as
      it was asked. */
  ghost predicate WellAnswered<T>(requested: seq<string>, results: seq<GroupResult<T>>) {
    forall g :: ResultCount(results, g) == 0 || ResultCount(results, g) == Count(requested, g)
  }

  /** For distinct requested groups, well answered is the plain promise of the
      protocol: every group at most once, and only groups that were asked for. */
  lemma WellAnsweredForDistinct<T>(requested: seq<string>, results: seq<GroupResult<T>>)
    requires Distinct(requested)
    ensures WellAnswered(requested, results)
       <==> forall g :: ResultCount(results, g) <= if g in requested then 1 else 0
  {
    forall g ensures Count(requested, g) == if g in requested then 1 else 0 {
      CountInDistinct(requested, g);
      CountPositive(requested, g);
    }
  }

  /** The omitted-group rule makes a call account for exactly what it asked
      precisely when the broker's answer is well formed. */
  lemma ChunkConservesIff(groupIds: seq<string>, results: seq<GroupResult<string>>)
    ensures (forall g :: Accounted(OneChunkResponse(groupIds, results), g) == Count(groupIds, g))
       <==> WellAnswered(groupIds, results)
  {
    forall g
      ensures Accounted(OneChunkResponse(groupIds, results), g) == Count(groupIds, g)
         <==> ResultCount(results, g) == 0 || ResultCount(results, g) == Count(groupIds, g)
    {
      OneChunkCount(groupIds, results, g);
    }
  }

  lemma {:induction false} FailedResponseCount(groupIds: seq<string>, error: AdminRequestError, g: string)
    ensures Accounted(FailedResponse(groupIds, error), g) == Count(groupIds, g)
  {
    if groupIds != [] {
      var front := groupIds[..|groupIds| - 1];
      FailedResponseCount(front, error, g);
      var failures := FailedResponse(groupIds, error).failures;
      assert failures[..|failures| - 1] == FailedResponse(front, error).failures;
    }
  }

  // ---- which failures are tried again ----

  /** The groups of `failures` that are worth another attempt, in order. */
  function RetryableIds(failures: seq<GroupRequestFailure>, canRetry: bool): seq<string> {
    if failures == [] then []
    else
      var front, last := failures[..|failures| - 1], failures[|failures| - 1];
      RetryableIds(front, canRetry) + if canRetry && last.error.retriable then [last.groupId] else []
  }

  function TerminalFailures(failures: seq<GroupRequestFailure>, canRetry: bool): seq<GroupRequestFailure> {
    if failures == [] then []
    else
      var front, last := failures[..|failures| - 1], failures[|failures| - 1];
      TerminalFailures(front, canRetry) + if canRetry && last.error.retriable then [] else [last]
  }

  /** `partition_for_retry`. */
  method PartitionForRetry(failures: seq<GroupRequestFailure>, canRetry: bool)
    returns (retryable: seq<string>, terminal: seq<GroupRequestFailure>)
    ensures retryable == RetryableIds(failures, canRetry)
    ensures terminal == TerminalFailures(failures, canRetry)
  {
    retryable, terminal := [], [];
    for i := 0 to |failures|
      invariant retryable == RetryableIds(failures[..i], canRetry)
      invariant terminal == TerminalFailures(failures[..i], canRetry)
    {
      var failure := failures[i];
      assert failures[..i + 1][..i] == failures[..i];
      if canRetry && failure.error.retriable {
        retryable := retryable + [failure.groupId];
      } else {
        terminal := terminal + [failure];
      }
    }
    assert failures[..|failures|] == failures;
  }

  /** The split loses no failure. */
  lemma {:induction false} PartitionConserves(failures: seq<GroupRequestFailure>, canRetry: bool, g: string)
    ensures Count(RetryableIds(failures, canRetry), g) + FailedCount(TerminalFailures(failures, canRetry), g)
         == FailedCount(failures, g)
  {
    if failures != [] {
      var front, last := failures[..|failures| - 1], failures[|failures| - 1];
      PartitionConserves(front, canRetry, g);
      if canRetry && last.error.retriable {
        CountIfConcat(RetryableIds(front, canRetry), [last.groupId], Is(g));
        assert TerminalFailures(failures, canRetry) == TerminalFailures(front, canRetry);
      } else {
        FailedCountAppend(TerminalFailures(front, canRetry), last, g);
        assert RetryableIds(failures, canRetry) == RetryableIds(front, canRetry);
      }
    }
  }

  /** It retries what is retriable and nothing else, and nothing at all on the
      last attempt. */
  lemma {:induction false} RetriesOnlyRetriable(failures: seq<GroupRequestFailure>, canRetry: bool, g: string)
    ensures g in RetryableIds(failures, canRetry)
       <==> canRetry && exists f :: f in failures && f.groupId == g && f.error.retriable
  {
    if failures != [] {
      var front, last := failures[..|failures| - 1], failures[|failures| - 1];
      RetriesOnlyRetriable(front, canRetry, g);
      assert failures == front + [last];
      assert last in failures;
    }
  }

  lemma {:induction false} ErrorFailuresMembers<T>(results: seq<GroupResult<T>>, f: GroupRequestFailure)
    ensures f in ErrorFailures(results)
       <==> exists e :: e in results && e.error.Some? && f == GroupRequestFailure(e.groupId, FromGroupError(e.error.value))
  {
    if results != [] {
      ErrorFailuresMembers(results[..|results| - 1], f);
      assert results == results[..|results| - 1] + [results[|results| - 1]];
    }
  }

  lemma {:induction false} OmittedAreNotRetriable(groupIds: seq<string>, returned: set<string>)
    ensures forall f :: f in OmittedFailures(groupIds, returned) ==> !f.error.retriable
  {
    if groupIds != [] {
      OmittedAreNotRetriable(groupIds[..|groupIds| - 1], returned);
    }
  }

  /** The broker's error for a group is worth another attempt: it is on the
      allow-list of transient codes, or librdkafka itself says so. */
  predicate Transient(e: BrokerError) {
    !e.code.Other? || e.nativeRetriable
  }

  /** From an answered chunk, a group is sent again exactly when the broker
      reported a transient error for it; an omitted group never is. */
  lemma RetriedIffTransient(groupIds: seq<string>, results: seq<GroupResult<string>>, g: string)
    ensures g in RetryableIds(OneChunkResponse(groupIds, results).failures, true)
       <==> exists e: GroupResult<string> :: e in results && e.groupId == g && e.error.Some? && Transient(e.error.value)
  {
    var errors, omitted := ErrorFailures(results), OmittedFailures(groupIds, ReturnedIds(results));
    RetriesOnlyRetriable(errors + omitted, true, g);
    OmittedAreNotRetriable(groupIds, ReturnedIds(results));
    if f: GroupRequestFailure :| f in errors + omitted && f.groupId == g && f.error.retriable {
      ErrorFailuresMembers(results, f);
    }
    if e: GroupResult<string> :| e in results && e.groupId == g && e.error.Some? && Transient(e.error.value) {
      var f := GroupRequestFailure(e.groupId, FromGroupError(e.error.value));
      ErrorFailuresMembers(results, f);
      assert f in errors + omitted && f.error.retriable;
    }
  }

  // ---- rounds: what the code computes ----

  /** The broker's side of every call: the outcome of sending `chunk` as the
      `index`-th chunk of attempt `attempt`. */
  type Broker = (nat, nat, seq<string>) -> ChunkOutcome

  ghost predicate AnswersWell(broker: Broker, attempt: nat, index: nat, chunk: seq<string>) {
    var outcome := broker(attempt, index, chunk);
    outcome.Answered? ==> WellAnswered(chunk, outcome.results)
  }

  ghost predicate BrokerAnswersWell(broker: Broker) {
    forall attempt, index, chunk :: AnswersWell(broker, attempt, index, chunk)
  }

  /** `slice.chunks(size)`. */
  function Chunks<T>(s: seq<T>, size: nat): (c: seq<seq<T>>)
    requires size >= 1
    ensures forall i :: 0 <= i < |c| ==> 1 <= |c[i]| <= size
  {
    if s == [] then []
    else if |s| <= size then [s]
    else [s[..size]] + Chunks(s[size..], size)
  }

  /** One attempt: what was sent, and how it split. */
  datatype Round = Round(
    sent: seq<string>,
    described: seq<GroupDescription>,
    retried: seq<string>,
    failed: seq<GroupRequestFailure>)

  /** The first `n` chunks of one attempt. */
  function RoundUpTo(
    pending: seq<string>, chunks: seq<seq<string>>, n: nat, attempt: nat, canRetry: bool, broker: Broker): Round
    requires n <= |chunks|
  {
    if n == 0 then Round(pending, [], [], [])
    else
      var before := RoundUpTo(pending, chunks, n - 1, attempt, canRetry, broker);
      var response := ResponseTo(chunks[n - 1], broker(attempt, n - 1, chunks[n - 1]));
      Round(
        pending,
        before.described + response.descriptions,
        before.retried + RetryableIds(response.failures, canRetry),
        before.failed + TerminalFailures(response.failures, canRetry))
  }

  function RoundOf(pending: seq<string>, chunkSize: nat, attempt: nat, canRetry: bool, broker: Broker): Round
    requires chunkSize >= 1
  {
    var chunks := Chunks(pending, chunkSize);
    RoundUpTo(pending, chunks, |chunks|, attempt, canRetry, broker)
  }

  /** One call of the broker, and the answer the round works on. */
  method SendChunk(chunk: seq<string>, outcome: ChunkOutcome) returns (response: DescribeGroupsResponse)
    ensures response == ResponseTo(chunk, outcome)
  {
    match outcome {
      case Answered(results) => response := DescribeOneChunk(chunk, results);
      case RequestFailed(error) => response := FailedResponse(chunk, error);
      case TaskFailed => response := FailedResponse(chunk, TaskError());
    }
  }

  /** Send every chunk of `pending` once and split what comes back. */
  method RunRound(pending: seq<string>, chunkSize: nat, attempt: nat, canRetry: bool, broker: Broker)
    returns (round: Round)
    requires chunkSize >= 1
    ensures round == RoundOf(pending, chunkSize, attempt, canRetry, broker)
  {
    var chunks := Chunks(pending, chunkSize);
    round := Round(pending, [], [], []);
    for i := 0 to |chunks|
      invariant round == RoundUpTo(pending, chunks, i, attempt, canRetry, broker)
    {
      var response := SendChunk(chunks[i], broker(attempt, i, chunks[i]));
      var retryable, terminal := PartitionForRetry(response.failures, canRetry);
      round := Round(
        pending, round.described + response.descriptions, round.retried + retryable, round.failed + terminal);
    }
  }

  ghost function AllDescribed(rounds: seq<Round>): seq<GroupDescription> {
    if rounds == [] then [] else AllDescribed(rounds[..|rounds| - 1]) + rounds[|rounds| - 1].described
  }

  ghost function AllFailed(rounds: seq<Round>): seq<GroupRequestFailure> {
    if rounds == [] then [] else AllFailed(rounds[..|rounds| - 1]) + rounds[|rounds| - 1].failed
  }

  /** Attempt `k + 1` sends, and sends only what attempt `k` left to be retried. */
  ghost predicate IsAttempt(
    groupIds: seq<string>, chunkSize: nat, maxAttempts: nat, broker: Broker, rounds: seq<Round>, k: nat)
    requires chunkSize >= 1 && k < |rounds|
  {
    && rounds[k].sent != []
    && rounds[k].sent == (if k == 0 then groupIds else rounds[k - 1].retried)
    && rounds[k] == RoundOf(rounds[k].sent, chunkSize, k + 1, k + 1 < maxAttempts, broker)
  }

  /** The attempts made so far. */
  ghost predicate History(
    groupIds: seq<string>, chunkSize: nat, maxAttempts: nat, broker: Broker, rounds: seq<Round>)
    requires chunkSize >= 1
  {
    && |rounds| <= maxAttempts
    && forall k: nat :: k < |rounds| ==> IsAttempt(groupIds, chunkSize, maxAttempts, broker, rounds, k)
  }

  ghost predicate Complete(groupIds: seq<string>, rounds: seq<Round>) {
    (rounds == [] ==> groupIds == []) && (rounds != [] ==> rounds[|rounds| - 1].retried == [])
  }

  lemma ExtendHistory(
    groupIds: seq<string>, chunkSize: nat, maxAttempts: nat, broker: Broker, rounds: seq<Round>, round: Round)
    requires chunkSize >= 1 && |rounds| < maxAttempts
    requires History(groupIds, chunkSize, maxAttempts, broker, rounds)
    requires round.sent == if rounds == [] then groupIds else rounds[|rounds| - 1].retried
    requires round.sent != []
    requires round == RoundOf(round.sent, chunkSize, |rounds| + 1, |rounds| + 1 < maxAttempts, broker)
    ensures History(groupIds, chunkSize, maxAttempts, broker, rounds + [round])
  {
    forall k: nat | k < |rounds + [round]|
      ensures IsAttempt(groupIds, chunkSize, maxAttempts, broker, rounds + [round], k)
    {
      if k < |rounds| {
        assert IsAttempt(groupIds, chunkSize, maxAttempts, broker, rounds, k);
      }
    }
  }

  /** `describe_consumer_groups_batched`. `warned` is what the source only
      logs; `rounds` records each attempt. */
  method DescribeConsumerGroups(groupIds: seq<string>, chunkSize: nat, maxRetries: usize, broker: Broker)
    returns (out: seq<GroupDescription>, warned: seq<GroupRequestFailure>, rounds: seq<Round>)
    ensures History(groupIds, Max(chunkSize, 1), MaxAttempts(maxRetries), broker, rounds)
    ensures Complete(groupIds, rounds)
    ensures out == AllDescribed(rounds) && warned == AllFailed(rounds)
  {
    out, warned, rounds := [], [], [];
    if groupIds == [] {
      return;
    }
    var size := Max(chunkSize, 1);
    var pending := groupIds;
    var maxAttempts := MaxAttempts(maxRetries);
    var attempt := 1;
    while attempt <= maxAttempts
      invariant 1 <= attempt <= maxAttempts + 1
      invariant |rounds| == attempt - 1
      invariant out == AllDescribed(rounds) && warned == AllFailed(rounds)
      invariant History(groupIds, size, maxAttempts, broker, rounds)
      invariant pending == if rounds == [] then groupIds else rounds[|rounds| - 1].retried
      invariant pending == [] <==> attempt > maxAttempts
      decreases maxAttempts + 1 - attempt
    {
      var round := RunRound(pending, size, attempt, attempt < maxAttempts, broker);
      RoundFacts(pending, size, attempt, attempt < maxAttempts, broker);
      ExtendHistory(groupIds, size, maxAttempts, broker, rounds, round);
      assert (rounds + [round])[..|rounds|] == rounds;
      out, warned, rounds := out + round.described, warned + round.failed, rounds + [round];
      if round.retried == [] {
        break;
      }
      pending := round.retried;
      attempt := attempt + 1;
    }
  }

  // ---- rounds: what they keep ----

  lemma {:induction false} NothingRetriedUpTo(
    pending: seq<string>, chunks: seq<seq<string>>, n: nat, attempt: nat, broker: Broker)
    requires n <= |chunks|
    ensures RoundUpTo(pending, chunks, n, attempt, false, broker).retried == []
  {
    if n > 0 {
      NothingRetriedUpTo(pending, chunks, n - 1, attempt, broker);
      var failures := ResponseTo(chunks[n - 1], broker(attempt, n - 1, chunks[n - 1])).failures;
      if RetryableIds(failures, false) != [] {
        RetriesOnlyRetriable(failures, false, RetryableIds(failures, false)[0]);
      }
    }
  }

  lemma RoundFacts(pending: seq<string>, chunkSize: nat, attempt: nat, canRetry: bool, broker: Broker)
    requires chunkSize >= 1
    ensures RoundOf(pending, chunkSize, attempt, canRetry, broker).sent == pending
    ensures !canRetry ==> RoundOf(pending, chunkSize, attempt, canRetry, broker).retried == []
  {
    var chunks := Chunks(pending, chunkSize);
    if !canRetry {
      NothingRetriedUpTo(pending, chunks, |chunks|, attempt, broker);
    }
  }

  ghost function CountIn(chunks: seq<seq<string>>, n: nat, g: string): nat
    requires n <= |chunks|
  {
    if n == 0 then 0 else CountIn(chunks, n - 1, g) + Count(chunks[n - 1], g)
  }

  lemma {:induction false} CountInTail(chunks: seq<seq<string>>, n: nat, g: string)
    requires 1 <= n <= |chunks|
    ensures CountIn(chunks, n, g) == Count(chunks[0], g) + CountIn(chunks[1..], n - 1, g)
  {
    if n > 1 {
      CountInTail(chunks, n - 1, g);
    }
  }

  /** Cutting a list into chunks keeps every group as often as it was there. */
  lemma {:induction false} ChunksKeepAll(s: seq<string>, size: nat, g: string)
    requires size >= 1
    ensures CountIn(Chunks(s, size), |Chunks(s, size)|, g) == Count(s, g)
  {
    if |s| > size {
      ChunksKeepAll(s[size..], size, g);
      var chunks := Chunks(s, size);
      assert chunks[1..] == Chunks(s[size..], size);
      CountInTail(chunks, |chunks|, g);
      CountIfConcat(s[..size], s[size..], Is(g));
      assert s == s[..size] + s[size..];
    } else if s != [] {
      CountInTail([s], 1, g);
    }
  }

  /** How often a round's outcome speaks of group `g`. */
  ghost function OutcomeCount(round: Round, g: string): nat {
    DescribedCount(round.described, g) + Count(round.retried, g) + FailedCount(round.failed, g)
  }

  ghost predicate RoundConserves(round: Round) {
    forall g :: Count(round.sent, g) == OutcomeCount(round, g)
  }

  lemma ResponseCount(chunk: seq<string>, outcome: ChunkOutcome, g: string)
    requires outcome.Answered? ==> WellAnswered(chunk, outcome.results)
    ensures Accounted(ResponseTo(chunk, outcome), g) == Count(chunk, g)
  {
    match outcome
    case Answered(results) => OneChunkCount(chunk, results, g);
    case RequestFailed(error) => FailedResponseCount(chunk, error, g);
    case TaskFailed => FailedResponseCount(chunk, TaskError(), g);
  }

  lemma ChunkCount(chunk: seq<string>, outcome: ChunkOutcome, canRetry: bool, g: string)
    requires outcome.Answered? ==> WellAnswered(chunk, outcome.results)
    ensures var response := ResponseTo(chunk, outcome);
      DescribedCount(response.descriptions, g) + Count(RetryableIds(response.failures, canRetry), g)
      + FailedCount(TerminalFailures(response.failures, canRetry), g) == Count(chunk, g)
  {
    ResponseCount(chunk, outcome, g);
    PartitionConserves(ResponseTo(chunk, outcome).failures, canRetry, g);
  }

  lemma RoundGrowsBy(before: Round, described: seq<GroupDescription>, retried: seq<string>,
                     failed: seq<GroupRequestFailure>, g: string)
    ensures OutcomeCount(
              Round(before.sent, before.described + described, before.retried + retried, before.failed + failed), g)
         == OutcomeCount(before, g) + (DescribedCount(described, g) + Count(retried, g) + FailedCount(failed, g))
  {
    CountIfConcat(before.described, described, IsDescriptionOf(g));
    CountIfConcat(before.retried, retried, Is(g));
    CountIfConcat(before.failed, failed, IsFailureOf(g));
  }

  lemma {:induction false} RoundUpToCount(
    pending: seq<string>, chunks: seq<seq<string>>, n: nat, attempt: nat, canRetry: bool, broker: Broker, g: string)
    requires n <= |chunks| && BrokerAnswersWell(broker)
    ensures OutcomeCount(RoundUpTo(pending, chunks, n, attempt, canRetry, broker), g) == CountIn(chunks, n, g)
    ensures RoundUpTo(pending, chunks, n, attempt, canRetry, broker).sent == pending
  {
    if n > 0 {
      var chunk, outcome := chunks[n - 1], broker(attempt, n - 1, chunks[n - 1]);
      var response := ResponseTo(chunk, outcome);
      RoundUpToCount(pending, chunks, n - 1, attempt, canRetry, broker, g);
      assert AnswersWell(broker, attempt, n - 1, chunk);
      ChunkCount(chunk, outcome, canRetry, g);
      RoundGrowsBy(
        RoundUpTo(pending, chunks, n - 1, attempt, canRetry, broker), response.descriptions,
        RetryableIds(response.failures, canRetry), TerminalFailures(response.failures, canRetry), g);
    }
  }

  lemma EachRoundConserves(pending: seq<string>, chunkSize: nat, attempt: nat, canRetry: bool, broker: Broker)
    requires chunkSize >= 1 && BrokerAnswersWell(broker)
    ensures RoundConserves(RoundOf(pending, chunkSize, attempt, canRetry, broker))
  {
    var chunks := Chunks(pending, chunkSize);
    var round := RoundOf(pending, chunkSize, attempt, canRetry, broker);
    RoundFacts(pending, chunkSize, attempt, canRetry, broker);
    forall g ensures Count(round.sent, g) == OutcomeCount(round, g) {
      RoundUpToCount(pending, chunks, |chunks|, attempt, canRetry, broker, g);
      ChunksKeepAll(pending, chunkSize, g);
    }
  }

  /** What later results need of a history: rounds that lose nothing, each
      feeding the next. */
  ghost predicate IsLink(groupIds: seq<string>, rounds: seq<Round>, k: nat)
    requires k < |rounds|
  {
    RoundConserves(rounds[k]) && rounds[k].sent == if k == 0 then groupIds else rounds[k - 1].retried
  }

  ghost predicate Chain(groupIds: seq<string>, rounds: seq<Round>) {
    forall k: nat :: k < |rounds| ==> IsLink(groupIds, rounds, k)
  }

  lemma AttemptConserves(
    groupIds: seq<string>, chunkSize: nat, maxAttempts: nat, broker: Broker, rounds: seq<Round>, k: nat)
    requires chunkSize >= 1 && BrokerAnswersWell(broker) && k < |rounds|
    requires IsAttempt(groupIds, chunkSize, maxAttempts, broker, rounds, k)
    ensures IsLink(groupIds, rounds, k)
  {
    EachRoundConserves(rounds[k].sent, chunkSize, k + 1, k + 1 < maxAttempts, broker);
  }

  /** Every history against a well-answering broker is such a chain. */
  lemma HistoryIsChain(groupIds: seq<string>, chunkSize: nat, maxAttempts: nat, broker: Broker, rounds: seq<Round>)
    requires chunkSize >= 1 && BrokerAnswersWell(broker)
    requires History(groupIds, chunkSize, maxAttempts, broker, rounds)
    ensures Chain(groupIds, rounds)
  {
    forall k: nat | k < |rounds| ensures IsLink(groupIds, rounds, k) {
      AttemptConserves(groupIds, chunkSize, maxAttempts, broker, rounds, k);
    }
  }

  lemma ChainPrefix(groupIds: seq<string>, rounds: seq<Round>, n: nat)
    requires n <= |rounds| && Chain(groupIds, rounds)
    ensures Chain(groupIds, rounds[..n])
  {
    forall k: nat | k < n ensures IsLink(groupIds, rounds[..n], k) {
      assert IsLink(groupIds, rounds, k);
    }
  }

  lemma {:induction false} ChainCount(groupIds: seq<string>, rounds: seq<Round>, g: string)
    requires rounds != [] && Chain(groupIds, rounds)
    ensures Count(groupIds, g) == DescribedCount(AllDescribed(rounds), g) + FailedCount(AllFailed(rounds), g)
                                + Count(rounds[|rounds| - 1].retried, g)
  {
    var front, last := rounds[..|rounds| - 1], rounds[|rounds| - 1];
    CountIfConcat(AllDescribed(front), last.described, IsDescriptionOf(g));
    CountIfConcat(AllFailed(front), last.failed, IsFailureOf(g));
    assert IsLink(groupIds, rounds, |rounds| - 1);
    assert Count(last.sent, g) == OutcomeCount(last, g);
    if front != [] {
      ChainPrefix(groupIds, rounds, |rounds| - 1);
      ChainCount(groupIds, front, g);
    }
  }

  /** No group is lost and none is invented: whatever the chunk size, the retry
      limit and the outcome of each call, every requested group ends described
      or finally failed exactly as often as it was requested. */
  lemma DescribeConservesGroups(
    groupIds: seq<string>, chunkSize: nat, maxAttempts: nat, broker: Broker, rounds: seq<Round>)
    requires chunkSize >= 1 && BrokerAnswersWell(broker)
    requires History(groupIds, chunkSize, maxAttempts, broker, rounds) && Complete(groupIds, rounds)
    ensures forall g :: Count(groupIds, g)
                     == DescribedCount(AllDescribed(rounds), g) + FailedCount(AllFailed(rounds), g)
  {
    HistoryIsChain(groupIds, chunkSize, maxAttempts, broker, rounds);
    if rounds != [] {
      forall g ensures Count(groupIds, g)
                    == DescribedCount(AllDescribed(rounds), g) + FailedCount(AllFailed(rounds), g) {
        ChainCount(groupIds, rounds, g);
      }
    }
  }

  lemma {:induction false} LaterRoundsSendLess(groupIds: seq<string>, rounds: seq<Round>, k: nat, later: nat, g: string)
    requires Chain(groupIds, rounds)
    requires k < later < |rounds|
    ensures Count(rounds[later].sent, g) <= Count(rounds[k].retried, g) <= Count(rounds[k].sent, g)
    decreases later
  {
    assert IsLink(groupIds, rounds, k) && IsLink(groupIds, rounds, later);
    assert Count(rounds[k].sent, g) == OutcomeCount(rounds[k], g);
    if k + 1 < later {
      LaterRoundsSendLess(groupIds, rounds, k, later - 1, g);
      assert IsLink(groupIds, rounds, later - 1);
      assert Count(rounds[later - 1].sent, g) == OutcomeCount(rounds[later - 1], g);
    }
  }

  lemma SentAtMostAsRequested(groupIds: seq<string>, rounds: seq<Round>, k: nat, g: string)
    requires Chain(groupIds, rounds) && k < |rounds|
    ensures Count(rounds[k].sent, g) <= Count(groupIds, g)
  {
    assert IsLink(groupIds, rounds, 0);
    if k > 0 {
      LaterRoundsSendLess(groupIds, rounds, 0, k, g);
    }
  }

  /** A group that some attempt described, or failed for good, is in no later
      request (for distinct requested groups). */
  lemma SettledGroupsAreNotResent(
    groupIds: seq<string>, chunkSize: nat, maxAttempts: nat, broker: Broker, rounds: seq<Round>,
    k: nat, later: nat, g: string)
    requires chunkSize >= 1 && BrokerAnswersWell(broker) && Distinct(groupIds)
    requires History(groupIds, chunkSize, maxAttempts, broker, rounds)
    requires k < later < |rounds|
    requires DescribedCount(rounds[k].described, g) > 0 || FailedCount(rounds[k].failed, g) > 0
    ensures g !in rounds[later].sent
  {
    HistoryIsChain(groupIds, chunkSize, maxAttempts, broker, rounds);
    SentAtMostAsRequested(groupIds, rounds, k, g);
    CountInDistinct(groupIds, g);
    assert IsLink(groupIds, rounds, k);
    assert Count(rounds[k].sent, g) == OutcomeCount(rounds[k], g);
    LaterRoundsSendLess(groupIds, rounds, k, later, g);
    CountPositive(rounds[later].sent, g);
  }

  lemma {:induction false} TerminalMeansPermanent(failures: seq<GroupRequestFailure>)
    ensures forall f :: f in TerminalFailures(failures, true) ==> !f.error.retriable
  {
    if failures != [] {
      TerminalMeansPermanent(failures[..|failures| - 1]);
    }
  }

  lemma {:induction false} EarlyFailuresUpTo(
    pending: seq<string>, chunks: seq<seq<string>>, n: nat, attempt: nat, broker: Broker)
    requires n <= |chunks|
    ensures forall f :: f in RoundUpTo(pending, chunks, n, attempt, true, broker).failed ==> !f.error.retriable
  {
    if n > 0 {
      EarlyFailuresUpTo(pending, chunks, n - 1, attempt, broker);
      TerminalMeansPermanent(ResponseTo(chunks[n - 1], broker(attempt, n - 1, chunks[n - 1])).failures);
    }
  }

  /** Before the last permitted attempt, only a non-retriable failure is final. */
  lemma EarlyFailuresArePermanent(
    groupIds: seq<string>, chunkSize: nat, maxAttempts: nat, broker: Broker, rounds: seq<Round>, k: nat)
    requires chunkSize >= 1
    requires History(groupIds, chunkSize, maxAttempts, broker, rounds)
    requires k < |rounds| && k + 1 < maxAttempts
    ensures forall f :: f in rounds[k].failed ==> !f.error.retriable
  {
    assert IsAttempt(groupIds, chunkSize, maxAttempts, broker, rounds, k);
    var chunks := Chunks(rounds[k].sent, chunkSize);
    EarlyFailuresUpTo(rounds[k].sent, chunks, |chunks|, k + 1, broker);
  }

  /** How often `g` occurs in all requests together. */
  ghost function TimesSent(rounds: seq<Round>, g: string): nat {
    if rounds == [] then 0 else TimesSent(rounds[..|rounds| - 1], g) + Count(rounds[|rounds| - 1].sent, g)
  }

  lemma {:induction false} SendsBounded(groupIds: seq<string>, rounds: seq<Round>, g: string)
    requires Chain(groupIds, rounds) && Distinct(groupIds)
    ensures TimesSent(rounds, g) <= if g in groupIds then |rounds| else 0
  {
    if rounds != [] {
      ChainPrefix(groupIds, rounds, |rounds| - 1);
      SendsBounded(groupIds, rounds[..|rounds| - 1], g);
      SentAtMostAsRequested(groupIds, rounds, |rounds| - 1, g);
      CountInDistinct(groupIds, g);
      CountPositive(groupIds, g);
    }
  }

  /** No group is requested more than `max_retries + 1` times. */
  lemma SendsAtMostMaxAttempts(
    groupIds: seq<string>, chunkSize: nat, maxRetries: usize, broker: Broker, rounds: seq<Round>, g: string)
    requires chunkSize >= 1 && BrokerAnswersWell(broker) && Distinct(groupIds)
    requires History(groupIds, chunkSize, MaxAttempts(maxRetries), broker, rounds)
    ensures TimesSent(rounds, g) <= if g in groupIds then maxRetries + 1 else 0
  {
    HistoryIsChain(groupIds, chunkSize, MaxAttempts(maxRetries), broker, rounds);
    SendsBounded(groupIds, rounds, g);
  }

  lemma {:induction false} DescribedCountPositive(ds: seq<GroupDescription>, g: string)
    ensures DescribedCount(ds, g) > 0 <==> exists i :: 0 <= i < |ds| && ds[i].groupId == g
  {
    if ds != [] {
      var front := ds[..|ds| - 1];
      DescribedCountPositive(front, g);
      if i :| 0 <= i < |front| && front[i].groupId == g {
        assert ds[i].groupId == g;
      }
    }
  }

  ghost predicate DescribedOnce(ds: seq<GroupDescription>) {
    forall i, j :: 0 <= i < j < |ds| ==> ds[i].groupId != ds[j].groupId
  }

  lemma {:induction false} CountedOnceMeansDistinct(ds: seq<GroupDescription>)
    requires forall g :: DescribedCount(ds, g) <= 1
    ensures DescribedOnce(ds)
  {
    if ds != [] {
      var front, last := ds[..|ds| - 1], ds[|ds| - 1];
      forall g ensures DescribedCount(front, g) <= 1 {
        assert DescribedCount(ds, g) <= 1;
      }
      CountedOnceMeansDistinct(front);
      assert DescribedCount(ds, last.groupId) <= 1;
      DescribedCountPositive(front, last.groupId);
      forall i | 0 <= i < |front| ensures ds[i].groupId != last.groupId {
        assert front[i] == ds[i];
      }
    }
  }

  /** So the snapshot built from the descriptions never names a group twice. */
  lemma DescribedGroupsAreDistinct(
    groupIds: seq<string>, chunkSize: nat, maxAttempts: nat, broker: Broker, rounds: seq<Round>)
    requires chunkSize >= 1 && BrokerAnswersWell(broker) && Distinct(groupIds)
    requires History(groupIds, chunkSize, maxAttempts, broker, rounds) && Complete(groupIds, rounds)
    ensures DescribedOnce(AllDescribed(rounds))
  {
    DescribeConservesGroups(groupIds, chunkSize, maxAttempts, broker, rounds);
    forall g ensures DescribedCount(AllDescribed(rounds), g) <= 1 {
      CountInDistinct(groupIds, g);
    }
    CountedOnceMeansDistinct(AllDescribed(rounds));
  }
}
