/** The compaction lookup of `collect_parallel` (`src/collector/offset_collector.rs`):
    a per-topic cache in front of a DescribeConfigs call that may fail as a
    whole or for single topics (`src/kafka/client.rs`). Instants are nanoseconds. */
module CompactionCache {
  import opened Basics

  /** What was last learnt about a topic, and when. */
  type Entries = map<string, (bool, int)>

  // ---- the DescribeConfigs answer ----

  datatype ConfigEntry = ConfigEntry(name: string, value: Option<string>)

  /** One resource of the answer; an error carries no topic. */
  datatype ConfigResult = Described(topic: string, entries: seq<ConfigEntry>) | Errored

  predicate Contains(s: string, part: string) {
    exists i :: 0 <= i <= |s| && part <= s[i..]
  }

  predicate SaysCompact(e: ConfigEntry) {
    e.name == "cleanup.policy" && e.value.Some? && Contains(e.value.value, "compact")
  }

  /** `fetch_compacted_topics_for`: a topic whose resource came back as an error
      is silently absent, like one that is not compacted. */
  method CompactedFrom(results: seq<ConfigResult>) returns (compacted: set<string>)
    ensures forall topic :: topic in compacted <==>
      exists r :: r in results && r.Described? && r.topic == topic && exists e :: e in r.entries && SaysCompact(e)
  {
    compacted := {};
    for i := 0 to |results|
      invariant forall topic :: topic in compacted <==>
        exists r :: r in results[..i] && r.Described? && r.topic == topic && exists e :: e in r.entries && SaysCompact(e)
    {
      var r := results[i];
      assert results[..i + 1] == results[..i] + [r];
      if r.Errored? {
        continue;
      }
      var found := false;
      for j := 0 to |r.entries|
        invariant found <==> exists e :: e in r.entries[..j] && SaysCompact(e)
      {
        assert r.entries[..j + 1] == r.entries[..j] + [r.entries[j]];
        if SaysCompact(r.entries[j]) {
          found := true;
        }
      }
      assert r.entries[..|r.entries|] == r.entries;
      if found {
        compacted := compacted + {r.topic};
      }
    }
    assert results[..|results|] == results;
  }

  // ---- the cache operations ----

  predicate FreshIn(entries: Entries, ttl: nat, topic: string, now: int) {
    topic in entries && Max(now - entries[topic].1, 0) < ttl
  }

  function CachedCompacted(entries: Entries, ttl: nat, monitored: seq<string>, now: int): set<string> {
    set topic | topic in monitored && FreshIn(entries, ttl, topic, now) && entries[topic].0
  }

  function ToFetch(entries: Entries, ttl: nat, monitored: seq<string>, now: int): (f: seq<string>)
    ensures forall topic :: topic in f <==> topic in monitored && !FreshIn(entries, ttl, topic, now)
  {
    if monitored == [] then []
    else
      var front, last := monitored[..|monitored| - 1], monitored[|monitored| - 1];
      assert monitored == front + [last];
      ToFetch(entries, ttl, front, now) + if FreshIn(entries, ttl, last, now) then [] else [last]
  }

  lemma OneMoreTopic(entries: Entries, ttl: nat, monitored: seq<string>, i: nat, now: int)
    requires i < |monitored|
    ensures CachedCompacted(entries, ttl, monitored[..i + 1], now)
         == CachedCompacted(entries, ttl, monitored[..i], now)
            + if FreshIn(entries, ttl, monitored[i], now) && entries[monitored[i]].0 then {monitored[i]} else {}
    ensures ToFetch(entries, ttl, monitored[..i + 1], now)
         == ToFetch(entries, ttl, monitored[..i], now)
            + if FreshIn(entries, ttl, monitored[i], now) then [] else [monitored[i]]
  {
    assert monitored[..i + 1][..i] == monitored[..i];
    assert monitored[..i + 1] == monitored[..i] + [monitored[i]];
  }

  function Updated(entries: Entries, fetched: seq<string>, compacted: set<string>, now: int): Entries {
    map topic | topic in entries.Keys + (set t | t in fetched) ::
      if topic in fetched then (topic in compacted, now) else entries[topic]
  }

  function PrunedTo(entries: Entries, monitored: seq<string>): Entries {
    map topic | topic in entries && topic in monitored :: entries[topic]
  }

  class CompactedTopicsCache {
    var entries: Entries
    const ttl: nat

    constructor (ttl: nat)
      ensures entries == map[] && this.ttl == ttl
    {
      this.ttl := ttl;
      entries := map[];
    }

    /** Every monitored topic is either answered from a fresh entry or handed
        back to be fetched. */
    method Partition(monitored: seq<string>, now: int) returns (cached: set<string>, toFetch: seq<string>)
      ensures cached == CachedCompacted(entries, ttl, monitored, now)
      ensures toFetch == ToFetch(entries, ttl, monitored, now)
    {
      cached, toFetch := {}, [];
      for i := 0 to |monitored|
        invariant cached == CachedCompacted(entries, ttl, monitored[..i], now)
        invariant toFetch == ToFetch(entries, ttl, monitored[..i], now)
      {
        OneMoreTopic(entries, ttl, monitored, i, now);
        if monitored[i] in entries && Max(now - entries[monitored[i]].1, 0) < ttl {
          if entries[monitored[i]].0 {
            cached := cached + {monitored[i]};
          }
        } else {
          toFetch := toFetch + [monitored[i]];
        }
      }
      assert monitored[..|monitored|] == monitored;
    }

    method Update(fetched: seq<string>, compacted: set<string>, now: int)
      modifies this
      ensures entries == Updated(old(entries), fetched, compacted, now)
    {
      for i := 0 to |fetched|
        invariant entries == Updated(old(entries), fetched[..i], compacted, now)
      {
        assert fetched[..i + 1] == fetched[..i] + [fetched[i]];
        entries := entries[fetched[i] := (fetched[i] in compacted, now)];
      }
      assert fetched[..|fetched|] == fetched;
    }

    method PruneTo(monitored: seq<string>)
      modifies this
      ensures entries == PrunedTo(old(entries), monitored)
    {
      entries := map topic | topic in entries && topic in monitored :: entries[topic];
    }

    /** The compaction phase of one collection cycle. `reply` is the answer to
        the DescribeConfigs call, should one be made. */
    method Cycle(c: CycleInput) returns (compacted: set<string>)
      modifies this
      ensures entries == EntriesAfterCycle(old(entries), ttl, c)
      ensures compacted == CompactedInCycle(old(entries), ttl, c)
    {
      var toFetch;
      compacted, toFetch := Partition(c.monitored, c.askedAt);
      if toFetch != [] {
        if c.reply.Some? {
          Update(toFetch, c.reply.value, c.storedAt);
          compacted := compacted + c.reply.value;
        }
      } else {
        assert Updated(entries, [], {}, c.storedAt) == entries;
      }
      PruneTo(c.monitored);
    }
  }

  // ---- cycles ----

  /** One cycle: the monitored topics, when the cache was consulted, the answer
      to a DescribeConfigs call for what is to be fetched (`None` when the call
      fails) and when that answer was stored. */
  datatype CycleInput = CycleInput(monitored: seq<string>, askedAt: int, reply: Option<set<string>>, storedAt: int)

  function Fetching(entries: Entries, ttl: nat, c: CycleInput): seq<string> {
    ToFetch(entries, ttl, c.monitored, c.askedAt)
  }

  /** Whether the cycle asks and gets an answer for `topic`. */
  predicate Answers(entries: Entries, ttl: nat, c: CycleInput, topic: string) {
    c.reply.Some? && topic in Fetching(entries, ttl, c)
  }

  predicate Succeeds(entries: Entries, ttl: nat, c: CycleInput) {
    c.reply.Some? || Fetching(entries, ttl, c) == []
  }

  function EntriesBeforePrune(entries: Entries, ttl: nat, c: CycleInput): Entries {
    if c.reply.Some? then Updated(entries, Fetching(entries, ttl, c), c.reply.value, c.storedAt) else entries
  }

  function EntriesAfterCycle(entries: Entries, ttl: nat, c: CycleInput): Entries {
    PrunedTo(EntriesBeforePrune(entries, ttl, c), c.monitored)
  }

  function CompactedInCycle(entries: Entries, ttl: nat, c: CycleInput): set<string> {
    CachedCompacted(entries, ttl, c.monitored, c.askedAt)
    + if Fetching(entries, ttl, c) != [] && c.reply.Some? then c.reply.value else {}
  }

  function EntriesAfter(ttl: nat, cycles: seq<CycleInput>): Entries {
    if cycles == [] then map[]
    else EntriesAfterCycle(EntriesAfter(ttl, cycles[..|cycles| - 1]), ttl, cycles[|cycles| - 1])
  }

  /** The most recent answer about `topic` in the whole history, ignoring the
      cache and its pruning. */
  function LatestAnswer(ttl: nat, cycles: seq<CycleInput>, topic: string): Option<(bool, int)> {
    if cycles == [] then None
    else
      var front, last := cycles[..|cycles| - 1], cycles[|cycles| - 1];
      if Answers(EntriesAfter(ttl, front), ttl, last, topic)
      then Some((topic in last.reply.value, last.storedAt))
      else LatestAnswer(ttl, front, topic)
  }

  lemma {:induction false} EntriesAreLatestAnswers(ttl: nat, cycles: seq<CycleInput>, topic: string)
    requires topic in EntriesAfter(ttl, cycles)
    ensures LatestAnswer(ttl, cycles, topic) == Some(EntriesAfter(ttl, cycles)[topic])
    ensures cycles != [] && topic in cycles[|cycles| - 1].monitored
  {
    if cycles != [] {
      var front := cycles[..|cycles| - 1];
      if topic in EntriesAfter(ttl, front) {
        EntriesAreLatestAnswers(ttl, front, topic);
      }
    }
  }

  /** After a cycle whose lookup succeeded, a monitored topic is reported as
      compacted exactly when the most recent answer about it says so; that
      answer exists, and was stored in this very cycle or less than one
      time-to-live before the cache was consulted. (The broker
      speaks of the topic only if asked.) */
  lemma ReportMatchesLatestAnswers(ttl: nat, before: seq<CycleInput>, c: CycleInput, topic: string)
    requires Succeeds(EntriesAfter(ttl, before), ttl, c)
    requires c.reply.Some? && topic in c.reply.value ==> topic in Fetching(EntriesAfter(ttl, before), ttl, c)
    ensures var latest := LatestAnswer(ttl, before + [c], topic);
      && (topic in CompactedInCycle(EntriesAfter(ttl, before), ttl, c)
          <==> topic in c.monitored && latest.Some? && latest.value.0)
      && (topic in c.monitored ==>
            latest.Some? && (latest.value.1 == c.storedAt || Max(c.askedAt - latest.value.1, 0) < ttl))
  {
    var entries := EntriesAfter(ttl, before);
    assert (before + [c])[..|before|] == before;
    if FreshIn(entries, ttl, topic, c.askedAt) {
      EntriesAreLatestAnswers(ttl, before, topic);
    }
  }

  /** When the call fails, what remains is what fresh entries say: a topic
      whose entry has expired is reported as not compacted. */
  lemma FailedLookupReportsFreshOnly(ttl: nat, before: seq<CycleInput>, c: CycleInput, topic: string)
    requires c.reply.None?
    ensures topic in CompactedInCycle(EntriesAfter(ttl, before), ttl, c) <==>
      && topic in c.monitored && FreshIn(EntriesAfter(ttl, before), ttl, topic, c.askedAt)
      && LatestAnswer(ttl, before, topic) == Some((true, EntriesAfter(ttl, before)[topic].1))
  {
    if topic in EntriesAfter(ttl, before) {
      EntriesAreLatestAnswers(ttl, before, topic);
    }
  }

  // ---- pruning ----

  function UnprunedAfter(ttl: nat, cycles: seq<CycleInput>): Entries {
    if cycles == [] then map[]
    else EntriesBeforePrune(UnprunedAfter(ttl, cycles[..|cycles| - 1]), ttl, cycles[|cycles| - 1])
  }

  ghost predicate SameAt(a: Entries, b: Entries, topic: string) {
    (topic in a <==> topic in b) && (topic in a ==> a[topic] == b[topic])
  }

  lemma {:induction false} PruningKeepsMonitored(ttl: nat, cycles: seq<CycleInput>, topic: string)
    requires forall i :: 0 <= i < |cycles| ==> topic in cycles[i].monitored
    ensures SameAt(EntriesAfter(ttl, cycles), UnprunedAfter(ttl, cycles), topic)
  {
    if cycles != [] {
      PruningKeepsMonitored(ttl, cycles[..|cycles| - 1], topic);
    }
  }

  /** Pruning never changes what is reported about a topic that stays monitored. */
  lemma PruningCannotBeObserved(ttl: nat, before: seq<CycleInput>, c: CycleInput, topic: string)
    requires topic in c.monitored && forall i :: 0 <= i < |before| ==> topic in before[i].monitored
    requires c.reply.Some? && topic in c.reply.value ==> topic in Fetching(EntriesAfter(ttl, before), ttl, c)
    ensures topic in CompactedInCycle(EntriesAfter(ttl, before), ttl, c)
       <==> topic in CompactedInCycle(UnprunedAfter(ttl, before), ttl, c)
  {
    PruningKeepsMonitored(ttl, before, topic);
  }

  /** The cache never outgrows the monitored set. */
  lemma CacheStaysWithinMonitored(ttl: nat, before: seq<CycleInput>, c: CycleInput)
    ensures EntriesAfter(ttl, before + [c]).Keys <= set topic | topic in c.monitored
  {
    assert (before + [c])[..|before|] == before;
  }

  // ---- the answer a cycle reports from, without a cache ----

  /** Which cycle's answer about `topic` counts after these cycles: the latest
      that asked for it, as long as the topic stayed monitored since. A cycle
      asks, and gets an answer, when its call succeeds and there is no such
      answer younger than the time-to-live. What the answers say is irrelevant. */
  function AnsweringCycle(ttl: nat, cycles: seq<CycleInput>, topic: string): (r: Option<nat>)
    ensures r.Some? ==> r.value < |cycles|
  {
    if cycles == [] then None
    else
      var n := |cycles| - 1;
      var last := cycles[n];
      var earlier := AnsweringCycle(ttl, cycles[..n], topic);
      if topic !in last.monitored then None
      else if earlier.Some? && Max(last.askedAt - cycles[earlier.value].storedAt, 0) < ttl then earlier
      else if last.reply.Some? then Some(n)
      else earlier
  }

  ghost predicate EntryOf(entries: Entries, cycles: seq<CycleInput>, topic: string, answering: Option<nat>)
    requires answering.Some? ==> answering.value < |cycles|
  {
    && (topic in entries <==> answering.Some?)
    && (answering.Some? ==>
          var c := cycles[answering.value];
          c.reply.Some? && entries[topic] == (topic in c.reply.value, c.storedAt))
  }

  /** The cache entry of a topic is exactly that cycle's answer. */
  lemma {:induction false} EntryIsAnsweringCycles(ttl: nat, cycles: seq<CycleInput>, topic: string)
    ensures EntryOf(EntriesAfter(ttl, cycles), cycles, topic, AnsweringCycle(ttl, cycles, topic))
  {
    if cycles != [] {
      var n := |cycles| - 1;
      EntryIsAnsweringCycles(ttl, cycles[..n], topic);
      EntryStep(EntriesAfter(ttl, cycles[..n]), ttl, cycles[n], topic);
    }
  }

  /** What one cycle does to a topic's entry. */
  lemma EntryStep(entries: Entries, ttl: nat, c: CycleInput, topic: string)
    ensures var after := EntriesAfterCycle(entries, ttl, c);
      if topic !in c.monitored then topic !in after
      else if FreshIn(entries, ttl, topic, c.askedAt) || c.reply.None? then SameAt(entries, after, topic)
      else topic in after && after[topic] == (topic in c.reply.value, c.storedAt)
  {
    assert topic in Fetching(entries, ttl, c) <==> topic in c.monitored && !FreshIn(entries, ttl, topic, c.askedAt);
  }

  /** Whether cycle `j` asked for the topic and got an answer. */
  ghost predicate AnswersIn(ttl: nat, cycles: seq<CycleInput>, j: nat, topic: string)
    requires j < |cycles|
  {
    Answers(EntriesAfter(ttl, cycles[..j]), ttl, cycles[j], topic)
  }

  lemma AnswersInFront(ttl: nat, cycles: seq<CycleInput>, n: nat, j: nat, topic: string)
    requires j < n <= |cycles|
    ensures AnswersIn(ttl, cycles, j, topic) <==> AnswersIn(ttl, cycles[..n], j, topic)
  {
    assert cycles[..n][..j] == cycles[..j] && cycles[..n][j] == cycles[j];
  }

  /** Whether the last cycle got an answer shows in the counting answer. */
  lemma LastAnswers(ttl: nat, cycles: seq<CycleInput>, topic: string)
    requires cycles != []
    ensures AnswersIn(ttl, cycles, |cycles| - 1, topic)
       <==> AnsweringCycle(ttl, cycles, topic) == Some(|cycles| - 1)
  {
    EntryIsAnsweringCycles(ttl, cycles[..|cycles| - 1], topic);
  }

  lemma AnsweringCycleStep(ttl: nat, cycles: seq<CycleInput>, topic: string)
    requires cycles != []
    ensures var answering := AnsweringCycle(ttl, cycles, topic);
      answering in {None, Some(|cycles| - 1), AnsweringCycle(ttl, cycles[..|cycles| - 1], topic)}
  {
  }

  /** The answer that counts is the latest there was: no later cycle got one. */
  lemma {:induction false} AnsweringCycleIsLatest(ttl: nat, cycles: seq<CycleInput>, topic: string, j: nat)
    requires j < |cycles|
    ensures var answering := AnsweringCycle(ttl, cycles, topic);
      && (answering == Some(j) ==> AnswersIn(ttl, cycles, j, topic))
      && (answering.Some? && answering.value < j ==> !AnswersIn(ttl, cycles, j, topic))
  {
    var n := |cycles| - 1;
    LastAnswers(ttl, cycles, topic);
    if j < n {
      AnswersInFront(ttl, cycles, n, j, topic);
      AnsweringCycleIsLatest(ttl, cycles[..n], topic, j);
      AnsweringCycleStep(ttl, cycles, topic);
    }
  }

  // ---- unchanging policies and errored resources ----

  /** Every answer in the history is the topics' unchanging policy, except that
      a topic whose resource came back as an error is missing from it. */
  ghost predicate RepliesGiven(
    ttl: nat, cycles: seq<CycleInput>, policy: string -> bool, errored: (nat, string) -> bool)
  {
    forall i :: 0 <= i < |cycles| ==> ReplyGiven(ttl, cycles, policy, errored, i)
  }

  ghost predicate ReplyGiven(
    ttl: nat, cycles: seq<CycleInput>, policy: string -> bool, errored: (nat, string) -> bool, i: nat)
    requires i < |cycles|
  {
    cycles[i].reply.Some? ==>
      forall topic :: topic in cycles[i].reply.value
        <==> topic in Fetching(EntriesAfter(ttl, cycles[..i]), ttl, cycles[i]) && policy(topic) && !errored(i, topic)
  }

  /** Such an answer is what `CompactedFrom` makes of results that describe each
      asked topic truthfully, unless its resource came back as an error. */
  lemma ResultsGiveReply(
    asked: seq<string>, results: seq<ConfigResult>, compacted: set<string>,
    policy: string -> bool, errored: string -> bool)
    requires forall topic :: topic in compacted <==>
      exists r :: r in results && r.Described? && r.topic == topic && exists e :: e in r.entries && SaysCompact(e)
    requires forall topic :: topic in asked && !errored(topic) <==>
      exists r :: r in results && r.Described? && r.topic == topic
    requires forall r :: r in results && r.Described? ==>
      (policy(r.topic) <==> exists e :: e in r.entries && SaysCompact(e))
    ensures forall topic :: topic in compacted <==> topic in asked && policy(topic) && !errored(topic)
  {
    forall topic ensures topic in compacted <==> topic in asked && policy(topic) && !errored(topic) {
      if topic in asked && policy(topic) && !errored(topic) {
        var r :| r in results && r.Described? && r.topic == topic;
        assert exists e :: e in r.entries && SaysCompact(e);
      }
    }
  }

  /** Exactly when a successful cycle is right about a monitored topic: unless
      the topic is compacted and its resource came back as an error in the very
      answer that the report rests on. */
  lemma ReportIsRightIff(
    ttl: nat, before: seq<CycleInput>, c: CycleInput, topic: string,
    policy: string -> bool, errored: (nat, string) -> bool)
    requires RepliesGiven(ttl, before + [c], policy, errored) && Succeeds(EntriesAfter(ttl, before), ttl, c)
    requires topic in c.monitored
    ensures var answering := AnsweringCycle(ttl, before + [c], topic);
      && answering.Some?
      && ((topic in CompactedInCycle(EntriesAfter(ttl, before), ttl, c) <==> policy(topic))
          <==> !policy(topic) || !errored(answering.value, topic))
  {
    var all, n := before + [c], |before|;
    var entries := EntriesAfter(ttl, before);
    assert all[..n] == before && all[n] == c;
    EntryIsAnsweringCycles(ttl, before, topic);
    assert ReplyGiven(ttl, all, policy, errored, n);
    if FreshIn(entries, ttl, topic, c.askedAt) {
      var k := AnsweringCycle(ttl, before, topic).value;
      assert all[k] == before[k] && AnsweringCycle(ttl, all, topic) == Some(k);
      AnswerWasGiven(ttl, all, policy, errored, topic, n);
    } else {
      assert topic in Fetching(entries, ttl, c) && AnsweringCycle(ttl, all, topic) == Some(n);
    }
  }

  /** A topic's counting answer was asked for, so it says what it was given. */
  lemma {:induction false} AnswerWasGiven(
    ttl: nat, cycles: seq<CycleInput>, policy: string -> bool, errored: (nat, string) -> bool, topic: string, n: nat)
    requires RepliesGiven(ttl, cycles, policy, errored) && n <= |cycles|
    ensures var answering := AnsweringCycle(ttl, cycles[..n], topic);
      answering.Some? ==>
        var c := cycles[answering.value];
        c.reply.Some? && (topic in c.reply.value <==> policy(topic) && !errored(answering.value, topic))
  {
    if n > 0 {
      AnswerWasGiven(ttl, cycles, policy, errored, topic, n - 1);
      assert cycles[..n][..n - 1] == cycles[..n - 1];
      EntryIsAnsweringCycles(ttl, cycles[..n - 1], topic);
      assert ReplyGiven(ttl, cycles, policy, errored, n - 1);
      var earlier := AnsweringCycle(ttl, cycles[..n - 1], topic);
      assert earlier.Some? ==> cycles[..n][earlier.value] == cycles[..n - 1][earlier.value] == cycles[earlier.value];
    }
  }

  lemma ReportsMonitoredOnly(
    ttl: nat, before: seq<CycleInput>, c: CycleInput, policy: string -> bool, errored: (nat, string) -> bool)
    requires RepliesGiven(ttl, before + [c], policy, errored)
    ensures forall topic :: topic in CompactedInCycle(EntriesAfter(ttl, before), ttl, c) ==> topic in c.monitored
  {
    var all := before + [c];
    assert all[..|before|] == before && all[|before|] == c;
    assert ReplyGiven(ttl, all, policy, errored, |before|);
  }

  /** The answer the report about `topic` rests on lost the topic to an error. */
  ghost predicate LostInAnswer(
    ttl: nat, cycles: seq<CycleInput>, errored: (nat, string) -> bool, topic: string)
  {
    var answering := AnsweringCycle(ttl, cycles, topic);
    answering.Some? && errored(answering.value, topic)
  }

  /** So a successful cycle reports exactly the monitored compacted topics if and
      only if none of them was lost in the answer that the report rests on. */
  lemma ReportEqualsPolicyIff(
    ttl: nat, before: seq<CycleInput>, c: CycleInput, policy: string -> bool, errored: (nat, string) -> bool)
    requires RepliesGiven(ttl, before + [c], policy, errored) && Succeeds(EntriesAfter(ttl, before), ttl, c)
    ensures CompactedInCycle(EntriesAfter(ttl, before), ttl, c) == (set topic | topic in c.monitored && policy(topic))
       <==> forall topic :: topic in c.monitored && policy(topic) ==> !LostInAnswer(ttl, before + [c], errored, topic)
  {
    var reported := CompactedInCycle(EntriesAfter(ttl, before), ttl, c);
    var expected := set topic | topic in c.monitored && policy(topic);
    ReportsMonitoredOnly(ttl, before, c, policy, errored);
    forall topic | topic in c.monitored
      ensures (topic in reported <==> topic in expected)
         <==> !policy(topic) || !LostInAnswer(ttl, before + [c], errored, topic)
    {
      ReportIsRightIff(ttl, before, c, topic, policy, errored);
    }
    if forall topic :: topic in c.monitored && policy(topic) ==> !LostInAnswer(ttl, before + [c], errored, topic) {
      forall topic ensures topic in reported <==> topic in expected {
      }
    } else {
      var topic :| topic in c.monitored && policy(topic) && LostInAnswer(ttl, before + [c], errored, topic);
      assert !(topic in reported <==> topic in expected);
    }
  }

  // ---- no errors ----

  function NoErrors(): (nat, string) -> bool {
    (i, topic) => false
  }

  /** Every answer in the history is the topics' unchanging policy. */
  ghost predicate FollowsPolicy(ttl: nat, cycles: seq<CycleInput>, policy: string -> bool) {
    RepliesGiven(ttl, cycles, policy, NoErrors())
  }

  /** As long as policies do not change and no resource comes back as an error,
      the cache is invisible for every time-to-live: each successful cycle
      reports the monitored compacted topics, just as without a cache. */
  lemma ConstantPolicyIsReported(ttl: nat, before: seq<CycleInput>, c: CycleInput, policy: string -> bool)
    requires FollowsPolicy(ttl, before + [c], policy) && Succeeds(EntriesAfter(ttl, before), ttl, c)
    ensures CompactedInCycle(EntriesAfter(ttl, before), ttl, c) == set topic | topic in c.monitored && policy(topic)
  {
    ReportEqualsPolicyIff(ttl, before, c, policy, NoErrors());
  }

  // ---- one lost answer ----

  ghost predicate LostSince(entries: Entries, topic: string, at: int) {
    topic in entries && entries[topic] == (false, at)
  }

  lemma StaysLost(entries: Entries, ttl: nat, c: CycleInput, topic: string, at: int)
    requires LostSince(entries, topic, at)
    requires topic in c.monitored && Max(c.askedAt - at, 0) < ttl
    ensures LostSince(EntriesAfterCycle(entries, ttl, c), topic, at)
  {
    EntryStep(entries, ttl, c, topic);
  }

  /** A compacted topic whose own resource came back as an error is taken for
      not compacted, and stays so: no cycle within the time-to-live asks again. */
  lemma {:induction false} LostAnswerPersists(
    ttl: nat, before: seq<CycleInput>, lost: CycleInput, later: seq<CycleInput>, topic: string,
    policy: string -> bool, errored: (nat, string) -> bool)
    requires RepliesGiven(ttl, before + [lost], policy, errored)
    requires Answers(EntriesAfter(ttl, before), ttl, lost, topic)
    requires policy(topic) && errored(|before|, topic)
    requires forall i :: 0 <= i < |later| ==>
      && topic in later[i].monitored
      && Max(later[i].askedAt - lost.storedAt, 0) < ttl
    ensures LostSince(EntriesAfter(ttl, before + [lost] + later), topic, lost.storedAt)
    decreases later
  {
    if later == [] {
      assert before + [lost] + later == before + [lost];
      assert (before + [lost])[..|before|] == before && (before + [lost])[|before|] == lost;
      assert ReplyGiven(ttl, before + [lost], policy, errored, |before|);
      EntryStep(EntriesAfter(ttl, before), ttl, lost, topic);
    } else {
      var front, last := later[..|later| - 1], later[|later| - 1];
      LostAnswerPersists(ttl, before, lost, front, topic, policy, errored);
      var all := before + [lost] + later;
      assert all[..|all| - 1] == before + [lost] + front && all[|all| - 1] == last;
      StaysLost(EntriesAfter(ttl, before + [lost] + front), ttl, last, topic, lost.storedAt);
    }
  }

  /** So every cycle within the time-to-live wrongly reports the topic as not
      compacted, whatever it is told about other topics. */
  lemma LostAnswerHidesTopic(
    ttl: nat, before: seq<CycleInput>, lost: CycleInput, later: seq<CycleInput>, c: CycleInput, topic: string,
    policy: string -> bool, errored: (nat, string) -> bool)
    requires RepliesGiven(ttl, before + [lost], policy, errored)
    requires Answers(EntriesAfter(ttl, before), ttl, lost, topic)
    requires policy(topic) && errored(|before|, topic)
    requires forall i :: 0 <= i < |later + [c]| ==>
      && topic in (later + [c])[i].monitored
      && Max((later + [c])[i].askedAt - lost.storedAt, 0) < ttl
    requires var entries := EntriesAfter(ttl, before + [lost] + later);
      c.reply.Some? && topic in c.reply.value ==> topic in Fetching(entries, ttl, c)
    ensures policy(topic) && topic !in CompactedInCycle(EntriesAfter(ttl, before + [lost] + later), ttl, c)
  {
    assert (later + [c])[|later|] == c;
    assert forall i :: 0 <= i < |later| ==> (later + [c])[i] == later[i];
    LostAnswerPersists(ttl, before, lost, later, topic, policy, errored);
  }
}
