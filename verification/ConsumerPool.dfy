/** `src/kafka/consumer.rs`: a pool of reusable consumers shared by concurrent
    timestamp fetches, and replaced as a whole from time to time. A consumer is
    known by the counter value it was created with. */
module ConsumerPool {
  import opened Basics

  type Id = nat

  /** Where every consumer is. `built` are those a recycle has created but not
      yet installed; `failed` are counter values whose creation failed. */
  datatype State = State(
    pool: seq<Id>,
    counter: nat,
    inFetch: map<nat, Id>,
    built: seq<Id>,
    dropped: set<Id>,
    failed: set<Id>)

  /** What can happen, one lock at a time. `fetch` names a fetch in progress. */
  datatype Step =
    | Acquire(fetch: nat, creates: bool)
    | Release(fetch: nat, unassigned: bool)
    | Build(creates: bool)
    | Install

  ghost predicate Enabled(size: nat, s: State, step: Step) {
    match step
    case Acquire(fetch, _) => fetch !in s.inFetch
    case Release(fetch, _) => fetch in s.inFetch
    case Build(_) => |s.built| < size
    case Install => |s.built| == size
  }

  /** `acquire`: pop from the pool, or create. */
  function AfterAcquire(s: State, fetch: nat, creates: bool): State {
    if s.pool != [] then
      s.(pool := s.pool[..|s.pool| - 1], inFetch := s.inFetch[fetch := s.pool[|s.pool| - 1]])
    else if creates then
      s.(counter := s.counter + 1, inFetch := s.inFetch[fetch := s.counter])
    else
      s.(counter := s.counter + 1, failed := s.failed + {s.counter})
  }

  /** `release`: back to the pool, unless it could not be unassigned or the
      pool is full. */
  function AfterRelease(size: nat, s: State, fetch: nat, unassigned: bool): State
    requires fetch in s.inFetch
  {
    var id := s.inFetch[fetch];
    if unassigned && |s.pool| < size then s.(pool := s.pool + [id], inFetch := s.inFetch - {fetch})
    else s.(dropped := s.dropped + {id}, inFetch := s.inFetch - {fetch})
  }

  /** One creation of a recycle; when it fails the recycle is given up and the
      consumers built so far are dropped. */
  function AfterBuild(s: State, creates: bool): State {
    if creates then s.(counter := s.counter + 1, built := s.built + [s.counter])
    else
      s.(counter := s.counter + 1, built := [], dropped := s.dropped + Elements(s.built),
         failed := s.failed + {s.counter})
  }

  function AfterInstall(s: State): State {
    s.(pool := s.built, built := [], dropped := s.dropped + Elements(s.pool))
  }

  ghost function Apply(size: nat, s: State, step: Step): State
    requires Enabled(size, s, step)
  {
    match step
    case Acquire(fetch, creates) => AfterAcquire(s, fetch, creates)
    case Release(fetch, unassigned) => AfterRelease(size, s, fetch, unassigned)
    case Build(creates) => AfterBuild(s, creates)
    case Install => AfterInstall(s)
  }

  function Initial(size: nat): State {
    State(seq(size, i requires 0 <= i < size => i), size, map[], [], {}, {})
  }

  /** One interleaving: `trace[n + 1]` is `trace[n]` after `steps[n]`. */
  ghost predicate Execution(size: nat, trace: seq<State>, steps: seq<Step>) {
    && |trace| == |steps| + 1
    && trace[0] == Initial(size)
    && forall n :: 0 <= n < |steps| ==>
         Enabled(size, trace[n], steps[n]) && trace[n + 1] == Apply(size, trace[n], steps[n])
  }

  // ---- ownership ----

  ghost predicate InFetch(s: State, id: Id) {
    exists fetch :: fetch in s.inFetch && s.inFetch[fetch] == id
  }

  function One(b: bool): nat {
    if b then 1 else 0
  }

  /** In how many places counter value `id` is: pooled, in a fetch, being built,
      dropped, never made because its creation failed, or not handed out yet. */
  ghost function Places(s: State, id: Id): nat {
    One(id in s.pool) + One(InFetch(s, id)) + One(id in s.built)
    + One(id in s.dropped) + One(id in s.failed) + One(id >= s.counter)
  }

  ghost predicate Injective(m: map<nat, Id>) {
    forall f, g :: f in m && g in m && f != g ==> m[f] != m[g]
  }

  /** Every counter value is in exactly one place, and once there. */
  ghost predicate Owned(size: nat, s: State) {
    && |s.pool| <= size && |s.built| <= size
    && Distinct(s.pool) && Distinct(s.built) && Injective(s.inFetch)
    && forall id: Id :: Places(s, id) == 1
  }

  lemma InitialIsOwned(size: nat)
    ensures Owned(size, Initial(size))
  {
    var s := Initial(size);
    forall id: Id ensures Places(s, id) == 1 {
      if id < size {
        assert s.pool[id] == id;
      }
    }
  }

  lemma AcquireKeepsOwned(size: nat, s: State, fetch: nat, creates: bool)
    requires Owned(size, s) && fetch !in s.inFetch
    ensures Owned(size, AfterAcquire(s, fetch, creates))
  {
    var t := AfterAcquire(s, fetch, creates);
    var id0 := if s.pool != [] then s.pool[|s.pool| - 1] else s.counter;
    assert Places(s, id0) == 1;
    if s.pool != [] {
      assert s.pool == t.pool + [id0];
    }
    forall id: Id ensures Places(t, id) == 1 {
      assert Places(s, id) == 1;
      if t.inFetch != s.inFetch {
        assert InFetch(t, id) <==> InFetch(s, id) || id == id0 by {
          if f :| f in s.inFetch && s.inFetch[f] == id { assert f in t.inFetch && t.inFetch[f] == id; }
          assert fetch in t.inFetch && t.inFetch[fetch] == id0;
        }
      }
    }
  }

  lemma ReleaseKeepsOwned(size: nat, s: State, fetch: nat, unassigned: bool)
    requires Owned(size, s) && fetch in s.inFetch
    ensures Owned(size, AfterRelease(size, s, fetch, unassigned))
  {
    var t := AfterRelease(size, s, fetch, unassigned);
    var id0 := s.inFetch[fetch];
    assert InFetch(s, id0) && Places(s, id0) == 1;
    forall id: Id ensures Places(t, id) == 1 {
      assert Places(s, id) == 1;
      assert InFetch(t, id) <==> InFetch(s, id) && id != id0 by {
        if f :| f in s.inFetch && s.inFetch[f] == id && id != id0 { assert f in t.inFetch && t.inFetch[f] == id; }
      }
    }
  }

  lemma BuildKeepsOwned(size: nat, s: State, creates: bool)
    requires Owned(size, s) && |s.built| < size
    ensures Owned(size, AfterBuild(s, creates))
  {
    var t := AfterBuild(s, creates);
    assert Places(s, s.counter) == 1;
    forall id: Id ensures Places(t, id) == 1 {
      assert Places(s, id) == 1;
      assert InFetch(t, id) <==> InFetch(s, id);
    }
  }

  lemma InstallKeepsOwned(size: nat, s: State)
    requires Owned(size, s)
    ensures Owned(size, AfterInstall(s))
  {
    var t := AfterInstall(s);
    forall id: Id ensures Places(t, id) == 1 {
      assert Places(s, id) == 1;
      assert InFetch(t, id) <==> InFetch(s, id);
    }
  }

  /** In every interleaving of acquires, releases, failed unassigns, failed
      creations and recycles, each consumer is in exactly one place, no counter
      value is used twice, and the pool never exceeds its size. */
  lemma {:induction false} OwnershipIsExclusive(size: nat, trace: seq<State>, steps: seq<Step>, n: nat)
    requires Execution(size, trace, steps) && n <= |steps|
    ensures Owned(size, trace[n])
  {
    if n == 0 {
      InitialIsOwned(size);
    } else {
      OwnershipIsExclusive(size, trace, steps, n - 1);
      match steps[n - 1] {
        case Acquire(fetch, creates) => AcquireKeepsOwned(size, trace[n - 1], fetch, creates);
        case Release(fetch, unassigned) => ReleaseKeepsOwned(size, trace[n - 1], fetch, unassigned);
        case Build(creates) => BuildKeepsOwned(size, trace[n - 1], creates);
        case Install => InstallKeepsOwned(size, trace[n - 1]);
      }
    }
  }

  /** A dropped consumer never comes back, and the counter never runs backwards. */
  lemma {:induction false} DroppedForGood(size: nat, trace: seq<State>, steps: seq<Step>, m: nat, n: nat)
    requires Execution(size, trace, steps) && m <= n <= |steps|
    ensures trace[m].dropped <= trace[n].dropped && trace[m].counter <= trace[n].counter
    decreases n
  {
    if m < n {
      DroppedForGood(size, trace, steps, m, n - 1);
    }
  }

  // ---- how many consumers are alive ----

  /** Consumers alive outside a recycle's construction. */
  ghost function Live(s: State): nat {
    |s.pool| + |s.inFetch|
  }

  lemma LiveBound(size: nat, trace: seq<State>, steps: seq<Step>, n: nat)
    requires Execution(size, trace, steps) && n <= |steps|
    ensures Live(trace[n]) <= size + |trace[n].inFetch|
  {
    OwnershipIsExclusive(size, trace, steps, n);
  }

  lemma AcquireCountsFetch(s: State, fetch: nat, creates: bool)
    requires fetch !in s.inFetch
    ensures var t := AfterAcquire(s, fetch, creates);
      || (t.inFetch == s.inFetch && t.pool == s.pool)
      || (|t.inFetch| == |s.inFetch| + 1 && |t.pool| == Max(|s.pool| - 1, 0))
  {
    var t := AfterAcquire(s, fetch, creates);
    if t.inFetch != s.inFetch {
      assert t.inFetch.Keys == s.inFetch.Keys + {fetch};
    }
  }

  lemma ReleaseCountsFetch(size: nat, s: State, fetch: nat, unassigned: bool)
    requires fetch in s.inFetch
    ensures var t := AfterRelease(size, s, fetch, unassigned);
      |t.inFetch| == |s.inFetch| - 1 && |t.pool| <= |s.pool| + 1
  {
    assert AfterRelease(size, s, fetch, unassigned).inFetch.Keys == s.inFetch.Keys - {fetch};
  }

  /** When no more than `size` fetches ever run at once, and a recycle installs
      its consumers only while none runs, no more than `size` are alive. */
  lemma {:induction false} LiveWithinPoolSize(size: nat, trace: seq<State>, steps: seq<Step>, n: nat)
    requires Execution(size, trace, steps) && n <= |steps|
    requires forall m :: 0 <= m <= n ==> |trace[m].inFetch| <= size
    requires forall m :: 0 <= m < n && steps[m].Install? ==> trace[m].inFetch == map[]
    ensures Live(trace[n]) <= size
  {
    if n > 0 {
      LiveWithinPoolSize(size, trace, steps, n - 1);
      OwnershipIsExclusive(size, trace, steps, n);
      match steps[n - 1] {
        case Acquire(fetch, creates) => AcquireCountsFetch(trace[n - 1], fetch, creates);
        case Release(fetch, unassigned) => ReleaseCountsFetch(size, trace[n - 1], fetch, unassigned);
        case Build(_) =>
        case Install =>
      }
    }
  }

  lemma InstallFillsPool(size: nat, trace: seq<State>, steps: seq<Step>, m: nat)
    requires Execution(size, trace, steps) && m < |steps| && steps[m].Install?
    ensures Live(trace[m + 1]) == size + |trace[m].inFetch|
  {
    assert Enabled(size, trace[m], steps[m]) && trace[m + 1] == AfterInstall(trace[m]);
  }

  /** That condition is exact: up to any point of any run, no more than `size`
      consumers were ever alive if and only if no more than `size` fetches ever
      ran at once and every recycle installed its consumers while none ran. */
  lemma LiveWithinPoolSizeIff(size: nat, trace: seq<State>, steps: seq<Step>, n: nat)
    requires Execution(size, trace, steps) && n <= |steps|
    ensures (forall m :: 0 <= m <= n ==> Live(trace[m]) <= size)
       <==> && (forall m :: 0 <= m <= n ==> |trace[m].inFetch| <= size)
            && (forall m :: 0 <= m < n && steps[m].Install? ==> trace[m].inFetch == map[])
  {
    if forall m :: 0 <= m <= n ==> Live(trace[m]) <= size {
      forall m | 0 <= m <= n ensures |trace[m].inFetch| <= size {
        assert Live(trace[m]) <= size;
      }
      forall m | 0 <= m < n && steps[m].Install? ensures trace[m].inFetch == map[] {
        InstallFillsPool(size, trace, steps, m);
        assert Live(trace[m + 1]) <= size;
      }
    } else if (forall m :: 0 <= m <= n ==> |trace[m].inFetch| <= size)
      && (forall m :: 0 <= m < n && steps[m].Install? ==> trace[m].inFetch == map[])
    {
      forall m | 0 <= m <= n ensures Live(trace[m]) <= size {
        LiveWithinPoolSize(size, trace, steps, m);
      }
    }
  }

  /** The condition can fail: a recycle while a fetch is still running, as a
      fetch abandoned by a timed-out cycle may be, leaves two consumers alive
      with a pool of one. */
  lemma RecycleWhileBusyExceeds()
    ensures exists trace, steps :: Execution(1, trace, steps) && Live(trace[|steps|]) == 2
  {
    var steps := [Acquire(7, true), Build(true), Install];
    var s0 := Initial(1);
    var s1 := AfterAcquire(s0, 7, true);
    var s2 := AfterBuild(s1, true);
    var s3 := AfterInstall(s2);
    assert s0.pool == [0] && s1.pool == [] && s1.inFetch == map[7 := 0];
    assert s2.built == [1] && s3.pool == [1];
    var trace := [s0, s1, s2, s3];
    assert Execution(1, trace, steps);
    assert Live(trace[|steps|]) == 2;
  }

  // ---- the class ----

  class TimestampConsumer {
    var pool: seq<Id>
    var counter: nat
    const poolSize: nat
    /** Where everything is, including what the object itself cannot see. */
    ghost var state: State

    ghost predicate Valid()
      reads this
    {
      pool == state.pool && counter == state.counter && Owned(poolSize, state)
    }

    /** `with_pool_size`; `creates(i)` tells whether the i-th creation succeeds.
        There is a pool exactly when all of them do. */
    static method WithPoolSize(poolSize: nat, creates: nat -> bool) returns (r: Option<TimestampConsumer>)
      ensures r.Some? <==> forall i: nat :: i < poolSize ==> creates(i)
      ensures r.Some? ==> fresh(r.value) && r.value.Valid()
      ensures r.Some? ==> r.value.poolSize == poolSize && r.value.state == Initial(poolSize)
    {
      for i := 0 to poolSize
        invariant forall j: nat :: j < i ==> creates(j)
      {
        if !creates(i) {
          return None;
        }
      }
      var consumer := new TimestampConsumer(poolSize);
      r := Some(consumer);
    }

    /** A pool in which every consumer could be created. */
    constructor (poolSize: nat)
      ensures Valid() && this.poolSize == poolSize && state == Initial(poolSize)
    {
      this.poolSize := poolSize;
      pool := seq(poolSize, i requires 0 <= i < poolSize => i);
      counter := poolSize;
      state := Initial(poolSize);
      InitialIsOwned(poolSize);
    }

    /** Take a consumer for `fetch`, creating one when the pool is empty. */
    method AcquireFor(ghost fetch: nat, creates: bool) returns (r: Option<Id>)
      requires Valid() && fetch !in state.inFetch
      modifies this
      ensures Valid() && state == AfterAcquire(old(state), fetch, creates)
      ensures r.Some? <==> old(pool) != [] || creates
      ensures r == if r.Some? then Some(state.inFetch[fetch]) else None
      ensures r.Some? ==> fetch in state.inFetch
    {
      AcquireKeepsOwned(poolSize, state, fetch, creates);
      state := AfterAcquire(state, fetch, creates);
      if pool != [] {
        r := Some(pool[|pool| - 1]);
        pool := pool[..|pool| - 1];
      } else {
        r := if creates then Some(counter) else None;
        counter := counter + 1;
      }
    }

    method ReleaseFrom(ghost fetch: nat, consumer: Id, unassigned: bool)
      requires Valid() && fetch in state.inFetch && state.inFetch[fetch] == consumer
      modifies this
      ensures Valid() && state == AfterRelease(poolSize, old(state), fetch, unassigned)
    {
      ReleaseKeepsOwned(poolSize, state, fetch, unassigned);
      state := AfterRelease(poolSize, state, fetch, unassigned);
      if !unassigned {
        return;
      }
      if |pool| < poolSize {
        pool := pool + [consumer];
      }
    }

    /** One fetch on its own. The consumer is released on every path, be it the
        success, an empty poll or any of the three errors. */
    method FetchTimestamp(
      ghost fetch: nat, creates: bool, addOk: bool, assignOk: bool, polled: Result<Option<int>, string>, unassigned: bool)
      returns (r: Result<Option<int>, string>)
      requires Valid() && fetch !in state.inFetch
      modifies this
      ensures Valid() && fetch !in state.inFetch
      ensures old(pool) == [] && !creates ==> r.Err? && state == AfterAcquire(old(state), fetch, creates)
      ensures old(pool) != [] || creates ==>
        && fetch in AfterAcquire(old(state), fetch, creates).inFetch
        && state == AfterRelease(poolSize, AfterAcquire(old(state), fetch, creates), fetch, unassigned)
        && r == if addOk && assignOk then polled else Err("client error")
    {
      var consumer := AcquireFor(fetch, creates);
      if consumer.None? {
        return Err("client error");
      }
      if !addOk || !assignOk {
        ReleaseFrom(fetch, consumer.value, unassigned);
        return Err("client error");
      }
      ReleaseFrom(fetch, consumer.value, unassigned);
      return polled;
    }

    /** `recycle_pool`, undisturbed; `creates(i)` tells whether the i-th creation
        succeeds. On success the pool is exactly the new consumers; otherwise it
        is untouched. Consumers in a fetch are never affected. */
    method RecyclePool(creates: nat -> bool) returns (ok: bool)
      requires Valid() && state.built == []
      modifies this
      ensures Valid() && state.built == []
      ensures ok <==> forall i: nat :: i < poolSize ==> creates(i)
      ensures ok ==> pool == seq(poolSize, i requires 0 <= i < poolSize => old(counter) + i)
      ensures !ok ==> pool == old(pool)
      ensures state.inFetch == old(state.inFetch)
    {
      var newConsumers: seq<Id> := [];
      for i := 0 to poolSize
        invariant Valid()
        invariant newConsumers == state.built == seq(i, j requires 0 <= j < i => old(counter) + j)
        invariant counter == old(counter) + i
        invariant pool == old(pool) && state.inFetch == old(state.inFetch)
        invariant forall j: nat :: j < i ==> creates(j)
      {
        BuildKeepsOwned(poolSize, state, creates(i));
        state := AfterBuild(state, creates(i));
        counter := counter + 1;
        if !creates(i) {
          return false;
        }
        newConsumers := newConsumers + [counter - 1];
      }
      InstallKeepsOwned(poolSize, state);
      state := AfterInstall(state);
      pool := newConsumers;
      ok := true;
    }
  }
}
