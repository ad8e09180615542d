/**
  Concrete runs of `AsyncLru` that show where the plain statements about it fail. All use
  concurrency 1 and generators that return their requested key; a build writes all its entries
  before the next one starts, as the worker task does.
 */
module AsyncLruRuns {
  import opened Prelude
  import opened LruOrder
  import opened CacheStore
  import opened AsyncLru

  type S = State<nat, nat>
  type E = Event<nat, nat>
  type Cache = seq<Slot<nat, Entry<nat>>>

  lemma {:induction false} Extend(s: S, es: seq<E>, e: E)
    requires CompleteRun(s, es) && Run(s, es)
    requires Enabled(After(s, es), e) && Complete(After(s, es), e)
    ensures CompleteRun(s, es + [e]) && Run(s, es + [e]) && After(s, es + [e]) == Next(After(s, es), e)
    decreases |es|
  {
    if es == [] {
      assert [e][1..] == [];
      assert es + [e] == [e];
    } else {
      Extend(Next(s, es[0]), es[1..], e);
      assert (es + [e])[1..] == es[1..] + [e];
    }
  }

  ghost predicate Reachable(max: nat, t: S) {
    var s := Init<nat, nat>(max, 1);
    exists es :: CompleteRun(s, es) && Run(s, es) && After(s, es) == t
  }

  lemma Reach(max: nat, t: S, e: E, u: S)
    requires Reachable(max, t) && Enabled(t, e) && Complete(t, e) && Next(t, e) == u
    ensures Reachable(max, u)
  {
    var s := Init<nat, nat>(max, 1);
    var es :| CompleteRun(s, es) && Run(s, es) && After(s, es) == t;
    Extend(s, es, e);
  }

  lemma {:induction false} RemoveAbsent(c: Cache, k: nat)
    requires Lookup(c, k).None?
    ensures Remove(c, k) == c
  {
    if c != [] {
      RemoveAbsent(c[1..], k);
    }
  }

  // No build runs and no panic happened.
  ghost predicate Quiet(s: S) {
    !s.crashed && s.concurrency == 1 && s.running == map[] && s.unsent == map[]
  }

  // A request for an absent key, when the queue has room.
  function Requested(s: S, k: nat): S {
    s.(store := s.store.(cache := s.store.cache + [Slot(k, Waiting(|s.keys|))]),
      keys := s.keys + [k], queue := s.queue + {|s.keys|}, waiters := s.waiters + {(k, |s.keys|)})
  }

  lemma ReachRequested(max: nat, s: S, k: nat)
    requires Reachable(max, s) && !s.crashed && |s.queue| < QUEUE_CAPACITY && Lookup(s.store.cache, k).None?
    ensures Reachable(max, Requested(s, k))
  {
    RemoveAbsent(s.store.cache, k);
    Reach(max, s, Get(k), Requested(s, k));
  }

  // Request `c` taken up and its generator finished, nothing written yet.
  function Built(s: S, c: nat, values: seq<(nat, Result<nat>)>): S {
    s.(queue := s.queue - {c}, running := map[c := Applying(values)], produced := s.produced + Produced(values))
  }

  lemma ReachBuilt(max: nat, s: S, c: nat, values: seq<(nat, Result<nat>)>)
    requires Reachable(max, s) && Quiet(s) && c in s.queue && c < |s.keys|
    requires DistinctKeys(values) && Mentions(values, s.keys[c])
    ensures Reachable(max, Built(s, c, values))
  {
    var started := s.(queue := s.queue - {c}, running := map[c := Generating]);
    assert s.running[c := Generating] == started.running;
    Reach(max, s, Start(c, false), started);
    assert started.running[c := Applying(values)] == Built(s, c, values).running;
    Reach(max, started, Generated(c, values), Built(s, c, values));
  }

  // The last entry, that of the requested key, is written, broadcast, and the build ends.
  function Ended(s: S, c: nat, k: nat, r: Result<nat>, size: nat): S {
    s.(store := Update(s.store, k, r, size), running := map[], sent := s.sent[c := r],
      leaked := s.leaked + (if r.Err? then SizeAt(s.store.cache, k) else 0))
  }

  function Written(s: S, c: nat, k: nat, r: Result<nat>, size: nat): S {
    Ended(s, c, k, r, size).(running := map[c := Applying([])], unsent := map[c := r], sent := s.sent)
  }

  lemma WritesOwn(s: S, c: nat, k: nat, r: Result<nat>, size: nat)
    requires Accounted(s) && !s.crashed && c < |s.keys| && s.keys[c] == k
    requires s.running == map[c := Applying([(k, r)])] && s.unsent == map[]
    ensures Enabled(s, Apply(c, size)) && Next(s, Apply(c, size)) == Written(s, c, k, r, size)
    ensures Accounted(Written(s, c, k, r, size)) && !Written(s, c, k, r, size).crashed
  {
    StepAccounted(s, Apply(c, size));
    assert [(k, r)][1..] == [];
    assert s.running[c := Applying([])] == map[c := Applying([])] && s.unsent[c := r] == map[c := r];
  }

  lemma ReachEnded(max: nat, s: S, c: nat, k: nat, r: Result<nat>, size: nat)
    requires Reachable(max, s) && Accounted(s) && !s.crashed && c < |s.keys| && s.keys[c] == k
    requires s.running == map[c := Applying([(k, r)])] && s.unsent == map[]
    ensures Reachable(max, Ended(s, c, k, r, size)) && Accounted(Ended(s, c, k, r, size))
  {
    var written := Written(s, c, k, r, size);
    WritesOwn(s, c, k, r, size);
    Reach(max, s, Apply(c, size), written);
    var replied := written.(unsent := map[], sent := s.sent[c := r]);
    assert written.unsent - {c} == map[];
    Reach(max, written, Broadcast(c), replied);
    assert replied.running - {c} == map[];
    Reach(max, replied, Finish(c), Ended(s, c, k, r, size));
  }

  // A whole build of the requested key alone.
  function Rebuilt(s: S, c: nat, k: nat, r: Result<nat>, size: nat): S {
    Ended(Built(s, c, [(k, r)]), c, k, r, size)
  }

  lemma ReachRebuilt(max: nat, s: S, c: nat, k: nat, r: Result<nat>, size: nat)
    requires Reachable(max, s) && Accounted(s) && Quiet(s) && c in s.queue && c < |s.keys| && s.keys[c] == k
    ensures var t := Rebuilt(s, c, k, r, size);
            Reachable(max, t) && Accounted(t) && Quiet(t)
  {
    var values := [(k, r)];
    assert values[0].0 == k;
    ReachBuilt(max, s, c, values);
    ReachEnded(max, Built(s, c, values), c, k, r, size);
  }

  // Request `c` is taken up as expired while its key has a Ready entry.
  function Panicked(s: S, c: nat): S
    requires c < |s.keys|
  {
    var cache := s.store.cache;
    s.(store := s.store.(cache := Remove(cache, s.keys[c])), queue := s.queue - {c},
      leaked := s.leaked + SizeAt(cache, s.keys[c]), crashed := true)
  }

  lemma ReachPanicked(max: nat, s: S, c: nat)
    requires Reachable(max, s) && Quiet(s) && c in s.queue && c < |s.keys|
    requires Lookup(s.store.cache, s.keys[c]).Some? && Lookup(s.store.cache, s.keys[c]).value.Ready?
    ensures Reachable(max, Panicked(s, c))
  {
    var started := s.(queue := s.queue - {c}, running := map[c := Expired]);
    assert s.running[c := Expired] == started.running;
    Reach(max, s, Start(c, true), started);
    Reach(max, started, DropExpired(c), Panicked(s, c));
  }

  // Key 1 is requested, on channel 0, then key 2, on channel 1.
  function Asked1(max: nat): S {
    Init<nat, nat>(max, 1).(store := Store([Slot(1, Waiting(0))], 0, max),
      keys := [1], queue := {0}, waiters := {(1, 0)})
  }

  const ASKED: Cache := [Slot(1, Waiting(0)), Slot(2, Waiting(1))]

  function Asked(max: nat): S {
    Init<nat, nat>(max, 1).(store := Store(ASKED, 0, max),
      keys := [1, 2], queue := {0, 1}, waiters := {(1, 0), (2, 1)})
  }

  lemma ReachAsked1(max: nat)
    ensures Reachable(max, Asked1(max))
  {
    var s := Init<nat, nat>(max, 1);
    assert Run(s, []) && CompleteRun(s, []) && After(s, []) == s;
    ReachRequested(max, s, 1);
    assert Requested(s, 1) == Asked1(max);
  }

  lemma ReachAsked(max: nat)
    ensures Reachable(max, Asked(max))
  {
    var s := Asked1(max);
    ReachAsked1(max);
    ReachRequested(max, s, 2);
    assert s.store.cache + [Slot(2, Waiting(1))] == ASKED;
    assert s.queue + {1} == {0, 1} && s.waiters + {(2, 1)} == {(1, 0), (2, 1)};
    assert Requested(s, 2) == Asked(max);
  }

  lemma AskedAccounted(max: nat)
    ensures Accounted(Asked(max))
  {
    assert ASKED[1..] == [Slot(2, Waiting(1))];
  }

  const BOTH: seq<(nat, Result<nat>)> := [(2, Ok(6)), (1, Ok(5))]

  // Build 0, for key 1, generates entries for both keys and has written that of key 2, size 3.
  function Prepopulated(max: nat, store: Store<nat, nat>): S {
    Built(Asked(max), 0, BOTH).(store := store, running := map[0 := Applying([(1, Ok(5))])])
  }

  lemma ReachPrepopulated(max: nat, store: Store<nat, nat>)
    requires store == Update(Asked(max).store, 2, Ok(6), 3)
    ensures Reachable(max, Prepopulated(max, store)) && Accounted(Prepopulated(max, store))
  {
    var s := Built(Asked(max), 0, BOTH);
    ReachAsked(max);
    assert BOTH[1].0 == 1;
    ReachBuilt(max, Asked(max), 0, BOTH);
    AskedAccounted(max);
    WritesFirst(s, store);
    Reach(max, s, Apply(0, 3), Prepopulated(max, store));
  }

  lemma WritesFirst(s: S, store: Store<nat, nat>)
    requires !s.crashed && Accounted(s) && s.keys == [1, 2] && s.running == map[0 := Applying(BOTH)] && s.unsent == map[]
    requires store == Update(s.store, 2, Ok(6), 3)
    ensures Enabled(s, Apply(0, 3))
    ensures Next(s, Apply(0, 3)) == s.(store := store, running := map[0 := Applying([(1, Ok(5))])])
    ensures Accounted(Next(s, Apply(0, 3)))
  {
    StepAccounted(s, Apply(0, 3));
    assert BOTH[1..] == [(1, Ok(5))] && BOTH[0] == (2, Ok(6));
    assert s.running[0 := Applying([(1, Ok(5))])] == map[0 := Applying([(1, Ok(5))])];
  }

  // The same build has ended with key 1 at size 2, and the request for key 2 is still queued.
  const PREPOPULATED: Store<nat, nat> := Store([Slot(1, Waiting(0)), Slot(2, Ready(6, 3))], 3, 10)

  const BOTH_READY: Store<nat, nat> := Store([Slot(2, Ready(6, 3)), Slot(1, Ready(5, 2))], 5, 10)

  function BothReady(): S {
    Ended(Prepopulated(10, PREPOPULATED), 0, 1, Ok(5), 2)
  }

  lemma BothWrites()
    ensures Update(Store(ASKED, 0, 10), 2, Ok(6), 3) == PREPOPULATED
    ensures Update(PREPOPULATED, 1, Ok(5), 2) == BOTH_READY
  {
    assert ASKED[1..] == [Slot(2, Waiting(1))];
    assert PREPOPULATED.cache[1..] == [Slot(2, Ready(6, 3))];
  }

  lemma ReachBothReady()
    ensures Reachable(10, BothReady()) && Accounted(BothReady()) && Quiet(BothReady())
    ensures BothReady().store == BOTH_READY && BothReady().keys == [1, 2] && BothReady().queue == {1}
    ensures BothReady().leaked == 0
  {
    BothWrites();
    ReachPrepopulated(10, PREPOPULATED);
    ReachEnded(10, Prepopulated(10, PREPOPULATED), 0, 1, Ok(5), 2);
  }

  /** A failing build of a prepopulated key leaves `current_size` above the sum of Ready sizes. */
  lemma LeakIsReachable() returns (t: S)
    ensures Reachable(10, t) && t.store.size == 5 && Total(t.store.cache) == 2 && t.leaked == 3
  {
    ReachBothReady();
    assert Remove(BOTH_READY.cache, 2) == [Slot(1, Ready(5, 2))];
    t := Rebuilt(BothReady(), 1, 2, Err, 0);
    ReachRebuilt(10, BothReady(), 1, 2, Err, 0);
  }

  /** An expired request for a prepopulated key makes `drop_waiting` panic. */
  lemma DropWaitingPanicIsReachable() returns (t: S)
    ensures Reachable(10, t) && t.crashed
  {
    ReachBothReady();
    t := Panicked(BothReady(), 1);
    ReachPanicked(10, BothReady(), 1);
  }

  // With `max_size` 1, writing key 2 at size at least 2 evicts the Waiting entry of key 1 and
  // then the new entry itself.
  lemma WriteEmpties(size: nat)
    requires size >= 2
    ensures Update(Store(ASKED, 0, 1), 2, Ok(6), size) == Store([], 0, 1)
  {
    var first, second := Slot(1, Waiting(0)), Slot(2, Ready(6, size));
    assert ASKED[1..] == [Slot(2, Waiting(1))];
    assert Insert(Store(ASKED, 0, 1), 2, 6, size) == Store([first, second], size, 1);
    assert [first, second][1..] == [second] && [second][1..] == [];
    TrimPops(first, [second], size);
    TrimPops(second, [], size);
  }

  lemma TrimPops(x: Slot<nat, Entry<nat>>, rest: Cache, size: nat)
    requires size > 1
    ensures Trim(Store([x] + rest, size, 1)) == Trim(Store(rest, size - EntrySize(x.entry), 1))
  {
    assert ([x] + rest)[1..] == rest;
  }

  /** Evicting a Waiting entry lets the same key be built twice at once. */
  lemma DoubleBuildIsReachable() returns (t: S)
    ensures Reachable(1, t) && t.keys == [1, 2, 1] && Unfinished(t, 0) && Unfinished(t, 2)
  {
    WriteEmpties(3);
    var s := Prepopulated(1, Store([], 0, 1));
    ReachPrepopulated(1, Store([], 0, 1));
    ReachRequested(1, s, 1);
    t := Requested(s, 1);
    assert t.running[0].rest[0].0 == 1;
  }

  // The request for key 2 is served first and its value evicts the Waiting entry of key 1.
  function Emptied(): S {
    Asked(1).(store := Store([], 0, 1), queue := {0}, sent := map[1 := Ok(6)], produced := {(2, 6)})
  }

  lemma EmptiedByBuild()
    ensures Rebuilt(Asked(1), 1, 2, Ok(6), 2) == Emptied()
  {
    WriteEmpties(2);
    assert Asked(1).queue - {1} == {0};
    assert Produced<nat, nat>([(2, Ok(6))]) == {(2, 6)} by {
      assert [(2, Ok(6))][0] == (2, Ok(6));
    }
  }

  lemma ReachEmptied()
    ensures Reachable(1, Emptied())
  {
    ReachAsked(1);
    AskedAccounted(1);
    ReachRebuilt(1, Asked(1), 1, 2, Ok(6), 2);
    EmptiedByBuild();
  }

  // Key 1 is requested again, on channel 2, and built, before channel 0 is taken up.
  function Again(): S {
    Emptied().(store := Store([Slot(1, Waiting(2))], 0, 1), keys := [1, 2, 1], queue := {0, 2},
      waiters := {(1, 0), (2, 1), (1, 2)})
  }

  lemma ReachAgain()
    ensures Reachable(1, Again())
  {
    ReachEmptied();
    ReachRequested(1, Emptied(), 1);
    assert Emptied().waiters + {(1, 2)} == Again().waiters && Emptied().queue + {2} == {0, 2};
    assert Requested(Emptied(), 1) == Again();
  }

  function Overtaken(): S {
    Rebuilt(Again(), 2, 1, Ok(5), 1)
  }

  lemma OneSlot(x: Slot<nat, Entry<nat>>)
    ensures Distinct([x]) && Total([x]) == EntrySize(x.entry)
    ensures Lookup([x], x.key) == Some(x.entry) && Remove([x], x.key) == []
  {
    assert [x][1..] == [];
  }

  lemma WriteFits(k: nat, c: nat, v: nat, size: nat, max: nat)
    requires size <= max
    ensures Update(Store([Slot(k, Waiting(c))], 0, max), k, Ok(v), size) == Store([Slot(k, Ready(v, size))], size, max)
  {
    OneSlot(Slot(k, Waiting(c)));
  }

  lemma OvertakenIsReady()
    ensures Lookup(Overtaken().store.cache, 1) == Some(Ready(5, 1))
  {
    WriteFits(1, 2, 5, 1, 1);
    OneSlot(Slot(1, Ready(5, 1)));
  }

  lemma ReachOvertaken()
    ensures Reachable(1, Overtaken()) && Quiet(Overtaken())
  {
    ReachAgain();
    OneSlot(Slot(1, Waiting(2)));
    ReachRebuilt(1, Again(), 2, 1, Ok(5), 1);
  }

  /**
    Evicting a Waiting entry can close its caller's channel: every generator here returns exactly
    its own key, and the caller that first asked for key 1 gets an error instead of an answer.
   */
  lemma EvictedWaiterFails() returns (t: S)
    ensures Reachable(1, t) && t.crashed && (1, 0) in t.waiters && Closed(t, 0)
  {
    ReachOvertaken();
    OvertakenIsReady();
    t := Panicked(Overtaken(), 0);
    ReachPanicked(1, Overtaken(), 0);
  }
}
