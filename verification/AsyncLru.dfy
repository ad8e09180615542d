/**
  `AsyncLru` as a transition system: one step per critical section, queue operation or
  channel operation, interleaved in any order by any number of callers and builds.
 */
module AsyncLru {
  import opened Prelude
  import opened LruOrder
  import opened CacheStore

  const QUEUE_CAPACITY: nat := 200

  // A dequeued build: expired and about to call `drop_waiting`, awaiting its generator,
  // or writing the generated entries one by one.
  datatype Phase<K, V> = Expired | Generating | Applying(rest: seq<(K, Result<V>)>)

  // All builds are futures of one worker task: its panic drops every running build together
  // with the sender of that build's channel, and leaves the queue unserved. Runs end there.
  //
  // Channels are numbered by creation; `keys[c]` is the key build `c` was requested for.
  // `leaked`, `produced`, `delivered` and `waiters` are history: no step reads them
  // except that a caller receives on a channel it waits on.
  datatype State<K(==), V(==)> = State(
    store: Store<K, V>,
    concurrency: nat,
    keys: seq<K>,
    queue: set<nat>,
    running: map<nat, Phase<K, V>>,
    unsent: map<nat, Result<V>>,
    sent: map<nat, Result<V>>,
    waiters: set<(K, nat)>,
    leaked: nat,
    produced: set<(K, V)>,
    delivered: set<(K, V)>,
    crashed: bool)

  datatype Event<K, V> =
    | Get(key: K)
    | Start(chan: nat, expired: bool)
    | DropExpired(chan: nat)
    | Generated(chan: nat, values: seq<(K, Result<V>)>)
    | Apply(chan: nat, size: nat)
    | Broadcast(chan: nat)
    | Finish(chan: nat)
    | Receive(key: K, chan: nat)

  function Init<K(==), V(==)>(maxSize: nat, concurrency: nat): State<K, V> {
    State(Store([], 0, maxSize), concurrency, [], {}, map[], map[], map[], {}, 0, {}, {}, false)
  }

  // A generator answers with a hash map: at most one result per key, in any order.
  predicate DistinctKeys<K(==), V>(values: seq<(K, Result<V>)>) {
    forall i, j :: 0 <= i < j < |values| ==> values[i].0 != values[j].0
  }

  predicate Mentions<K(==), V>(values: seq<(K, Result<V>)>, k: K) {
    exists i :: 0 <= i < |values| && values[i].0 == k
  }

  function Produced<K(==), V(==)>(values: seq<(K, Result<V>)>): set<(K, V)> {
    set i | 0 <= i < |values| && values[i].1.Ok? :: (values[i].0, values[i].1.value)
  }

  predicate Enabled<K(==), V(==)>(s: State<K, V>, e: Event<K, V>) {
    !s.crashed &&
    match e
    case Get(_) => true
    case Start(c, _) => c in s.queue && (s.concurrency == 0 || |s.running| < s.concurrency)
    case DropExpired(c) => c < |s.keys| && c in s.running && s.running[c].Expired?
    case Generated(c, values) => c in s.running && s.running[c].Generating? && DistinctKeys(values)
    case Apply(c, _) =>
      c < |s.keys| && c in s.running && s.running[c].Applying? && s.running[c].rest != [] && c !in s.unsent
    case Broadcast(c) => c in s.unsent
    case Finish(c) => c in s.running && s.running[c] == Applying([]) && c !in s.unsent
    case Receive(k, c) => (k, c) in s.waiters && c in s.sent
  }

  function NextGet<K(==), V(==)>(s: State<K, V>, k: K): State<K, V> {
    var accepted := |s.queue| < QUEUE_CAPACITY;
    var t := s.(store := s.store.(cache := Request(s.store.cache, k, accepted, |s.keys|)));
    match Answer(Lookup(s.store.cache, k), accepted, |s.keys|)
    case Hit(v) => t.(delivered := s.delivered + {(k, v)})
    case Join(c) => t.(waiters := s.waiters + {(k, c)})
    case Kickoff(c) => t.(keys := s.keys + [k], queue := s.queue + {c}, waiters := s.waiters + {(k, c)})
    case QueueFull => t
  }

  function Next<K(==), V(==)>(s: State<K, V>, e: Event<K, V>): State<K, V>
    requires Enabled(s, e)
  {
    match e
    case Get(k) => NextGet(s, k)
    case Start(c, expired) =>
      s.(queue := s.queue - {c}, running := s.running[c := if expired then Expired else Generating])
    case DropExpired(c) =>
      var k := s.keys[c];
      var t := s.(store := s.store.(cache := Remove(s.store.cache, k)), leaked := s.leaked + SizeAt(s.store.cache, k));
      if Lookup(s.store.cache, k).Some? && Lookup(s.store.cache, k).value.Ready? then
        t.(crashed := true, running := map[], unsent := map[])
      else
        t.(running := s.running[c := Applying([])], unsent := s.unsent[c := Err])
    case Generated(c, values) =>
      s.(running := s.running[c := Applying(values)], produced := s.produced + Produced(values))
    case Apply(c, size) =>
      var (k, r) := s.running[c].rest[0];
      var store := Update(s.store, k, r, size);
      s.(store := store,
      leaked := s.leaked + (if r.Err? then SizeAt(s.store.cache, k) else 0),
      crashed := store.size > store.max,
      running := s.running[c := Applying(s.running[c].rest[1..])],
      unsent := if k == s.keys[c] then s.unsent[c := r] else s.unsent)
    case Broadcast(c) =>
      s.(sent := s.sent[c := s.unsent[c]], unsent := s.unsent - {c})
    case Finish(c) =>
      s.(running := s.running - {c})
    case Receive(k, c) =>
      if s.sent[c].Ok? then s.(delivered := s.delivered + {(k, s.sent[c].value)}) else s
  }

  ghost predicate Run<K, V>(s: State<K, V>, es: seq<Event<K, V>>)
    decreases |es|
  {
    es == [] || (Enabled(s, es[0]) && Run(Next(s, es[0]), es[1..]))
  }

  ghost function After<K, V>(s: State<K, V>, es: seq<Event<K, V>>): State<K, V>
    requires Run(s, es)
    decreases |es|
  {
    if es == [] then s else After(Next(s, es[0]), es[1..])
  }

  // ---------------------------------------------------------------- accounting

  ghost predicate Accounted<K, V>(s: State<K, V>) {
    && Distinct(s.store.cache)
    && s.store.size == Total(s.store.cache) + s.leaked
    && s.store.size <= s.store.max
  }

  // The panic in `drop_waiting`: the expired build's key has a Ready entry.
  predicate DropsReady<K(==), V(==)>(s: State<K, V>, e: Event<K, V>)
    requires Enabled(s, e)
  {
    e.DropExpired? &&
    var popped := Lookup(s.store.cache, s.keys[e.chan]);
    popped.Some? && popped.value.Ready?
  }

  /** Every step keeps the accounting, and the only step that panics is `DropsReady`. */
  lemma StepAccounted<K, V>(s: State<K, V>, e: Event<K, V>)
    requires Accounted(s) && Enabled(s, e)
    ensures Accounted(Next(s, e)) && Next(s, e).store.max == s.store.max
    ensures Next(s, e).crashed <==> DropsReady(s, e)
  {
    match e
    case Get(k) => GetAccounted(s, k);
    case DropExpired(c) =>
      TotalRemove(s.store.cache, s.keys[c]);
      RemoveMembers(s.store.cache, s.keys[c]);
    case Apply(c, size) =>
      var (k, r) := s.running[c].rest[0];
      UpdateAccounting(s.store, k, r, size, s.leaked);
    case _ =>
  }

  lemma GetAccounted<K, V>(s: State<K, V>, k: K)
    requires Accounted(s)
    ensures Accounted(NextGet(s, k))
    ensures NextGet(s, k).store.max == s.store.max && NextGet(s, k).crashed == s.crashed
  {
    GetStore(s, k);
    RequestKeepsLookups(s.store.cache, k, |s.queue| < QUEUE_CAPACITY, |s.keys|, k);
  }

  lemma GetStore<K, V>(s: State<K, V>, k: K)
    ensures var t := NextGet(s, k);
            && t.store == s.store.(cache := Request(s.store.cache, k, |s.queue| < QUEUE_CAPACITY, |s.keys|))
            && t.leaked == s.leaked && t.crashed == s.crashed
  {
    match Answer(Lookup(s.store.cache, k), |s.queue| < QUEUE_CAPACITY, |s.keys|)
    case Kickoff(_) =>
    case _ =>
  }

  /**
    Over every run, the counter is exactly the memoized Ready sizes plus the leak, and
    never exceeds `max_size`. So no subtraction underflows, the leak is at most
    `max_size`, and the `expect` in `trim_to_size` never fires.
   */
  lemma {:induction false} RunAccounted<K, V>(s: State<K, V>, es: seq<Event<K, V>>)
    requires Accounted(s) && Run(s, es)
    ensures var t := After(s, es);
            && t.store.size == Total(t.store.cache) + t.leaked
            && t.leaked <= t.store.size <= t.store.max == s.store.max
            && Accounted(t)
    decreases |es|
  {
    if es != [] {
      StepAccounted(s, es[0]);
      RunAccounted(Next(s, es[0]), es[1..]);
    }
  }

  // A failing build pops a Ready entry of non-zero size, or an expiry pops one and panics.
  predicate Leaks<K(==), V(==)>(s: State<K, V>, e: Event<K, V>)
    requires Enabled(s, e)
  {
    match e
    case DropExpired(c) => SizeAt(s.store.cache, s.keys[c]) > 0
    case Apply(c, _) => s.running[c].rest[0].1.Err? && SizeAt(s.store.cache, s.running[c].rest[0].0) > 0
    case _ => false
  }

  ghost predicate AvoidsLeaks<K, V>(s: State<K, V>, es: seq<Event<K, V>>)
    requires Run(s, es)
    decreases |es|
  {
    es == [] || (!Leaks(s, es[0]) && AvoidsLeaks(Next(s, es[0]), es[1..]))
  }

  /** The plain equation `current_size == sum of Ready sizes` holds iff no step leaked. */
  lemma {:induction false} ExactSizeIff<K, V>(s: State<K, V>, es: seq<Event<K, V>>)
    requires Accounted(s) && Run(s, es)
    ensures After(s, es).leaked >= s.leaked
    ensures After(s, es).leaked == s.leaked <==> AvoidsLeaks(s, es)
    ensures s.leaked == 0 ==>
              (After(s, es).store.size == Total(After(s, es).store.cache) <==> AvoidsLeaks(s, es))
    decreases |es|
  {
    RunAccounted(s, es);
    if es != [] {
      StepAccounted(s, es[0]);
      LeaksIff(s, es[0]);
      ExactSizeIff(Next(s, es[0]), es[1..]);
    }
  }

  lemma LeaksIff<K, V>(s: State<K, V>, e: Event<K, V>)
    requires Enabled(s, e)
    ensures Next(s, e).leaked >= s.leaked
    ensures Next(s, e).leaked == s.leaked <==> !Leaks(s, e)
  {
    if e.Get? {
      GetStore(s, e.key);
    }
  }

  // ---------------------------------------------------------------- structure

  // Build `c` has yet to write or drop the entry of the key it was requested for.
  ghost predicate Unfinished<K, V>(s: State<K, V>, c: nat) {
    && c < |s.keys|
    && (c in s.queue
        || (c in s.running
            && (s.running[c].Applying? ==> Mentions(s.running[c].rest, s.keys[c]))))
  }

  ghost predicate WaitsOn<K, V>(s: State<K, V>, k: K, c: nat) {
    Lookup(s.store.cache, k) == Some(Waiting(c))
  }

  // At most 200 queued requests and `concurrency` running builds, each in one place.
  ghost predicate Bounded<K, V>(s: State<K, V>) {
    && s.queue !! s.running.Keys
    && |s.queue| <= QUEUE_CAPACITY
    && (s.concurrency > 0 ==> |s.running| <= s.concurrency)
  }

  ghost predicate Numbered<K, V>(s: State<K, V>) {
    forall c :: c in s.queue || c in s.running ==> c < |s.keys|
  }

  ghost predicate RestsDistinct<K, V>(s: State<K, V>) {
    forall c :: c in s.running && s.running[c].Applying? ==> DistinctKeys(s.running[c].rest)
  }

  ghost predicate Indexed<K, V>(s: State<K, V>) {
    Bounded(s) && Numbered(s) && RestsDistinct(s)
  }

  // A build replies at most once, after it wrote or dropped its own entry.
  ghost predicate RepliesOnce<K, V>(s: State<K, V>) {
    && (forall c :: c in s.unsent ==> c in s.running && !Unfinished(s, c))
    && (forall c :: c in s.sent ==> c < |s.keys| && c !in s.unsent && !Unfinished(s, c))
  }

  ghost predicate EntriesTagged<K(!new), V>(s: State<K, V>) {
    forall k, c: nat :: WaitsOn(s, k, c) ==> c < |s.keys| && s.keys[c] == k
  }

  ghost predicate WaitersTagged<K(!new), V>(s: State<K, V>) {
    forall k, c :: (k, c) in s.waiters ==> c < |s.keys| && s.keys[c] == k
  }

  ghost predicate Tagged<K(!new), V>(s: State<K, V>) {
    EntriesTagged(s) && WaitersTagged(s)
  }

  ghost predicate Invariant<K(!new), V>(s: State<K, V>) {
    Accounted(s) && Indexed(s) && RepliesOnce(s) && Tagged(s)
  }

  /** The entry found at `j` after a step, in terms of the state before it. */
  ghost function NextEntry<K, V>(s: State<K, V>, e: Event<K, V>, j: K): Option<Entry<V>>
    requires Enabled(s, e)
  {
    var found := Lookup(s.store.cache, j);
    match e
    case Get(k) =>
      if j == k && found.None? && |s.queue| < QUEUE_CAPACITY then Some(Waiting(|s.keys|)) else found
    case DropExpired(c) => if j == s.keys[c] then None else found
    case Apply(c, size) =>
      var (k, r) := s.running[c].rest[0];
      if Lookup(Evicted(s.store, k, r, size), j).Some? then None
      else if j != k then found
      else if r.Ok? then Some(Ready(r.value, size)) else None
    case _ => found
  }

  lemma StepEntry<K, V>(s: State<K, V>, e: Event<K, V>, j: K)
    requires Accounted(s) && Enabled(s, e)
    ensures Lookup(Next(s, e).store.cache, j) == NextEntry(s, e, j)
  {
    match e
    case Get(k) => RequestKeepsLookups(s.store.cache, k, |s.queue| < QUEUE_CAPACITY, |s.keys|, j);
    case DropExpired(c) => LookupRemove(s.store.cache, s.keys[c], j);
    case Apply(c, size) =>
      var (k, r) := s.running[c].rest[0];
      UpdateLookup(s.store, k, r, size, s.leaked, j);
    case _ =>
  }

  lemma MentionsTail<K, V>(rest: seq<(K, Result<V>)>, k: K)
    requires rest != [] && DistinctKeys(rest)
    ensures DistinctKeys(rest[1..])
    ensures Mentions(rest[1..], k) <==> Mentions(rest, k) && rest[0].0 != k
  {
    if Mentions(rest, k) && rest[0].0 != k {
      var i :| 0 <= i < |rest| && rest[i].0 == k;
      assert rest[1..][i - 1].0 == k;
    }
    if Mentions(rest[1..], k) {
      var i :| 0 <= i < |rest[1..]| && rest[1..][i].0 == k;
      assert rest[i + 1].0 == k;
    }
  }

  /** Which builds are unfinished after a step. */
  lemma StepUnfinished<K, V>(s: State<K, V>, e: Event<K, V>, c: nat)
    requires Indexed(s) && Enabled(s, e)
    ensures Unfinished(Next(s, e), c) <==>
            match e
            case Get(k) =>
              || Unfinished(s, c)
              || (c == |s.keys| && Lookup(s.store.cache, k).None? && |s.queue| < QUEUE_CAPACITY)
            case DropExpired(d) => if DropsReady(s, e) then c in s.queue else Unfinished(s, c) && c != d
            case Generated(d, values) => Unfinished(s, c) && (c == d ==> Mentions(values, s.keys[c]))
            case Apply(d, _) => Unfinished(s, c) && !(c == d && s.running[d].rest[0].0 == s.keys[d])
            case _ => Unfinished(s, c)
  {
    match e
    case Get(k) => GetUnfinished(s, k, c);
    case Apply(d, _) => MentionsTail(s.running[d].rest, s.keys[d]);
    case _ =>
  }

  lemma GetUnfinished<K, V>(s: State<K, V>, k: K, c: nat)
    requires Indexed(s)
    ensures Unfinished(NextGet(s, k), c) <==>
            || Unfinished(s, c)
            || (c == |s.keys| && Lookup(s.store.cache, k).None? && |s.queue| < QUEUE_CAPACITY)
  {
  }

  lemma GetPlaces<K, V>(s: State<K, V>, k: K)
    ensures var t := NextGet(s, k);
            && t.running == s.running && t.concurrency == s.concurrency && |t.keys| >= |s.keys|
            && (t.queue == s.queue
                || (|s.queue| < QUEUE_CAPACITY && t.queue == s.queue + {|s.keys|} && |t.keys| == |s.keys| + 1))
  {
    match Answer(Lookup(s.store.cache, k), |s.queue| < QUEUE_CAPACITY, |s.keys|)
    case Kickoff(_) =>
    case _ =>
  }

  lemma MovingPlaces<K, V>(s: State<K, V>, e: Event<K, V>)
    requires Enabled(s, e) && (e.Start? || e.Finish?)
    ensures var t := Next(s, e);
            && t.concurrency == s.concurrency
            && t.queue == (if e.Start? then s.queue - {e.chan} else s.queue)
            && t.running.Keys == (if e.Start? then s.running.Keys + {e.chan} else s.running.Keys - {e.chan})
  {
  }

  lemma StayingPlaces<K, V>(s: State<K, V>, e: Event<K, V>)
    requires Enabled(s, e) && !e.Get? && !e.Start? && !e.Finish?
    ensures var t := Next(s, e);
            && t.concurrency == s.concurrency && t.queue == s.queue
            && t.running.Keys == if DropsReady(s, e) then {} else s.running.Keys
  {
    match e
    case DropExpired(c) => UpdatedKeys(s.running, c, Applying([]));
    case Generated(c, values) => UpdatedKeys(s.running, c, Applying(values));
    case Apply(c, _) => UpdatedKeys(s.running, c, Applying(s.running[c].rest[1..]));
    case _ =>
  }

  lemma UpdatedKeys<K, V>(m: map<nat, Phase<K, V>>, c: nat, p: Phase<K, V>)
    requires c in m
    ensures m[c := p].Keys == m.Keys
  {
  }

  lemma StepBounded<K, V>(s: State<K, V>, e: Event<K, V>)
    requires Bounded(s) && Numbered(s) && Enabled(s, e)
    ensures Bounded(Next(s, e))
  {
    var t := Next(s, e);
    assert |t.running| == |t.running.Keys| && |s.running| == |s.running.Keys|;
    if e.Get? {
      GetPlaces(s, e.key);
    } else if e.Start? || e.Finish? {
      MovingPlaces(s, e);
    } else {
      StayingPlaces(s, e);
    }
  }

  lemma StepRestsDistinct<K, V>(s: State<K, V>, e: Event<K, V>)
    requires RestsDistinct(s) && Enabled(s, e)
    ensures RestsDistinct(Next(s, e))
  {
    if e.Apply? {
      MentionsTail(s.running[e.chan].rest, s.keys[e.chan]);
    }
  }

  lemma StepNumbered<K, V>(s: State<K, V>, e: Event<K, V>)
    requires Numbered(s) && Enabled(s, e)
    ensures Numbered(Next(s, e))
  {
    if e.Get? {
      GetPlaces(s, e.key);
    } else if e.Start? || e.Finish? {
      MovingPlaces(s, e);
      assert Next(s, e).keys == s.keys;
    } else {
      StayingPlaces(s, e);
      assert Next(s, e).keys == s.keys;
    }
  }

  lemma StepIndexed<K, V>(s: State<K, V>, e: Event<K, V>)
    requires Indexed(s) && Enabled(s, e)
    ensures Indexed(Next(s, e))
  {
    StepBounded(s, e);
    StepNumbered(s, e);
    StepRestsDistinct(s, e);
  }

  lemma StepRepliesOnce<K, V>(s: State<K, V>, e: Event<K, V>)
    requires Indexed(s) && RepliesOnce(s) && Enabled(s, e)
    ensures RepliesOnce(Next(s, e))
  {
    var t := Next(s, e);
    StepHistory(s, e);
    forall c: nat ensures
        && (c in t.unsent ==> c in t.running && !Unfinished(t, c))
        && (c in t.sent ==> c < |t.keys| && c !in t.unsent && !Unfinished(t, c))
    {
      StepUnfinished(s, e, c);
      if e.Apply? && c == e.chan && s.running[c].rest[0].0 == s.keys[c] {
        assert Unfinished(s, c);
      }
    }
  }

  lemma StepEntriesTagged<K(!new), V>(s: State<K, V>, e: Event<K, V>)
    requires Accounted(s) && EntriesTagged(s) && Enabled(s, e)
    ensures EntriesTagged(Next(s, e))
  {
    var t := Next(s, e);
    forall k, c: nat | WaitsOn(t, k, c) ensures c < |t.keys| && t.keys[c] == k {
      StepEntry(s, e, k);
      assert WaitsOn(s, k, c) || (e.Get? && c == |s.keys|);
    }
  }

  lemma StepWaitersTagged<K(!new), V>(s: State<K, V>, e: Event<K, V>)
    requires Tagged(s) && Enabled(s, e)
    ensures WaitersTagged(Next(s, e))
  {
    if e.Get? {
      var found := Lookup(s.store.cache, e.key);
      GetWaiters(s, e.key);
      if found.Some? && found.value.Waiting? {
        assert WaitsOn(s, e.key, found.value.chan);
      }
    } else {
      assert Next(s, e).keys == s.keys && Next(s, e).waiters == s.waiters;
    }
  }

  // The caller joins the channel it finds, or the one made for it.
  lemma GetWaiters<K, V>(s: State<K, V>, k: K)
    ensures var t, found := NextGet(s, k), Lookup(s.store.cache, k);
            || (t.keys == s.keys && t.waiters == s.waiters)
            || (t.keys == s.keys && found.Some? && found.value.Waiting?
                && t.waiters == s.waiters + {(k, found.value.chan)})
            || (t.keys == s.keys + [k] && t.waiters == s.waiters + {(k, |s.keys|)})
  {
    match Answer(Lookup(s.store.cache, k), |s.queue| < QUEUE_CAPACITY, |s.keys|)
    case Kickoff(_) =>
    case _ =>
  }

  lemma StepInvariant<K(!new), V>(s: State<K, V>, e: Event<K, V>)
    requires Invariant(s) && Enabled(s, e)
    ensures Invariant(Next(s, e))
  {
    StepAccounted(s, e);
    StepIndexed(s, e);
    StepRepliesOnce(s, e);
    StepEntriesTagged(s, e);
    StepWaitersTagged(s, e);
  }

  lemma {:induction false} RunInvariant<K(!new), V>(s: State<K, V>, es: seq<Event<K, V>>)
    requires Invariant(s) && Run(s, es)
    ensures Invariant(After(s, es))
    decreases |es|
  {
    if es != [] {
      StepInvariant(s, es[0]);
      RunInvariant(Next(s, es[0]), es[1..]);
    }
  }

  // ---------------------------------------------------------------- no orphaned waiters

  ghost predicate NoOrphans<K(!new), V>(s: State<K, V>) {
    forall k, c: nat :: WaitsOn(s, k, c) ==> Unfinished(s, c)
  }

  // The generator's map lacks the requested key while a Waiting entry points at the build, or
  // the panic drops a running build that a Waiting entry points at.
  ghost predicate Abandons<K, V>(s: State<K, V>, e: Event<K, V>)
    requires Enabled(s, e)
  {
    match e
    case Generated(c, values) => c < |s.keys| && !Mentions(values, s.keys[c]) && WaitsOn(s, s.keys[c], c)
    case DropExpired(_) => DropsReady(s, e) && exists d :: d in s.running && d < |s.keys| && WaitsOn(s, s.keys[d], d)
    case _ => false
  }

  lemma AbandoningOrphans<K(!new), V>(s: State<K, V>, e: Event<K, V>)
    requires Invariant(s) && Enabled(s, e) && Abandons(s, e)
    ensures !NoOrphans(Next(s, e))
  {
    var d: nat := e.chan;
    if e.DropExpired? {
      d :| d in s.running && d < |s.keys| && WaitsOn(s, s.keys[d], d);
    }
    StepEntry(s, e, s.keys[d]);
    StepUnfinished(s, e, d);
    assert WaitsOn(Next(s, e), s.keys[d], d) && !Unfinished(Next(s, e), d);
  }

  /** A step creates an orphaned Waiting entry exactly when it is `Abandons`. */
  lemma StepOrphansIff<K(!new), V>(s: State<K, V>, e: Event<K, V>)
    requires Invariant(s) && NoOrphans(s) && Enabled(s, e)
    ensures NoOrphans(Next(s, e)) <==> !Abandons(s, e)
  {
    var t := Next(s, e);
    if Abandons(s, e) {
      AbandoningOrphans(s, e);
    } else {
      forall k, c: nat | WaitsOn(t, k, c) ensures Unfinished(t, c) {
        StepEntry(s, e, k);
        StepUnfinished(s, e, c);
        assert WaitsOn(s, k, c) || (e.Get? && c == |s.keys|);
      }
    }
  }

  ghost predicate NeverOrphans<K(!new), V>(s: State<K, V>, es: seq<Event<K, V>>)
    requires Run(s, es)
    decreases |es|
  {
    NoOrphans(s) && (es != [] ==> NeverOrphans(Next(s, es[0]), es[1..]))
  }

  ghost predicate NeverAbandons<K, V>(s: State<K, V>, es: seq<Event<K, V>>)
    requires Run(s, es)
    decreases |es|
  {
    es != [] ==> !Abandons(s, es[0]) && NeverAbandons(Next(s, es[0]), es[1..])
  }

  /** Every Waiting entry belongs to an unfinished build throughout a run iff no step abandons one. */
  lemma {:induction false} OrphanFreeIff<K(!new), V>(s: State<K, V>, es: seq<Event<K, V>>)
    requires Invariant(s) && NoOrphans(s) && Run(s, es)
    ensures NeverOrphans(s, es) <==> NeverAbandons(s, es)
    decreases |es|
  {
    if es != [] {
      StepOrphansIff(s, es[0]);
      StepInvariant(s, es[0]);
      if !Abandons(s, es[0]) {
        OrphanFreeIff(Next(s, es[0]), es[1..]);
      }
    }
  }

  // ---------------------------------------------------------------- replies

  // Every generator's map contains the key it was requested for.
  ghost predicate Complete<K, V>(s: State<K, V>, e: Event<K, V>) {
    e.Generated? && e.chan < |s.keys| ==> Mentions(e.values, s.keys[e.chan])
  }

  ghost predicate CompleteRun<K, V>(s: State<K, V>, es: seq<Event<K, V>>)
    decreases |es|
  {
    es == [] || (Enabled(s, es[0]) && Complete(s, es[0]) && CompleteRun(Next(s, es[0]), es[1..]))
  }

  // Every channel's build still has its own entry to settle, or has a reply to send, or sent it.
  ghost predicate Answered<K, V>(s: State<K, V>) {
    forall c: nat :: c < |s.keys| ==> Unfinished(s, c) || c in s.unsent || c in s.sent
  }

  // Every channel was made for a caller that waits on it.
  ghost predicate Awaited<K, V>(s: State<K, V>) {
    forall c: nat :: c < |s.keys| ==> (s.keys[c], c) in s.waiters
  }

  // The sender of the channel is gone and nothing was sent: `recv` returns an error.
  ghost predicate Closed<K, V>(s: State<K, V>, c: nat) {
    c !in s.queue && c !in s.running && c !in s.sent
  }

  ghost predicate Served<K(!new), V>(s: State<K, V>) {
    forall k, c :: (k, c) in s.waiters ==> !Closed(s, c)
  }

  lemma StepAnswered<K(!new), V>(s: State<K, V>, e: Event<K, V>)
    requires Invariant(s) && Answered(s) && Enabled(s, e) && Complete(s, e) && !DropsReady(s, e)
    ensures Answered(Next(s, e))
  {
    var t := Next(s, e);
    forall c: nat | c < |t.keys| ensures Unfinished(t, c) || c in t.unsent || c in t.sent {
      StepUnfinished(s, e, c);
    }
  }

  lemma StepAwaited<K, V>(s: State<K, V>, e: Event<K, V>)
    requires Awaited(s) && Enabled(s, e)
    ensures Awaited(Next(s, e))
  {
    if e.Get? {
      GetAwaited(s, e.key);
    } else {
      assert Next(s, e).keys == s.keys && Next(s, e).waiters == s.waiters;
    }
  }

  lemma GetAwaited<K, V>(s: State<K, V>, k: K)
    requires Awaited(s)
    ensures Awaited(NextGet(s, k))
  {
    GetWaiters(s, k);
  }

  lemma AnsweredServes<K(!new), V>(s: State<K, V>)
    requires Invariant(s) && Answered(s)
    ensures Served(s)
  {
    forall k, c | (k, c) in s.waiters ensures !Closed(s, c) {
      assert c < |s.keys|;
    }
  }

  // The caller whose request expired loses its channel in the panic.
  lemma PanicFailsTheCaller<K(!new), V>(s: State<K, V>, e: Event<K, V>)
    requires Invariant(s) && Awaited(s) && Enabled(s, e) && DropsReady(s, e)
    ensures (s.keys[e.chan], e.chan) in Next(s, e).waiters && Closed(Next(s, e), e.chan)
  {
    assert Unfinished(s, e.chan);
  }

  ghost predicate NeverFails<K(!new), V>(s: State<K, V>, es: seq<Event<K, V>>)
    requires Run(s, es)
    decreases |es|
  {
    Served(s) && (es != [] ==> NeverFails(Next(s, es[0]), es[1..]))
  }

  ghost predicate NeverDropsReady<K, V>(s: State<K, V>, es: seq<Event<K, V>>)
    requires Run(s, es)
    decreases |es|
  {
    es != [] ==> !DropsReady(s, es[0]) && NeverDropsReady(Next(s, es[0]), es[1..])
  }

  lemma {:induction false} CompleteRunsAreRuns<K, V>(s: State<K, V>, es: seq<Event<K, V>>)
    requires CompleteRun(s, es)
    ensures Run(s, es)
    decreases |es|
  {
    if es != [] {
      CompleteRunsAreRuns(Next(s, es[0]), es[1..]);
    }
  }

  /**
    With complete generators, whatever is prepopulated or evicted: throughout a run no caller's
    `recv` fails if and only if no step of it is the panic of `drop_waiting`. Up to there no
    Waiting entry is orphaned.
   */
  lemma {:induction false} CompleteRunsServeIff<K(!new), V>(s: State<K, V>, es: seq<Event<K, V>>)
    requires Invariant(s) && NoOrphans(s) && Answered(s) && Awaited(s) && !s.crashed && CompleteRun(s, es)
    ensures Run(s, es)
    ensures NeverFails(s, es) <==> NeverDropsReady(s, es)
    ensures After(s, es).crashed <==> !NeverDropsReady(s, es)
    ensures Awaited(After(s, es))
    ensures !After(s, es).crashed ==> NoOrphans(After(s, es)) && Answered(After(s, es)) && Served(After(s, es))
    decreases |es|
  {
    CompleteRunsAreRuns(s, es);
    AnsweredServes(s);
    if es != [] {
      var t := Next(s, es[0]);
      StepAccounted(s, es[0]);
      StepInvariant(s, es[0]);
      StepAwaited(s, es[0]);
      if DropsReady(s, es[0]) {
        PanicFailsTheCaller(s, es[0]);
        assert !Served(t);
        assert es[1..] == [];
      } else {
        StepOrphansIff(s, es[0]);
        StepAnswered(s, es[0]);
        CompleteRunsServeIff(t, es[1..]);
      }
    }
  }

  // ---------------------------------------------------------------- single flight

  ghost predicate SingleFlight<K(!new), V>(s: State<K, V>) {
    forall k, c: nat :: WaitsOn(s, k, c) <==> Unfinished(s, c) && s.keys[c] == k
  }

  /** At most one unfinished build per key. */
  lemma OneBuildPerKey<K(!new), V>(s: State<K, V>, c: nat, d: nat)
    requires SingleFlight(s) && Unfinished(s, c) && Unfinished(s, d) && s.keys[c] == s.keys[d]
    ensures c == d
  {
    assert WaitsOn(s, s.keys[c], c) && WaitsOn(s, s.keys[c], d);
  }

  // The step takes away a Waiting entry whose build goes on: a generator that overwrites or
  // pops another build's entry, an eviction of a Waiting entry, or a generator that forgot
  // its own key.
  ghost predicate Displaces<K, V>(s: State<K, V>, e: Event<K, V>)
    requires Enabled(s, e)
  {
    match e
    case Generated(c, values) => c < |s.keys| && !Mentions(values, s.keys[c])
    case Apply(c, size) =>
      var (k, r) := s.running[c].rest[0];
      || (k != s.keys[c] && exists d: nat :: WaitsOn(s, k, d))
      || (exists i :: 0 <= i < |Evicted(s.store, k, r, size)|
                      && Evicted(s.store, k, r, size)[i].entry.Waiting?)
    case _ => false
  }

  lemma EvictedIsDistinct<K, V>(st: Store<K, V>, k: K, r: Result<V>, size: nat)
    requires Distinct(st.cache)
    ensures Distinct(Evicted(st, k, r, size))
  {
    if r.Ok? {
      PutDistinct(st.cache, k, Ready(r.value, size));
    }
  }

  lemma DisplacingBreaksSingleFlight<K(!new), V>(s: State<K, V>, e: Event<K, V>)
    requires Invariant(s) && SingleFlight(s) && Enabled(s, e) && Displaces(s, e)
    ensures !SingleFlight(Next(s, e))
  {
    var t := Next(s, e);
    match e
    case Generated(c, values) =>
      StepEntry(s, e, s.keys[c]);
      StepUnfinished(s, e, c);
      assert WaitsOn(s, s.keys[c], c);
      assert WaitsOn(t, s.keys[c], c);
    case Apply(c, size) =>
      var (k, r) := s.running[c].rest[0];
      var gone := Evicted(s.store, k, r, size);
      if k != s.keys[c] && exists d: nat :: WaitsOn(s, k, d) {
        var d: nat :| WaitsOn(s, k, d);
        StepEntry(s, e, k);
        StepUnfinished(s, e, d);
        assert Unfinished(t, d) && !WaitsOn(t, k, d);
      } else {
        var i :| 0 <= i < |gone| && gone[i].entry.Waiting?;
        var j, d := gone[i].key, gone[i].entry.chan;
        EvictedIsDistinct(s.store, k, r, size);
        LookupAt(gone, i);
        UpdateLookup(s.store, k, r, size, s.leaked, j);
        StepEntry(s, e, j);
        StepUnfinished(s, e, d);
        EvictedAtKey(s.store, k, r, size);
        assert WaitsOn(s, j, d);
        assert Unfinished(t, d) && !WaitsOn(t, j, d);
      }
    case _ =>
  }

  lemma EvictedAtKey<K, V>(st: Store<K, V>, k: K, r: Result<V>, size: nat)
    requires Distinct(st.cache)
    ensures Lookup(Evicted(st, k, r, size), k).Some? ==> Lookup(Evicted(st, k, r, size), k).value.Ready?
  {
    if Lookup(Evicted(st, k, r, size), k).Some? {
      var ins := Insert(st, k, r.value, size);
      PutDistinct(st.cache, k, Ready(r.value, size));
      LookupPut(st.cache, k, Ready(r.value, size), k);
      var i := LookupFinds(Evicted(st, k, r, size), k);
      LookupAt(ins.cache, i);
    }
  }

  lemma KeepingKeepsSingleFlight<K(!new), V>(s: State<K, V>, e: Event<K, V>)
    requires Invariant(s) && SingleFlight(s) && Enabled(s, e) && !Displaces(s, e)
    ensures SingleFlight(Next(s, e))
  {
    var t := Next(s, e);
    forall k, c: nat ensures WaitsOn(t, k, c) <==> Unfinished(t, c) && t.keys[c] == k {
      StepEntry(s, e, k);
      StepUnfinished(s, e, c);
      assert WaitsOn(s, k, c) <==> Unfinished(s, c) && s.keys[c] == k;
      if e.Apply? && WaitsOn(s, k, c) {
        var (k0, r) := s.running[e.chan].rest[0];
        var gone := Evicted(s.store, k0, r, e.size);
        UpdateLookup(s.store, k0, r, e.size, s.leaked, k);
        if Lookup(gone, k).Some? && k != k0 {
          var i := LookupFinds(gone, k);
        }
      }
      if e.DropExpired? || (e.Apply? && s.running[e.chan].rest[0].0 == s.keys[e.chan]) {
        assert Unfinished(s, e.chan);
        assert WaitsOn(s, s.keys[e.chan], e.chan);
      }
    }
  }

  ghost predicate AlwaysSingleFlight<K(!new), V>(s: State<K, V>, es: seq<Event<K, V>>)
    requires Run(s, es)
    decreases |es|
  {
    SingleFlight(s) && (es != [] ==> AlwaysSingleFlight(Next(s, es[0]), es[1..]))
  }

  ghost predicate NeverDisplaces<K, V>(s: State<K, V>, es: seq<Event<K, V>>)
    requires Run(s, es)
    decreases |es|
  {
    es != [] ==> !Displaces(s, es[0]) && NeverDisplaces(Next(s, es[0]), es[1..])
  }

  /** Single flight holds throughout a run if and only if no step of it displaces a waiting build. */
  lemma {:induction false} SingleFlightIff<K(!new), V>(s: State<K, V>, es: seq<Event<K, V>>)
    requires Invariant(s) && SingleFlight(s) && Run(s, es)
    ensures AlwaysSingleFlight(s, es) <==> NeverDisplaces(s, es)
    decreases |es|
  {
    if es != [] {
      StepInvariant(s, es[0]);
      if Displaces(s, es[0]) {
        DisplacingBreaksSingleFlight(s, es[0]);
      } else {
        KeepingKeepsSingleFlight(s, es[0]);
        SingleFlightIff(Next(s, es[0]), es[1..]);
      }
    }
  }

  // `get` builds a one-entry map for its own key; assume also that no Waiting entry is evicted.
  ghost predicate OwnKeyStep<K, V>(s: State<K, V>, e: Event<K, V>)
    requires Enabled(s, e)
  {
    match e
    case Generated(c, values) => c < |s.keys| && |values| == 1 && values[0].0 == s.keys[c]
    case Apply(c, size) =>
      var (k, r) := s.running[c].rest[0];
      forall i :: 0 <= i < |Evicted(s.store, k, r, size)| ==> Evicted(s.store, k, r, size)[i].entry.Ready?
    case _ => true
  }

  ghost predicate OwnKeyRun<K, V>(s: State<K, V>, es: seq<Event<K, V>>)
    decreases |es|
  {
    es == [] || (Enabled(s, es[0]) && OwnKeyStep(s, es[0]) && OwnKeyRun(Next(s, es[0]), es[1..]))
  }

  ghost predicate OwnKeys<K, V>(s: State<K, V>) {
    forall c :: c in s.running && s.running[c].Applying? && s.running[c].rest != [] ==>
      c < |s.keys| && |s.running[c].rest| == 1 && s.running[c].rest[0].0 == s.keys[c]
  }

  ghost predicate Orderly<K(!new), V>(s: State<K, V>) {
    Invariant(s) && SingleFlight(s) && OwnKeys(s) && s.leaked == 0 && !s.crashed
  }

  lemma StepOwnKeys<K, V>(s: State<K, V>, e: Event<K, V>)
    requires OwnKeys(s) && Numbered(s) && Enabled(s, e) && OwnKeyStep(s, e)
    ensures OwnKeys(Next(s, e))
  {
  }

  // An own-key build finds its own Waiting entry, so it displaces and leaks nothing.
  lemma OwnKeyStepIsHarmless<K(!new), V>(s: State<K, V>, e: Event<K, V>)
    requires Orderly(s) && Enabled(s, e) && OwnKeyStep(s, e)
    ensures !Displaces(s, e) && Next(s, e).leaked == 0 && !DropsReady(s, e)
  {
    if e.DropExpired? || e.Apply? {
      assert Unfinished(s, e.chan);
      assert WaitsOn(s, s.keys[e.chan], e.chan);
    }
  }

  lemma StepOrderly<K(!new), V>(s: State<K, V>, e: Event<K, V>)
    requires Orderly(s) && Enabled(s, e) && OwnKeyStep(s, e)
    ensures Orderly(Next(s, e))
  {
    StepInvariant(s, e);
    StepAccounted(s, e);
    OwnKeyStepIsHarmless(s, e);
    KeepingKeepsSingleFlight(s, e);
    StepOwnKeys(s, e);
  }

  /**
    Runs built from `get` alone, with no Waiting entry evicted: `cache[k]` is Waiting on `c`
    exactly when build `c` for `k` is unfinished, nothing leaks and `drop_waiting` never panics.
   */
  lemma {:induction false} OwnKeyRunsAreOrderly<K(!new), V>(s: State<K, V>, es: seq<Event<K, V>>)
    requires Orderly(s) && OwnKeyRun(s, es)
    ensures Run(s, es)
    ensures var t := After(s, es);
            && SingleFlight(t) && t.leaked == 0 && !t.crashed
            && t.store.size == Total(t.store.cache)
            && Orderly(t)
    decreases |es|
  {
    if es != [] {
      StepOrderly(s, es[0]);
      OwnKeyRunsAreOrderly(Next(s, es[0]), es[1..]);
    }
  }

  lemma InitIsOrderly<K(!new), V>(maxSize: nat, concurrency: nat)
    ensures var s := Init<K, V>(maxSize, concurrency);
            && Orderly(s) && NoOrphans(s) && Answered(s) && Awaited(s) && Provenance(s)
            && s.store == Store([], 0, maxSize) && s.concurrency == concurrency
  {
  }

  // ---------------------------------------------------------------- value provenance

  ghost predicate CacheProduced<K(!new), V>(s: State<K, V>) {
    forall k :: Lookup(s.store.cache, k).Some? && Lookup(s.store.cache, k).value.Ready? ==>
      (k, Lookup(s.store.cache, k).value.value) in s.produced
  }

  ghost predicate RestsProduced<K, V>(s: State<K, V>) {
    forall c :: c in s.running && s.running[c].Applying? ==> Produced(s.running[c].rest) <= s.produced
  }

  ghost predicate RepliesProduced<K, V>(s: State<K, V>, replies: map<nat, Result<V>>) {
    forall c :: c in replies && replies[c].Ok? ==> c < |s.keys| && (s.keys[c], replies[c].value) in s.produced
  }

  ghost predicate Provenance<K(!new), V>(s: State<K, V>) {
    && CacheProduced(s) && RestsProduced(s)
    && RepliesProduced(s, s.unsent) && RepliesProduced(s, s.sent)
    && s.delivered <= s.produced
  }

  lemma ProducedTail<K, V>(rest: seq<(K, Result<V>)>)
    requires rest != []
    ensures Produced(rest[1..]) <= Produced(rest)
    ensures rest[0].1.Ok? ==> (rest[0].0, rest[0].1.value) in Produced(rest)
  {
    forall p | p in Produced(rest[1..]) ensures p in Produced(rest) {
      var i :| 0 <= i < |rest[1..]| && rest[1..][i].1.Ok? && p == (rest[1..][i].0, rest[1..][i].1.value);
      assert rest[i + 1] == rest[1..][i];
    }
  }

  lemma StepCacheProduced<K(!new), V>(s: State<K, V>, e: Event<K, V>)
    requires Accounted(s) && CacheProduced(s) && RestsProduced(s) && Enabled(s, e)
    ensures CacheProduced(Next(s, e))
  {
    var t := Next(s, e);
    if e.Apply? {
      ProducedTail(s.running[e.chan].rest);
    }
    forall k | Lookup(t.store.cache, k).Some? && Lookup(t.store.cache, k).value.Ready?
      ensures (k, Lookup(t.store.cache, k).value.value) in t.produced
    {
      StepEntry(s, e, k);
    }
  }

  lemma StepRestsProduced<K, V>(s: State<K, V>, e: Event<K, V>)
    requires RestsProduced(s) && Enabled(s, e)
    ensures RestsProduced(Next(s, e))
  {
    if e.Apply? {
      ProducedTail(s.running[e.chan].rest);
    }
  }

  lemma StepUnsentProduced<K, V>(s: State<K, V>, e: Event<K, V>)
    requires RestsProduced(s) && RepliesProduced(s, s.unsent) && Enabled(s, e)
    ensures RepliesProduced(Next(s, e), Next(s, e).unsent)
  {
    if e.Apply? {
      ProducedTail(s.running[e.chan].rest);
    }
  }

  lemma StepHistory<K, V>(s: State<K, V>, e: Event<K, V>)
    requires Enabled(s, e)
    ensures var t := Next(s, e);
            && s.keys <= t.keys && s.produced <= t.produced
            && t.sent == if e.Broadcast? then s.sent[e.chan := s.unsent[e.chan]] else s.sent
  {
    match e
    case Get(k) => GetHistory(s, k);
    case _ =>
  }

  lemma GetHistory<K, V>(s: State<K, V>, k: K)
    ensures var t := NextGet(s, k);
            s.keys <= t.keys && t.produced == s.produced && t.sent == s.sent
  {
    match Answer(Lookup(s.store.cache, k), |s.queue| < QUEUE_CAPACITY, |s.keys|)
    case Kickoff(_) =>
    case _ =>
  }

  lemma StepSentProduced<K, V>(s: State<K, V>, e: Event<K, V>)
    requires RepliesProduced(s, s.unsent) && RepliesProduced(s, s.sent) && Enabled(s, e)
    ensures RepliesProduced(Next(s, e), Next(s, e).sent)
  {
    StepHistory(s, e);
  }

  lemma StepDeliveredProduced<K(!new), V>(s: State<K, V>, e: Event<K, V>)
    requires Tagged(s) && Provenance(s) && Enabled(s, e)
    ensures Next(s, e).delivered <= Next(s, e).produced
  {
    if e.Receive? {
      assert (e.key, e.chan) in s.waiters;
    }
  }

  lemma StepProvenance<K(!new), V>(s: State<K, V>, e: Event<K, V>)
    requires Invariant(s) && Provenance(s) && Enabled(s, e)
    ensures Provenance(Next(s, e))
  {
    StepCacheProduced(s, e);
    StepRestsProduced(s, e);
    StepUnsentProduced(s, e);
    StepSentProduced(s, e);
    StepDeliveredProduced(s, e);
  }

  /** Every value delivered for a key was produced by some generator under that very key. */
  lemma {:induction false} DeliveredWasProduced<K(!new), V>(s: State<K, V>, es: seq<Event<K, V>>)
    requires Invariant(s) && Provenance(s) && Run(s, es)
    ensures After(s, es).delivered <= After(s, es).produced
    ensures Provenance(After(s, es)) && Invariant(After(s, es))
    decreases |es|
  {
    if es != [] {
      StepInvariant(s, es[0]);
      StepProvenance(s, es[0]);
      DeliveredWasProduced(Next(s, es[0]), es[1..]);
    }
  }
}
