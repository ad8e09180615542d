/**
  What callers of `AsyncLru` are answered, read off the list of events alone: a hit gets the cached
  value, and a waiter gets the value that its build's generator returned for the requested key.
 */
module AsyncLruReplies {
  import opened Prelude
  import opened LruOrder
  import opened CacheStore
  import opened AsyncLru

  // Everything the generator of build `c` returned in the events so far.
  ghost function Results<K, V>(past: seq<Event<K, V>>, c: nat): set<(K, Result<V>)> {
    if past == [] then {}
    else
      var last, before := past[|past| - 1], Results(past[..|past| - 1], c);
      if last.Generated? && last.chan == c
      then before + (set i | 0 <= i < |last.values| :: last.values[i]) else before
  }

  ghost function BuiltFor<K, V>(results: set<(K, Result<V>)>, k: K): set<(K, V)> {
    set p | p in results && p.0 == k && p.1.Ok? :: (k, p.1.value)
  }

  ghost function AnswerOf<K, V>(s: State<K, V>, e: Event<K, V>, past: seq<Event<K, V>>): set<(K, V)> {
    match e
    case Get(k) =>
      var found := Lookup(s.store.cache, k);
      if found.Some? && found.value.Ready? then {(k, found.value.value)} else {}
    case Receive(k, c) => BuiltFor(Results(past, c), k)
    case _ => {}
  }

  // The answers of a run that continues the events `past`.
  ghost function Answers<K, V>(s: State<K, V>, es: seq<Event<K, V>>, past: seq<Event<K, V>>): set<(K, V)>
    requires Run(s, es)
    decreases |es|
  {
    if es == [] then {}
    else AnswerOf(s, es[0], past) + Answers(Next(s, es[0]), es[1..], past + [es[0]])
  }

  // ---------------------------------------------------------------- replies follow the generators

  ghost predicate Functional<K, V>(results: set<(K, Result<V>)>) {
    forall p, q :: p in results && q in results && p.0 == q.0 ==> p == q
  }

  // Builds that have not generated have no results, and no build has two results for a key.
  ghost predicate ResultsSettled<K, V>(s: State<K, V>, past: seq<Event<K, V>>) {
    forall c: nat :: Functional(Results(past, c)) && (Results(past, c) != {} ==> HasGenerated(s, c))
  }

  ghost predicate HasGenerated<K, V>(s: State<K, V>, c: nat) {
    c < |s.keys| && c !in s.queue && (c in s.running ==> s.running[c].Applying?)
  }

  ghost predicate RestsGenerated<K, V>(s: State<K, V>, past: seq<Event<K, V>>) {
    forall c: nat, i :: c in s.running && s.running[c].Applying? && 0 <= i < |s.running[c].rest| ==>
      s.running[c].rest[i] in Results(past, c)
  }

  ghost function ReplyPairs<K, V>(k: K, r: Result<V>): set<(K, V)> {
    if r.Ok? then {(k, r.value)} else {}
  }

  ghost predicate RepliesAre<K, V>(s: State<K, V>, past: seq<Event<K, V>>, replies: map<nat, Result<V>>) {
    forall c: nat :: c in replies ==>
      c < |s.keys| && BuiltFor(Results(past, c), s.keys[c]) == ReplyPairs(s.keys[c], replies[c])
  }

  ghost predicate Faithful<K, V>(s: State<K, V>, past: seq<Event<K, V>>) {
    ResultsSettled(s, past) && RestsGenerated(s, past) && RepliesAre(s, past, s.unsent) && RepliesAre(s, past, s.sent)
  }

  lemma ResultsSnoc<K, V>(past: seq<Event<K, V>>, e: Event<K, V>, c: nat)
    ensures Results(past + [e], c) ==
            if e.Generated? && e.chan == c
            then Results(past, c) + (set i | 0 <= i < |e.values| :: e.values[i]) else Results(past, c)
  {
    assert (past + [e])[..|past|] == past;
  }

  lemma GeneratedResults<K, V>(past: seq<Event<K, V>>, e: Event<K, V>)
    requires e.Generated? && DistinctKeys(e.values) && Results(past, e.chan) == {}
    ensures Functional(Results(past + [e], e.chan))
    ensures forall i :: 0 <= i < |e.values| ==> e.values[i] in Results(past + [e], e.chan)
  {
    ResultsSnoc(past, e, e.chan);
  }

  // A build that is about to generate has not generated yet.
  lemma FirstResults<K, V>(s: State<K, V>, past: seq<Event<K, V>>, e: Event<K, V>)
    requires ResultsSettled(s, past) && Enabled(s, e) && e.Generated?
    ensures Results(past, e.chan) == {}
  {
    assert s.running[e.chan].Generating?;
  }

  lemma StepHasGenerated<K, V>(s: State<K, V>, e: Event<K, V>, c: nat)
    requires Enabled(s, e) && HasGenerated(s, c)
    ensures HasGenerated(Next(s, e), c)
  {
    if e.Get? {
      GetPlaces(s, e.key);
    }
  }

  lemma StepSettled<K, V>(s: State<K, V>, past: seq<Event<K, V>>, e: Event<K, V>)
    requires Indexed(s) && ResultsSettled(s, past) && Enabled(s, e)
    ensures ResultsSettled(Next(s, e), past + [e])
  {
    forall c: nat
      ensures Functional(Results(past + [e], c)) && (Results(past + [e], c) != {} ==> HasGenerated(Next(s, e), c))
    {
      ResultsSnoc(past, e, c);
      if e.Generated? && e.chan == c {
        FirstResults(s, past, e);
        GeneratedResults(past, e);
      } else if Results(past, c) != {} {
        StepHasGenerated(s, e, c);
      }
    }
  }

  lemma StepRestsGenerated<K, V>(s: State<K, V>, past: seq<Event<K, V>>, e: Event<K, V>)
    requires ResultsSettled(s, past) && RestsGenerated(s, past) && Enabled(s, e)
    ensures RestsGenerated(Next(s, e), past + [e])
  {
    var t := Next(s, e);
    if e.Get? {
      GetPlaces(s, e.key);
    }
    forall c: nat, i | c in t.running && t.running[c].Applying? && 0 <= i < |t.running[c].rest|
      ensures t.running[c].rest[i] in Results(past + [e], c)
    {
      ResultsSnoc(past, e, c);
      if e.Generated? && e.chan == c {
        FirstResults(s, past, e);
        GeneratedResults(past, e);
      } else if e.Apply? && e.chan == c {
        assert t.running[c].rest[i] == s.running[c].rest[i + 1];
      } else {
        assert s.running[c] == t.running[c];
      }
    }
  }

  lemma OneResult<K, V>(results: set<(K, Result<V>)>, k: K, r: Result<V>)
    requires Functional(results) && (k, r) in results
    ensures BuiltFor(results, k) == ReplyPairs(k, r)
  {
  }

  // The reply that a step makes ready to send, if any.
  lemma StepUnsent<K, V>(s: State<K, V>, e: Event<K, V>, c: nat)
    requires Enabled(s, e) && c in Next(s, e).unsent
    ensures || (c in s.unsent && Next(s, e).unsent[c] == s.unsent[c])
            || (e == DropExpired(c) && Next(s, e).unsent[c] == Err)
            || (e.Apply? && e.chan == c && s.running[c].rest[0] == (s.keys[c], Next(s, e).unsent[c]))
  {
    if e.Get? {
      GetHistory(s, e.key);
      GetUnsent(s, e.key);
    }
  }

  lemma GetUnsent<K, V>(s: State<K, V>, k: K)
    ensures NextGet(s, k).unsent == s.unsent
  {
    match Answer(Lookup(s.store.cache, k), |s.queue| < QUEUE_CAPACITY, |s.keys|)
    case Kickoff(_) =>
    case _ =>
  }

  lemma StepUnsentAre<K(!new), V>(s: State<K, V>, past: seq<Event<K, V>>, e: Event<K, V>)
    requires Invariant(s) && Faithful(s, past) && Enabled(s, e)
    ensures RepliesAre(Next(s, e), past + [e], Next(s, e).unsent)
  {
    var t := Next(s, e);
    StepHistory(s, e);
    forall c: nat | c in t.unsent
      ensures c < |t.keys| && BuiltFor(Results(past + [e], c), t.keys[c]) == ReplyPairs(t.keys[c], t.unsent[c])
    {
      StepUnsent(s, e, c);
      ResultsSnoc(past, e, c);
      if c in s.unsent && t.unsent[c] == s.unsent[c] {
        assert !Unfinished(s, c);
      } else if e == DropExpired(c) {
        assert Results(past, c) == {};
      } else {
        OneResult(Results(past, c), s.keys[c], t.unsent[c]);
      }
    }
  }

  lemma StepSentAre<K(!new), V>(s: State<K, V>, past: seq<Event<K, V>>, e: Event<K, V>)
    requires Invariant(s) && Faithful(s, past) && Enabled(s, e)
    ensures RepliesAre(Next(s, e), past + [e], Next(s, e).sent)
  {
    var t := Next(s, e);
    StepHistory(s, e);
    forall c: nat | c in t.sent
      ensures c < |t.keys| && BuiltFor(Results(past + [e], c), t.keys[c]) == ReplyPairs(t.keys[c], t.sent[c])
    {
      ResultsSnoc(past, e, c);
      assert !Unfinished(s, c);
    }
  }

  lemma StepFaithful<K(!new), V>(s: State<K, V>, past: seq<Event<K, V>>, e: Event<K, V>)
    requires Invariant(s) && Faithful(s, past) && Enabled(s, e)
    ensures Faithful(Next(s, e), past + [e])
  {
    StepSettled(s, past, e);
    StepRestsGenerated(s, past, e);
    StepUnsentAre(s, past, e);
    StepSentAre(s, past, e);
  }

  lemma StepDelivers<K(!new), V>(s: State<K, V>, past: seq<Event<K, V>>, e: Event<K, V>)
    requires Invariant(s) && Faithful(s, past) && Enabled(s, e)
    ensures Next(s, e).delivered == s.delivered + AnswerOf(s, e, past)
  {
    match e
    case Get(k) => GetDelivers(s, k);
    case Receive(k, c) => ReceiveDelivers(s, past, k, c);
    case _ =>
  }

  lemma ReceiveDelivers<K(!new), V>(s: State<K, V>, past: seq<Event<K, V>>, k: K, c: nat)
    requires WaitersTagged(s) && RepliesAre(s, past, s.sent) && Enabled(s, Receive(k, c))
    ensures Next(s, Receive(k, c)).delivered == s.delivered + BuiltFor(Results(past, c), k)
  {
    assert s.keys[c] == k;
  }

  lemma GetDelivers<K, V>(s: State<K, V>, k: K)
    ensures var found := Lookup(s.store.cache, k);
            NextGet(s, k).delivered ==
            s.delivered + if found.Some? && found.value.Ready? then {(k, found.value.value)} else {}
  {
    match Answer(Lookup(s.store.cache, k), |s.queue| < QUEUE_CAPACITY, |s.keys|)
    case Hit(_) =>
    case _ =>
  }

  /**
    Over every run, what callers were handed is exactly the cached value at each hit and, at each
    `recv`, what the generator of that build returned for the requested key.
   */
  lemma {:induction false} DeliveredIsExactly<K(!new), V>(
    s: State<K, V>, past: seq<Event<K, V>>, es: seq<Event<K, V>>)
    requires Invariant(s) && Faithful(s, past) && Run(s, es)
    ensures After(s, es).delivered == s.delivered + Answers(s, es, past)
    decreases |es|
  {
    if es != [] {
      StepInvariant(s, es[0]);
      StepFaithful(s, past, es[0]);
      StepDelivers(s, past, es[0]);
      DeliveredIsExactly(Next(s, es[0]), past + [es[0]], es[1..]);
    }
  }

  lemma InitIsFaithful<K(!new), V>(maxSize: nat, concurrency: nat)
    ensures var s := Init<K, V>(maxSize, concurrency);
            Invariant(s) && Faithful(s, []) && StartDecided(s, [])
  {
  }

  lemma {:induction false} ResultsHold<K, V>(past: seq<Event<K, V>>, i: nat, m: nat)
    requires i < |past| && past[i].Generated? && m < |past[i].values|
    ensures past[i].values[m] in Results(past, past[i].chan)
  {
    var n := |past| - 1;
    assert past == past[..n] + [past[n]];
    ResultsSnoc(past[..n], past[n], past[i].chan);
    if i < n {
      ResultsHold(past[..n], i, m);
    }
  }

  lemma InBuiltFor<K, V>(results: set<(K, Result<V>)>, k: K, v: V)
    requires (k, Ok(v)) in results
    ensures (k, v) in BuiltFor(results, k)
  {
    var p: (K, Result<V>) := (k, Ok(v));
    assert p in results && p.0 == k && p.1.Ok?;
  }

  lemma PastGrows<T>(past: seq<T>, es: seq<T>, j: nat)
    requires 0 < j <= |es|
    ensures past + es[..j] == past + [es[0]] + es[1..][..j - 1]
  {
    assert es[..j] == [es[0]] + es[1..][..j - 1];
  }

  lemma {:induction false} AnswersAtReceive<K, V>(
    s: State<K, V>, past: seq<Event<K, V>>, es: seq<Event<K, V>>, j: nat, k: K, c: nat, v: V)
    requires Run(s, es) && j < |es| && es[j] == Receive(k, c) && (k, Ok(v)) in Results(past + es[..j], c)
    ensures (k, v) in Answers(s, es, past)
    decreases |es|
  {
    if j == 0 {
      assert past + es[..0] == past;
      InBuiltFor(Results(past, c), k, v);
    } else {
      PastGrows(past, es, j);
      AnswersAtReceive(Next(s, es[0]), past + [es[0]], es[1..], j - 1, k, c, v);
    }
  }

  /**
    In every run from a new cache: when build `c` generated `v` for key `k`, a later `recv` of a
    caller that asked for `k` on that channel hands it `v`.
   */
  lemma WaiterGetsTheBuiltValue<K(!new), V>(
    maxSize: nat, concurrency: nat, es: seq<Event<K, V>>, i: nat, m: nat, j: nat, k: K, v: V)
    requires Run(Init<K, V>(maxSize, concurrency), es) && i < j < |es|
    requires es[i].Generated? && m < |es[i].values| && es[i].values[m] == (k, Ok(v))
    requires es[j] == Receive(k, es[i].chan)
    ensures (k, v) in After(Init<K, V>(maxSize, concurrency), es).delivered
  {
    var s := Init<K, V>(maxSize, concurrency);
    var none: seq<Event<K, V>> := [];
    InitIsFaithful<K, V>(maxSize, concurrency);
    DeliveredIsExactly(s, none, es);
    ResultsHold(es[..j], i, m);
    assert none + es[..j] == es[..j];
    AnswersAtReceive(s, none, es, j, k, es[i].chan, v);
  }

  lemma JoinPast<T>(past: seq<T>, es: seq<T>)
    requires es != []
    ensures past + [es[0]] + es[1..] == past + es
  {
  }

  // Event `y` is one that a build taken up by `x` may make.
  predicate Agrees<K, V>(x: Event<K, V>, y: Event<K, V>) {
    x.Start? ==>
      && (x.expired ==> !(y.Generated? && y.chan == x.chan))
      && (!x.expired ==> !(y.DropExpired? && y.chan == x.chan))
  }

  // A build taken up is neither queued nor in the phase of the other kind.
  ghost predicate OnTrack<K, V>(s: State<K, V>, x: Event<K, V>) {
    x.Start? ==>
      && x.chan < |s.keys| && x.chan !in s.queue
      && (x.chan in s.running ==>
            if x.expired then !s.running[x.chan].Generating? else !s.running[x.chan].Expired?)
  }

  // Only builds that were taken up generate or drop.
  ghost predicate WasTaken<K, V>(s: State<K, V>, y: Event<K, V>) {
    y.Generated? || y.DropExpired? ==> y.chan < |s.keys| && y.chan !in s.queue
  }

  ghost predicate StartDecided<K, V>(s: State<K, V>, past: seq<Event<K, V>>) {
    && (forall i :: 0 <= i < |past| ==> OnTrack(s, past[i]) && WasTaken(s, past[i]))
    && (forall i, j :: 0 <= i < |past| && 0 <= j < |past| ==> Agrees(past[i], past[j]))
  }

  lemma StepOnTrack<K, V>(s: State<K, V>, e: Event<K, V>, x: Event<K, V>)
    requires Enabled(s, e) && OnTrack(s, x) && WasTaken(s, x)
    ensures OnTrack(Next(s, e), x) && WasTaken(Next(s, e), x)
  {
    if e.Get? {
      GetPlaces(s, e.key);
    }
  }

  lemma OwnOnTrack<K, V>(s: State<K, V>, e: Event<K, V>)
    requires Indexed(s) && Enabled(s, e)
    ensures OnTrack(Next(s, e), e) && WasTaken(Next(s, e), e)
  {
  }

  lemma StepAgrees<K, V>(s: State<K, V>, e: Event<K, V>, x: Event<K, V>)
    requires Indexed(s) && Enabled(s, e) && OnTrack(s, x) && WasTaken(s, x)
    ensures Agrees(x, e) && Agrees(e, x) && Agrees(e, e)
  {
  }

  lemma StepDecided<K, V>(s: State<K, V>, past: seq<Event<K, V>>, e: Event<K, V>)
    requires Indexed(s) && StartDecided(s, past) && Enabled(s, e)
    ensures StartDecided(Next(s, e), past + [e])
  {
    var now := past + [e];
    forall i | 0 <= i < |now| ensures OnTrack(Next(s, e), now[i]) && WasTaken(Next(s, e), now[i]) {
      if i < |past| {
        StepOnTrack(s, e, past[i]);
      } else {
        OwnOnTrack(s, e);
      }
    }
    forall i, j | 0 <= i < |now| && 0 <= j < |now| ensures Agrees(now[i], now[j]) {
      if i < |past| {
        StepAgrees(s, e, past[i]);
      }
      if j < |past| {
        StepAgrees(s, e, past[j]);
      }
    }
  }

  /** Over every run: a request taken up as expired never runs its generator, and one that is not never drops its entry. */
  lemma {:induction false} StartDecides<K, V>(s: State<K, V>, past: seq<Event<K, V>>, es: seq<Event<K, V>>, i: nat, j: nat)
    requires Indexed(s) && StartDecided(s, past) && Run(s, es)
    requires i < |past + es| && j < |past + es|
    ensures Agrees((past + es)[i], (past + es)[j])
    decreases |es|
  {
    if es == [] {
      assert past + es == past;
    } else {
      StepIndexed(s, es[0]);
      StepDecided(s, past, es[0]);
      JoinPast(past, es);
      StartDecides(Next(s, es[0]), past + [es[0]], es[1..], i, j);
    }
  }

  /**
    The four outcomes of a request. A hit or a join changes only the recency order and what the
    caller got; a miss makes a new channel and its Waiting entry, unless 200 requests are queued,
    when nothing changes.
   */
  lemma GetOutcome<K, V>(s: State<K, V>, k: K, j: K)
    requires Accounted(s)
    ensures var t, found, n := NextGet(s, k), Lookup(s.store.cache, k), |s.keys|;
            var reordered := s.(store := s.store.(cache := t.store.cache));
            if found.None? && |s.queue| >= 200 then t == s
            else if found.None? then
              && t == reordered.(keys := s.keys + [k], queue := s.queue + {n}, waiters := s.waiters + {(k, n)})
              && Lookup(t.store.cache, j) == if j == k then Some(Waiting(n)) else Lookup(s.store.cache, j)
            else
              && Lookup(t.store.cache, j) == Lookup(s.store.cache, j)
              && t == if found.value.Ready? then reordered.(delivered := s.delivered + {(k, found.value.value)})
                      else reordered.(waiters := s.waiters + {(k, found.value.chan)})
  {
    RequestKeepsLookups(s.store.cache, k, |s.queue| < QUEUE_CAPACITY, |s.keys|, j);
  }

  // ---------------------------------------------------------------- progress

  predicate OwnStep<K, V>(e: Event<K, V>, c: nat) {
    match e
    case Start(d, _) => c == d
    case DropExpired(d) => c == d
    case Generated(d, _) => c == d
    case Apply(d, _) => c == d
    case Broadcast(d) => c == d
    case Finish(d) => c == d
    case _ => false
  }

  /** No running build ever waits for another, and with none running a queued one can start. */
  lemma NoDeadlock<K(!new), V>(s: State<K, V>, c: nat) returns (e: Event<K, V>)
    requires Invariant(s) && !s.crashed && (c in s.running || (c in s.queue && s.running == map[]))
    ensures OwnStep(e, c) && Enabled(s, e)
  {
    if c in s.queue {
      e := Start(c, false);
    } else {
      match s.running[c]
      case Expired => e := DropExpired(c);
      case Generating => e := Generated(c, []);
      case Applying(rest) =>
        e := if c in s.unsent then Broadcast(c) else if rest != [] then Apply(c, 0) else Finish(c);
    }
  }

  // A build that has its results writes them until it has replied.
  lemma {:induction false} ApplyingReplies<K(!new), V>(s: State<K, V>, c: nat, size: nat) returns (es: seq<Event<K, V>>)
    requires Invariant(s) && !s.crashed && c in s.running && s.running[c].Applying?
    requires Mentions(s.running[c].rest, s.keys[c])
    ensures Run(s, es) && (forall e :: e in es ==> OwnStep(e, c))
    ensures c in After(s, es).sent && After(s, es).waiters == s.waiters && !After(s, es).crashed
    decreases |s.running[c].rest|
  {
    assert Unfinished(s, c);
    var e := Apply(c, size);
    var t := Next(s, e);
    StepInvariant(s, e);
    StepAccounted(s, e);
    if s.running[c].rest[0].0 == s.keys[c] {
      var u := Next(t, Broadcast(c));
      es := [e, Broadcast(c)];
      assert es[1..] == [Broadcast(c)] && es[1..][1..] == [];
      assert After(u, []) == u && After(t, [Broadcast(c)]) == After(u, es[1..][1..]);
    } else {
      MentionsTail(s.running[c].rest, s.keys[c]);
      var rest := ApplyingReplies(t, c, size);
      es := [e] + rest;
      assert es[1..] == rest;
    }
  }

  /**
    Whatever the state, a running build's own steps alone lead to a reply to its callers, for every
    map its generator may return that has the requested key, whatever else is in it.
   */
  lemma BuildReplies<K(!new), V>(s: State<K, V>, c: nat, values: seq<(K, Result<V>)>, size: nat)
    returns (es: seq<Event<K, V>>)
    requires Invariant(s) && !s.crashed && c in s.running && s.running[c].Generating?
    requires DistinctKeys(values) && Mentions(values, s.keys[c])
    ensures Run(s, es) && (forall e :: e in es ==> OwnStep(e, c))
    ensures c in After(s, es).sent && !After(s, es).crashed
    ensures forall k :: (k, c) in s.waiters ==> Enabled(After(s, es), Receive(k, c))
  {
    var e := Generated(c, values);
    Generates(s, c, values);
    var rest := ApplyingReplies(Next(s, e), c, size);
    es := [e] + rest;
    assert es[1..] == rest;
  }

  lemma Generates<K(!new), V>(s: State<K, V>, c: nat, values: seq<(K, Result<V>)>)
    requires Invariant(s) && !s.crashed && c in s.running && s.running[c].Generating? && DistinctKeys(values)
    ensures Enabled(s, Generated(c, values))
    ensures var t := Next(s, Generated(c, values));
            && Invariant(t) && !t.crashed && t.waiters == s.waiters && t.keys == s.keys
            && c in t.running && t.running[c] == Applying(values)
  {
    StepInvariant(s, Generated(c, values));
  }
}
