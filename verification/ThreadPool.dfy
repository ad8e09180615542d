/**
  `BoundedThreadPool`: a dispatcher and its workers as an interleaving transition system over
  the real request queue. Requests are numbered; jobs return and threads do not die.
 */
module ThreadPool {
  import opened Prelude
  import Q = CoDelQueue

  datatype Activity = Waiting | Executing(req: nat) | Reporting

  // `inbox` is the worker's capacity-1 channel.
  datatype Worker = Worker(inbox: seq<nat>, activity: Activity)

  datatype Dispatcher =
    | Draining
    | Picking
    | Blocked
    | Reserved(worker: nat)
    | Sending(worker: nat, req: nat)
    | Stopped

  // `executed`, `expired` and `lost` are history; `lost` collects requests dropped by a failed hand-over.
  datatype State = State(
    maxThreads: nat,
    chan: Q.Channel<nat>,
    workers: seq<Worker>,
    available: seq<nat>,
    done: seq<nat>,
    dispatcher: Dispatcher,
    executed: seq<nat>,
    expired: seq<nat>,
    lost: seq<nat>)

  datatype Event =
    | Client(op: Q.Op<nat>)
    | DrainOne
    | DrainEnd
    | Pick
    | Unblock
    | Dequeue(pop: Q.PopReads)
    | HandOver
    | Take(index: nat)
    | Execute(index: nat)
    | Report(index: nat)

  const IDLE_WORKER := Worker([], Waiting)

  function Init(maxThreads: nat, cfg: Q.Config, now: int): State {
    State(maxThreads, Q.NewChannel(cfg, now), [], [], [], Draining, [], [], [])
  }

  predicate Enabled(s: State, e: Event) {
    match e
    case Client(op) => !op.Poll? && Q.CanDo(s.chan, op) && (op.TrySend? ==> op.item !in s.chan.sys.accepted)
    case DrainOne => s.dispatcher.Draining? && s.done != []
    case DrainEnd => s.dispatcher.Draining? && s.done == []
    case Pick => s.dispatcher.Picking?
    case Unblock => s.dispatcher.Blocked? && s.done != []
    case Dequeue(r) =>
      && s.dispatcher.Reserved? && Q.CanDo(s.chan, Q.Poll(r))
      && !Q.PollAnswer(s.chan, r).Pending?
    case HandOver => s.dispatcher.Sending? && s.dispatcher.worker < |s.workers|
    case Take(i) => i < |s.workers| && s.workers[i].activity.Waiting? && s.workers[i].inbox != []
    case Execute(i) => i < |s.workers| && s.workers[i].activity.Executing?
    case Report(i) => i < |s.workers| && s.workers[i].activity.Reporting?
  }

  function NextPick(s: State): State {
    var n := |s.available|;
    if n > 0 then s.(available := s.available[..n - 1], dispatcher := Reserved(s.available[n - 1]))
    else if |s.workers| < s.maxThreads then
      s.(workers := s.workers + [IDLE_WORKER], dispatcher := Reserved(|s.workers|))
    else s.(dispatcher := Blocked)
  }

  function NextDequeue(s: State, r: Q.PopReads): State
    requires s.dispatcher.Reserved?
  {
    var t := s.(chan := Q.Do(s.chan, Q.Poll(r)));
    match Q.PollAnswer(s.chan, r)
    case Ready(p) =>
      if p.expired then t.(expired := s.expired + [p.entry.item])
      else t.(dispatcher := Sending(s.dispatcher.worker, p.entry.item))
    case End => t.(dispatcher := Stopped)
    case Pending => t
  }

  function NextHandOver(s: State): State
    requires s.dispatcher.Sending? && s.dispatcher.worker < |s.workers|
  {
    var w, req := s.dispatcher.worker, s.dispatcher.req;
    if s.workers[w].inbox == [] then
      s.(workers := s.workers[w := s.workers[w].(inbox := [req])], dispatcher := Draining)
    else s.(dispatcher := Stopped, lost := s.lost + [req])
  }

  function Next(s: State, e: Event): State
    requires Enabled(s, e)
  {
    match e
    case Client(op) => s.(chan := Q.Do(s.chan, op))
    case DrainOne => s.(available := s.available + [s.done[0]], done := s.done[1..])
    case DrainEnd => s.(dispatcher := Picking)
    case Pick => NextPick(s)
    case Unblock => s.(done := s.done[1..], dispatcher := Reserved(s.done[0]))
    case Dequeue(r) => NextDequeue(s, r)
    case HandOver => NextHandOver(s)
    case Take(i) =>
      var w := s.workers[i];
      s.(workers := s.workers[i := Worker(w.inbox[1..], Executing(w.inbox[0]))])
    case Execute(i) =>
      var w := s.workers[i];
      s.(workers := s.workers[i := w.(activity := Reporting)], executed := s.executed + [w.activity.req])
    case Report(i) =>
      // The done channel holds `maxThreads` indices; a send to a full or closed channel is ignored.
      s.(workers := s.workers[i := s.workers[i].(activity := Waiting)],
      done := if |s.done| < s.maxThreads && !s.dispatcher.Stopped? then s.done + [i] else s.done)
  }

  ghost predicate Run(s: State, es: seq<Event>)
    decreases |es|
  {
    es == [] || (Enabled(s, es[0]) && Run(Next(s, es[0]), es[1..]))
  }

  ghost function After(s: State, es: seq<Event>): State
    requires Run(s, es)
    decreases |es|
  {
    if es == [] then s else After(Next(s, es[0]), es[1..])
  }

  // ---------------------------------------------------------------- worker partition

  predicate Busy(w: Worker) {
    w.inbox != [] || !w.activity.Waiting?
  }

  predicate Holds(d: Dispatcher, i: nat) {
    (d.Reserved? || d.Sending?) && d.worker == i
  }

  ghost function Count(xs: seq<nat>, x: nat): nat {
    multiset(xs)[x]
  }

  ghost function Places(s: State, i: nat): nat
    requires i < |s.workers|
  {
    Count(s.available, i) + Count(s.done, i)
    + (if Holds(s.dispatcher, i) then 1 else 0) + (if Busy(s.workers[i]) then 1 else 0)
  }

  ghost predicate InRange(s: State) {
    && (forall k :: 0 <= k < |s.available| ==> s.available[k] < |s.workers|)
    && (forall k :: 0 <= k < |s.done| ==> s.done[k] < |s.workers|)
    && (s.dispatcher.Reserved? || s.dispatcher.Sending? ==> s.dispatcher.worker < |s.workers|)
  }

  ghost predicate WorkersSane(s: State) {
    forall i :: 0 <= i < |s.workers| ==>
      |s.workers[i].inbox| <= 1 && (s.workers[i].inbox != [] ==> s.workers[i].activity.Waiting?)
  }

  /** Every worker is available, reserved, busy or reported: exactly one of them. */
  ghost predicate Partitioned(s: State) {
    && |s.workers| <= s.maxThreads
    && InRange(s)
    && WorkersSane(s)
    && (s.dispatcher.Blocked? ==> |s.workers| == s.maxThreads && s.available == [])
    && (!s.dispatcher.Stopped? ==> forall i :: 0 <= i < |s.workers| ==> Places(s, i) == 1)
  }

  lemma {:induction false} SetBelow(xs: set<nat>, n: nat)
    requires forall x :: x in xs ==> x < n
    ensures |xs| <= n
  {
    if n > 0 {
      SetBelow(xs - {n - 1}, n - 1);
    } else {
      assert xs == {};
    }
  }

  lemma {:induction false} DistinctBelow(xs: seq<nat>, n: nat) returns (elems: set<nat>)
    requires forall k :: 0 <= k < |xs| ==> xs[k] < n && Count(xs, xs[k]) == 1
    ensures |elems| == |xs| && forall x :: x in elems <==> x in xs
  {
    elems := {};
    var m := 0;
    while m < |xs|
      invariant 0 <= m <= |xs| && |elems| == m
      invariant forall x :: x in elems <==> x in xs[..m]
    {
      assert Count(xs, xs[m]) == 1;
      assert xs == xs[..m] + [xs[m]] + xs[m + 1..];
      assert multiset(xs) == multiset(xs[..m]) + multiset{xs[m]} + multiset(xs[m + 1..]);
      assert xs[m] !in multiset(xs[..m]);
      assert xs[..m + 1] == xs[..m] + [xs[m]];
      elems := elems + {xs[m]};
      m := m + 1;
    }
    assert xs[..m] == xs;
  }

  /** A worker that reports finds room in the done channel. */
  lemma DoneHasRoom(s: State, i: nat)
    requires Partitioned(s) && !s.dispatcher.Stopped? && i < |s.workers| && Busy(s.workers[i])
    ensures |s.done| < s.maxThreads
  {
    assert Places(s, i) == 1;
    forall k | 0 <= k < |s.done| ensures Count(s.done, s.done[k]) == 1 {
      assert Places(s, s.done[k]) == 1;
      assert s.done[k] in multiset(s.done);
    }
    var elems := DistinctBelow(s.done, |s.workers|);
    assert i !in multiset(s.done);
    assert i !in elems;
    SetBelow(elems + {i}, |s.workers|);
  }

  /** The reserved worker's channel is empty, so the hand-over cannot fail. */
  lemma ReservedIsFree(s: State, i: nat)
    requires Partitioned(s) && Holds(s.dispatcher, i)
    ensures i < |s.workers| && !Busy(s.workers[i])
  {
    assert Places(s, i) == 1;
  }

  lemma TakeFirst(xs: seq<nat>)
    requires xs != []
    ensures multiset(xs) == multiset(xs[1..]) + multiset{xs[0]}
  {
    assert xs == [xs[0]] + xs[1..];
  }

  lemma TakeLast(xs: seq<nat>)
    requires xs != []
    ensures multiset(xs) == multiset(xs[..|xs| - 1]) + multiset{xs[|xs| - 1]}
  {
    assert xs == xs[..|xs| - 1] + [xs[|xs| - 1]];
  }

  lemma DrainPartitioned(s: State, e: Event)
    requires Partitioned(s) && Enabled(s, e) && (e.DrainOne? || e.DrainEnd? || e.Unblock?)
    ensures Partitioned(Next(s, e))
  {
    var t := Next(s, e);
    if !e.DrainEnd? {
      TakeFirst(s.done);
      assert multiset(s.available + [s.done[0]]) == multiset(s.available) + multiset{s.done[0]};
    }
    forall i | 0 <= i < |t.workers| ensures Places(t, i) == 1 {
      assert Places(s, i) == 1;
    }
  }

  lemma PickPartitioned(s: State)
    requires Partitioned(s) && Enabled(s, Pick)
    ensures Partitioned(Next(s, Pick))
  {
    var t := Next(s, Pick);
    if s.available != [] {
      TakeLast(s.available);
    }
    forall i | 0 <= i < |t.workers| ensures Places(t, i) == 1 {
      if i < |s.workers| {
        assert Places(s, i) == 1;
      } else {
        assert i !in s.done;
        assert i !in multiset(s.done);
      }
    }
  }

  lemma DequeuePartitioned(s: State, r: Q.PopReads)
    requires Partitioned(s) && Enabled(s, Dequeue(r))
    ensures Partitioned(Next(s, Dequeue(r)))
  {
    var t := Next(s, Dequeue(r));
    forall i | 0 <= i < |t.workers| && !t.dispatcher.Stopped? ensures Places(t, i) == 1 {
      assert Places(s, i) == 1;
    }
  }

  lemma HandOverPartitioned(s: State)
    requires Partitioned(s) && Enabled(s, HandOver)
    ensures Partitioned(Next(s, HandOver))
    ensures Next(s, HandOver).dispatcher.Draining? && Next(s, HandOver).lost == s.lost
  {
    ReservedIsFree(s, s.dispatcher.worker);
    var t := Next(s, HandOver);
    forall i | 0 <= i < |t.workers| ensures Places(t, i) == 1 {
      assert Places(s, i) == 1;
    }
  }

  lemma WorkerStepPartitioned(s: State, e: Event)
    requires Partitioned(s) && Enabled(s, e) && (e.Take? || e.Execute? || e.Report?)
    ensures Partitioned(Next(s, e))
  {
    var t := Next(s, e);
    if e.Report? && !s.dispatcher.Stopped? {
      DoneHasRoom(s, e.index);
    }
    forall i | 0 <= i < |t.workers| && !t.dispatcher.Stopped? ensures Places(t, i) == 1 {
      assert Places(s, i) == 1;
    }
  }

  lemma StepPartitioned(s: State, e: Event)
    requires Partitioned(s) && Enabled(s, e)
    ensures Partitioned(Next(s, e))
  {
    match e
    case Client(_) =>
      forall i | 0 <= i < |s.workers| && !s.dispatcher.Stopped? ensures Places(Next(s, e), i) == 1 {
        assert Places(s, i) == 1;
      }
    case HandOver => HandOverPartitioned(s);
    case Take(_) => WorkerStepPartitioned(s, e);
    case Execute(_) => WorkerStepPartitioned(s, e);
    case Report(_) => WorkerStepPartitioned(s, e);
    case Pick => PickPartitioned(s);
    case Dequeue(r) => DequeuePartitioned(s, r);
    case _ => DrainPartitioned(s, e);
  }

  // ---------------------------------------------------------------- requests

  ghost function InWorker(w: Worker, r: nat): nat {
    Count(w.inbox, r) + if w.activity.Executing? && w.activity.req == r then 1 else 0
  }

  ghost function InWorkers(ws: seq<Worker>, r: nat): nat {
    if ws == [] then 0 else InWorker(ws[0], r) + InWorkers(ws[1..], r)
  }

  function InDispatcher(d: Dispatcher, r: nat): nat {
    if d.Sending? && d.req == r then 1 else 0
  }

  lemma CountAppend(xs: seq<nat>, y: nat, x: nat)
    ensures Count(xs + [y], x) == Count(xs, x) + if x == y then 1 else 0
  {
    assert multiset(xs + [y]) == multiset(xs) + multiset{y};
  }

  lemma {:induction false} InWorkersUpdate(ws: seq<Worker>, i: nat, w: Worker, r: nat)
    requires i < |ws|
    ensures InWorkers(ws[i := w], r) + InWorker(ws[i], r) == InWorkers(ws, r) + InWorker(w, r)
  {
    if i == 0 {
      assert ws[0 := w][1..] == ws[1..];
    } else {
      InWorkersUpdate(ws[1..], i - 1, w, r);
      assert ws[i := w][1..] == ws[1..][i - 1 := w];
    }
  }

  lemma {:induction false} InWorkersAppend(ws: seq<Worker>, w: Worker, r: nat)
    ensures InWorkers(ws + [w], r) == InWorkers(ws, r) + InWorker(w, r)
  {
    if ws == [] {
      assert ws + [w] == [w];
    } else {
      InWorkersAppend(ws[1..], w, r);
      assert (ws + [w])[1..] == ws[1..] + [w];
    }
  }

  // What the dispatcher took off the queue is being sent, in a worker, executed, expired or lost.
  ghost predicate TrackedAt(s: State, r: nat) {
    Count(Q.ReturnedItems(s.chan.sys.returned), r)
    == InDispatcher(s.dispatcher, r) + InWorkers(s.workers, r)
       + Count(s.executed, r) + Count(s.expired, r) + Count(s.lost, r)
  }

  ghost predicate Tracked(s: State) {
    forall r: nat :: TrackedAt(s, r)
  }

  // The requests the queue handed out as expired, in order.
  function Flagged(ps: seq<Q.Popped<nat>>): seq<nat> {
    if ps == [] then []
    else
      var last, before := ps[|ps| - 1], Flagged(ps[..|ps| - 1]);
      if last.expired then before + [last.entry.item] else before
  }

  ghost predicate FreshRequests(s: State) {
    forall r: nat :: Count(s.chan.sys.accepted, r) <= 1
  }

  ghost predicate Sound(s: State) {
    && Partitioned(s) && Q.Open(s.chan) && FreshRequests(s) && Tracked(s)
    && s.expired == Flagged(s.chan.sys.returned)
    && s.lost == []
    && (s.dispatcher.Stopped? <==> s.chan.ended)
  }

  lemma ClientFresh(s: State, op: Q.Op<nat>)
    requires FreshRequests(s) && Enabled(s, Client(op))
    ensures FreshRequests(Next(s, Client(op)))
  {
    var acc := s.chan.sys.accepted;
    if op.TrySend? {
      forall r: nat ensures Count(acc + [op.item], r) <= 1 {
        CountAppend(acc, op.item, r);
        assert Count(acc, r) <= 1;
        assert op.item !in multiset(acc);
      }
    }
  }

  lemma PollReturns(c: Q.Channel<nat>, times: Q.PopReads, r: nat)
    ensures var returned := Q.ReturnedItems(Q.Do(c, Q.Poll(times)).sys.returned);
            match Q.PollAnswer(c, times)
            case Ready(p) => Count(returned, r) == Count(Q.ReturnedItems(c.sys.returned), r)
                                                   + if p.entry.item == r then 1 else 0
            case _ => returned == Q.ReturnedItems(c.sys.returned)
  {
    if c.sys.q.buffer != [] {
      var p := Q.Pop(c.sys.q, times).1.value;
      Q.ReturnedAppend(c.sys.returned, p);
      CountAppend(Q.ReturnedItems(c.sys.returned), p.entry.item, r);
    }
  }

  lemma DequeueTracked(s: State, times: Q.PopReads, r: nat)
    requires TrackedAt(s, r) && Enabled(s, Dequeue(times))
    ensures TrackedAt(Next(s, Dequeue(times)), r)
  {
    PollReturns(s.chan, times, r);
    match Q.PollAnswer(s.chan, times)
    case Ready(p) => CountAppend(s.expired, p.entry.item, r);
    case _ =>
  }

  lemma HandOverTracked(s: State, r: nat)
    requires TrackedAt(s, r) && Enabled(s, HandOver) && s.workers[s.dispatcher.worker].inbox == []
    ensures TrackedAt(Next(s, HandOver), r)
  {
    var w := s.dispatcher.worker;
    InWorkersUpdate(s.workers, w, Next(s, HandOver).workers[w], r);
    assert multiset([s.dispatcher.req]) == multiset{s.dispatcher.req};
  }

  lemma TakeTracked(s: State, i: nat, r: nat)
    requires TrackedAt(s, r) && Enabled(s, Take(i))
    ensures TrackedAt(Next(s, Take(i)), r)
  {
    InWorkersUpdate(s.workers, i, Next(s, Take(i)).workers[i], r);
    TakeFirst(s.workers[i].inbox);
  }

  lemma ExecuteTracked(s: State, i: nat, r: nat)
    requires TrackedAt(s, r) && Enabled(s, Execute(i))
    ensures TrackedAt(Next(s, Execute(i)), r)
  {
    InWorkersUpdate(s.workers, i, Next(s, Execute(i)).workers[i], r);
    CountAppend(s.executed, s.workers[i].activity.req, r);
  }

  lemma ReportTracked(s: State, i: nat, r: nat)
    requires TrackedAt(s, r) && Enabled(s, Report(i))
    ensures TrackedAt(Next(s, Report(i)), r)
  {
    InWorkersUpdate(s.workers, i, Next(s, Report(i)).workers[i], r);
  }

  lemma StepTrackedAt(s: State, e: Event, r: nat)
    requires Partitioned(s) && TrackedAt(s, r) && Enabled(s, e)
    ensures TrackedAt(Next(s, e), r)
  {
    match e
    case Dequeue(times) => DequeueTracked(s, times, r);
    case HandOver =>
      ReservedIsFree(s, s.dispatcher.worker);
      HandOverTracked(s, r);
    case Pick => InWorkersAppend(s.workers, IDLE_WORKER, r);
    case Take(i) => TakeTracked(s, i, r);
    case Execute(i) => ExecuteTracked(s, i, r);
    case Report(i) => ReportTracked(s, i, r);
    case _ =>
  }

  lemma StepTracked(s: State, e: Event)
    requires Sound(s) && Enabled(s, e)
    ensures Tracked(Next(s, e))
  {
    forall r: nat ensures TrackedAt(Next(s, e), r) {
      assert TrackedAt(s, r);
      StepTrackedAt(s, e, r);
    }
  }

  lemma StepChannel(s: State, e: Event)
    requires Partitioned(s) && Q.Open(s.chan) && FreshRequests(s) && Enabled(s, e)
    ensures Q.Open(Next(s, e).chan) && FreshRequests(Next(s, e))
  {
    match e
    case Client(op) =>
      Q.StepOpen(s.chan, op);
      ClientFresh(s, op);
    case Dequeue(r) =>
      Q.StepOpen(s.chan, Q.Poll(r));
      assert Next(s, e).chan.sys.accepted == s.chan.sys.accepted;
    case _ => assert Next(s, e).chan == s.chan;
  }

  lemma StepStop(s: State, e: Event)
    requires Partitioned(s) && Enabled(s, e) && s.lost == [] && (s.dispatcher.Stopped? <==> s.chan.ended)
    ensures Next(s, e).lost == [] && (Next(s, e).dispatcher.Stopped? <==> Next(s, e).chan.ended)
  {
    if e.HandOver? {
      HandOverPartitioned(s);
    }
  }

  lemma StepFlagged(s: State, e: Event)
    requires s.expired == Flagged(s.chan.sys.returned) && Enabled(s, e)
    ensures Next(s, e).expired == Flagged(Next(s, e).chan.sys.returned)
  {
    if e.Dequeue? && s.chan.sys.q.buffer != [] {
      var ps, p := s.chan.sys.returned, Q.Pop(s.chan.sys.q, e.pop).1.value;
      assert (ps + [p])[..|ps|] == ps;
    }
  }

  lemma StepSound(s: State, e: Event)
    requires Sound(s) && Enabled(s, e)
    ensures Sound(Next(s, e))
  {
    StepPartitioned(s, e);
    StepTracked(s, e);
    StepChannel(s, e);
    StepFlagged(s, e);
    StepStop(s, e);
  }

  lemma InitIsSound(maxThreads: nat, cfg: Q.Config, now: int)
    ensures Sound(Init(maxThreads, cfg, now))
    ensures var s := Init(maxThreads, cfg, now);
            s.maxThreads == maxThreads && s.workers == [] && s.chan == Q.NewChannel(cfg, now)
  {
    var s := Init(maxThreads, cfg, now);
    assert Q.Items(s.chan.sys.q.buffer) == [] && Q.ReturnedItems(s.chan.sys.returned) == [];
  }

  /** In every reachable state each worker is in exactly one place, and no hand-over ever failed. */
  lemma {:induction false} RunSound(s: State, es: seq<Event>)
    requires Sound(s) && Run(s, es)
    ensures Partitioned(After(s, es)) && After(s, es).lost == []
    ensures Sound(After(s, es))
    decreases |es|
  {
    if es != [] {
      StepSound(s, es[0]);
      RunSound(Next(s, es[0]), es[1..]);
    }
  }

  ghost function Stages(s: State, r: nat): nat {
    Count(Q.Items(s.chan.sys.q.buffer), r) + InDispatcher(s.dispatcher, r) + InWorkers(s.workers, r)
    + Count(s.executed, r) + Count(s.expired, r)
  }

  /**
    Over any run, every accepted request is in exactly one stage: queued, being handed over,
    in a worker, executed or expired; so it is never both executed and expired, nor either twice.
   */
  lemma EveryRequestOnce(s: State, es: seq<Event>, r: nat)
    requires Sound(s) && Run(s, es)
    ensures r in After(s, es).chan.sys.accepted ==> Stages(After(s, es), r) == 1
    ensures r !in After(s, es).chan.sys.accepted ==> Stages(After(s, es), r) == 0
  {
    RunSound(s, es);
    var t := After(s, es);
    var acc := t.chan.sys.accepted;
    assert Count(acc, r) <= 1;
    assert r in acc <==> r in multiset(acc);
    assert TrackedAt(t, r);
    assert Count(acc, r) == Count(Q.ReturnedItems(t.chan.sys.returned), r) + Count(Q.Items(t.chan.sys.q.buffer), r);
  }

  /** Over any run, exactly the requests that the queue flagged are expired, in that order. */
  lemma ExpiredAreTheFlagged(s: State, es: seq<Event>)
    requires Sound(s) && Run(s, es)
    ensures After(s, es).expired == Flagged(After(s, es).chan.sys.returned)
  {
    RunSound(s, es);
  }

  /** The dispatcher stops iff a poll answered the end, and then no request is left in the queue. */
  lemma StopLeavesNothingQueued(s: State, es: seq<Event>)
    requires Sound(s) && Run(s, es)
    ensures After(s, es).dispatcher.Stopped? <==> After(s, es).chan.ended
    ensures After(s, es).dispatcher.Stopped? ==>
              After(s, es).chan.sys.q.buffer == [] && After(s, es).chan.handles == {}
  {
    RunSound(s, es);
  }

  // What the clients and the dispatcher do to the queue.
  function ChannelOps(es: seq<Event>): seq<Q.Op<nat>> {
    if es == [] then []
    else
      (match es[0]
       case Client(op) => [op]
       case Dequeue(r) => [Q.Poll(r)]
       case _ => [])
      + ChannelOps(es[1..])
  }

  /** The pool's queue is the channel of those operations, so what is proved of every channel run holds of it. */
  lemma {:induction false} QueueIsAChannel(s: State, es: seq<Event>)
    requires Run(s, es)
    ensures Q.ChannelRun(s.chan, ChannelOps(es)) && After(s, es).chan == Q.AfterOps(s.chan, ChannelOps(es))
    decreases |es|
  {
    if es != [] {
      QueueIsAChannel(Next(s, es[0]), es[1..]);
      var rest := ChannelOps(es[1..]);
      match es[0]
      case Client(op) => assert ([op] + rest)[1..] == rest;
      case Dequeue(r) =>
        assert ([Q.Poll(r)] + rest)[1..] == rest;
        assert Next(s, es[0]).chan == Q.Do(s.chan, Q.Poll(r));
      case _ => assert [] + rest == rest;
    }
  }

  function Reported(s: State, e: Event): seq<nat> {
    if e.Report? && !s.dispatcher.Stopped? then [e.index] else []
  }

  // The worker that the dispatcher makes available or reserves off the in-progress channel.
  function Collected(t: State, e: Event): seq<nat> {
    if e.DrainOne? && t.available != [] then [t.available[|t.available| - 1]]
    else if e.Unblock? && t.dispatcher.Reserved? then [t.dispatcher.worker]
    else []
  }

  ghost function AllReported(s: State, es: seq<Event>): seq<nat>
    requires Run(s, es)
    decreases |es|
  {
    if es == [] then [] else Reported(s, es[0]) + AllReported(Next(s, es[0]), es[1..])
  }

  ghost function AllCollected(s: State, es: seq<Event>): seq<nat>
    requires Run(s, es)
    decreases |es|
  {
    if es == [] then [] else Collected(Next(s, es[0]), es[0]) + AllCollected(Next(s, es[0]), es[1..])
  }

  lemma StepReports(s: State, e: Event)
    requires Partitioned(s) && Enabled(s, e)
    ensures s.done + Reported(s, e) == Collected(Next(s, e), e) + Next(s, e).done
  {
    if e.Report? && !s.dispatcher.Stopped? {
      DoneHasRoom(s, e.index);
    }
  }

  lemma Regroup<T>(a: seq<T>, b: seq<T>, c: seq<T>, d: seq<T>, x: seq<T>, y: seq<T>, z: seq<T>)
    requires a + b == c + d && d + x == y + z
    ensures a + (b + x) == (c + y) + z
  {
    assert a + (b + x) == (a + b) + x;
    assert (c + d) + x == c + (d + x);
    assert c + (y + z) == (c + y) + z;
  }

  /** Workers are collected in the order in which they reported, none lost: the channel is first-in-first-out. */
  lemma {:induction false} ReportsInOrder(s: State, es: seq<Event>)
    requires Partitioned(s) && Run(s, es)
    ensures s.done + AllReported(s, es) == AllCollected(s, es) + After(s, es).done
    decreases |es|
  {
    if es != [] {
      var t, e, rest := Next(s, es[0]), es[0], es[1..];
      StepPartitioned(s, e);
      StepReports(s, e);
      ReportsInOrder(t, rest);
      Regroup(s.done, Reported(s, e), Collected(t, e), t.done,
              AllReported(t, rest), AllCollected(t, rest), After(t, rest).done);
    }
  }

  // Steps of clients and workers only.
  predicate IsOutside(e: Event) {
    e.Client? || e.Take? || e.Execute? || e.Report?
  }

  lemma {:induction false} OutsideKeeps(s: State, es: seq<Event>)
    requires Run(s, es) && forall e :: e in es ==> IsOutside(e)
    ensures var t := After(s, es);
            && t.dispatcher == s.dispatcher && t.available == s.available
            && |t.workers| == |s.workers| && t.maxThreads == s.maxThreads
    decreases |es|
  {
    if es != [] {
      assert es[0] in es;
      OutsideKeeps(Next(s, es[0]), es[1..]);
    }
  }

  /**
    A worker is created only if, when the dispatcher finished draining, all workers were busy,
    whatever clients and workers do before it picks.
   */
  lemma CreatesOnlyWhenAllBusy(s: State, es: seq<Event>, i: nat)
    requires Sound(s) && Enabled(s, DrainEnd) && i < |s.workers|
    requires Run(Next(s, DrainEnd), es) && forall e :: e in es ==> IsOutside(e)
    ensures var t := After(Next(s, DrainEnd), es);
            && Enabled(t, Pick)
            && (|Next(t, Pick).workers| > |s.workers| ==> Busy(s.workers[i]) && |s.workers| < s.maxThreads)
  {
    OutsideKeeps(Next(s, DrainEnd), es);
    assert Places(s, i) == 1;
    assert multiset(s.done) == multiset{};
    if s.available == [] {
      assert multiset(s.available) == multiset{};
    }
  }

  predicate IsStepOf(e: Event, i: nat) {
    (e.Take? || e.Execute? || e.Report?) && e.index == i
  }

  function StepsLeft(w: Worker): nat {
    match w.activity
    case Waiting => 3
    case Executing(_) => 2
    case Reporting => 1
  }

  // A busy worker's own steps lead to its report.
  lemma {:induction false} BusyReports(t: State, i: nat) returns (es: seq<Event>)
    requires Partitioned(t) && t.dispatcher.Blocked? && i < |t.workers| && Busy(t.workers[i])
    ensures |es| == StepsLeft(t.workers[i]) && (forall e :: e in es ==> IsStepOf(e, i))
    ensures Run(t, es) && Enabled(After(t, es), Unblock)
    decreases StepsLeft(t.workers[i])
  {
    var e := match t.workers[i].activity
      case Waiting => Take(i)
      case Executing(_) => Execute(i)
      case Reporting => Report(i);
    var u := Next(t, e);
    if e.Report? {
      DoneHasRoom(t, i);
      es := [e];
      assert es[1..] == [] && After(u, []) == u;
    } else {
      WorkerStepPartitioned(t, e);
      var rest := BusyReports(u, i);
      es := [e] + rest;
      assert es[1..] == rest;
    }
  }

  // With every worker created, none available and none reported, each one is busy.
  lemma BlockedAreBusy(t: State, i: nat)
    requires Partitioned(t) && t.dispatcher.Blocked? && i < |t.workers| && t.done == []
    ensures Busy(t.workers[i])
  {
    assert Places(t, i) == 1;
    assert multiset(t.available) == multiset{} && multiset(t.done) == multiset{};
  }

  /**
    A blocked dispatcher has the maximum number of workers and none available. Either a report
    is already there, or any worker reaches its own report in at most three of its steps, and
    then the dispatcher goes on.
   */
  lemma BlockedIsReleased(s: State, es: seq<Event>, i: nat) returns (more: seq<Event>)
    requires Sound(s) && Run(s, es) && After(s, es).dispatcher.Blocked? && i < s.maxThreads
    ensures var t := After(s, es);
            && |t.workers| == t.maxThreads == s.maxThreads && t.available == []
            && |more| <= 3 && (forall e :: e in more ==> IsStepOf(e, i))
            && Run(t, more) && Enabled(After(t, more), Unblock)
  {
    RunSound(s, es);
    MaxThreadsIsFixed(s, es);
    var t := After(s, es);
    more := [];
    if t.done == [] {
      BlockedAreBusy(t, i);
      more := BusyReports(t, i);
    }
  }

  predicate IsDispatcherStep(e: Event) {
    e.DrainOne? || e.DrainEnd? || e.Pick? || e.Unblock? || e.Dequeue? || e.HandOver?
  }

  // A poll now would neither return a request nor the end.
  ghost predicate NothingToPoll(s: State) {
    s.chan.sys.q.buffer == [] && s.chan.handles != {}
  }

  /**
    Until it stops, the dispatcher can always take a step, except while it is blocked on a report
    and while the queue is empty with senders alive.
   */
  lemma DispatcherNeverStuck(s: State) returns (e: Event)
    requires Sound(s) && !s.dispatcher.Stopped?
    requires s.dispatcher.Blocked? ==> s.done != []
    requires s.dispatcher.Reserved? ==> !NothingToPoll(s)
    ensures IsDispatcherStep(e) && Enabled(s, e)
  {
    var now := s.chan.sys.clock;
    match s.dispatcher
    case Draining => e := if s.done == [] then DrainEnd else DrainOne;
    case Picking => e := Pick;
    case Blocked => e := Unblock;
    case Reserved(_) =>
      var times := Q.PopReads(now, now, now, now);
      Q.EndIff(s.chan, times);
      e := Dequeue(times);
    case Sending(_, _) => e := HandOver;
  }

  /** Any live handle can send a new request at any time, and it is accepted iff the queue has room. */
  lemma ClientsCanSend(s: State, handle: nat, req: nat) returns (e: Event)
    requires Sound(s) && handle in s.chan.handles && req !in s.chan.sys.accepted
    ensures e.Client? && Enabled(s, e)
    ensures Next(s, e).chan.sys.accepted ==
            s.chan.sys.accepted + if |s.chan.sys.q.buffer| < s.chan.sys.q.cfg.capacity then [req] else []
  {
    var now := s.chan.sys.clock;
    var times := Q.PushReads(now, now, now);
    Q.PushOutcome(s.chan.sys, req, times);
    e := Client(Q.TrySend(handle, req, times));
  }

  /** A busy worker can always take its next step. */
  lemma WorkerNeverStuck(s: State, i: nat) returns (e: Event)
    requires Partitioned(s) && i < |s.workers| && Busy(s.workers[i])
    ensures IsStepOf(e, i) && Enabled(s, e)
  {
    match s.workers[i].activity
    case Waiting => e := Take(i);
    case Executing(_) => e := Execute(i);
    case Reporting => e := Report(i);
  }

  lemma {:induction false} MaxThreadsIsFixed(s: State, es: seq<Event>)
    requires Run(s, es)
    ensures After(s, es).maxThreads == s.maxThreads
    decreases |es|
  {
    if es != [] {
      MaxThreadsIsFixed(Next(s, es[0]), es[1..]);
    }
  }

  /** No `try_send` of the pool ever finds its channel full. */
  lemma SendsNeverFail(s: State, es: seq<Event>, i: nat)
    requires Sound(s) && Run(s, es)
    ensures var t := After(s, es);
            && (Enabled(t, HandOver) ==> t.workers[t.dispatcher.worker].inbox == [])
            && (Enabled(t, Report(i)) && !t.dispatcher.Stopped? ==> |t.done| < t.maxThreads)
  {
    RunSound(s, es);
    var t := After(s, es);
    if Enabled(t, HandOver) {
      ReservedIsFree(t, t.dispatcher.worker);
    }
    if Enabled(t, Report(i)) && !t.dispatcher.Stopped? {
      DoneHasRoom(t, i);
    }
  }

  // The dispatcher's uninterrupted turn: drain `n` reports, then pick.
  function Turn(n: nat): seq<Event> {
    if n == 0 then [DrainEnd, Pick] else [DrainOne] + Turn(n - 1)
  }

  /** The stack is last-in-first-out: the worker reserved next is the one that reported last. */
  lemma {:induction false} MostRecentWorkerFirst(s: State)
    requires s.dispatcher.Draining? && s.available + s.done != []
    ensures Run(s, Turn(|s.done|))
    ensures var free := s.available + s.done;
            var t := After(s, Turn(|s.done|));
            && t.dispatcher == Reserved(free[|free| - 1]) && t.done == []
            && t.available == free[..|free| - 1] && t.workers == s.workers
    decreases |s.done|
  {
    var free := s.available + s.done;
    if s.done == [] {
      var t := s.(dispatcher := Picking);
      assert free == s.available;
      assert [DrainEnd, Pick][1..] == [Pick] && [Pick][1..] == [];
      assert Next(s, DrainEnd) == t;
      assert Run(Next(t, Pick), []) && After(Next(t, Pick), []) == Next(t, Pick);
      assert Run(t, [Pick]) && After(t, [Pick]) == Next(t, Pick);
    } else {
      var t := Next(s, DrainOne);
      assert t.available + t.done == free;
      MostRecentWorkerFirst(t);
      assert Turn(|s.done|)[1..] == Turn(|t.done|);
    }
  }

  // ---------------------------------------------------------------- the dispatcher's own state

  class Scheduler {
    const maxExecThreads: nat
    var workerCount: nat
    var availableWorkers: seq<nat>

    constructor (maxExecThreads: nat)
      ensures this.maxExecThreads == maxExecThreads && workerCount == 0 && availableWorkers == []
    {
      this.maxExecThreads := maxExecThreads;
      workerCount, availableWorkers := 0, [];
    }

    // The part of a pool state that this object owns.
    ghost predicate Represents(s: State)
      reads this
    {
      |s.workers| == workerCount && s.available == availableWorkers && s.maxThreads == maxExecThreads
    }

    method CreateWorker() returns (w: nat)
      modifies this`workerCount
      ensures w == old(workerCount) && workerCount == w + 1
      ensures forall s: State :: old(Represents(s)) && s.available == [] && w < maxExecThreads ==>
                Represents(NextPick(s)) && NextPick(s).dispatcher == Reserved(w) && !Busy(NextPick(s).workers[w])
    {
      w := workerCount;
      workerCount := workerCount + 1;
    }

    // Empties the in-progress channel; later reports end up on top of the stack.
    method Drain(done: seq<nat>)
      modifies this`availableWorkers
      ensures availableWorkers == old(availableWorkers) + done
    {
      var channel := done;
      while channel != []
        invariant availableWorkers + channel == old(availableWorkers) + done
        decreases |channel|
      {
        var w := channel[0];
        channel := channel[1..];
        availableWorkers := availableWorkers + [w];
      }
    }

    // `None` means the dispatcher must wait on the in-progress channel.
    method PickWorker() returns (w: Option<nat>)
      modifies this
      ensures forall s: State :: old(Represents(s)) ==>
                && Represents(NextPick(s))
                && NextPick(s).dispatcher == (if w.Some? then Reserved(w.value) else Blocked)
    {
      var n := |availableWorkers|;
      if n > 0 {
        w := Some(availableWorkers[n - 1]);
        availableWorkers := availableWorkers[..n - 1];
      } else if workerCount < maxExecThreads {
        var created := CreateWorker();
        w := Some(created);
      } else {
        w := None;
      }
    }
  }
}
