/**
  `CoDelQueue`: a queue that serves first-in-first-out while it keeps emptying and
  last-in-first-out with short deadlines once it has been non-empty for too long.
  Every clock read of an operation is a separate value; the clock only moves forward.
 */
module CoDelQueue {
  import opened Prelude

  datatype Mode = Idle | Congested

  // `arrival` and `mode` record the push that made the entry; no branch reads them.
  datatype Entry<T> = Entry(item: T, deadline: int, arrival: int, mode: Mode)

  datatype Config = Config(capacity: nat, idleExpiration: nat, congestedExpiration: nat)

  datatype Queue<T> = Queue(buffer: seq<Entry<T>>, lastTimeEmpty: int, cfg: Config)

  datatype PushReads = PushReads(empty: int, idle: int, deadline: int)

  datatype PopReads = PopReads(now: int, empty: int, idle: int, after: int)

  datatype Popped<T> = Popped(entry: Entry<T>, expired: bool)

  function Expiration(cfg: Config, mode: Mode): nat {
    if mode.Idle? then cfg.idleExpiration else cfg.congestedExpiration
  }

  predicate IsIdle<T>(q: Queue<T>, now: int) {
    q.lastTimeEmpty + q.cfg.idleExpiration > now
  }

  function Refresh<T>(q: Queue<T>, now: int): Queue<T> {
    if q.buffer == [] then q.(lastTimeEmpty := now) else q
  }

  predicate HasRoom<T>(q: Queue<T>) {
    |q.buffer| < q.cfg.capacity
  }

  function Push<T>(q: Queue<T>, item: T, r: PushReads): Queue<T>
    requires HasRoom(q)
  {
    var p := Refresh(q, r.empty);
    var mode := if IsIdle(p, r.idle) then Idle else Congested;
    p.(buffer := p.buffer + [Entry(item, r.deadline + Expiration(q.cfg, mode), r.deadline, mode)])
  }

  predicate FrontExpired<T>(q: Queue<T>, now: int) {
    q.buffer != [] && q.buffer[0].deadline < now
  }

  predicate TakesFront<T>(q: Queue<T>, r: PopReads) {
    FrontExpired(q, r.now) || IsIdle(Refresh(q, r.empty), r.idle)
  }

  function Pop<T>(q: Queue<T>, r: PopReads): (Queue<T>, Option<Popped<T>>) {
    if q.buffer == [] then (q.(lastTimeEmpty := r.after), None)
    else
      var n := |q.buffer|;
      var e := if TakesFront(q, r) then q.buffer[0] else q.buffer[n - 1];
      var rest := if TakesFront(q, r) then q.buffer[1..] else q.buffer[..n - 1];
      (Refresh(q.(buffer := rest), r.after), Some(Popped(e, e.deadline < r.now)))
  }

  // ---------------------------------------------------------------- structure

  /** The shape of the buffer at clock time `now`. */
  ghost predicate Shaped<T>(q: Queue<T>, now: int) {
    && |q.buffer| <= q.cfg.capacity
    && q.lastTimeEmpty <= now
    && (forall i :: 0 <= i < |q.buffer| ==>
          && q.lastTimeEmpty <= q.buffer[i].arrival <= now
          && q.buffer[i].deadline == q.buffer[i].arrival + Expiration(q.cfg, q.buffer[i].mode)
          && (q.buffer[i].mode.Congested? ==> q.lastTimeEmpty + q.cfg.idleExpiration <= q.buffer[i].arrival))
    && (forall i, j :: 0 <= i < j < |q.buffer| ==> q.buffer[i].arrival <= q.buffer[j].arrival)
    && (forall i, j :: 0 <= i < j < |q.buffer| && q.buffer[i].mode.Congested? ==> q.buffer[j].mode.Congested?)
  }

  predicate PushOrdered(now: int, r: PushReads) {
    now <= r.empty <= r.idle <= r.deadline
  }

  predicate PopOrdered(now: int, r: PopReads) {
    now <= r.now <= r.empty <= r.idle <= r.after
  }

  /**
    What a push does, in terms of the queue it finds. It is refused exactly when `capacity` items
    wait. The entry's lifetime is the idle expiration iff the queue was last found empty less than
    that long ago, where a queue found empty now counts as emptied now.
   */
  lemma PushOutcome<T>(s: Sys<T>, item: T, r: PushReads)
    ensures var t := Next(s, DoPush(item, r));
            var since := if s.q.buffer == [] then r.empty else s.q.lastTimeEmpty;
            var lifetime := if since + s.q.cfg.idleExpiration > r.idle
                            then s.q.cfg.idleExpiration else s.q.cfg.congestedExpiration;
            if |s.q.buffer| >= s.q.cfg.capacity then t == s
            else
              && t.accepted == s.accepted + [item] && t.returned == s.returned && t.q.cfg == s.q.cfg
              && t.q.lastTimeEmpty == since && |t.q.buffer| == |s.q.buffer| + 1
              && t.q.buffer[..|s.q.buffer|] == s.q.buffer
              && var e := t.q.buffer[|s.q.buffer|];
              e.item == item && e.arrival == r.deadline && e.deadline - e.arrival == lifetime
  {
  }

  /** An item pushed into an empty queue that idles at all gets the idle expiration, however long it was quiet. */
  lemma EmptyQueueIsIdle<T>(s: Sys<T>, item: T, r: PushReads)
    requires Enabled(s, DoPush(item, r)) && s.q.buffer == [] && s.q.cfg.capacity > 0
    requires r.idle - r.empty < s.q.cfg.idleExpiration
    ensures var t := Next(s, DoPush(item, r));
            |t.q.buffer| == 1 && t.q.buffer[0].deadline == r.deadline + s.q.cfg.idleExpiration
  {
    PushOutcome(s, item, r);
  }

  /**
    What a pop does, in terms of the queue it finds: nothing but a fresh `lastTimeEmpty` when it is
    empty; else it takes the front when that has expired or the queue is idle, and the back otherwise.
   */
  lemma PopOutcome<T>(s: Sys<T>, r: PopReads)
    ensures var t, b := Next(s, DoPop(r)), s.q.buffer;
            && t.accepted == s.accepted && t.q.cfg == s.q.cfg
            && t.q.lastTimeEmpty == (if |b| <= 1 then r.after else s.q.lastTimeEmpty)
            && if b == [] then t.returned == s.returned && t.q.buffer == []
               else
                 var front := b[0].deadline < r.now || s.q.lastTimeEmpty + s.q.cfg.idleExpiration > r.idle;
                 var e := if front then b[0] else b[|b| - 1];
                 && t.returned == s.returned + [Popped(e, e.deadline < r.now)]
                 && t.q.buffer == if front then b[1..] else b[..|b| - 1]
  {
  }

  lemma PushKeepsShape<T>(q: Queue<T>, item: T, now: int, r: PushReads)
    requires Shaped(q, now) && PushOrdered(now, r) && HasRoom(q)
    ensures Shaped(Push(q, item, r), r.deadline)
  {
    var b, p := q.buffer, Push(q, item, r);
    assert forall i :: 0 <= i < |b| ==> p.buffer[i] == b[i];
  }

  lemma PopKeepsShape<T>(q: Queue<T>, now: int, r: PopReads)
    requires Shaped(q, now) && PopOrdered(now, r)
    ensures Shaped(Pop(q, r).0, r.after)
  {
    var n := |q.buffer|;
    if n > 0 {
      var a, b := if TakesFront(q, r) then 1 else 0, if TakesFront(q, r) then n else n - 1;
      SliceShaped(q, now, a, b);
      RefreshShaped(q.(buffer := q.buffer[a..b]), now, r.after);
      assert q.buffer[1..n] == q.buffer[1..] && q.buffer[0..n - 1] == q.buffer[..n - 1];
    }
  }

  lemma SliceShaped<T>(q: Queue<T>, now: int, a: nat, b: nat)
    requires Shaped(q, now) && a <= b <= |q.buffer|
    ensures Shaped(q.(buffer := q.buffer[a..b]), now)
  {
    var c := q.buffer[a..b];
    assert forall i :: 0 <= i < |c| ==> c[i] == q.buffer[a + i];
  }

  lemma RefreshShaped<T>(q: Queue<T>, now: int, later: int)
    requires Shaped(q, now) && now <= later
    ensures Shaped(Refresh(q, later), later)
  {
  }

  /**
    The flag is exact: a popped item is flagged expired iff it waited longer than the
    expiration it was given on arrival.
   */
  lemma ExpiredIff<T>(q: Queue<T>, now: int, r: PopReads)
    requires Shaped(q, now) && q.buffer != []
    ensures var p := Pop(q, r).1.value;
            p.expired <==> r.now - p.entry.arrival > Expiration(q.cfg, p.entry.mode)
  {
  }

  /**
    A pop serves the oldest arrival when the front has expired or the queue is idle, and the
    newest arrival when the queue is congested.
   */
  lemma ServesOldestOrNewest<T>(q: Queue<T>, now: int, r: PopReads, i: nat)
    requires Shaped(q, now) && i < |q.buffer|
    ensures var served := Pop(q, r).1.value.entry;
            if q.buffer[0].deadline < r.now || q.lastTimeEmpty + q.cfg.idleExpiration > r.idle
            then served.arrival <= q.buffer[i].arrival
            else served.arrival >= q.buffer[i].arrival
  {
  }

  /** Nothing is ever returned expired while the queue is idle. */
  lemma ExpiredOnlyWhenCongested<T>(q: Queue<T>, now: int, r: PopReads)
    requires Shaped(q, now) && PopOrdered(now, r) && Pop(q, r).1.Some? && Pop(q, r).1.value.expired
    ensures !IsIdle(q, r.now)
  {
    var e := Pop(q, r).1.value.entry;
    assert e == q.buffer[0] || e == q.buffer[|q.buffer| - 1];
  }

  // ---------------------------------------------------------------- runs

  // `accepted` and `returned` are the whole history, oldest first.
  datatype Sys<T> = Sys(q: Queue<T>, clock: int, accepted: seq<T>, returned: seq<Popped<T>>)

  datatype Event<T> = DoPush(item: T, push: PushReads) | DoPop(pop: PopReads)

  predicate Enabled<T>(s: Sys<T>, e: Event<T>) {
    match e
    case DoPush(_, r) => PushOrdered(s.clock, r)
    case DoPop(r) => PopOrdered(s.clock, r)
  }

  function Next<T>(s: Sys<T>, e: Event<T>): Sys<T> {
    match e
    case DoPush(item, r) =>
      if HasRoom(s.q) then Sys(Push(s.q, item, r), r.deadline, s.accepted + [item], s.returned)
      else s
    case DoPop(r) =>
      var (q, p) := Pop(s.q, r);
      Sys(q, r.after, s.accepted, if p.Some? then s.returned + [p.value] else s.returned)
  }

  function New<T>(cfg: Config, now: int): Sys<T> {
    Sys(Queue([], now, cfg), now, [], [])
  }

  ghost predicate Run<T>(s: Sys<T>, es: seq<Event<T>>)
    decreases |es|
  {
    es == [] || (Enabled(s, es[0]) && Run(Next(s, es[0]), es[1..]))
  }

  ghost function After<T>(s: Sys<T>, es: seq<Event<T>>): Sys<T>
    decreases |es|
  {
    if es == [] then s else After(Next(s, es[0]), es[1..])
  }

  function Items<T>(b: seq<Entry<T>>): seq<T> {
    seq(|b|, i requires 0 <= i < |b| => b[i].item)
  }

  function ReturnedItems<T>(ps: seq<Popped<T>>): seq<T> {
    seq(|ps|, i requires 0 <= i < |ps| => ps[i].entry.item)
  }

  ghost predicate Conserved<T>(s: Sys<T>) {
    multiset(s.accepted) == multiset(ReturnedItems(s.returned)) + multiset(Items(s.q.buffer))
  }

  ghost predicate Sound<T>(s: Sys<T>) {
    Shaped(s.q, s.clock) && Conserved(s)
  }

  lemma PopSplitsBuffer<T>(q: Queue<T>, r: PopReads)
    requires q.buffer != []
    ensures var (q', p) := Pop(q, r);
            && multiset(Items(q.buffer)) == multiset(Items(q'.buffer)) + multiset{p.value.entry.item}
            && (TakesFront(q, r) ==> Items(q.buffer) == [p.value.entry.item] + Items(q'.buffer))
  {
    var (q', p) := Pop(q, r);
    if TakesFront(q, r) {
      assert Items(q.buffer) == [p.value.entry.item] + Items(q'.buffer);
    } else {
      assert Items(q.buffer) == Items(q'.buffer) + [p.value.entry.item];
    }
  }

  lemma ReturnedAppend<T>(ps: seq<Popped<T>>, p: Popped<T>)
    ensures ReturnedItems(ps + [p]) == ReturnedItems(ps) + [p.entry.item]
  {
  }

  lemma PushItems<T>(q: Queue<T>, item: T, r: PushReads)
    requires HasRoom(q)
    ensures Items(Push(q, item, r).buffer) == Items(q.buffer) + [item]
  {
  }

  lemma StepConserved<T>(s: Sys<T>, e: Event<T>)
    requires Conserved(s)
    ensures Conserved(Next(s, e))
  {
    match e
    case DoPush(item, r) =>
      if HasRoom(s.q) {
        PushItems(s.q, item, r);
      }
    case DoPop(r) =>
      if s.q.buffer != [] {
        PopSplitsBuffer(s.q, r);
        ReturnedAppend(s.returned, Pop(s.q, r).1.value);
      }
  }

  lemma StepSound<T>(s: Sys<T>, e: Event<T>)
    requires Sound(s) && Enabled(s, e)
    ensures Sound(Next(s, e))
    ensures Next(s, e).clock >= s.clock && Next(s, e).q.cfg == s.q.cfg
  {
    StepConserved(s, e);
    match e
    case DoPush(item, r) =>
      if HasRoom(s.q) {
        PushKeepsShape(s.q, item, s.clock, r);
      }
    case DoPop(r) => PopKeepsShape(s.q, s.clock, r);
  }

  lemma NewIsSound<T>(cfg: Config, now: int)
    ensures Sound(New<T>(cfg, now)) && Open(NewChannel<T>(cfg, now))
    ensures var s := NewChannel<T>(cfg, now).sys;
            s.q.cfg == cfg && s.q.buffer == [] && s.q.lastTimeEmpty == now == s.clock && s.accepted == []
  {
    var s := New<T>(cfg, now);
    assert ReturnedItems(s.returned) == [] && Items(s.q.buffer) == [];
  }

  /**
    Over every run: the buffer is an idle prefix and a congested suffix in arrival order,
    never longer than the capacity, and accepted items are returned or buffered, each once.
   */
  lemma {:induction false} RunSound<T>(s: Sys<T>, es: seq<Event<T>>)
    requires Sound(s) && Run(s, es)
    ensures Shaped(After(s, es).q, After(s, es).clock)
    ensures Conserved(After(s, es))
    ensures After(s, es).clock >= s.clock
    decreases |es|
  {
    if es != [] {
      StepSound(s, es[0]);
      RunSound(Next(s, es[0]), es[1..]);
    }
  }

  // The clock read, if any, at which an operation finds the buffer empty, last of all.
  function EmptyRead<T>(s: Sys<T>, e: Event<T>): seq<int> {
    match e
    case DoPush(_, r) => if s.q.buffer == [] && s.q.cfg.capacity > 0 then [r.empty] else []
    case DoPop(r) => if |s.q.buffer| <= 1 then [r.after] else []
  }

  // All of those reads in a run, in order.
  ghost function FoundEmpty<T>(s: Sys<T>, es: seq<Event<T>>): seq<int>
    decreases |es|
  {
    if es == [] then [] else EmptyRead(s, es[0]) + FoundEmpty(Next(s, es[0]), es[1..])
  }

  ghost predicate Sorted(xs: seq<int>) {
    forall i, j :: 0 <= i < j < |xs| ==> xs[i] <= xs[j]
  }

  lemma StepEmptyRead<T>(s: Sys<T>, e: Event<T>)
    requires Sound(s) && Enabled(s, e)
    ensures var t, found := Next(s, e), EmptyRead(s, e);
            && t.q.lastTimeEmpty == (if found == [] then s.q.lastTimeEmpty else found[0])
            && (found != [] ==> s.q.lastTimeEmpty <= found[0])
  {
    match e
    case DoPush(item, r) => PushOutcome(s, item, r);
    case DoPop(r) => PopOutcome(s, r);
  }

  // The reads only move forward from `x`, and the last of them, or `x` itself, is `last`.
  ghost predicate EndsAt(x: int, found: seq<int>, last: int) {
    Sorted([x] + found) && last == ([x] + found)[|found|]
  }

  lemma EndsJoin(x: int, found: seq<int>, y: int, rest: seq<int>, last: int)
    requires |found| <= 1 && y == (if found == [] then x else found[0]) && x <= y && EndsAt(y, rest, last)
    ensures EndsAt(x, found + rest, last)
  {
    if found == [] {
      assert found + rest == rest;
    } else {
      var tail := [y] + rest;
      assert found + rest == tail;
      assert forall i :: 0 <= i < |tail| ==> tail[0] <= tail[i];
    }
  }

  /** `last_time_empty` is the last of those reads, which only move forward; before the first, it is unchanged. */
  lemma {:induction false} LastTimeEmptyIsLatest<T>(s: Sys<T>, es: seq<Event<T>>)
    requires Sound(s) && Run(s, es)
    ensures EndsAt(s.q.lastTimeEmpty, FoundEmpty(s, es), After(s, es).q.lastTimeEmpty)
    decreases |es|
  {
    if es != [] {
      var t, found := Next(s, es[0]), EmptyRead(s, es[0]);
      StepSound(s, es[0]);
      StepEmptyRead(s, es[0]);
      LastTimeEmptyIsLatest(t, es[1..]);
      var rest, last := FoundEmpty(t, es[1..]), After(t, es[1..]).q.lastTimeEmpty;
      EndsJoin(s.q.lastTimeEmpty, found, t.q.lastTimeEmpty, rest, last);
    }
  }

  ghost predicate NeverEmpties<T>(s: Sys<T>, es: seq<Event<T>>)
    decreases |es|
  {
    s.q.buffer != [] && (es != [] ==> NeverEmpties(Next(s, es[0]), es[1..]))
  }

  /** Once congested, the queue stays congested for as long as it does not empty. */
  lemma {:induction false} CongestionPersists<T>(s: Sys<T>, es: seq<Event<T>>)
    requires Sound(s) && Run(s, es) && NeverEmpties(s, es)
    ensures After(s, es).q.lastTimeEmpty == s.q.lastTimeEmpty
    ensures !IsIdle(s.q, s.clock) ==> !IsIdle(After(s, es).q, After(s, es).clock)
    decreases |es|
  {
    if es != [] {
      StepSound(s, es[0]);
      CongestionPersists(Next(s, es[0]), es[1..]);
    }
  }

  ghost predicate OnlyFront<T>(s: Sys<T>, es: seq<Event<T>>)
    decreases |es|
  {
    es == [] || ((es[0].DoPop? ==> TakesFront(s.q, es[0].pop)) && OnlyFront(Next(s, es[0]), es[1..]))
  }

  /** While no pop takes the last-in-first-out branch, items come back in the order accepted. */
  lemma {:induction false} FirstInFirstOut<T>(s: Sys<T>, es: seq<Event<T>>)
    requires Sound(s) && Run(s, es) && OnlyFront(s, es)
    requires s.accepted == ReturnedItems(s.returned) + Items(s.q.buffer)
    ensures After(s, es).accepted == ReturnedItems(After(s, es).returned) + Items(After(s, es).q.buffer)
    decreases |es|
  {
    if es != [] {
      StepSound(s, es[0]);
      FrontStepKeepsOrder(s, es[0]);
      FirstInFirstOut(Next(s, es[0]), es[1..]);
    }
  }

  lemma FrontStepKeepsOrder<T>(s: Sys<T>, e: Event<T>)
    requires s.accepted == ReturnedItems(s.returned) + Items(s.q.buffer)
    requires e.DoPop? ==> TakesFront(s.q, e.pop)
    ensures var t := Next(s, e); t.accepted == ReturnedItems(t.returned) + Items(t.q.buffer)
  {
    var t := Next(s, e);
    match e
    case DoPush(item, r) =>
      if HasRoom(s.q) {
        PushItems(s.q, item, r);
        assert ReturnedItems(s.returned) + (Items(s.q.buffer) + [item]) == s.accepted + [item];
      }
    case DoPop(r) =>
      if s.q.buffer != [] {
        var x := Pop(s.q, r).1.value;
        PopSplitsBuffer(s.q, r);
        ReturnedAppend(s.returned, x);
        assert (ReturnedItems(s.returned) + [x.entry.item]) + Items(t.q.buffer) == s.accepted;
      }
  }

  // ---------------------------------------------------------------- sender and receiver handles

  // `handles` are the live senders; `ended` records that some poll has answered `None`.
  datatype Channel<T> = Channel(sys: Sys<T>, senders: int, handles: set<nat>, ended: bool)

  datatype Op<T> =
    | CloneSender(handle: nat, newHandle: nat)
    | DropSender(handle: nat)
    | TrySend(handle: nat, item: T, push: PushReads)
    | Poll(pop: PopReads)

  datatype PollResult<T> = Ready(popped: Popped<T>) | End | Pending

  function NewChannel<T>(cfg: Config, now: int): Channel<T> {
    Channel(New(cfg, now), 1, {0}, false)
  }

  predicate CanDo<T>(c: Channel<T>, op: Op<T>) {
    match op
    case CloneSender(h, h') => h in c.handles && h' !in c.handles
    case DropSender(h) => h in c.handles
    case TrySend(h, item, r) => h in c.handles && PushOrdered(c.sys.clock, r)
    case Poll(r) => PopOrdered(c.sys.clock, r)
  }

  function PollAnswer<T>(c: Channel<T>, r: PopReads): PollResult<T> {
    match Pop(c.sys.q, r).1
    case Some(p) => Ready(p)
    case None => if c.senders == 0 then End else Pending
  }

  function Do<T>(c: Channel<T>, op: Op<T>): Channel<T> {
    match op
    case CloneSender(_, h') => c.(senders := c.senders + 1, handles := c.handles + {h'})
    case DropSender(h) => c.(senders := c.senders - 1, handles := c.handles - {h})
    case TrySend(_, item, r) => c.(sys := Next(c.sys, DoPush(item, r)))
    case Poll(r) => c.(sys := Next(c.sys, DoPop(r)), ended := c.ended || PollAnswer(c, r).End?)
  }

  ghost predicate ChannelRun<T>(c: Channel<T>, ops: seq<Op<T>>)
    decreases |ops|
  {
    ops == [] || (CanDo(c, ops[0]) && ChannelRun(Do(c, ops[0]), ops[1..]))
  }

  ghost function AfterOps<T>(c: Channel<T>, ops: seq<Op<T>>): Channel<T>
    decreases |ops|
  {
    if ops == [] then c else AfterOps(Do(c, ops[0]), ops[1..])
  }

  ghost predicate Open<T>(c: Channel<T>) {
    && Sound(c.sys)
    && c.senders == |c.handles|
    && (c.ended ==> c.handles == {} && c.sys.q.buffer == [])
  }

  lemma StepOpen<T>(c: Channel<T>, op: Op<T>)
    requires Open(c) && CanDo(c, op)
    ensures Open(Do(c, op))
  {
    match op
    case TrySend(_, item, r) => StepSound(c.sys, DoPush(item, r));
    case Poll(r) => StepSound(c.sys, DoPop(r));
    case _ =>
  }

  /** The end of the stream means no live sender and every accepted item already delivered. */
  lemma EndIff<T>(c: Channel<T>, r: PopReads)
    requires Open(c)
    ensures PollAnswer(c, r).End? <==> c.handles == {} && c.sys.q.buffer == []
    ensures PollAnswer(c, r).End? ==> multiset(c.sys.accepted) == multiset(ReturnedItems(c.sys.returned))
    ensures PollAnswer(c, r).Pending? <==> c.handles != {} && c.sys.q.buffer == []
  {
    if c.sys.q.buffer == [] {
      assert Items(c.sys.q.buffer) == [];
    }
  }

  /**
    `senders` counts the live handles over every run, and once any receiver saw the end,
    every later poll of every receiver answers the end and nothing more is delivered.
   */
  lemma {:induction false} ChannelRunOpen<T>(c: Channel<T>, ops: seq<Op<T>>, r: PopReads)
    requires Open(c) && ChannelRun(c, ops)
    ensures var d := AfterOps(c, ops);
            && Open(d)
            && (c.ended ==> d.ended && PollAnswer(d, r).End? && d.sys.returned == c.sys.returned)
    decreases |ops|
  {
    if ops != [] {
      StepOpen(c, ops[0]);
      ChannelRunOpen(Do(c, ops[0]), ops[1..], r);
    }
  }

  // ---------------------------------------------------------------- handles read off the operations

  ghost predicate DroppedAfter<T>(ops: seq<Op<T>>, i: int, h: nat) {
    exists j :: i < j < |ops| && 0 <= j && ops[j].DropSender? && ops[j].handle == h
  }

  // `h` is alive after `ops`: alive before them or cloned by one of them, and not dropped since.
  ghost predicate Alive<T>(before: set<nat>, ops: seq<Op<T>>, h: nat) {
    || (h in before && !DroppedAfter(ops, -1, h))
    || (exists i :: 0 <= i < |ops| && ops[i].CloneSender? && ops[i].newHandle == h && !DroppedAfter(ops, i, h))
  }

  lemma DroppedShift<T>(ops: seq<Op<T>>, i: int, h: nat)
    requires ops != [] && i >= -1
    ensures DroppedAfter(ops[1..], i, h) <==> DroppedAfter(ops, i + 1, h)
  {
    if DroppedAfter(ops[1..], i, h) {
      var j :| i < j < |ops[1..]| && 0 <= j && ops[1..][j].DropSender? && ops[1..][j].handle == h;
      assert ops[j + 1] == ops[1..][j];
    }
    if DroppedAfter(ops, i + 1, h) {
      var j :| i + 1 < j < |ops| && 0 <= j && ops[j].DropSender? && ops[j].handle == h;
      assert ops[j] == ops[1..][j - 1];
    }
  }

  lemma DroppedFirst<T>(ops: seq<Op<T>>, h: nat)
    requires ops != []
    ensures DroppedAfter(ops, -1, h) <==> (ops[0].DropSender? && ops[0].handle == h) || DroppedAfter(ops, 0, h)
  {
  }

  // One operation, then the rest.
  lemma AliveStep<T>(before: set<nat>, ops: seq<Op<T>>, h: nat, after: set<nat>)
    requires ops != []
    requires after == match ops[0]
                      case CloneSender(_, h') => before + {h'}
                      case DropSender(d) => before - {d}
                      case _ => before
    requires ops[0].CloneSender? ==> ops[0].newHandle !in before
    ensures Alive(before, ops, h) <==> Alive(after, ops[1..], h)
  {
    DroppedFirst(ops, h);
    DroppedShift(ops, -1, h);
    if Alive(before, ops, h) && !(h in before && !DroppedAfter(ops, -1, h)) {
      var i :| 0 <= i < |ops| && ops[i].CloneSender? && ops[i].newHandle == h && !DroppedAfter(ops, i, h);
      if i > 0 {
        DroppedShift(ops, i - 1, h);
        assert ops[1..][i - 1] == ops[i];
      }
    }
    if Alive(after, ops[1..], h) && !(h in after && !DroppedAfter(ops[1..], -1, h)) {
      var i :| 0 <= i < |ops[1..]| && ops[1..][i].CloneSender? && ops[1..][i].newHandle == h
               && !DroppedAfter(ops[1..], i, h);
      DroppedShift(ops, i, h);
      assert ops[i + 1] == ops[1..][i];
    }
  }

  /** Over every run, the live handles are those made and not dropped, by the operations alone. */
  lemma {:induction false} HandlesAreAlive<T>(c: Channel<T>, ops: seq<Op<T>>, h: nat)
    requires ChannelRun(c, ops)
    ensures h in AfterOps(c, ops).handles <==> Alive(c.handles, ops, h)
    decreases |ops|
  {
    if ops != [] {
      HandlesAreAlive(Do(c, ops[0]), ops[1..], h);
      AliveStep(c.handles, ops, h, Do(c, ops[0]).handles);
    }
  }

  ghost function Clones<T>(ops: seq<Op<T>>): set<nat> {
    set i: nat | i < |ops| && ops[i].CloneSender?
  }

  ghost function Drops<T>(ops: seq<Op<T>>): set<nat> {
    set i: nat | i < |ops| && ops[i].DropSender?
  }

  lemma ClonesLast<T>(ops: seq<Op<T>>, op: Op<T>)
    ensures |Clones(ops + [op])| == |Clones(ops)| + if op.CloneSender? then 1 else 0
  {
    if op.CloneSender? {
      assert Clones(ops + [op]) == Clones(ops) + {|ops|};
    } else {
      assert Clones(ops + [op]) == Clones(ops);
    }
  }

  lemma DropsLast<T>(ops: seq<Op<T>>, op: Op<T>)
    ensures |Drops(ops + [op])| == |Drops(ops)| + if op.DropSender? then 1 else 0
  {
    if op.DropSender? {
      assert Drops(ops + [op]) == Drops(ops) + {|ops|};
    } else {
      assert Drops(ops + [op]) == Drops(ops);
    }
  }

  lemma {:induction false} RunSplit<T>(c: Channel<T>, ops: seq<Op<T>>, op: Op<T>)
    requires ChannelRun(c, ops + [op])
    ensures ChannelRun(c, ops) && CanDo(AfterOps(c, ops), op)
    ensures AfterOps(c, ops + [op]) == Do(AfterOps(c, ops), op)
    decreases |ops|
  {
    if ops == [] {
      assert ops + [op] == [op] && [op][1..] == [];
    } else {
      assert (ops + [op])[1..] == ops[1..] + [op];
      RunSplit(Do(c, ops[0]), ops[1..], op);
    }
  }

  /** `senders` is what it was, plus the clones, minus the drops. */
  lemma {:induction false} SendersCount<T>(c: Channel<T>, ops: seq<Op<T>>)
    requires ChannelRun(c, ops)
    ensures AfterOps(c, ops).senders == c.senders + |Clones(ops)| - |Drops(ops)|
    decreases |ops|
  {
    if ops != [] {
      var n := |ops| - 1;
      assert ops == ops[..n] + [ops[n]];
      RunSplit(c, ops[..n], ops[n]);
      SendersCount(c, ops[..n]);
      ClonesLast(ops[..n], ops[n]);
      DropsLast(ops[..n], ops[n]);
    }
  }

  /**
    For every run of a new channel: a poll answers the end iff the buffer is empty and every handle
    ever made, the first and all clones, has been dropped; then all accepted items were delivered.
   */
  lemma EndIffAllDropped<T>(cfg: Config, now: int, ops: seq<Op<T>>, r: PopReads)
    requires ChannelRun(NewChannel<T>(cfg, now), ops)
    ensures var d := AfterOps(NewChannel<T>(cfg, now), ops);
            && d.senders == 1 + |Clones(ops)| - |Drops(ops)|
            && (PollAnswer(d, r).End? <==> d.sys.q.buffer == [] && forall h: nat :: !Alive({0}, ops, h))
            && (PollAnswer(d, r).Pending? <==> d.sys.q.buffer == [] && exists h: nat :: Alive({0}, ops, h))
            && (PollAnswer(d, r).End? ==> multiset(d.sys.accepted) == multiset(ReturnedItems(d.sys.returned)))
  {
    var c := NewChannel<T>(cfg, now);
    var d := AfterOps(c, ops);
    NewIsSound<T>(cfg, now);
    ChannelRunOpen(c, ops, r);
    SendersCount(c, ops);
    EndIff(d, r);
    forall h: nat ensures h in d.handles <==> Alive({0}, ops, h) {
      HandlesAreAlive(c, ops, h);
    }
    if d.handles != {} {
      var h :| h in d.handles;
      assert Alive({0}, ops, h);
    }
  }
}
