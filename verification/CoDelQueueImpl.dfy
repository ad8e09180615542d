/** The queue and its shared handle state as mutable objects, proved against `CoDelQueue`. */
module CoDelQueueImpl {
  import opened Prelude
  import Spec = CoDelQueue

  // `monotonic_now`: each read may be later than the one before, never earlier.
  class Clock {
    var now: int

    constructor (start: int)
      ensures now == start
    {
      now := start;
    }

    method Now() returns (t: int)
      modifies this
      ensures t == now >= old(now)
    {
      var elapsed :| elapsed >= 0;
      now := now + elapsed;
      t := now;
    }
  }

  class Queue<T> {
    const clock: Clock
    const cfg: Spec.Config
    var buffer: seq<Spec.Entry<T>>
    var lastTimeEmpty: int

    ghost function View(): Spec.Queue<T>
      reads this
    {
      Spec.Queue(buffer, lastTimeEmpty, cfg)
    }

    constructor (clock: Clock, cfg: Spec.Config)
      modifies clock
      ensures View() == Spec.New<T>(cfg, clock.now).q && this.clock == clock && this.cfg == cfg
    {
      this.clock, this.cfg, this.buffer := clock, cfg, [];
      var t := clock.Now();
      this.lastTimeEmpty := t;
    }

    // The size and latency metrics read the clock too, and change nothing.
    method LogMetrics()
      modifies clock
      ensures clock.now >= old(clock.now)
    {
      var idleRead := clock.Now();
      var sinceEmpty := clock.Now();
    }

    method UpdateLastTimeEmpty() returns (ghost read: int)
      modifies this`lastTimeEmpty, clock
      ensures View() == old(Spec.Refresh(View(), read))
      ensures old(clock.now) <= read <= clock.now
    {
      read := clock.now;
      if buffer == [] {
        var t := clock.Now();
        lastTimeEmpty, read := t, t;
      }
      LogMetrics();
    }

    method IsIdle() returns (idle: bool, ghost empty: int, ghost read: int)
      modifies this`lastTimeEmpty, clock
      ensures View() == old(Spec.Refresh(View(), empty))
      ensures idle == Spec.IsIdle(View(), read)
      ensures old(clock.now) <= empty <= read <= clock.now
    {
      empty := UpdateLastTimeEmpty();
      var t := clock.Now();
      read := t;
      idle := lastTimeEmpty + cfg.idleExpiration > t;
    }

    // `Err` is `QueueFull`.
    method Push(item: T) returns (r: Result<()>, ghost times: Spec.PushReads)
      modifies this, clock
      ensures r.Ok? <==> old(Spec.HasRoom(View()))
      ensures r.Err? ==> View() == old(View())
      ensures r.Ok? ==> View() == Spec.Push(old(View()), item, times)
      ensures Spec.PushOrdered(old(clock.now), times) && clock.now >= old(clock.now)
      ensures r.Ok? ==> times.deadline <= clock.now
      ensures r.Ok? <==> |old(buffer)| < cfg.capacity
      ensures r.Ok? ==>
                && lastTimeEmpty == (if old(buffer) == [] then times.empty else old(lastTimeEmpty))
                && |buffer| == |old(buffer)| + 1 && buffer[|old(buffer)|].item == item
                && buffer[|old(buffer)|].deadline == times.deadline +
                     if lastTimeEmpty + cfg.idleExpiration > times.idle then cfg.idleExpiration
                     else cfg.congestedExpiration
    {
      times := Spec.PushReads(clock.now, clock.now, clock.now);
      if |buffer| >= cfg.capacity {
        return Err, times;
      }
      ghost var first := UpdateLastTimeEmpty();
      var idle; ghost var empty, read;
      idle, empty, read := IsIdle();
      var expiration := if idle then cfg.idleExpiration else cfg.congestedExpiration;
      var t := clock.Now();
      times := Spec.PushReads(empty, read, t);
      buffer := buffer + [Spec.Entry(item, t + expiration, t, if idle then Spec.Idle else Spec.Congested)];
      r := Ok(());
    }

    method PopFront() returns (e: Option<Spec.Entry<T>>, ghost after: int)
      modifies this, clock
      ensures old(clock.now) <= after <= clock.now
      ensures old(buffer) == [] ==> e.None? && View() == old(Spec.Refresh(View(), after))
      ensures old(buffer) != [] ==>
                && e == Some(old(buffer)[0])
                && View() == old(Spec.Refresh(View().(buffer := buffer[1..]), after))
    {
      e := if buffer == [] then None else Some(buffer[0]);
      buffer := if buffer == [] then [] else buffer[1..];
      after := UpdateLastTimeEmpty();
    }

    method PopBack() returns (e: Option<Spec.Entry<T>>, ghost after: int)
      modifies this, clock
      ensures old(clock.now) <= after <= clock.now
      ensures old(buffer) == [] ==> e.None? && View() == old(Spec.Refresh(View(), after))
      ensures old(buffer) != [] ==>
                && e == Some(old(buffer)[|old(buffer)| - 1])
                && View() == old(Spec.Refresh(View().(buffer := buffer[..|buffer| - 1]), after))
    {
      e := if buffer == [] then None else Some(buffer[|buffer| - 1]);
      buffer := if buffer == [] then [] else buffer[..|buffer| - 1];
      after := UpdateLastTimeEmpty();
    }

    method Pop() returns (p: Option<Spec.Popped<T>>, ghost times: Spec.PopReads)
      modifies this, clock
      ensures (View(), p) == Spec.Pop(old(View()), times)
      ensures Spec.PopOrdered(old(clock.now), times) && times.after <= clock.now
    {
      var now := clock.Now();
      var e: Option<Spec.Entry<T>>;
      ghost var empty, read, after := now, now, now;
      if buffer != [] && buffer[0].deadline < now {
        e, after := PopFront();
      } else {
        var idle;
        idle, empty, read := IsIdle();
        if idle {
          e, after := PopFront();
        } else {
          e, after := PopBack();
        }
      }
      times := Spec.PopReads(now, empty, read, after);
      match e
      case None => p := None;
      case Some(entry) => p := Some(Spec.Popped(entry, entry.deadline < now));
    }
  }

  /** `Inner`, shared by all sender and receiver handles under one lock. */
  class Shared<T> {
    const queue: Queue<T>
    var senders: nat
    // The live handles, and what was accepted and returned so far.
    ghost var chan: Spec.Channel<T>

    ghost predicate Valid()
      reads this, queue, queue.clock
    {
      Spec.Open(chan) && chan.sys.q == queue.View() && chan.sys.clock <= queue.clock.now && chan.senders == senders
    }

    constructor (queue: Queue<T>)
      requires queue.View() == Spec.New<T>(queue.cfg, queue.clock.now).q
      ensures Valid() && this.queue == queue && chan == Spec.NewChannel(queue.cfg, queue.clock.now)
    {
      this.queue := queue;
      senders, chan := 1, Spec.NewChannel(queue.cfg, queue.clock.now);
      Spec.NewIsSound<T>(queue.cfg, queue.clock.now);
    }

    method CloneSender(ghost handle: nat, ghost newHandle: nat)
      requires Valid() && handle in chan.handles && newHandle !in chan.handles
      modifies this
      ensures Valid() && chan == Spec.Do(old(chan), Spec.CloneSender(handle, newHandle))
      ensures senders == old(senders) + 1 && chan.handles == old(chan).handles + {newHandle}
    {
      Spec.StepOpen(chan, Spec.CloneSender(handle, newHandle));
      senders := senders + 1;
      chan := Spec.Do(chan, Spec.CloneSender(handle, newHandle));
    }

    // `senders` is unsigned: a live handle proves that the subtraction does not underflow.
    method DropSender(ghost handle: nat)
      requires Valid() && handle in chan.handles
      modifies this
      ensures Valid() && chan == Spec.Do(old(chan), Spec.DropSender(handle))
      ensures senders == old(senders) - 1 && chan.handles == old(chan).handles - {handle}
    {
      Spec.StepOpen(chan, Spec.DropSender(handle));
      senders := senders - 1;
      chan := Spec.Do(chan, Spec.DropSender(handle));
    }

    method TrySend(ghost handle: nat, item: T) returns (r: Result<()>, ghost times: Spec.PushReads)
      requires Valid() && handle in chan.handles
      modifies this`chan, queue, queue.clock
      ensures Valid()
      ensures Spec.PushOrdered(old(queue.clock.now), times)
      ensures Spec.CanDo(old(chan), Spec.TrySend(handle, item, times))
      ensures chan == Spec.Do(old(chan), Spec.TrySend(handle, item, times))
      ensures r.Ok? <==> Spec.HasRoom(old(chan).sys.q)
      ensures chan.sys.accepted == if r.Ok? then old(chan).sys.accepted + [item] else old(chan).sys.accepted
    {
      r, times := queue.Push(item);
      Spec.StepOpen(chan, Spec.TrySend(handle, item, times));
      chan := Spec.Do(chan, Spec.TrySend(handle, item, times));
    }

    method PollNext() returns (answer: Spec.PollResult<T>, ghost times: Spec.PopReads)
      requires Valid()
      modifies this`chan, queue, queue.clock
      ensures Valid()
      ensures Spec.PopOrdered(old(queue.clock.now), times)
      ensures Spec.CanDo(old(chan), Spec.Poll(times))
      ensures chan == Spec.Do(old(chan), Spec.Poll(times)) && answer == Spec.PollAnswer(old(chan), times)
      ensures answer.Ready? <==> old(chan).sys.q.buffer != []
      ensures answer.End? <==> old(chan).sys.q.buffer == [] && chan.handles == {}
    {
      var p;
      p, times := queue.Pop();
      Spec.StepOpen(chan, Spec.Poll(times));
      chan := Spec.Do(chan, Spec.Poll(times));
      match p
      case Some(popped) => answer := Spec.Ready(popped);
      case None => answer := if senders == 0 then Spec.End else Spec.Pending;
    }
  }
}
