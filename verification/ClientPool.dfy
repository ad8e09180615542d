/** `ClientPool`: first-fit sharing of clients, each lent to at most `max` borrowers. */
module ClientPool {
  import opened Prelude
  import opened Arith

  // `borrows[i]` is the strong count of client `i` minus the pool's own reference.
  type Pool = seq<nat>

  datatype Event = Get | Drop(client: nat)

  function Outstanding(borrows: Pool): nat {
    if borrows == [] then 0 else Outstanding(borrows[..|borrows| - 1]) + borrows[|borrows| - 1]
  }

  // The first client with capacity, or the position of a new one.
  function FirstFit(borrows: Pool, max: nat): (i: nat)
    ensures i <= |borrows| && (i < |borrows| ==> borrows[i] < max)
    ensures forall j :: 0 <= j < i ==> borrows[j] >= max
  {
    if borrows == [] || borrows[0] < max then 0 else 1 + FirstFit(borrows[1..], max)
  }

  function AfterGet(borrows: Pool, max: nat): Pool {
    var i := FirstFit(borrows, max);
    if i < |borrows| then borrows[i := borrows[i] + 1] else borrows + [1]
  }

  /**
    A get lends client `i` iff it is the first with capacity, and then its count alone goes up by
    one; with no such client a new one is made, lent once.
   */
  lemma GetLends(borrows: Pool, max: nat, i: nat)
    requires i <= |borrows| && forall j :: 0 <= j < i ==> borrows[j] >= max
    requires i < |borrows| ==> borrows[i] < max
    ensures FirstFit(borrows, max) == i
    ensures var b := AfterGet(borrows, max);
            && |b| == (if i < |borrows| then |borrows| else |borrows| + 1)
            && b[i] == (if i < |borrows| then borrows[i] + 1 else 1)
            && forall j :: 0 <= j < |borrows| && j != i ==> b[j] == borrows[j]
  {
    var f := FirstFit(borrows, max);
    assert !(f < i) && !(i < f);
  }

  predicate Enabled(borrows: Pool, e: Event) {
    e.Drop? ==> e.client < |borrows| && borrows[e.client] > 0
  }

  function Next(borrows: Pool, max: nat, e: Event): Pool
    requires Enabled(borrows, e)
  {
    match e
    case Get => AfterGet(borrows, max)
    case Drop(i) => borrows[i := borrows[i] - 1]
  }

  ghost predicate Run(borrows: Pool, max: nat, es: seq<Event>)
    decreases |es|
  {
    es == [] || (Enabled(borrows, es[0]) && Run(Next(borrows, max, es[0]), max, es[1..]))
  }

  ghost function After(borrows: Pool, max: nat, es: seq<Event>): Pool
    requires Run(borrows, max, es)
    decreases |es|
  {
    if es == [] then borrows else After(Next(borrows, max, es[0]), max, es[1..])
  }

  function Max(a: nat, b: nat): nat {
    if a >= b then a else b
  }

  // The greatest number of borrows outstanding at once during a run.
  ghost function Peak(borrows: Pool, max: nat, es: seq<Event>): nat
    requires Run(borrows, max, es)
    decreases |es|
  {
    if es == [] then Outstanding(borrows)
    else Max(Outstanding(borrows), Peak(Next(borrows, max, es[0]), max, es[1..]))
  }

  ghost predicate Capped(borrows: Pool, max: nat) {
    forall i :: 0 <= i < |borrows| ==> borrows[i] <= max
  }

  // `n` clients are exactly as many as `peak` concurrent borrows need.
  predicate Needed(n: nat, max: nat, peak: nat) {
    peak <= n * max && (n > 0 ==> (n - 1) * max < peak)
  }

  lemma {:induction false} OutstandingUpdate(borrows: Pool, i: nat, v: nat)
    requires i < |borrows|
    ensures Outstanding(borrows[i := v]) == Outstanding(borrows) - borrows[i] + v
  {
    var k := |borrows| - 1;
    if i < k {
      OutstandingUpdate(borrows[..k], i, v);
      assert borrows[i := v][..k] == borrows[..k][i := v];
    } else {
      assert borrows[i := v][..k] == borrows[..k];
    }
  }

  /** A pool of capped clients lends at most `max` times their number. */
  lemma {:induction false} OutstandingCapped(borrows: Pool, max: nat)
    requires Capped(borrows, max)
    ensures Outstanding(borrows) <= |borrows| * max
  {
    if borrows != [] {
      var k := |borrows| - 1;
      OutstandingCapped(borrows[..k], max);
      assert |borrows| * max == k * max + max;
    }
  }

  lemma {:induction false} OutstandingFull(borrows: Pool, max: nat)
    requires forall i :: 0 <= i < |borrows| ==> borrows[i] == max
    ensures Outstanding(borrows) == |borrows| * max
  {
    if borrows != [] {
      var k := |borrows| - 1;
      OutstandingFull(borrows[..k], max);
      assert |borrows| * max == k * max + max;
    }
  }

  lemma StepNeeded(borrows: Pool, max: nat, e: Event, peak: nat)
    requires Capped(borrows, max) && max > 0 && Enabled(borrows, e)
    requires Needed(|borrows|, max, peak) && Outstanding(borrows) <= peak
    ensures var b := Next(borrows, max, e);
            Capped(b, max) && Needed(|b|, max, Max(peak, Outstanding(b)))
  {
    var b := Next(borrows, max, e);
    var n := |borrows|;
    match e
    case Drop(i) => OutstandingUpdate(borrows, i, borrows[i] - 1);
    case Get =>
      var i := FirstFit(borrows, max);
      if i < n {
        OutstandingUpdate(borrows, i, borrows[i] + 1);
        OutstandingCapped(b, max);
      } else {
        OutstandingFull(borrows, max);
        assert b[..n] == borrows;
        assert Outstanding(b) == n * max + 1;
        assert (n + 1) * max == n * max + max;
      }
  }

  lemma {:induction false} RunNeeded(borrows: Pool, max: nat, es: seq<Event>, peak: nat)
    requires Capped(borrows, max) && max > 0 && Run(borrows, max, es)
    requires Needed(|borrows|, max, peak) && Outstanding(borrows) <= peak
    ensures var b := After(borrows, max, es);
            Capped(b, max) && Needed(|b|, max, Max(peak, Peak(borrows, max, es)))
    decreases |es|
  {
    if es != [] {
      StepNeeded(borrows, max, es[0], peak);
      var b := Next(borrows, max, es[0]);
      RunNeeded(b, max, es[1..], Max(peak, Outstanding(b)));
      PeakCovers(b, max, es[1..]);
    }
  }

  lemma PeakCovers(borrows: Pool, max: nat, es: seq<Event>)
    requires Run(borrows, max, es)
    ensures Peak(borrows, max, es) >= Outstanding(borrows)
  {
  }

  lemma CeilingOf(n: nat, max: nat, peak: nat)
    requires max > 0 && Needed(n, max, peak)
    ensures n == (peak + max - 1) / max
  {
    assert n > 0 ==> n * max == (n - 1) * max + max;
    QuotientIs(peak + max - 1, max, n);
  }

  /**
    Over every run from an empty pool: no client is lent more than `max` times, and exactly
    `ceil(peak / max)` clients have been created.
   */
  lemma ClientsCreated(max: nat, es: seq<Event>)
    requires max > 0 && Run([], max, es)
    ensures Capped(After([], max, es), max)
    ensures |After([], max, es)| == (Peak([], max, es) + max - 1) / max
  {
    RunNeeded([], max, es, 0);
    CeilingOf(|After([], max, es)|, max, Peak([], max, es));
  }

  /** No pool that respects the cap can do with fewer clients at the peak. */
  lemma FirstFitIsOptimal(max: nat, es: seq<Event>, other: Pool)
    requires max > 0 && Run([], max, es) && Capped(other, max) && Outstanding(other) == Peak([], max, es)
    ensures |After([], max, es)| <= |other|
  {
    RunNeeded([], max, es, 0);
    OutstandingCapped(other, max);
    var n, peak := |After([], max, es)|, Peak([], max, es);
    if n > |other| {
      MulMonotone(|other|, n - 1, max);
    }
  }

  class ClientPool {
    var borrows: seq<nat>
    const maxClientConcurrency: nat

    ghost predicate Valid()
      reads this
    {
      maxClientConcurrency > 0 && Capped(borrows, maxClientConcurrency)
    }

    constructor Empty(maxClientConcurrency: nat)
      ensures borrows == [] && this.maxClientConcurrency == maxClientConcurrency
    {
      this.maxClientConcurrency := maxClientConcurrency;
      borrows := [];
    }

    static method New(maxClientConcurrency: nat) returns (r: Result<ClientPool>)
      ensures r.Ok? <==> maxClientConcurrency > 0
      ensures r.Ok? ==> r.value.Valid() && r.value.borrows == []
                        && r.value.maxClientConcurrency == maxClientConcurrency
    {
      if maxClientConcurrency == 0 {
        return Err;
      }
      var pool := new ClientPool.Empty(maxClientConcurrency);
      r := Ok(pool);
    }

    method Get() returns (client: nat)
      requires Valid()
      modifies this
      ensures Valid()
      ensures client == old(FirstFit(borrows, maxClientConcurrency))
      ensures borrows == old(AfterGet(borrows, maxClientConcurrency))
      ensures borrows == if client < |old(borrows)| then old(borrows)[client := old(borrows)[client] + 1]
                         else old(borrows) + [1]
      ensures Enabled(old(borrows), Event.Get) && borrows == Next(old(borrows), maxClientConcurrency, Event.Get)
    {
      client := 0;
      while client < |borrows|
        invariant 0 <= client <= |borrows|
        invariant FirstFit(borrows, maxClientConcurrency)
               == client + FirstFit(borrows[client..], maxClientConcurrency)
      {
        if borrows[client] < maxClientConcurrency {
          borrows := borrows[client := borrows[client] + 1];
          return;
        }
        assert borrows[client..][1..] == borrows[client + 1..];
        client := client + 1;
      }
      borrows := borrows + [1];
    }

    method DropBorrow(client: nat)
      requires Valid() && client < |borrows| && borrows[client] > 0
      modifies this
      ensures Valid() && borrows == old(borrows)[client := old(borrows)[client] - 1]
      ensures Enabled(old(borrows), Drop(client)) && borrows == Next(old(borrows), maxClientConcurrency, Drop(client))
    {
      borrows := borrows[client := borrows[client] - 1];
    }
  }
}
