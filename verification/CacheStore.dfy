/**
  The locked part of `AsyncLru`: the cache entries, the running size counter and the
  three critical sections that change them. `size` counts the memoized sizes of the
  Ready entries plus whatever was popped without being subtracted (`leaked` below).
 */
module CacheStore {
  import opened Prelude
  import opened LruOrder

  datatype Entry<V> = Ready(value: V, size: nat) | Waiting(chan: nat)

  datatype Store<K, V> = Store(cache: seq<Slot<K, Entry<V>>>, size: int, max: nat)

  function EntrySize<V>(e: Entry<V>): nat {
    if e.Ready? then e.size else 0
  }

  function SizeAt<K(==), V>(c: seq<Slot<K, Entry<V>>>, k: K): nat {
    match Lookup(c, k)
    case Some(e) => EntrySize(e)
    case None => 0
  }

  function Total<K, V>(c: seq<Slot<K, Entry<V>>>): nat {
    if c == [] then 0 else EntrySize(c[0].entry) + Total(c[1..])
  }

  // How many least recently used slots the trim loop pops.
  function Evictions<K, V>(c: seq<Slot<K, Entry<V>>>, size: int, max: nat): nat {
    if size <= max || c == [] then 0
    else 1 + Evictions(c[1..], size - EntrySize(c[0].entry), max)
  }

  // The store when the trim loop stops, normally or at its `expect`.
  function Trim<K, V>(st: Store<K, V>): Store<K, V>
    decreases |st.cache|
  {
    if st.size <= st.max || st.cache == [] then st
    else Trim(Store(st.cache[1..], st.size - EntrySize(st.cache[0].entry), st.max))
  }

  // The store just before trimming, after a successful build of `k`.
  function Insert<K(==), V>(st: Store<K, V>, k: K, v: V, size: nat): Store<K, V> {
    Store(Put(st.cache, k, Ready(v, size)), st.size + size - SizeAt(st.cache, k), st.max)
  }

  function Update<K(==), V>(st: Store<K, V>, k: K, r: Result<V>, size: nat): Store<K, V> {
    match r
    case Ok(v) => Trim(Insert(st, k, v, size))
    case Err => st.(cache := Remove(st.cache, k))
  }

  lemma {:induction false} TotalConcat<K, V>(a: seq<Slot<K, Entry<V>>>, b: seq<Slot<K, Entry<V>>>)
    ensures Total(a + b) == Total(a) + Total(b)
  {
    if a == [] {
      assert a + b == b;
    } else {
      TotalConcat(a[1..], b);
      assert (a + b)[1..] == a[1..] + b;
    }
  }

  lemma {:induction false} TotalRemove<K, V>(c: seq<Slot<K, Entry<V>>>, k: K)
    ensures Total(Remove(c, k)) == Total(c) - SizeAt(c, k)
  {
    if c != [] && c[0].key != k {
      TotalRemove(c[1..], k);
      assert Remove(c, k)[1..] == Remove(c[1..], k);
    }
  }

  lemma TotalPut<K, V>(c: seq<Slot<K, Entry<V>>>, k: K, e: Entry<V>)
    ensures Total(Put(c, k, e)) == Total(c) - SizeAt(c, k) + EntrySize(e)
  {
    TotalRemove(c, k);
    TotalConcat(Remove(c, k), [Slot(k, e)]);
  }

  /** The counter never runs below what it must still subtract. */
  lemma InsertAccounting<K, V>(st: Store<K, V>, k: K, v: V, size: nat, leaked: nat)
    requires st.size == Total(st.cache) + leaked
    ensures Insert(st, k, v, size).size == Total(Insert(st, k, v, size).cache) + leaked
  {
    TotalPut(st.cache, k, Ready(v, size));
  }

  /** Trimming drops a prefix of the recency order and keeps the accounting equation. */
  lemma {:induction false} TrimDropsPrefix<K, V>(st: Store<K, V>, leaked: nat)
    requires st.size == Total(st.cache) + leaked
    ensures var n := Evictions(st.cache, st.size, st.max);
            && n <= |st.cache|
            && Trim(st) == Store(st.cache[n..], st.size - Total(st.cache[..n]), st.max)
    ensures Trim(st).size == Total(Trim(st).cache) + leaked
    decreases |st.cache|
  {
    if st.size > st.max && st.cache != [] {
      var rest := Store(st.cache[1..], st.size - EntrySize(st.cache[0].entry), st.max);
      TrimDropsPrefix(rest, leaked);
      var n := Evictions(rest.cache, rest.size, st.max);
      DropOne(st.cache, n);
    }
  }

  lemma DropOne<T>(c: seq<T>, n: nat)
    requires n < |c|
    ensures c[..n + 1][1..] == c[1..][..n] && c[n + 1..] == c[1..][n..]
  {
  }

  /**
    The evicted prefix is the shortest one that brings the counter within `max`;
    the `expect` fires exactly when the leaked amount alone exceeds `max`.
   */
  lemma {:induction false} TrimIsShortest<K, V>(st: Store<K, V>, leaked: nat)
    requires st.size == Total(st.cache) + leaked
    ensures var n := Evictions(st.cache, st.size, st.max);
            && n <= |st.cache|
            && (forall m :: 0 <= m < n ==> st.size - Total(st.cache[..m]) > st.max)
            && (leaked <= st.max ==> st.size - Total(st.cache[..n]) <= st.max)
            && (leaked > st.max ==> n == |st.cache| && Trim(st).size == leaked)
    ensures Trim(st).size > st.max <==> leaked > st.max
    decreases |st.cache|
  {
    TrimDropsPrefix(st, leaked);
    if st.size > st.max && st.cache != [] {
      var rest := Store(st.cache[1..], st.size - EntrySize(st.cache[0].entry), st.max);
      TrimIsShortest(rest, leaked);
      var n := Evictions(st.cache, st.size, st.max);
      forall m | 0 <= m < n ensures st.size - Total(st.cache[..m]) > st.max {
        if m > 0 {
          assert st.cache[..m][1..] == rest.cache[..m - 1];
        }
      }
      assert st.cache[..n][1..] == rest.cache[..n - 1];
    }
  }

  /** The most recently used entry survives a trim exactly when it fits beside the leak. */
  lemma NewestSurvivesIff<K, V>(st: Store<K, V>, leaked: nat)
    requires st.size == Total(st.cache) + leaked && st.cache != [] && leaked <= st.max
    ensures Evictions(st.cache, st.size, st.max) < |st.cache|
       <==> EntrySize(st.cache[|st.cache| - 1].entry) + leaked <= st.max
  {
    TrimIsShortest(st, leaked);
    var last := |st.cache| - 1;
    assert st.cache == st.cache[..last] + [st.cache[last]];
    TotalConcat(st.cache[..last], [st.cache[last]]);
    var n := Evictions(st.cache, st.size, st.max);
    if n < |st.cache| {
      assert st.cache[..last] == st.cache[..n] + st.cache[n..last];
      TotalConcat(st.cache[..n], st.cache[n..last]);
    }
  }

  /** What one `update_value` does to the accounting, for both outcomes of the build. */
  lemma UpdateAccounting<K, V>(st: Store<K, V>, k: K, r: Result<V>, size: nat, leaked: nat)
    requires st.size == Total(st.cache) + leaked && st.size <= st.max && Distinct(st.cache)
    ensures var u := Update(st, k, r, size);
            && u.size == Total(u.cache) + leaked + (if r.Err? then SizeAt(st.cache, k) else 0)
            && u.size <= u.max == st.max
            && Distinct(u.cache)
  {
    match r
    case Ok(v) =>
      InsertAccounting(st, k, v, size, leaked);
      TrimDropsPrefix(Insert(st, k, v, size), leaked);
      TrimIsShortest(Insert(st, k, v, size), leaked);
      PutDistinct(st.cache, k, Ready(v, size));
    case Err =>
      TotalRemove(st.cache, k);
      RemoveMembers(st.cache, k);
  }

  // The slots that `update_value` evicts.
  function Evicted<K(==), V>(st: Store<K, V>, k: K, r: Result<V>, size: nat): seq<Slot<K, Entry<V>>> {
    match r
    case Ok(v) =>
      var ins := Insert(st, k, v, size);
      var n := Evictions(ins.cache, ins.size, ins.max);
      if n <= |ins.cache| then ins.cache[..n] else []
    case Err => []
  }

  lemma UpdateLookup<K, V>(st: Store<K, V>, k: K, r: Result<V>, size: nat, leaked: nat, j: K)
    requires st.size == Total(st.cache) + leaked && Distinct(st.cache)
    ensures Lookup(Update(st, k, r, size).cache, j) ==
              if Lookup(Evicted(st, k, r, size), j).Some? then None
              else if j != k then Lookup(st.cache, j)
              else if r.Ok? then Some(Ready(r.value, size)) else None
    ensures forall e :: j != k && Lookup(Evicted(st, k, r, size), j) == Some(e) ==> Lookup(st.cache, j) == Some(e)
  {
    match r
    case Ok(v) =>
      var ins := Insert(st, k, v, size);
      InsertAccounting(st, k, v, size, leaked);
      TrimDropsPrefix(ins, leaked);
      PutDistinct(st.cache, k, Ready(v, size));
      LookupPut(st.cache, k, Ready(v, size), j);
      var n := Evictions(ins.cache, ins.size, ins.max);
      LookupDrop(ins.cache, n, j);
      assert ins.cache == ins.cache[..n] + ins.cache[n..];
      LookupConcat(ins.cache[..n], ins.cache[n..], j);
    case Err =>
      LookupRemove(st.cache, k, j);
  }

  /** A freshly built value stays cached exactly when its size plus the leak fits in `max`. */
  lemma InsertedSurvivesIff<K, V>(st: Store<K, V>, k: K, v: V, size: nat, leaked: nat)
    requires st.size == Total(st.cache) + leaked && st.size <= st.max && Distinct(st.cache)
    ensures Lookup(Update(st, k, Ok(v), size).cache, k)
         == if size + leaked <= st.max then Some(Ready(v, size)) else None
  {
    var ins := Insert(st, k, v, size);
    InsertAccounting(st, k, v, size, leaked);
    NewestSurvivesIff(ins, leaked);
    TrimDropsPrefix(ins, leaked);
    PutDistinct(st.cache, k, Ready(v, size));
    var n, last := Evictions(ins.cache, ins.size, ins.max), |ins.cache| - 1;
    if n <= last {
      LookupAt(ins.cache[n..], last - n);
    }
  }

  datatype Status<V> = Hit(value: V) | Join(chan: nat) | Kickoff(chan: nat) | QueueFull

  function Answer<V>(e: Option<Entry<V>>, accepted: bool, newChan: nat): Status<V> {
    match e
    case Some(Ready(v, _)) => Hit(v)
    case Some(Waiting(c)) => Join(c)
    case None => if accepted then Kickoff(newChan) else QueueFull
  }

  // The cache after `get_sync`.
  function Request<K(==), V>(c: seq<Slot<K, Entry<V>>>, k: K, accepted: bool, newChan: nat)
    : seq<Slot<K, Entry<V>>>
  {
    if Lookup(c, k).None? && accepted then Put(c, k, Waiting(newChan)) else Touch(c, k)
  }

  /** A request changes no entry but the one it creates, and no size at all. */
  lemma RequestKeepsLookups<K, V>(c: seq<Slot<K, Entry<V>>>, k: K, accepted: bool, newChan: nat, j: K)
    requires Distinct(c)
    ensures var r := Request(c, k, accepted, newChan);
            && Distinct(r) && Total(r) == Total(c)
            && Lookup(r, j) == if j == k && Lookup(c, k).None? && accepted then Some(Waiting(newChan))
                               else Lookup(c, j)
  {
    if Lookup(c, k).None? && accepted {
      TotalPut(c, k, Waiting(newChan));
      PutDistinct(c, k, Waiting(newChan));
      LookupPut(c, k, Waiting(newChan), j);
    } else {
      LookupTouch(c, k, j);
      if Lookup(c, k).Some? {
        TotalPut(c, k, Lookup(c, k).value);
      }
    }
  }

  /** `Inner` behind its lock; `leaked` is the size of Ready entries popped unaccounted. */
  class Inner<K(==), V> {
    var cache: seq<Slot<K, Entry<V>>>
    var currentSize: nat
    const maxSize: nat
    ghost var leaked: nat

    ghost function View(): Store<K, V>
      reads this
    {
      Store(cache, currentSize, maxSize)
    }

    ghost predicate Valid()
      reads this
    {
      Distinct(cache) && currentSize == Total(cache) + leaked && currentSize <= maxSize
    }

    constructor (maxSize: nat)
      ensures Valid() && cache == [] && currentSize == 0 && leaked == 0 && this.maxSize == maxSize
    {
      this.maxSize := maxSize;
      cache, currentSize, leaked := [], 0, 0;
    }

    // `ok` is false when `pop_lru().expect(..)` panics. `currentSize` is unsigned: every
    // subtraction below is proved not to underflow.
    method TrimToSize() returns (ok: bool)
      requires currentSize == Total(cache) + leaked
      modifies this`cache, this`currentSize
      ensures View() == old(Trim(View()))
      ensures currentSize == Total(cache) + leaked
      ensures ok <==> leaked <= maxSize
      ensures ok <==> currentSize <= maxSize
    {
      TrimIsShortest(View(), leaked);
      while currentSize > maxSize
        invariant currentSize == Total(cache) + leaked
        invariant Trim(View()) == old(Trim(View()))
        decreases |cache|
      {
        if cache == [] {
          return false;
        }
        var evicted := cache[0].entry;
        cache := cache[1..];
        currentSize := currentSize - EntrySize(evicted);
      }
      ok := true;
    }

    // `size` is what the value reports now; it may report another size later.
    method UpdateValue(key: K, value: Result<V>, size: nat) returns (ok: bool)
      requires Valid()
      modifies this
      ensures Valid() && ok
      ensures View() == old(Update(View(), key, value, size))
      ensures leaked == old(leaked) + if value.Err? then old(SizeAt(cache, key)) else 0
    {
      UpdateAccounting(View(), key, value, size, leaked);
      match value
      case Ok(v) =>
        InsertAccounting(View(), key, v, size, leaked);
        currentSize := currentSize + size;
        var previous := Lookup(cache, key);
        cache := Put(cache, key, Ready(v, size));
        if previous.Some? {
          currentSize := currentSize - EntrySize(previous.value);
        }
        ok := TrimToSize();
      case Err =>
        leaked := leaked + SizeAt(cache, key);
        cache := Remove(cache, key);
        ok := true;
    }

    // `ok` is false when the popped entry was Ready and the call panics.
    method DropWaiting(key: K) returns (ok: bool)
      requires Valid()
      modifies this
      ensures Valid()
      ensures cache == old(Remove(cache, key)) && currentSize == old(currentSize)
      ensures leaked == old(leaked) + old(SizeAt(cache, key))
      ensures ok <==> !(old(Lookup(cache, key)).Some? && old(Lookup(cache, key)).value.Ready?)
    {
      TotalRemove(cache, key);
      RemoveMembers(cache, key);
      var popped := Lookup(cache, key);
      leaked := leaked + SizeAt(cache, key);
      cache := Remove(cache, key);
      ok := !(popped.Some? && popped.value.Ready?);
    }

    // `accepted` is the answer of `try_send`, `newChan` the channel of a new build.
    method GetSync(key: K, accepted: bool, newChan: nat) returns (status: Status<V>)
      requires Valid()
      modifies this`cache
      ensures Valid()
      ensures cache == old(Request(cache, key, accepted, newChan))
      ensures status == old(Answer(Lookup(cache, key), accepted, newChan))
    {
      RequestKeepsLookups(cache, key, accepted, newChan, key);
      match Lookup(cache, key)
      case Some(e) =>
        cache := Touch(cache, key);
        status := if e.Ready? then Hit(e.value) else Join(e.chan);
      case None =>
        if !accepted {
          return QueueFull;
        }
        cache := Put(cache, key, Waiting(newChan));
        status := Kickoff(newChan);
    }
  }
}
