/** The cache order is the order of last use, so that what is evicted is least recently used. */
module LruRecency {
  import opened Prelude
  import opened LruOrder
  import opened CacheStore
  import opened AsyncLru

  // Slots are ordered by the time of their last use, all before `now`.
  ghost predicate Recent<K, E>(c: seq<Slot<K, E>>, used: map<K, nat>, now: nat) {
    && (forall i :: 0 <= i < |c| ==> c[i].key in used && used[c[i].key] < now)
    && (forall i, j :: 0 <= i < j < |c| ==> used[c[i].key] < used[c[j].key])
  }

  // A hit, a new request and a completed build use their key.
  function UsedKey<K(==), V(==)>(s: State<K, V>, e: Event<K, V>): Option<K>
    requires Enabled(s, e)
  {
    match e
    case Get(k) =>
      if Lookup(s.store.cache, k).Some? || |s.queue| < QUEUE_CAPACITY then Some(k) else None
    case Apply(c, _) =>
      if s.running[c].rest[0].1.Ok? then Some(s.running[c].rest[0].0) else None
    case _ => None
  }

  function NextUse<K(==), V(==)>(s: State<K, V>, e: Event<K, V>, used: map<K, nat>, now: nat): map<K, nat>
    requires Enabled(s, e)
  {
    match UsedKey(s, e)
    case Some(k) => used[k := now]
    case None => used
  }

  ghost function LastUse<K, V>(s: State<K, V>, es: seq<Event<K, V>>, used: map<K, nat>, now: nat): map<K, nat>
    requires Run(s, es)
    decreases |es|
  {
    if es == [] then used else LastUse(Next(s, es[0]), es[1..], NextUse(s, es[0], used, now), now + 1)
  }

  lemma HeadIsOldest<K, E>(c: seq<Slot<K, E>>, x: Slot<K, E>, used: map<K, nat>, now: nat)
    requires c != [] && Recent(c, used, now) && x in c[1..]
    ensures x.key in used && used[c[0].key] < used[x.key] < now
  {
    var h :| 0 <= h < |c[1..]| && c[1..][h] == x;
    assert c[h + 1] == x;
  }

  lemma ConsRecent<K, E>(x: Slot<K, E>, c: seq<Slot<K, E>>, used: map<K, nat>, now: nat)
    requires Recent(c, used, now) && x.key in used && used[x.key] < now
    requires forall j :: 0 <= j < |c| ==> used[x.key] < used[c[j].key]
    ensures Recent([x] + c, used, now)
  {
  }

  lemma {:induction false} RemoveKeepsRecency<K, E>(c: seq<Slot<K, E>>, k: K, used: map<K, nat>, now: nat)
    requires Recent(c, used, now) && Distinct(c)
    ensures Recent(Remove(c, k), used, now)
  {
    if c != [] && c[0].key != k {
      var tail := Remove(c[1..], k);
      RemoveKeepsRecency(c[1..], k, used, now);
      RemoveMembers(c[1..], k);
      forall j | 0 <= j < |tail| ensures used[c[0].key] < used[tail[j].key] {
        HeadIsOldest(c, tail[j], used, now);
      }
      ConsRecent(c[0], tail, used, now);
    }
  }

  lemma PutIsMostRecent<K, E>(c: seq<Slot<K, E>>, k: K, e: E, used: map<K, nat>, now: nat)
    requires Recent(c, used, now) && Distinct(c)
    ensures Recent(Put(c, k, e), used[k := now], now + 1)
  {
    RemoveKeepsRecency(c, k, used, now);
    RemoveMembers(c, k);
  }

  lemma DropKeepsRecency<K, E>(c: seq<Slot<K, E>>, n: nat, used: map<K, nat>, now: nat)
    requires Recent(c, used, now) && n <= |c|
    ensures Recent(c[n..], used, now)
    ensures forall i, j :: 0 <= i < n && 0 <= j < |c[n..]| ==> used[c[..n][i].key] < used[c[n..][j].key]
  {
  }

  lemma StepRecent<K, V>(s: State<K, V>, e: Event<K, V>, used: map<K, nat>, now: nat)
    requires Accounted(s) && Recent(s.store.cache, used, now) && Enabled(s, e)
    ensures Recent(Next(s, e).store.cache, NextUse(s, e, used, now), now + 1)
  {
    var c := s.store.cache;
    match e
    case Get(k) =>
      GetStore(s, k);
      RequestRecent(c, k, |s.queue| < QUEUE_CAPACITY, |s.keys|, used, now);
    case DropExpired(d) => RemoveKeepsRecency(c, s.keys[d], used, now);
    case Apply(d, size) =>
      var (k, r) := s.running[d].rest[0];
      UpdateRecent(s.store, k, r, size, s.leaked, used, now);
    case _ => assert Next(s, e).store == s.store;
  }

  lemma RequestRecent<K, V>(
    c: seq<Slot<K, Entry<V>>>, k: K, accepted: bool, newChan: nat, used: map<K, nat>, now: nat)
    requires Distinct(c) && Recent(c, used, now)
    ensures var u := if Lookup(c, k).Some? || accepted then used[k := now] else used;
            Recent(Request(c, k, accepted, newChan), u, now + 1)
  {
    if Lookup(c, k).Some? {
      PutIsMostRecent(c, k, Lookup(c, k).value, used, now);
    } else {
      PutIsMostRecent(c, k, Waiting(newChan), used, now);
    }
  }

  /** Every slot that `update_value` evicts was used before every slot it keeps. */
  lemma UpdateRecent<K, V>(st: Store<K, V>, k: K, r: Result<V>, size: nat, leaked: nat, used: map<K, nat>, now: nat)
    requires st.size == Total(st.cache) + leaked && Distinct(st.cache) && Recent(st.cache, used, now)
    ensures var u := if r.Ok? then used[k := now] else used;
            var kept, gone := Update(st, k, r, size).cache, Evicted(st, k, r, size);
            && Recent(kept, u, now + 1) && Recent(gone, u, now + 1)
            && forall i, j :: 0 <= i < |gone| && 0 <= j < |kept| ==> u[gone[i].key] < u[kept[j].key]
  {
    match r
    case Ok(v) =>
      var ins := Insert(st, k, v, size);
      InsertAccounting(st, k, v, size, leaked);
      TrimDropsPrefix(ins, leaked);
      PutIsMostRecent(st.cache, k, Ready(v, size), used, now);
      DropKeepsRecency(ins.cache, Evictions(ins.cache, ins.size, ins.max), used[k := now], now + 1);
    case Err => RemoveKeepsRecency(st.cache, k, used, now);
  }

  /** In every reachable state the slots stand in the order of their last use. */
  lemma {:induction false} RunRecent<K, V>(s: State<K, V>, es: seq<Event<K, V>>, used: map<K, nat>, now: nat)
    requires Accounted(s) && Recent(s.store.cache, used, now) && Run(s, es)
    ensures Recent(After(s, es).store.cache, LastUse(s, es, used, now), now + |es|)
    decreases |es|
  {
    if es != [] {
      StepAccounted(s, es[0]);
      StepRecent(s, es[0], used, now);
      RunRecent(Next(s, es[0]), es[1..], NextUse(s, es[0], used, now), now + 1);
    }
  }
}
