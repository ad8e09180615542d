/**
  Contract of the unbounded `lru::LruCache` that the cache is built on: a sequence
  of slots with distinct keys, from the least to the most recently used.
 */
module LruOrder {
  import opened Prelude

  datatype Slot<K, E> = Slot(key: K, entry: E)

  ghost predicate Distinct<K, E>(c: seq<Slot<K, E>>) {
    forall i, j :: 0 <= i < j < |c| ==> c[i].key != c[j].key
  }

  function Lookup<K(==), E>(c: seq<Slot<K, E>>, k: K): Option<E> {
    if c == [] then None
    else if c[0].key == k then Some(c[0].entry)
    else Lookup(c[1..], k)
  }

  // `pop`: the other slots keep their order.
  function Remove<K(==), E>(c: seq<Slot<K, E>>, k: K): seq<Slot<K, E>> {
    if c == [] then []
    else if c[0].key == k then c[1..]
    else [c[0]] + Remove(c[1..], k)
  }

  // `put`: the slot becomes the most recently used one.
  function Put<K(==), E>(c: seq<Slot<K, E>>, k: K, e: E): seq<Slot<K, E>> {
    Remove(c, k) + [Slot(k, e)]
  }

  // `get`: a hit becomes the most recently used slot, a miss changes nothing.
  function Touch<K(==), E>(c: seq<Slot<K, E>>, k: K): seq<Slot<K, E>> {
    match Lookup(c, k)
    case Some(e) => Put(c, k, e)
    case None => c
  }

  lemma {:induction false} LookupAt<K, E>(c: seq<Slot<K, E>>, i: nat)
    requires Distinct(c) && i < |c|
    ensures Lookup(c, c[i].key) == Some(c[i].entry)
  {
    if i > 0 {
      LookupAt(c[1..], i - 1);
    }
  }

  lemma {:induction false} LookupFinds<K, E>(c: seq<Slot<K, E>>, k: K) returns (i: nat)
    requires Lookup(c, k).Some?
    ensures i < |c| && c[i] == Slot(k, Lookup(c, k).value)
  {
    if c[0].key == k {
      i := 0;
    } else {
      var j := LookupFinds(c[1..], k);
      i := j + 1;
    }
  }

  lemma {:induction false} RemoveMembers<K, E>(c: seq<Slot<K, E>>, k: K)
    requires Distinct(c)
    ensures Distinct(Remove(c, k))
    ensures forall i :: 0 <= i < |Remove(c, k)| ==> Remove(c, k)[i].key != k && Remove(c, k)[i] in c
    ensures forall i :: 0 <= i < |c| && c[i].key != k ==> c[i] in Remove(c, k)
  {
    if c != [] && c[0].key != k {
      RemoveMembers(c[1..], k);
      var r := Remove(c[1..], k);
      forall i | 0 <= i < |r| ensures r[i].key != c[0].key && r[i] in c {
        var h :| 0 <= h < |c[1..]| && c[1..][h] == r[i];
        assert c[h + 1] == r[i];
      }
      forall i | 0 <= i < |c| && c[i].key != k ensures c[i] in [c[0]] + r {
        if i > 0 {
          assert c[1..][i - 1] in r;
        }
      }
    }
  }

  /** Among distinct keys, looking up is membership of the slot. */
  lemma LookupIsMember<K, E>(c: seq<Slot<K, E>>, k: K, e: E)
    requires Distinct(c)
    ensures Lookup(c, k) == Some(e) <==> Slot(k, e) in c
  {
    if Slot(k, e) in c {
      var i :| 0 <= i < |c| && c[i] == Slot(k, e);
      LookupAt(c, i);
    }
    if Lookup(c, k) == Some(e) {
      var i := LookupFinds(c, k);
    }
  }

  lemma LookupRemove<K, E>(c: seq<Slot<K, E>>, k: K, j: K)
    requires Distinct(c)
    ensures Lookup(Remove(c, k), j) == if j == k then None else Lookup(c, j)
  {
    RemoveMembers(c, k);
    var r := Remove(c, k);
    if Lookup(r, j).Some? {
      LookupIsMember(r, j, Lookup(r, j).value);
      LookupIsMember(c, j, Lookup(r, j).value);
    } else if Lookup(c, j).Some? {
      LookupIsMember(c, j, Lookup(c, j).value);
      LookupIsMember(r, j, Lookup(c, j).value);
    }
  }

  lemma PutDistinct<K, E>(c: seq<Slot<K, E>>, k: K, e: E)
    requires Distinct(c)
    ensures Distinct(Put(c, k, e))
  {
    RemoveMembers(c, k);
  }

  lemma LookupPut<K, E>(c: seq<Slot<K, E>>, k: K, e: E, j: K)
    requires Distinct(c)
    ensures Lookup(Put(c, k, e), j) == if j == k then Some(e) else Lookup(c, j)
  {
    RemoveMembers(c, k);
    PutDistinct(c, k, e);
    var p := Put(c, k, e);
    if j == k {
      LookupAt(p, |p| - 1);
    } else if Lookup(p, j).Some? {
      LookupIsMember(p, j, Lookup(p, j).value);
      LookupIsMember(c, j, Lookup(p, j).value);
    } else if Lookup(c, j).Some? {
      LookupIsMember(c, j, Lookup(c, j).value);
      LookupIsMember(p, j, Lookup(c, j).value);
    }
  }

  /** A read reorders the slots and changes no lookup. */
  lemma LookupTouch<K, E>(c: seq<Slot<K, E>>, k: K, j: K)
    requires Distinct(c)
    ensures Distinct(Touch(c, k)) && Lookup(Touch(c, k), j) == Lookup(c, j)
  {
    if Lookup(c, k).Some? {
      PutDistinct(c, k, Lookup(c, k).value);
      LookupPut(c, k, Lookup(c, k).value, j);
    }
  }

  /** Evicting the `n` least recently used slots loses exactly their keys. */
  lemma LookupDrop<K, E>(c: seq<Slot<K, E>>, n: nat, j: K)
    requires Distinct(c) && n <= |c|
    ensures Lookup(c[n..], j) == if Lookup(c[..n], j).Some? then None else Lookup(c, j)
  {
    if Lookup(c[..n], j).Some? {
      var h := LookupFinds(c[..n], j);
      assert c[h].key == j;
      if Lookup(c[n..], j).Some? {
        var i := LookupFinds(c[n..], j);
        assert false;
      }
    } else {
      LookupConcat(c[..n], c[n..], j);
      assert c == c[..n] + c[n..];
    }
  }

  lemma {:induction false} LookupConcat<K, E>(a: seq<Slot<K, E>>, b: seq<Slot<K, E>>, j: K)
    ensures Lookup(a + b, j) == if Lookup(a, j).Some? then Lookup(a, j) else Lookup(b, j)
  {
    if a == [] {
      assert a + b == b;
    } else {
      LookupConcat(a[1..], b, j);
      assert (a + b)[1..] == a[1..] + b;
    }
  }
}
