/**
  The id tracker: an in-memory table between search index ids and 16-byte Convex ids, and the
  static file it is written to, whose inverse direction is a compressed static function (CSF).
 */
module IdTracker {
  import opened Prelude
  import opened Bytes

  const VERSION: byte := 1

  type u32 = x: int | 0 <= x < U32_LIMIT

  type Id = s: seq<byte> | |s| == 16 witness [0, 0, 0, 0, 0, 0, 0, 0, 0, 0, 0, 0, 0, 0, 0, 0]

  // The `csf` crate: `build` from keys and a value width in bits, `get`, and its serialization.
  datatype CsfLib<!C> = CsfLib(
    build: (seq<Id>, nat) -> Option<C>,
    get: (C, Id) -> nat,
    encode: C -> seq<byte>,
    decode: seq<byte> -> Option<C>)

  // What the crate promises: member keys get their position back if it fits in the width. It
  // promises nothing about other keys.
  ghost predicate BuildLaw<C(!new)>(lib: CsfLib<C>) {
    forall ids, bits, i ::
      lib.build(ids, bits).Some? && 0 <= i < |ids| && i < Pow(2, bits) ==>
      lib.get(lib.build(ids, bits).value, ids[i]) == i
  }

  ghost predicate Lawful<C(!new)>(lib: CsfLib<C>) {
    BuildLaw(lib) && forall c :: lib.decode(lib.encode(c)) == Some(c)
  }

  datatype Tracker = Tracker(byIndex: map<u32, Id>, byConvex: map<Id, u32>)

  // ---------------------------------------------------------------- contiguous offsets

  predicate IsLastKey(m: map<u32, Id>, k: int) {
    k in m.Keys && forall j :: j in m.Keys ==> j <= k
  }

  // `check_invariants`: the greatest key is the length minus one.
  predicate Checks(m: map<u32, Id>) {
    m.Keys != {} ==> IsLastKey(m, |m| - 1)
  }

  ghost function Below(n: nat): (r: set<int>)
    ensures |r| == n && forall i :: i in r <==> 0 <= i < n
  {
    if n == 0 then {} else Below(n - 1) + {n - 1}
  }

  lemma SameSize(a: set<int>, b: set<int>)
    requires a <= b && |a| == |b|
    ensures a == b
  {
    assert b == a + (b - a);
  }

  /** The single check on the greatest key says that the keys are exactly `0..len-1`. */
  lemma ContiguousIff(m: map<u32, Id>)
    ensures Checks(m) <==> forall k: int :: k in m.Keys <==> 0 <= k < |m|
  {
    var keys: set<int> := set k | k in m.Keys;
    assert keys == m.Keys;
    if m.Keys != {} && Checks(m) {
      assert keys <= Below(|m|);
      SameSize(keys, Below(|m|));
      forall k: int ensures k in m.Keys <==> 0 <= k < |m| {
        assert k in keys <==> k in Below(|m|);
      }
    } else if m.Keys != {} && forall k: int :: k in m.Keys <==> 0 <= k < |m| {
      assert |m| - 1 in m.Keys;
    } else if m.Keys == {} {
      assert |m| == 0;
    }
  }

  // ---------------------------------------------------------------- bit width

  // `next_power_of_two().trailing_zeros()`.
  function IndexBits(n: nat): nat {
    if n <= 1 then 0 else 1 + IndexBits((n + 1) / 2)
  }

  /** The width is the least that holds every index below `n`. */
  lemma {:induction false} IndexBitsHold(n: nat)
    ensures n <= Pow(2, IndexBits(n))
    ensures IndexBits(n) > 0 ==> Pow(2, IndexBits(n) - 1) < n
  {
    if n > 1 {
      var h := (n + 1) / 2;
      IndexBitsHold(h);
    }
  }

  // ---------------------------------------------------------------- the file

  function Flat(ids: seq<Id>): (bs: seq<byte>)
    ensures |bs| == 16 * |ids|
  {
    if ids == [] then [] else Flat(ids[..|ids| - 1]) + ids[|ids| - 1]
  }

  lemma {:induction false} FlatSlice(ids: seq<Id>, i: nat)
    requires i < |ids|
    ensures Flat(ids)[16 * i..16 * i + 16] == ids[i]
  {
    var k := |ids| - 1;
    if i < k {
      FlatSlice(ids[..k], i);
      assert Flat(ids)[16 * i..16 * i + 16] == Flat(ids[..k])[16 * i..16 * i + 16];
    }
  }

  // The values of the table in key order.
  function Ids(m: map<u32, Id>): (ids: seq<Id>)
    requires forall k: int :: k in m.Keys <==> 0 <= k < |m|
    ensures |ids| == |m| && forall i :: 0 <= i < |m| ==> i in m.Keys && ids[i] == m[i]
  {
    seq(|m|, i requires 0 <= i < |m| => m[i])
  }

  function Encoded<C>(lib: CsfLib<C>, ids: seq<Id>): Result<seq<byte>> {
    var built := lib.build(ids, IndexBits(|ids|));
    if built.None? then Err
    else
      var index := lib.encode(built.value);
      if |ids| >= U32_LIMIT || |index| >= U32_LIMIT then Err
      else Ok([VERSION] + LeBytes(|ids|, 4) + LeBytes(|index|, 4) + Flat(ids) + index)
  }

  ghost function WriteSpec<C>(lib: CsfLib<C>, t: Tracker): Result<seq<byte>> {
    if !Checks(t.byIndex) then Err
    else
      ContiguousIff(t.byIndex);
      Encoded(lib, Ids(t.byIndex))
  }

  datatype Static<C> = Static(count: nat, idBuf: seq<byte>, csf: C)

  function LoadSpec<C>(lib: CsfLib<C>, fileLen: nat, bs: seq<byte>): (r: Result<Static<C>>)
    ensures r.Ok? ==> |r.value.idBuf| == 16 * r.value.count
  {
    if |bs| < 9 || bs[0] != VERSION then Err
    else
      var count, indexLen := LeNat(bs[1..5]), LeNat(bs[5..9]);
      var idsEnd := 9 + 16 * count;
      if idsEnd + indexLen != fileLen || |bs| < idsEnd then Err
      else
        var csf := lib.decode(bs[idsEnd..]);
        if csf.None? then Err else Ok(Static(count, bs[9..idsEnd], csf.value))
  }

  ghost predicate WellSized<C>(st: Static<C>) {
    |st.idBuf| == 16 * st.count
  }

  function GetConvexId<C>(st: Static<C>, i: nat): Option<Id>
    requires WellSized(st)
  {
    if i >= st.count then None else Some(st.idBuf[16 * i..16 * i + 16])
  }

  // The index is narrowed to a u32 at the end.
  function Lookup<C>(lib: CsfLib<C>, st: Static<C>, x: Id): Option<int>
    requires WellSized(st)
  {
    var i := lib.get(st.csf, x);
    match GetConvexId(st, i)
    case None => None
    case Some(found) => if x != found then None else Some(i % 0x1_0000_0000)
  }

  lemma GetOfMember<C(!new)>(lib: CsfLib<C>, ids: seq<Id>, i: nat)
    requires BuildLaw(lib) && lib.build(ids, IndexBits(|ids|)).Some? && i < |ids|
    ensures lib.get(lib.build(ids, IndexBits(|ids|)).value, ids[i]) == i
  {
    IndexBitsHold(|ids|);
  }

  /** A CSF can only be built for distinct keys, since the width holds every position. */
  lemma BuiltIdsAreDistinct<C(!new)>(lib: CsfLib<C>, ids: seq<Id>, i: nat, j: nat)
    requires BuildLaw(lib) && lib.build(ids, IndexBits(|ids|)).Some?
    requires i < |ids| && j < |ids| && ids[i] == ids[j]
    ensures i == j
  {
    GetOfMember(lib, ids, i);
    GetOfMember(lib, ids, j);
  }

  lemma LoadEncoded<C(!new)>(lib: CsfLib<C>, ids: seq<Id>)
    requires Lawful(lib) && Encoded(lib, ids).Ok?
    ensures var bs := Encoded(lib, ids).value;
            LoadSpec(lib, |bs|, bs) == Ok(Static(|ids|, Flat(ids), lib.build(ids, IndexBits(|ids|)).value))
  {
    var index := lib.encode(lib.build(ids, IndexBits(|ids|)).value);
    FileParts(|ids|, |index|, Flat(ids), index);
  }

  lemma FileParts(count: nat, indexLen: nat, ids: seq<byte>, index: seq<byte>)
    requires count < U32_LIMIT && indexLen < U32_LIMIT && |ids| == 16 * count
    ensures var bs := [VERSION] + LeBytes(count, 4) + LeBytes(indexLen, 4) + ids + index;
            && bs[0] == VERSION && LeNat(bs[1..5]) == count && LeNat(bs[5..9]) == indexLen
            && bs[9..9 + 16 * count] == ids && bs[9 + 16 * count..] == index
  {
    U32Width();
    LeNatOfLeBytes(count, 4);
    LeNatOfLeBytes(indexLen, 4);
    HeaderSlices(VERSION, LeBytes(count, 4), LeBytes(indexLen, 4), ids, index);
    BodySlices([VERSION] + LeBytes(count, 4) + LeBytes(indexLen, 4), ids, index);
  }

  /** The written file: version 1, the number of ids, the length of the index, the ids, the index. */
  lemma FileContents<C>(lib: CsfLib<C>, ids: seq<Id>, i: nat)
    requires Encoded(lib, ids).Ok? && i < |ids|
    ensures var bs := Encoded(lib, ids).value;
            var index := lib.encode(lib.build(ids, IndexBits(|ids|)).value);
            && |bs| == 9 + 16 * |ids| + |index| && bs[0] == 1
            && LeNat(bs[1..5]) == |ids| && LeNat(bs[5..9]) == |index|
            && bs[9 + 16 * i..9 + 16 * i + 16] == ids[i] && bs[9 + 16 * |ids|..] == index
  {
    var bs := Encoded(lib, ids).value;
    var index := lib.encode(lib.build(ids, IndexBits(|ids|)).value);
    FileParts(|ids|, |index|, Flat(ids), index);
    FlatSlice(ids, i);
    SliceOfSlice(bs, 9, 16 * |ids|, 16 * i, 16);
  }

  lemma SliceOfSlice(bs: seq<byte>, from: nat, n: nat, x: nat, k: nat)
    requires from + n <= |bs| && x + k <= n
    ensures bs[from..from + n][x..x + k] == bs[from + x..from + x + k]
  {
    var a := bs[from..from + n];
    assert forall i :: 0 <= i < n ==> a[i] == bs[from + i];
    var b := a[x..x + k];
    assert forall i :: 0 <= i < k ==> b[i] == a[x + i];
  }

  /** Writing succeeds iff the keys are `0..len-1`, the hash table can be built, and both lengths fit in 32 bits. */
  lemma WriteSucceedsIff<C>(lib: CsfLib<C>, t: Tracker)
    ensures WriteSpec(lib, t).Ok? <==>
            && (forall k: int :: k in t.byIndex.Keys <==> 0 <= k < |t.byIndex|)
            && var built := lib.build(Ids(t.byIndex), IndexBits(|t.byIndex|));
            && built.Some? && |t.byIndex| < 0x1_0000_0000 && |lib.encode(built.value)| < 0x1_0000_0000
  {
    ContiguousIff(t.byIndex);
  }

  /** A file is accepted iff it has version 1, the length its two counts ask for, and a readable index. */
  lemma AcceptedIff<C>(lib: CsfLib<C>, bs: seq<byte>)
    ensures LoadSpec(lib, |bs|, bs).Ok? <==>
            && |bs| >= 9 && bs[0] == 1
            && |bs| == 9 + 16 * LeNat(bs[1..5]) + LeNat(bs[5..9])
            && lib.decode(bs[9 + 16 * LeNat(bs[1..5])..]).Some?
  {
  }

  lemma HeaderSlices(v: byte, a: seq<byte>, b: seq<byte>, ids: seq<byte>, index: seq<byte>)
    requires |a| == |b| == 4
    ensures var bs := [v] + a + b + ids + index;
            |bs| >= 9 && bs[0] == v && bs[1..5] == a && bs[5..9] == b
  {
  }

  lemma BodySlices(header: seq<byte>, ids: seq<byte>, index: seq<byte>)
    ensures var bs, n := header + ids + index, |header|;
            bs[n..n + |ids|] == ids && bs[n + |ids|..] == index
  {
  }

  // The second check in `lookup` discards whatever the CSF says about other keys.
  lemma LookupValue<C>(lib: CsfLib<C>, ids: seq<Id>, csf: C, x: Id)
    requires |ids| < U32_LIMIT
    ensures var g := lib.get(csf, x);
            Lookup(lib, Static(|ids|, Flat(ids), csf), x) == if g < |ids| && ids[g] == x then Some(g) else None
  {
    var g := lib.get(csf, x);
    StoredId(ids, csf, g);
    if g < |ids| {
      Narrowing(g);
    }
  }

  lemma Narrowing(g: nat)
    requires g < U32_LIMIT
    ensures g % 0x1_0000_0000 == g
  {
  }

  lemma StoredId<C>(ids: seq<Id>, csf: C, g: nat)
    ensures GetConvexId(Static(|ids|, Flat(ids), csf), g) == if g < |ids| then Some(ids[g]) else None
  {
    if g < |ids| {
      FlatSlice(ids, g);
    }
  }

  /** Lookup in a loaded table answers for every 16-byte string, member or not. */
  lemma LookupIff<C(!new)>(lib: CsfLib<C>, ids: seq<Id>, x: Id, i: int)
    requires BuildLaw(lib) && Encoded(lib, ids).Ok?
    ensures var st := Static(|ids|, Flat(ids), lib.build(ids, IndexBits(|ids|)).value);
            Lookup(lib, st, x) == Some(i) <==> 0 <= i < |ids| && ids[i] == x
  {
    LookupValue(lib, ids, lib.build(ids, IndexBits(|ids|)).value, x);
    if 0 <= i < |ids| && ids[i] == x {
      GetOfMember(lib, ids, i);
    }
  }

  /**
    After a successful write and load, the static index agrees with the table it came from:
    same count, same forward direction, and `lookup(x) == Some(i)` iff the table holds `x` at `i`.
   */
  lemma StaticAgreesWithTable<C(!new)>(lib: CsfLib<C>, t: Tracker, x: Id, i: int)
    requires Lawful(lib) && WriteSpec(lib, t).Ok?
    ensures var bs := WriteSpec(lib, t).value;
            && LoadSpec(lib, |bs|, bs).Ok?
            && var st := LoadSpec(lib, |bs|, bs).value;
            && st.count == |t.byIndex|
            && (i >= 0 ==> GetConvexId(st, i) == if i in t.byIndex.Keys then Some(t.byIndex[i]) else None)
            && (Lookup(lib, st, x) == Some(i) <==> i in t.byIndex.Keys && t.byIndex[i] == x)
  {
    ContiguousIff(t.byIndex);
    var ids := Ids(t.byIndex);
    LoadEncoded(lib, ids);
    LookupIff(lib, ids, x, i);
    if 0 <= i < |ids| {
      FlatSlice(ids, i);
    }
  }

  // ---------------------------------------------------------------- the in-memory table

  // The two maps are inverse to each other.
  ghost predicate Inverse(t: Tracker) {
    && (forall i :: i in t.byIndex ==> t.byIndex[i] in t.byConvex && t.byConvex[t.byIndex[i]] == i)
    && (forall x :: x in t.byConvex ==> t.byConvex[x] in t.byIndex && t.byIndex[t.byConvex[x]] == x)
  }

  function Inserted(t: Tracker, i: u32, x: Id): Tracker {
    Tracker(t.byIndex[i := x], t.byConvex[x := i])
  }

  /** An insert keeps the maps inverse iff it reuses neither an index nor an id for another partner. */
  lemma InsertInverseIff(t: Tracker, i: u32, x: Id)
    requires Inverse(t)
    ensures Inverse(Inserted(t, i, x)) <==>
            (i in t.byIndex ==> t.byIndex[i] == x) && (x in t.byConvex ==> t.byConvex[x] == i)
  {
    var u := Inserted(t, i, x);
    if i in t.byIndex && t.byIndex[i] != x {
      var y := t.byIndex[i];
      assert y in u.byConvex && u.byConvex[y] == i && u.byIndex[i] == x;
    } else if x in t.byConvex && t.byConvex[x] != i {
      var j := t.byConvex[x];
      assert j in u.byIndex && u.byIndex[j] == x && u.byConvex[x] == i;
    }
  }

  /** For a table built by fresh inserts, static lookup is the in-memory `index_id`. */
  lemma LookupIsIndexId<C(!new)>(lib: CsfLib<C>, t: Tracker, x: Id)
    requires Lawful(lib) && WriteSpec(lib, t).Ok? && Inverse(t)
    ensures var bs := WriteSpec(lib, t).value;
            && LoadSpec(lib, |bs|, bs).Ok?
            && Lookup(lib, LoadSpec(lib, |bs|, bs).value, x) == if x in t.byConvex then Some(t.byConvex[x]) else None
  {
    var bs := WriteSpec(lib, t).value;
    StaticAgreesWithTable(lib, t, x, if x in t.byConvex then t.byConvex[x] else 0);
    var found := Lookup(lib, LoadSpec(lib, |bs|, bs).value, x);
    if found.Some? {
      StaticAgreesWithTable(lib, t, x, found.value);
    }
  }

  class MemoryIdTracker {
    var byIndexId: map<u32, Id>
    var byConvexId: map<Id, u32>

    ghost function View(): Tracker
      reads this
    {
      Tracker(byIndexId, byConvexId)
    }

    constructor ()
      ensures View() == Tracker(map[], map[]) && Inverse(View())
    {
      byIndexId, byConvexId := map[], map[];
    }

    method Insert(indexId: u32, convexId: Id)
      modifies this
      ensures View() == Inserted(old(View()), indexId, convexId)
      ensures forall j :: j in byIndexId <==> j in old(byIndexId) || j == indexId
      ensures forall j :: j in byIndexId ==> byIndexId[j] == if j == indexId then convexId else old(byIndexId)[j]
      ensures forall y :: y in byConvexId <==> y in old(byConvexId) || y == convexId
      ensures forall y :: y in byConvexId ==> byConvexId[y] == if y == convexId then indexId else old(byConvexId)[y]
      ensures old(Inverse(View())) ==>
                (Inverse(View()) <==>
                 && (indexId in old(byIndexId) ==> old(byIndexId)[indexId] == convexId)
                 && (convexId in old(byConvexId) ==> old(byConvexId)[convexId] == indexId))
    {
      ghost var before := View();
      byIndexId := byIndexId[indexId := convexId];
      byConvexId := byConvexId[convexId := indexId];
      if Inverse(before) {
        InsertInverseIff(before, indexId, convexId);
      }
    }

    method WriteIdTracker<C>(lib: CsfLib<C>) returns (r: Result<seq<byte>>)
      ensures r == WriteSpec(lib, View())
    {
      if !Checks(byIndexId) {
        return Err;
      }
      ContiguousIff(byIndexId);
      var convexIds := Ids(byIndexId);
      var built := lib.build(convexIds, IndexBits(|convexIds|));
      if built.None? {
        return Err;
      }
      var index := lib.encode(built.value);
      if |convexIds| >= U32_LIMIT || |index| >= U32_LIMIT {
        return Err;
      }
      var out: seq<byte> := [VERSION] + LeBytes(|convexIds|, 4) + LeBytes(|index|, 4);
      ghost var header := out;
      var i := 0;
      while i < |convexIds|
        invariant 0 <= i <= |convexIds|
        invariant out == header + Flat(convexIds[..i])
      {
        assert convexIds[..i + 1][..i] == convexIds[..i];
        out := out + convexIds[i];
        i := i + 1;
      }
      assert convexIds[..i] == convexIds;
      r := Ok(out + index);
    }
  }
}
