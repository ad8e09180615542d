/** `DeletedBitset`: one bit per document with a running count, and its file format. */
module DeletedBitset {
  import opened Prelude
  import opened Bytes

  const VERSION: byte := 1

  datatype Bits = Bits(deleted: seq<bool>, numDeleted: nat)

  function CountOnes(bits: seq<bool>): nat {
    if bits == [] then 0 else (if bits[0] then 1 else 0) + CountOnes(bits[1..])
  }

  ghost predicate Consistent(b: Bits) {
    b.numDeleted == CountOnes(b.deleted)
  }

  ghost function Ones(bits: seq<bool>): set<nat> {
    set i: nat | i < |bits| && bits[i]
  }

  lemma OnesLast(bits: seq<bool>, x: bool)
    ensures |Ones(bits + [x])| == |Ones(bits)| + if x then 1 else 0
  {
    if x {
      assert Ones(bits + [x]) == Ones(bits) + {|bits|};
    } else {
      assert Ones(bits + [x]) == Ones(bits);
    }
  }

  /** The count is the number of positions whose bit is set. */
  lemma {:induction false} CountIsOnes(bits: seq<bool>)
    ensures CountOnes(bits) == |Ones(bits)|
    decreases |bits|
  {
    if bits == [] {
      assert Ones(bits) == {};
    } else {
      var n := |bits| - 1;
      assert bits == bits[..n] + [bits[n]];
      CountIsOnes(bits[..n]);
      CountConcat(bits[..n], [bits[n]]);
      OnesLast(bits[..n], bits[n]);
    }
  }

  // ---------------------------------------------------------------- the format

  // `next_multiple_of(64) / 64`.
  function NumBlocks(n: nat): nat {
    (n + 63) / 64
  }

  /** The least number of 64-bit blocks that holds `n` bits. */
  lemma BlocksNeeded(n: nat)
    ensures 64 * NumBlocks(n) >= n && (n > 0 ==> 64 * (NumBlocks(n) - 1) < n) && (n == 0 ==> NumBlocks(n) == 0)
  {
  }

  function Zeros(n: nat): (z: seq<bool>)
    ensures |z| == n && forall i :: 0 <= i < n ==> !z[i]
  {
    seq(n, _ => false)
  }

  // The raw blocks hold the bits followed by cleared padding.
  function Padded(bits: seq<bool>): (p: seq<bool>)
    ensures |p| == 64 * NumBlocks(|bits|) && p[..|bits|] == bits
  {
    bits + Zeros(64 * NumBlocks(|bits|) - |bits|)
  }

  // 64 bits per block, each block a little-endian u64.
  function Pack(bits: seq<bool>, blocks: nat): (bs: seq<byte>)
    requires |bits| == 64 * blocks
    ensures |bs| == 8 * blocks
    decreases blocks
  {
    if blocks == 0 then [] else LeBytes(NatOf(bits[..64]), 8) + Pack(bits[64..], blocks - 1)
  }

  function Unpack(bs: seq<byte>, blocks: nat): (bits: seq<bool>)
    requires |bs| == 8 * blocks
    ensures |bits| == 64 * blocks
    decreases blocks
  {
    if blocks == 0 then [] else BitsOf(LeNat(bs[..8]), 64) + Unpack(bs[8..], blocks - 1)
  }

  function Header(count: nat, numDeleted: nat): (h: seq<byte>)
    ensures |h| == 9
  {
    [VERSION] + LeBytes(count, 4) + LeBytes(numDeleted, 4)
  }

  function WriteSpec(b: Bits): Result<seq<byte>> {
    if b.numDeleted != CountOnes(b.deleted) || |b.deleted| >= U32_LIMIT then Err
    else Ok(Header(|b.deleted|, b.numDeleted) + Pack(Padded(b.deleted), NumBlocks(|b.deleted|)))
  }

  // `fileLen` is the length the file system reports; `bs` is what the reader yields.
  function LoadSpec(fileLen: nat, bs: seq<byte>): Result<Bits> {
    if |bs| < 9 || bs[0] != VERSION then Err
    else
      var numBits, numDeleted := LeNat(bs[1..5]), LeNat(bs[5..9]);
      var end := 9 + 8 * NumBlocks(numBits);
      if numDeleted > numBits || fileLen != end || |bs| < end then Err
      else
        var deleted := Unpack(bs[9..end], NumBlocks(numBits))[..numBits];
        if CountOnes(deleted) == numDeleted then Ok(Bits(deleted, numDeleted)) else Err
  }

  lemma {:induction false} UnpackPack(bits: seq<bool>, blocks: nat)
    requires |bits| == 64 * blocks
    ensures Unpack(Pack(bits, blocks), blocks) == bits
    decreases blocks
  {
    if blocks > 0 {
      BlockOfBits(bits[..64]);
      UnpackPack(bits[64..], blocks - 1);
      var bs := Pack(bits, blocks);
      assert bs[..8] == LeBytes(NatOf(bits[..64]), 8) && bs[8..] == Pack(bits[64..], blocks - 1);
      assert bits == bits[..64] + bits[64..];
    }
  }

  lemma BlockOfBits(bits: seq<bool>)
    requires |bits| == 64
    ensures BitsOf(LeNat(LeBytes(NatOf(bits), 8)), 64) == bits
  {
    BitsOfNatOf(bits);
    PowOfPow(8);
    LeNatOfLeBytes(NatOf(bits), 8);
  }

  lemma BlockOfBytes(bs: seq<byte>)
    requires |bs| == 8
    ensures LeBytes(NatOf(BitsOf(LeNat(bs), 64)), 8) == bs
  {
    LeBytesOfLeNat(bs);
    PowOfPow(8);
    NatOfBitsOf(LeNat(bs), 64);
  }

  lemma {:induction false} PackUnpack(bs: seq<byte>, blocks: nat)
    requires |bs| == 8 * blocks
    ensures Pack(Unpack(bs, blocks), blocks) == bs
    decreases blocks
  {
    if blocks > 0 {
      BlockOfBytes(bs[..8]);
      PackUnpack(bs[8..], blocks - 1);
      var bits := Unpack(bs, blocks);
      assert bits[..64] == BitsOf(LeNat(bs[..8]), 64) && bits[64..] == Unpack(bs[8..], blocks - 1);
      assert bs == bs[..8] + bs[8..];
    }
  }

  lemma {:induction false} CountBounded(bits: seq<bool>)
    ensures CountOnes(bits) <= |bits|
  {
    if bits != [] {
      CountBounded(bits[1..]);
    }
  }

  lemma {:induction false} CountConcat(a: seq<bool>, b: seq<bool>)
    ensures CountOnes(a + b) == CountOnes(a) + CountOnes(b)
  {
    if a == [] {
      assert a + b == b;
    } else {
      CountConcat(a[1..], b);
      assert (a + b)[1..] == a[1..] + b;
    }
  }

  lemma HeaderFields(count: nat, numDeleted: nat, body: seq<byte>)
    requires count < U32_LIMIT && numDeleted < U32_LIMIT
    ensures var bs := Header(count, numDeleted) + body;
            bs[0] == VERSION && LeNat(bs[1..5]) == count && LeNat(bs[5..9]) == numDeleted
  {
    var bs := Header(count, numDeleted) + body;
    U32Width();
    LeNatOfLeBytes(count, 4);
    LeNatOfLeBytes(numDeleted, 4);
    assert bs[1..5] == LeBytes(count, 4) && bs[5..9] == LeBytes(numDeleted, 4);
  }

  /** Writing succeeds exactly for consistent bitsets below 2^32 bits, and loading restores them. */
  lemma LoadAfterWrite(b: Bits)
    ensures WriteSpec(b).Ok? <==> Consistent(b) && |b.deleted| < U32_LIMIT
    ensures WriteSpec(b).Ok? ==>
              && |WriteSpec(b).value| == 9 + 8 * NumBlocks(|b.deleted|)
              && LoadSpec(|WriteSpec(b).value|, WriteSpec(b).value) == Ok(b)
  {
    if WriteSpec(b).Ok? {
      var n := |b.deleted|;
      CountBounded(b.deleted);
      var body := Pack(Padded(b.deleted), NumBlocks(n));
      HeaderFields(n, b.numDeleted, body);
      UnpackPack(Padded(b.deleted), NumBlocks(n));
      var bs := WriteSpec(b).value;
      assert bs[9..9 + 8 * NumBlocks(n)] == body;
    }
  }

  lemma {:induction false} NatOfConcat(a: seq<bool>, b: seq<bool>)
    ensures NatOf(a + b) == NatOf(a) + Pow(2, |a|) * NatOf(b)
  {
    if a == [] {
      assert a + b == b;
    } else {
      NatOfConcat(a[1..], b);
      assert (a + b)[1..] == a[1..] + b;
      Doubled(Pow(2, |a| - 1), NatOf(b));
    }
  }

  lemma Doubled(p: nat, n: nat)
    ensures (2 * p) * n == 2 * (p * n)
  {
  }

  /** Byte `j` of a little-endian number made of bits holds bits `8j .. 8j+7`, low bit first. */
  lemma {:induction false} LeBytesOfBits(bits: seq<bool>, width: nat, j: nat)
    requires |bits| == 8 * width && j < width
    ensures LeBytes(NatOf(bits), width)[j] == NatOf(bits[8 * j..8 * j + 8])
    decreases width
  {
    var high := bits[8..];
    LowByte(bits);
    if j == 0 {
      assert bits[0..8] == bits[..8];
    } else {
      LeBytesOfBits(high, width - 1, j - 1);
      SliceShift(bits, 8, 8 * (j - 1), 8);
    }
  }

  lemma SliceShift<T>(s: seq<T>, a: nat, x: nat, n: nat)
    requires a + x + n <= |s|
    ensures s[a..][x..x + n] == s[a + x..a + x + n]
  {
  }

  lemma LowByte(bits: seq<bool>)
    requires |bits| >= 8
    ensures NatOf(bits) % 256 == NatOf(bits[..8]) && NatOf(bits) / 256 == NatOf(bits[8..])
  {
    assert bits == bits[..8] + bits[8..];
    SplitByte(bits[..8], bits[8..]);
    DivMod256(NatOf(bits[..8]), NatOf(bits[8..]));
  }

  lemma SplitByte(low: seq<bool>, high: seq<bool>)
    requires |low| == 8
    ensures NatOf(low + high) == NatOf(low) + 256 * NatOf(high) && NatOf(low) < 256
  {
    ByteRange();
    NatOfConcat(low, high);
    BitsOfNatOf(low);
  }

  lemma ByteRange()
    ensures Pow(2, 8) == 256
  {
    PowOfPow(1);
    assert Pow(256, 1) == 256 * Pow(256, 0);
  }

  lemma DivMod256(low: nat, high: nat)
    requires low < 256
    ensures (low + 256 * high) % 256 == low && (low + 256 * high) / 256 == high
  {
  }

  lemma {:induction false} PackLayout(bits: seq<bool>, blocks: nat, j: nat)
    requires |bits| == 64 * blocks && j < 8 * blocks
    ensures Pack(bits, blocks)[j] == NatOf(bits[8 * j..8 * j + 8])
    decreases blocks
  {
    if j < 8 {
      LeBytesOfBits(bits[..64], 8, j);
      assert bits[..64][8 * j..8 * j + 8] == bits[8 * j..8 * j + 8];
    } else {
      PackLayout(bits[64..], blocks - 1, j - 8);
      SliceShift(bits, 64, 8 * (j - 8), 8);
    }
  }

  /** The layout of a written file: byte `9 + j` holds bits `8j .. 8j+7` of the padded bitset. */
  lemma FileLayout(b: Bits, j: nat)
    requires WriteSpec(b).Ok? && j < 8 * NumBlocks(|b.deleted|)
    ensures BitsOf(WriteSpec(b).value[9 + j], 8) == Padded(b.deleted)[8 * j..8 * j + 8]
  {
    var p := Padded(b.deleted);
    PackLayout(p, NumBlocks(|b.deleted|), j);
    BitsOfNatOf(p[8 * j..8 * j + 8]);
  }

  /** Bit `i` of the set, counted from the low end of byte `9 + i / 8`; the header holds the two counts. */
  lemma BitInFile(b: Bits, i: nat)
    requires WriteSpec(b).Ok? && i < |b.deleted|
    ensures var bs := WriteSpec(b).value;
            && 9 + i / 8 < |bs| && (b.deleted[i] <==> bs[9 + i / 8] / Pow(2, i % 8) % 2 == 1)
            && bs[0] == 1 && LeNat(bs[1..5]) == |b.deleted| && LeNat(bs[5..9]) == |Ones(b.deleted)|
  {
    var bs, j := WriteSpec(b).value, i / 8;
    FileLayout(b, j);
    BitsOfAt(bs[9 + j], 8, i % 8);
    assert Padded(b.deleted)[8 * j..8 * j + 8][i % 8] == Padded(b.deleted)[i] == b.deleted[i];
    CountBounded(b.deleted);
    CountIsOnes(b.deleted);
    HeaderFields(|b.deleted|, b.numDeleted, Pack(Padded(b.deleted), NumBlocks(|b.deleted|)));
  }

  // The bits of an accepted file, padding included.
  function RawBits(bs: seq<byte>, count: nat): (raw: seq<bool>)
    requires |bs| == 9 + 8 * NumBlocks(count)
    ensures |raw| == 64 * NumBlocks(count)
  {
    Unpack(bs[9..], NumBlocks(count))
  }

  lemma LoadedFile(bs: seq<byte>)
    requires LoadSpec(|bs|, bs).Ok?
    ensures var b := LoadSpec(|bs|, bs).value;
            var n := |b.deleted|;
            && n < U32_LIMIT && Header(n, b.numDeleted) == bs[..9]
            && |bs| == 9 + 8 * NumBlocks(n) && Consistent(b)
            && b.deleted == RawBits(bs, n)[..n]
  {
    U32Width();
    LeBytesOfLeNat(bs[1..5]);
    LeBytesOfLeNat(bs[5..9]);
    assert bs[..9] == [bs[0]] + bs[1..5] + bs[5..9];
    assert bs[9..] == bs[9..9 + 8 * NumBlocks(LeNat(bs[1..5]))];
  }

  /**
    A file is accepted iff it starts with version 1, has exactly the length its bit count asks for,
    and its second count is the number of ones among that many bits.
   */
  lemma AcceptedIff(bs: seq<byte>)
    ensures LoadSpec(|bs|, bs).Ok? <==>
            && |bs| >= 9 && bs[0] == 1 && |bs| == 9 + 8 * NumBlocks(LeNat(bs[1..5]))
            && |Ones(RawBits(bs, LeNat(bs[1..5]))[..LeNat(bs[1..5])])| == LeNat(bs[5..9])
  {
    if |bs| >= 9 && |bs| == 9 + 8 * NumBlocks(LeNat(bs[1..5])) {
      var n := LeNat(bs[1..5]);
      var bits := RawBits(bs, n)[..n];
      assert bs[9..] == bs[9..9 + 8 * NumBlocks(n)];
      CountIsOnes(bits);
      CountBounded(bits);
    }
  }

  lemma WrittenFile(b: Bits)
    requires Consistent(b) && |b.deleted| < U32_LIMIT
    ensures var n, bs := |b.deleted|, WriteSpec(b).value;
            && |bs| == 9 + 8 * NumBlocks(n) && bs[..9] == Header(n, b.numDeleted)
            && RawBits(bs, n) == Padded(b.deleted)
  {
    var n, bs := |b.deleted|, WriteSpec(b).value;
    UnpackPack(Padded(b.deleted), NumBlocks(n));
    assert bs[9..] == Pack(Padded(b.deleted), NumBlocks(n));
  }

  /**
    Writing what was loaded gives back the file with its padding cleared: the same header,
    the same `count` bits, and zeros after them.
   */
  lemma WriteAfterLoad(bs: seq<byte>) returns (b: Bits, out: seq<byte>)
    requires LoadSpec(|bs|, bs).Ok?
    ensures LoadSpec(|bs|, bs) == Ok(b) && WriteSpec(b) == Ok(out)
    ensures |out| == |bs| == 9 + 8 * NumBlocks(|b.deleted|) && out[..9] == bs[..9]
    ensures var n := |b.deleted|;
            RawBits(out, n) == RawBits(bs, n)[..n] + Zeros(64 * NumBlocks(n) - n)
  {
    LoadedFile(bs);
    b := LoadSpec(|bs|, bs).value;
    WrittenFile(b);
    out := WriteSpec(b).value;
  }

  lemma SameFile(a: seq<byte>, b: seq<byte>, n: nat)
    requires |a| == |b| == 9 + 8 * NumBlocks(n) && a[..9] == b[..9] && RawBits(a, n) == RawBits(b, n)
    ensures a == b
  {
    PackUnpack(a[9..], NumBlocks(n));
    PackUnpack(b[9..], NumBlocks(n));
    assert a == a[..9] + a[9..] && b == b[..9] + b[9..];
  }

  /** The file is reproduced byte for byte iff its padding bits were already clear. */
  lemma ReproducedIff(bs: seq<byte>) returns (b: Bits, out: seq<byte>)
    requires LoadSpec(|bs|, bs).Ok?
    ensures LoadSpec(|bs|, bs) == Ok(b) && WriteSpec(b) == Ok(out)
    ensures |bs| == 9 + 8 * NumBlocks(|b.deleted|)
    ensures out == bs <==> forall i :: |b.deleted| <= i < 64 * NumBlocks(|b.deleted|) ==> !RawBits(bs, |b.deleted|)[i]
  {
    b, out := WriteAfterLoad(bs);
    var n := |b.deleted|;
    var raw := RawBits(bs, n);
    if forall i :: n <= i < |raw| ==> !raw[i] {
      assert raw == raw[..n] + Zeros(|raw| - n);
      SameFile(out, bs, n);
    }
  }

  // ---------------------------------------------------------------- the mutable bitset

  function Resized(bits: seq<bool>, size: nat): (r: seq<bool>)
    ensures |r| == size
  {
    if size <= |bits| then bits[..size] else bits + Zeros(size - |bits|)
  }

  /** `resize` keeps the count right exactly when it drops no deleted bit. */
  lemma ResizeConsistentIff(b: Bits, size: nat)
    requires Consistent(b)
    ensures Consistent(Bits(Resized(b.deleted, size), b.numDeleted))
       <==> forall i :: size <= i < |b.deleted| ==> !b.deleted[i]
  {
    if size <= |b.deleted| {
      CountConcat(b.deleted[..size], b.deleted[size..]);
      assert b.deleted == b.deleted[..size] + b.deleted[size..];
      CountZeroIff(b.deleted[size..]);
      if forall i :: size <= i < |b.deleted| ==> !b.deleted[i] {
        assert forall i :: 0 <= i < |b.deleted[size..]| ==> !b.deleted[size..][i];
      } else {
        var i :| size <= i < |b.deleted| && b.deleted[i];
        assert b.deleted[size..][i - size];
      }
    } else {
      CountConcat(b.deleted, Zeros(size - |b.deleted|));
      CountZeroIff(Zeros(size - |b.deleted|));
    }
  }

  lemma {:induction false} CountZeroIff(bits: seq<bool>)
    ensures CountOnes(bits) == 0 <==> forall i :: 0 <= i < |bits| ==> !bits[i]
  {
    if bits != [] {
      CountZeroIff(bits[1..]);
      if forall i :: 0 <= i < |bits[1..]| ==> !bits[1..][i] {
        assert forall i :: 0 < i < |bits| ==> bits[i] == bits[1..][i - 1];
      } else {
        var i :| 0 <= i < |bits[1..]| && bits[1..][i];
        assert bits[i + 1];
      }
    }
  }

  lemma CountSet(bits: seq<bool>, i: nat)
    requires i < |bits| && !bits[i]
    ensures CountOnes(bits[i := true]) == CountOnes(bits) + 1
  {
    var a, b := bits[..i], bits[i + 1..];
    assert bits == a + [false] + b && bits[i := true] == a + [true] + b;
    CountConcat(a + [false], b);
    CountConcat(a, [false]);
    CountConcat(a + [true], b);
    CountConcat(a, [true]);
  }

  lemma AppendAssoc<T>(a: seq<T>, b: seq<T>, c: seq<T>)
    ensures (a + b) + c == a + (b + c)
  {
  }

  function Block(raw: seq<bool>, i: nat): seq<byte>
    requires 64 * i + 64 <= |raw|
  {
    LeBytes(NatOf(raw[64 * i..64 * i + 64]), 8)
  }

  ghost function PackFrom(raw: seq<bool>, blocks: nat, i: nat): seq<byte>
    requires |raw| == 64 * blocks && i <= blocks
  {
    Pack(raw[64 * i..], blocks - i)
  }

  lemma PackStep(raw: seq<bool>, blocks: nat, i: nat)
    requires |raw| == 64 * blocks && i < blocks
    ensures PackFrom(raw, blocks, i) == Block(raw, i) + PackFrom(raw, blocks, i + 1)
  {
    var rest := raw[64 * i..];
    assert rest[..64] == raw[64 * i..64 * i + 64] && rest[64..] == raw[64 * (i + 1)..];
  }

  lemma PackWrites(out: seq<byte>, raw: seq<bool>, blocks: nat, i: nat)
    requires |raw| == 64 * blocks && i < blocks
    ensures (out + Block(raw, i)) + PackFrom(raw, blocks, i + 1) == out + PackFrom(raw, blocks, i)
  {
    PackStep(raw, blocks, i);
    AppendAssoc(out, Block(raw, i), PackFrom(raw, blocks, i + 1));
  }

  function UnpackedBlock(raw: seq<byte>, i: nat): seq<bool>
    requires 8 * i + 8 <= |raw|
  {
    BitsOf(LeNat(raw[8 * i..8 * i + 8]), 64)
  }

  ghost function UnpackFrom(raw: seq<byte>, blocks: nat, i: nat): seq<bool>
    requires |raw| == 8 * blocks && i <= blocks
  {
    Unpack(raw[8 * i..], blocks - i)
  }

  lemma UnpackStep(raw: seq<byte>, blocks: nat, i: nat)
    requires |raw| == 8 * blocks && i < blocks
    ensures UnpackFrom(raw, blocks, i) == UnpackedBlock(raw, i) + UnpackFrom(raw, blocks, i + 1)
  {
    var rest := raw[8 * i..];
    assert rest[..8] == raw[8 * i..8 * i + 8] && rest[8..] == raw[8 * (i + 1)..];
  }

  lemma UnpackReads(buf: seq<bool>, raw: seq<byte>, blocks: nat, i: nat)
    requires |raw| == 8 * blocks && i < blocks
    ensures (buf + UnpackedBlock(raw, i)) + UnpackFrom(raw, blocks, i + 1) == buf + UnpackFrom(raw, blocks, i)
  {
    UnpackStep(raw, blocks, i);
    AppendAssoc(buf, UnpackedBlock(raw, i), UnpackFrom(raw, blocks, i + 1));
  }

  lemma WholePack(raw: seq<bool>, blocks: nat)
    requires |raw| == 64 * blocks
    ensures PackFrom(raw, blocks, 0) == Pack(raw, blocks) && PackFrom(raw, blocks, blocks) == []
  {
    assert raw[0..] == raw;
  }

  lemma WholeUnpack(raw: seq<byte>, blocks: nat)
    requires |raw| == 8 * blocks
    ensures UnpackFrom(raw, blocks, 0) == Unpack(raw, blocks) && UnpackFrom(raw, blocks, blocks) == []
  {
    assert raw[0..] == raw;
  }

  class DeletedBitset {
    var deleted: seq<bool>
    var numDeleted: nat

    ghost function View(): Bits
      reads this
    {
      Bits(deleted, numDeleted)
    }

    constructor (count: nat)
      ensures Consistent(View()) && |deleted| == count && numDeleted == 0
    {
      deleted, numDeleted := Zeros(count), 0;
      new;
      CountZeroIff(deleted);
    }

    method Resize(size: nat)
      modifies this`deleted
      ensures |deleted| == size
      ensures forall i :: 0 <= i < size ==> deleted[i] == (i < |old(deleted)| && old(deleted)[i])
      ensures old(Consistent(View())) ==>
                (Consistent(View()) <==> forall i :: size <= i < |old(deleted)| ==> !old(deleted)[i])
    {
      if Consistent(View()) {
        ResizeConsistentIff(View(), size);
      }
      deleted := Resized(deleted, size);
    }

    // Ids past the end count as deleted.
    predicate IsDeleted(id: nat)
      reads this
    {
      id >= |deleted| || deleted[id]
    }

    method Delete(id: nat) returns (r: Result<()>)
      modifies this
      ensures r.Ok? <==> id < |old(deleted)| && !old(deleted)[id]
      ensures r.Ok? ==> deleted == old(deleted)[id := true]
      ensures r.Err? ==> View() == old(View())
      ensures forall j: nat :: IsDeleted(j) <==> old(IsDeleted(j)) || (r.Ok? && j == id)
      ensures r.Ok? ==> numDeleted == old(numDeleted) + 1 && |deleted| == |old(deleted)|
      ensures old(Consistent(View())) ==> Consistent(View())
    {
      if IsDeleted(id) {
        return Err;
      }
      CountSet(deleted, id);
      deleted := deleted[id := true];
      numDeleted := numDeleted + 1;
      r := Ok(());
    }

    method Write() returns (r: Result<seq<byte>>)
      ensures r == WriteSpec(View())
    {
      if numDeleted != CountOnes(deleted) || |deleted| >= U32_LIMIT {
        return Err;
      }
      var body := WriteBlocks(Padded(deleted), NumBlocks(|deleted|));
      r := Ok(Header(|deleted|, numDeleted) + body);
    }

    static method WriteBlocks(raw: seq<bool>, blocks: nat) returns (out: seq<byte>)
      requires |raw| == 64 * blocks
      ensures out == Pack(raw, blocks)
    {
      out := [];
      var i := 0;
      WholePack(raw, blocks);
      while i < blocks
        invariant 0 <= i <= blocks
        invariant out + PackFrom(raw, blocks, i) == Pack(raw, blocks)
      {
        PackWrites(out, raw, blocks, i);
        out := out + Block(raw, i);
        i := i + 1;
      }
    }

    // `read_u64_into` and the conversion of the blocks to a bit vector.
    static method ReadBlocks(raw: seq<byte>, blocks: nat) returns (buf: seq<bool>)
      requires |raw| == 8 * blocks
      ensures buf == Unpack(raw, blocks)
    {
      buf := [];
      var i := 0;
      WholeUnpack(raw, blocks);
      while i < blocks
        invariant 0 <= i <= blocks
        invariant buf + UnpackFrom(raw, blocks, i) == Unpack(raw, blocks)
      {
        UnpackReads(buf, raw, blocks, i);
        buf := buf + UnpackedBlock(raw, i);
        i := i + 1;
      }
    }

    static method Load(fileLen: nat, bs: seq<byte>) returns (r: Result<Bits>)
      ensures r == LoadSpec(fileLen, bs)
    {
      if |bs| < 9 || bs[0] != VERSION {
        return Err;
      }
      var numBits, numDeleted := LeNat(bs[1..5]), LeNat(bs[5..9]);
      if numDeleted > numBits {
        return Err;
      }
      var expectedLen := 1 + 4 + 4 + NumBlocks(numBits) * 8;
      if expectedLen != fileLen || |bs| < expectedLen {
        return Err;
      }
      var buf := ReadBlocks(bs[9..expectedLen], NumBlocks(numBits));
      var deleted := buf[..numBits];
      r := if CountOnes(deleted) == numDeleted then Ok(Bits(deleted, numDeleted)) else Err;
    }
  }
}
