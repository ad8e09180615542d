/** Little-endian numbers as bytes and as bits, with both round trips. */
module Bytes {
  import opened Arith

  type byte = x: int | 0 <= x < 256

  function Pow(b: nat, e: nat): (p: nat)
    ensures b > 0 ==> p > 0
  {
    if e == 0 then 1 else b * Pow(b, e - 1)
  }

  function LeBytes(n: nat, width: nat): (bs: seq<byte>)
    ensures |bs| == width
  {
    if width == 0 then [] else [n % 256] + LeBytes(n / 256, width - 1)
  }

  function LeNat(bs: seq<byte>): nat {
    if bs == [] then 0 else bs[0] + 256 * LeNat(bs[1..])
  }

  // Bit 0 first, as in a `BitVec` with the default order.
  function BitsOf(n: nat, width: nat): (bits: seq<bool>)
    ensures |bits| == width
  {
    if width == 0 then [] else [n % 2 == 1] + BitsOf(n / 2, width - 1)
  }

  function NatOf(bits: seq<bool>): nat {
    if bits == [] then 0 else (if bits[0] then 1 else 0) + 2 * NatOf(bits[1..])
  }

  /** Byte `j` has weight 256 to the power `j`: little endian. */
  lemma {:induction false} LeBytesAt(n: nat, width: nat, j: nat)
    requires j < width
    ensures LeBytes(n, width)[j] == n / Pow(256, j) % 256
    decreases j
  {
    if j > 0 {
      LeBytesAt(n / 256, width - 1, j - 1);
      DivideTwice(n, 256, Pow(256, j - 1));
    }
  }

  /** Bit `i` has weight 2 to the power `i`. */
  lemma {:induction false} BitsOfAt(n: nat, width: nat, i: nat)
    requires i < width
    ensures BitsOf(n, width)[i] <==> n / Pow(2, i) % 2 == 1
    decreases i
  {
    if i > 0 {
      BitsOfAt(n / 2, width - 1, i - 1);
      DivideTwice(n, 2, Pow(2, i - 1));
    }
  }

  lemma {:induction false} LeNatOfLeBytes(n: nat, width: nat)
    requires n < Pow(256, width)
    ensures LeNat(LeBytes(n, width)) == n
  {
    if width > 0 {
      assert n / 256 < Pow(256, width - 1);
      LeNatOfLeBytes(n / 256, width - 1);
      assert LeBytes(n, width)[1..] == LeBytes(n / 256, width - 1);
    }
  }

  lemma {:induction false} LeBytesOfLeNat(bs: seq<byte>)
    ensures LeNat(bs) < Pow(256, |bs|) && LeBytes(LeNat(bs), |bs|) == bs
  {
    if bs != [] {
      LeBytesOfLeNat(bs[1..]);
      assert LeNat(bs) / 256 == LeNat(bs[1..]) && LeNat(bs) % 256 == bs[0];
      assert bs == [bs[0]] + bs[1..];
    }
  }

  lemma {:induction false} NatOfBitsOf(n: nat, width: nat)
    requires n < Pow(2, width)
    ensures NatOf(BitsOf(n, width)) == n
  {
    if width > 0 {
      assert n / 2 < Pow(2, width - 1);
      NatOfBitsOf(n / 2, width - 1);
      assert BitsOf(n, width)[1..] == BitsOf(n / 2, width - 1);
    }
  }

  lemma {:induction false} BitsOfNatOf(bits: seq<bool>)
    ensures NatOf(bits) < Pow(2, |bits|) && BitsOf(NatOf(bits), |bits|) == bits
  {
    if bits != [] {
      BitsOfNatOf(bits[1..]);
      assert NatOf(bits) / 2 == NatOf(bits[1..]);
      assert bits == [bits[0]] + bits[1..];
    }
  }

  lemma {:induction false} PowOfPow(e: nat)
    ensures Pow(256, e) == Pow(2, 8 * e)
  {
    if e > 0 {
      PowOfPow(e - 1);
      var k := 8 * (e - 1);
      assert Pow(2, k + 8) == 2 * Pow(2, k + 7);
      assert Pow(2, k + 7) == 2 * Pow(2, k + 6);
      assert Pow(2, k + 6) == 2 * Pow(2, k + 5);
      assert Pow(2, k + 5) == 2 * Pow(2, k + 4);
      assert Pow(2, k + 4) == 2 * Pow(2, k + 3);
      assert Pow(2, k + 3) == 2 * Pow(2, k + 2);
      assert Pow(2, k + 2) == 2 * Pow(2, k + 1);
      assert Pow(2, k + 1) == 2 * Pow(2, k);
    }
  }

  // The range of a `u32`.
  const U32_LIMIT: nat := 0x1_0000_0000

  lemma U32Width()
    ensures Pow(256, 4) == U32_LIMIT
  {
    assert Pow(256, 1) == 256 && Pow(256, 2) == 65536 && Pow(256, 3) == 16777216;
  }
}
