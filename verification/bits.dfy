/** Unsigned 64-bit arithmetic as Go performs it, on unbounded naturals. */
module Bits {

  const TWO64: nat := 0x1_0000_0000_0000_0000
  const MAX_U64: nat := TWO64 - 1

  function Pow2(n: nat): (r: nat)
    ensures r >= 1
  {
    if n == 0 then 1 else 2 * Pow2(n - 1)
  }

  lemma {:induction false} Pow2Monotone(m: nat, n: nat)
    requires m <= n
    ensures Pow2(m) <= Pow2(n)
  {
    if m < n {
      Pow2Monotone(m, n - 1);
    }
  }

  lemma Pow2Is16()
    ensures Pow2(16) == 0x1_0000
  {
    assert Pow2(2) == 4;
    assert Pow2(4) == 16 by { Pow2Add(2, 2); }
    assert Pow2(8) == 256 by { Pow2Add(4, 4); }
    Pow2Add(8, 8);
  }

  lemma Pow2Is64()
    ensures Pow2(64) == TWO64
  {
    Pow2Is16();
    assert Pow2(32) == 0x1_0000 * Pow2(16) by { Pow2Add(16, 16); }
    assert Pow2(64) == Pow2(32) * Pow2(32) by { Pow2Add(32, 32); }
  }

  lemma {:induction false} Pow2Add(a: nat, b: nat)
    ensures Pow2(a + b) == Pow2(a) * Pow2(b)
  {
    if b > 0 {
      Pow2Add(a, b - 1);
    }
  }

  /** Bit i of x, counting from the least significant bit. */
  predicate Bit(x: nat, i: nat)
  {
    if i == 0 then x % 2 == 1 else Bit(x / 2, i - 1)
  }

  /** x >> k */
  function Shr(x: nat, k: nat): nat
  {
    if k == 0 then x else Shr(x / 2, k - 1)
  }

  lemma {:induction false} ShrStep(x: nat, k: nat)
    ensures Shr(x, k + 1) == Shr(x, k) / 2
  {
    if k > 0 {
      ShrStep(x / 2, k - 1);
    }
  }

  /** Shifting a number below 2^m right by m leaves 0. */
  lemma {:induction false} ShrBelow(x: nat, m: nat)
    requires x < Pow2(m)
    ensures Shr(x, m) == 0
  {
    if m > 0 {
      ShrBelow(x / 2, m - 1);
    }
  }

  /** A uint64 shifted right by 64 is 0. */
  lemma ShrWord(x: nat)
    requires x < TWO64
    ensures Shr(x, 64) == 0
  {
    Pow2Is64();
    ShrBelow(x, 64);
  }

  lemma {:induction false} BitOfShr(x: nat, k: nat, i: nat)
    ensures Bit(Shr(x, k), i) == Bit(x, k + i)
  {
    if k > 0 {
      BitOfShr(x / 2, k - 1, i);
    }
  }

  lemma {:induction false} BitOfZero(i: nat)
    ensures !Bit(0, i)
  {
    if i > 0 {
      BitOfZero(i - 1);
    }
  }

  /** A number below 2^n has no bit set at or above n. */
  lemma {:induction false} BitAbove(x: nat, n: nat, i: nat)
    requires x < Pow2(n) && n <= i
    ensures !Bit(x, i)
  {
    if i == 0 {
    } else if n == 0 {
      assert x == 0;
      BitOfZero(i);
    } else {
      BitAbove(x / 2, n - 1, i - 1);
    }
  }

  /** The number whose bit i is bs[i] (least significant bit first). */
  function FromBits(bs: seq<bool>): nat
  {
    if bs == [] then 0 else (if bs[0] then 1 else 0) + 2 * FromBits(bs[1..])
  }

  /** The lowest n bits of x, least significant first. */
  function LowBits(x: nat, n: nat): (bs: seq<bool>)
    ensures |bs| == n
  {
    seq(n, i requires 0 <= i < n => Bit(x, i))
  }

  lemma {:induction false} FromBitsBound(bs: seq<bool>)
    ensures FromBits(bs) < Pow2(|bs|)
  {
    if bs != [] {
      FromBitsBound(bs[1..]);
    }
  }

  lemma {:induction false} BitOfFromBits(bs: seq<bool>, j: nat)
    ensures Bit(FromBits(bs), j) == (j < |bs| && bs[j])
  {
    if bs == [] {
      BitOfZero(j);
    } else {
      FromBitsHalf(bs);
      if j > 0 {
        BitOfFromBits(bs[1..], j - 1);
      }
    }
  }

  /** Halving drops the first bit; the remainder is that bit. */
  lemma FromBitsHalf(bs: seq<bool>)
    requires bs != []
    ensures FromBits(bs) / 2 == FromBits(bs[1..])
    ensures FromBits(bs) % 2 == (if bs[0] then 1 else 0)
  {
  }

  /** Setting a clear position p adds 2^p. */
  lemma {:induction false} FromBitsSet(bs: seq<bool>, p: nat)
    requires p < |bs| && !bs[p]
    ensures FromBits(bs[p := true]) == FromBits(bs) + Pow2(p)
  {
    if p > 0 {
      assert bs[p := true][1..] == bs[1..][p - 1 := true];
      FromBitsSet(bs[1..], p - 1);
    }
  }

  /** Reading the lowest n bits of x and reassembling them gives x back. */
  lemma {:induction false} FromBitsOfLowBits(x: nat, n: nat)
    requires x < Pow2(n)
    ensures FromBits(LowBits(x, n)) == x
  {
    if n > 0 {
      var bs := LowBits(x, n);
      assert bs[1..] == LowBits(x / 2, n - 1);
      FromBitsOfLowBits(x / 2, n - 1);
    }
  }

  /** Go's x << s on uint64: shift counts of 64 or more give 0. */
  function Shl64(x: nat, s: nat): (r: nat)
    ensures r < TWO64
  {
    if s < 64 then (x * Pow2(s)) % TWO64 else 0
  }

  /** Go's uint64 subtraction by one, wrapping 0 to 2^64 - 1. */
  function Dec64(x: nat): (r: nat)
    requires x < TWO64
    ensures r < TWO64
    ensures r == (x - 1) % TWO64
  {
    if x == 0 then MAX_U64 else x - 1
  }
}
