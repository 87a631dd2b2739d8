/**
 * Bytes, 16-bit words and the bitwise operations the VM needs, all on
 * unbounded integers.  C#'s `byte` and `ushort` become subset types and
 * every wrap-around is written out (`Wrap8`, `Wrap16`).  The bitwise OR
 * and AND of two bytes are defined bit by bit, so that the facts about
 * flag bits can be proved by induction on the bit index.
 */
module Bits {

  type byte = x: int | 0 <= x < 256
  type word = x: int | 0 <= x < 65536

  /** C#'s unchecked `(byte)` cast of an int: keep the low eight bits. */
  function Wrap8(x: int): byte
  {
    x % 256
  }

  /** C#'s unchecked `(ushort)` cast of an int: keep the low sixteen bits. */
  function Wrap16(x: int): word
  {
    x % 65536
  }

  /** Wrapping twice is wrapping once: adding to a wrapped value wraps alike. */
  lemma WrapAdd(x: int, i: int)
    ensures Wrap8(Wrap8(x) + i) == Wrap8(x + i)
  {
    var y := Wrap8(x) + i;
    assert x + i == (x / 256 + y / 256) * 256 + y % 256;
    ModUnique(x + i, 256, x / 256 + y / 256, y % 256);
  }

  function Pow2(n: nat): (r: nat)
    ensures r >= 1
  {
    if n == 0 then 1 else 2 * Pow2(n - 1)
  }

  /** Bit k of x (0 is the least significant). */
  function Bit(x: nat, k: nat): (b: nat)
    ensures b <= 1
  {
    if k == 0 then x % 2 else Bit(x / 2, k - 1)
  }

  /** The low n bits of x | y. */
  function OrBits(x: nat, y: nat, n: nat): (r: nat)
    ensures r < Pow2(n)
  {
    if n == 0 then 0
    else (if x % 2 == 1 || y % 2 == 1 then 1 else 0) + 2 * OrBits(x / 2, y / 2, n - 1)
  }

  /** The low n bits of x & y. */
  function AndBits(x: nat, y: nat, n: nat): (r: nat)
    ensures r < Pow2(n)
  {
    if n == 0 then 0
    else (if x % 2 == 1 && y % 2 == 1 then 1 else 0) + 2 * AndBits(x / 2, y / 2, n - 1)
  }

  /** `x | y` on two bytes. */
  function Or8(x: byte, y: byte): byte
  {
    OrBits(x, y, 8)
  }

  /** `x & y` on two bytes. */
  function And8(x: byte, y: byte): byte
  {
    AndBits(x, y, 8)
  }

  // ---------------------------------------------------------------------
  // Big-endian split of a word into two bytes (the UShortToBytesLayout
  // overlay, written as arithmetic instead of a host-endian struct).

  function High(v: word): byte { v / 256 }

  function Low(v: word): byte { v % 256 }

  /** The word whose high byte is hi and whose low byte is lo. */
  function Join(hi: byte, lo: byte): (v: word)
    ensures High(v) == hi && Low(v) == lo
  {
    hi * 256 + lo
  }

  lemma SplitJoin(v: word)
    ensures Join(High(v), Low(v)) == v
  {
  }

  // ---------------------------------------------------------------------
  // Facts about bits.

  lemma {:induction false} BitOfZero(k: nat)
    ensures Bit(0, k) == 0
  {
    if k > 0 { BitOfZero(k - 1); }
  }

  lemma {:induction false} BitBound(x: nat, n: nat, k: nat)
    requires x < Pow2(n) && n <= k
    ensures Bit(x, k) == 0
  {
    if k == 0 {
    } else if n == 0 {
      assert x == 0;
      BitOfZero(k);
    } else {
      BitBound(x / 2, n - 1, k - 1);
    }
  }

  lemma {:induction false} OrWithZero(x: nat, n: nat)
    requires x < Pow2(n)
    ensures OrBits(x, 0, n) == x && OrBits(0, x, n) == x
  {
    if n > 0 { OrWithZero(x / 2, n - 1); }
  }

  lemma {:induction false} AndWithZero(x: nat, n: nat)
    ensures AndBits(x, 0, n) == 0
  {
    if n > 0 { AndWithZero(x / 2, n - 1); }
  }

  /** ORing in bit k adds 2^k exactly when that bit was clear. */
  lemma {:induction false} OrPow2(x: nat, k: nat, n: nat)
    requires x < Pow2(n) && k < n
    ensures OrBits(x, Pow2(k), n) == if Bit(x, k) == 1 then x else x + Pow2(k)
  {
    if k == 0 {
      OrWithZero(x / 2, n - 1);
    } else {
      OrPow2(x / 2, k - 1, n - 1);
    }
  }

  /** ANDing with 2^k keeps bit k alone. */
  lemma {:induction false} AndPow2(x: nat, k: nat, n: nat)
    requires k < n
    ensures AndBits(x, Pow2(k), n) == if Bit(x, k) == 1 then Pow2(k) else 0
  {
    if k == 0 {
      AndWithZero(x / 2, n - 1);
    } else {
      AndPow2(x / 2, k - 1, n - 1);
    }
  }

  /** The low k bits of x, rebuilt bit by bit. */
  function LowBits(x: nat, k: nat): (r: nat)
    ensures r < Pow2(k)
  {
    if k == 0 then 0 else x % 2 + 2 * LowBits(x / 2, k - 1)
  }

  /** ANDing with a mask of k ones keeps the low k bits. */
  lemma {:induction false} AndOnes(x: nat, k: nat, n: nat)
    requires k <= n
    ensures AndBits(x, Pow2(k) - 1, n) == LowBits(x, k)
  {
    if k == 0 {
      AndWithZero(x, n);
    } else {
      AndOnes(x / 2, k - 1, n - 1);
      assert (Pow2(k) - 1) / 2 == Pow2(k - 1) - 1;
    }
  }

  /** The low k bits of x are x modulo 2^k. */
  lemma {:induction false} LowBitsMod(x: nat, k: nat)
    ensures LowBits(x, k) == x % Pow2(k)
  {
    if k > 0 {
      LowBitsMod(x / 2, k - 1);
      var p := Pow2(k - 1);
      var q, s := (x / 2) / p, (x / 2) % p;
      assert x == q * (2 * p) + (x % 2 + 2 * s);
      ModUnique(x, 2 * p, q, x % 2 + 2 * s);
    }
  }

  /** Division with remainder has one answer. */
  lemma ModUnique(x: int, d: int, q: int, r: int)
    requires d > 0 && 0 <= r < d && x == q * d + r
    ensures x % d == r
  {
    var q', r' := x / d, x % d;
    assert (q' - q) * d == r - r';
    if q' > q {
      AtLeastOnce(q' - q, d);
    } else if q' < q {
      AtLeastOnce(q - q', d);
    }
  }

  lemma {:induction false} AtLeastOnce(t: int, d: int)
    requires t >= 1 && d > 0
    ensures t * d >= d
  {
    if t > 1 {
      AtLeastOnce(t - 1, d);
      assert t * d == (t - 1) * d + d;
    }
  }

  /** Setting a clear bit k by adding 2^k changes bit k and no other. */
  lemma {:induction false} BitAddPow2(x: nat, k: nat, j: nat)
    requires Bit(x, k) == 0
    ensures Bit(x + Pow2(k), j) == if j == k then 1 else Bit(x, j)
  {
    if k == 0 {
      if j > 0 {
        assert (x + 1) / 2 == x / 2;
      }
    } else if j == 0 {
      assert (x + Pow2(k)) % 2 == x % 2;
    } else {
      assert (x + Pow2(k)) / 2 == x / 2 + Pow2(k - 1);
      BitAddPow2(x / 2, k - 1, j - 1);
    }
  }

  /** Removing a set bit k by subtracting 2^k changes bit k and no other. */
  lemma {:induction false} BitSubPow2(x: nat, k: nat, j: nat)
    requires Bit(x, k) == 1
    ensures x >= Pow2(k)
    ensures Bit(x - Pow2(k), j) == if j == k then 0 else Bit(x, j)
  {
    if k == 0 {
      if j > 0 {
        assert (x - 1) / 2 == x / 2;
      }
    } else {
      BitSubPow2(x / 2, k - 1, if j == 0 then 0 else j - 1);
      assert (x - Pow2(k)) / 2 == x / 2 - Pow2(k - 1);
      if j > 0 {
        BitSubPow2(x / 2, k - 1, j - 1);
      }
    }
  }

  /** Bit j of (x & y) is bit j of x times bit j of y. */
  lemma {:induction false} BitOfAnd(x: nat, y: nat, n: nat, j: nat)
    requires j < n
    ensures Bit(AndBits(x, y, n), j) == Bit(x, j) * Bit(y, j)
  {
    var low := if x % 2 == 1 && y % 2 == 1 then 1 else 0;
    var rest := AndBits(x / 2, y / 2, n - 1);
    assert AndBits(x, y, n) == low + 2 * rest;
    if j > 0 {
      assert (low + 2 * rest) / 2 == rest;
      BitOfAnd(x / 2, y / 2, n - 1, j - 1);
    } else {
      assert (low + 2 * rest) % 2 == low;
      assert Bit(x, 0) * Bit(y, 0) == low by {
        if x % 2 == 1 && y % 2 == 1 {
        } else if x % 2 == 0 {
          assert Bit(x, 0) == 0;
        } else {
          assert Bit(y, 0) == 0;
        }
      }
    }
  }

  lemma {:induction false} BitOfPow2(k: nat, j: nat)
    ensures Bit(Pow2(k), j) == if j == k then 1 else 0
  {
    if k == 0 {
      if j > 0 { BitOfZero(j - 1); }
    } else if j > 0 {
      BitOfPow2(k - 1, j - 1);
    }
  }

  /**
   * The test of the word layout reads the low byte as `v & 0xff` and the
   * high byte as `(v >> 8) & 0xff`; the arithmetic split agrees with both.
   */
  lemma LayoutMatchesMasks(v: word)
    ensures Low(v) == AndBits(v, 0xff, 16)
    ensures High(v) == AndBits(v / 256, 0xff, 16)
  {
    MaskLowByte(v);
    var hi := v / 256;
    assert hi < 256 && hi % 256 == hi;
    MaskLowByte(hi);
  }

  /** `x & 0xff` on a 16-bit value is x modulo 256. */
  lemma MaskLowByte(x: nat)
    ensures AndBits(x, 0xff, 16) == x % 256
  {
    assert Pow2(8) == 256;
    AndOnes(x, 8, 16);
    LowBitsMod(x, 8);
  }
}
