/**
 * The flags register FL: one byte whose bits 0, 1 and 2 are the sign,
 * zero and overflow flags.  The functions here act on the value of that
 * byte; the machine reads it from, and writes it to, the register file.
 */
module Flags {
  import opened Bits

  const SF: byte := 0x1
  const ZF: byte := 0x2
  const OF: byte := 0x4

  predicate IsFlag(f: byte)
  {
    f == SF || f == ZF || f == OF
  }

  /** The bit that a named flag occupies. */
  function Index(f: byte): (k: nat)
    requires IsFlag(f)
    ensures k < 3 && Pow2(k) == f
  {
    if f == SF then 0 else if f == ZF then 1 else 2
  }

  /** A flag reads as set when `(fl & f) == f`. */
  predicate IsSet(fl: byte, f: byte)
  {
    And8(fl, f) == f
  }

  /** Setting a flag ORs its bit in. */
  function Raise(fl: byte, f: byte): byte
  {
    Or8(fl, f)
  }

  /**
   * Clearing a flag subtracts its value from the register, wrapping
   * modulo 256: only when the flag was set is that the same as removing
   * its bit.
   */
  function Lower(fl: byte, f: byte): byte
  {
    Wrap8(fl - f)
  }

  /** Clearing a flag by AND-NOT, which is what `Lower` is meant to do. */
  function ClearBit(fl: byte, f: byte): byte
  {
    And8(fl, 255 - f)
  }

  /** The flags byte holding exactly the given flags. */
  function Pack(sf: bool, zf: bool, of: bool): byte
  {
    (if sf then SF else 0) + (if zf then ZF else 0) + (if of then OF else 0)
  }

  /** The byte form of a flag's value: true is 1 and false is 0. */
  function AsByte(b: bool): (v: byte)
    ensures (v == 1) == b && (v == 0) == !b
  {
    if b then 1 else 0
  }

  // ---------------------------------------------------------------------

  lemma FlagBit(fl: byte, f: byte)
    requires IsFlag(f)
    ensures IsSet(fl, f) <==> Bit(fl, Index(f)) == 1
  {
    AndPow2(fl, Index(f), 8);
  }

  /** A byte is determined by its eight bits. */
  lemma {:induction false} BitsDetermine(x: nat, y: nat, n: nat)
    requires x < Pow2(n) && y < Pow2(n)
    requires forall j :: 0 <= j < n ==> Bit(x, j) == Bit(y, j)
    ensures x == y
  {
    if n > 0 {
      forall j | 0 <= j < n - 1
        ensures Bit(x / 2, j) == Bit(y / 2, j)
      {
        assert Bit(x, j + 1) == Bit(y, j + 1);
      }
      BitsDetermine(x / 2, y / 2, n - 1);
      assert Bit(x, 0) == Bit(y, 0);
    }
  }

  /** Setting a flag makes it read as set and leaves every other bit. */
  lemma RaiseSetsOnlyIt(fl: byte, f: byte)
    requires IsFlag(f)
    ensures IsSet(Raise(fl, f), f)
    ensures forall j :: 0 <= j < 8 && j != Index(f) ==> Bit(Raise(fl, f), j) == Bit(fl, j)
    ensures forall g :: IsFlag(g) && g != f ==> (IsSet(Raise(fl, f), g) <==> IsSet(fl, g))
  {
    var k := Index(f);
    OrPow2(fl, k, 8);
    if Bit(fl, k) == 0 {
      forall j | 0 <= j < 8
        ensures Bit(Raise(fl, f), j) == if j == k then 1 else Bit(fl, j)
      {
        BitAddPow2(fl, k, j);
      }
    }
    FlagBit(Raise(fl, f), f);
    forall g | IsFlag(g) && g != f
      ensures IsSet(Raise(fl, f), g) <==> IsSet(fl, g)
    {
      FlagBit(Raise(fl, f), g);
      FlagBit(fl, g);
    }
  }

  /**
   * Clearing a flag that is set removes exactly its bit: there the
   * subtraction agrees with AND-NOT.
   */
  lemma LowerSetFlag(fl: byte, f: byte)
    requires IsFlag(f) && IsSet(fl, f)
    ensures Lower(fl, f) == fl - f
    ensures Lower(fl, f) == ClearBit(fl, f)
    ensures !IsSet(Lower(fl, f), f)
    ensures forall g :: IsFlag(g) && g != f ==> (IsSet(Lower(fl, f), g) <==> IsSet(fl, g))
  {
    var k := Index(f);
    assert fl >= f by {
      FlagBit(fl, f);
      BitSubPow2(fl, k, k);
    }
    assert Lower(fl, f) == fl - f;
    assert fl - f == ClearBit(fl, f) by {
      FlagBit(fl, f);
      ClearBitClearsOnlyIt(fl, f);
      forall j | 0 <= j < 8
        ensures Bit(fl - f, j) == Bit(ClearBit(fl, f), j)
      {
        BitSubPow2(fl, k, j);
      }
      BitsDetermine(fl - f, ClearBit(fl, f), 8);
    }
    ClearBitClearsOnlyIt(fl, f);
  }

  /** The AND-NOT clear removes its flag's bit whatever the register held. */
  lemma ClearBitClearsOnlyIt(fl: byte, f: byte)
    requires IsFlag(f)
    ensures !IsSet(ClearBit(fl, f), f)
    ensures forall j :: 0 <= j < 8 ==> Bit(ClearBit(fl, f), j) == if j == Index(f) then 0 else Bit(fl, j)
    ensures forall g :: IsFlag(g) && g != f ==> (IsSet(ClearBit(fl, f), g) <==> IsSet(fl, g))
  {
    ClearBitBits(fl, f);
    FlagBit(ClearBit(fl, f), f);
    forall g | IsFlag(g) && g != f
      ensures IsSet(ClearBit(fl, f), g) <==> IsSet(fl, g)
    {
      FlagBit(ClearBit(fl, f), g);
      FlagBit(fl, g);
    }
  }

  lemma ClearBitBits(fl: byte, f: byte)
    requires IsFlag(f)
    ensures forall j :: 0 <= j < 8 ==> Bit(ClearBit(fl, f), j) == if j == Index(f) then 0 else Bit(fl, j)
  {
    var k := Index(f);
    forall j | 0 <= j < 8
      ensures Bit(ClearBit(fl, f), j) == if j == k then 0 else Bit(fl, j)
    {
      BitOfAnd(fl, 255 - f, 8, j);
      MaskBits(f, j);
    }
  }

  /** 255 - f has every bit but the one of flag f. */
  lemma MaskBits(f: byte, j: nat)
    requires IsFlag(f) && j < 8
    ensures Bit(255 - f, j) == if j == Index(f) then 0 else 1
  {
    var all: nat := 255;
    assert all == Pow2(8) - 1;
    forall i | 0 <= i < 8
      ensures Bit(all, i) == 1
    {
      AllOnes(8, i);
    }
    BitSubPow2(all, Index(f), j);
  }

  lemma {:induction false} AllOnes(n: nat, i: nat)
    requires i < n
    ensures Bit(Pow2(n) - 1, i) == 1
  {
    if i > 0 {
      assert (Pow2(n) - 1) / 2 == Pow2(n - 1) - 1;
      AllOnes(n - 1, i - 1);
    }
  }

  /**
   * Clearing a flag that is NOT set does not leave the register alone:
   * the subtraction wraps around and sets bits, among them, when the
   * register held no flags, the very flag being cleared.
   */
  lemma LowerClearFlagCorrupts(fl: byte, f: byte)
    requires IsFlag(f) && !IsSet(fl, f)
    ensures Lower(fl, f) != fl
    ensures Lower(fl, f) != ClearBit(fl, f)
    ensures fl == 0 ==> IsSet(Lower(fl, f), f)
  {
    ClearBitKeepsClear(fl, f);
    if fl == 0 {
      LowerOfZero(f);
    }
  }

  /** AND-NOT of a flag that is not set leaves the register as it was. */
  lemma ClearBitKeepsClear(fl: byte, f: byte)
    requires IsFlag(f) && !IsSet(fl, f)
    ensures ClearBit(fl, f) == fl
  {
    FlagBit(fl, f);
    ClearBitBits(fl, f);
    BitsDetermine(ClearBit(fl, f), fl, 8);
  }

  /** Clearing a flag of the empty register wraps around to a byte that has it set. */
  lemma LowerOfZero(f: byte)
    requires IsFlag(f)
    ensures IsSet(Lower(0, f), f)
  {
    assert Lower(0, f) == 256 - f;
    FlagBit(256 - f, f);
    ComplementBit(Index(f));
  }

  /** 256 - 2^k has bit k set, for the three flag bits. */
  lemma ComplementBit(k: nat)
    requires k < 3
    ensures Bit(256 - Pow2(k), k) == 1
  {
    if k == 0 {
      assert 256 - Pow2(k) == 255;
    } else if k == 1 {
      assert 256 - Pow2(k) == 254;
      assert Bit(254, 1) == Bit(127, 0);
    } else {
      assert 256 - Pow2(k) == 252;
      assert Bit(252, 2) == Bit(63, 0);
    }
  }

  /** The packed byte reads back as the flags it was built from. */
  lemma PackReadsBack(sf: bool, zf: bool, of: bool)
    ensures IsSet(Pack(sf, zf, of), SF) == sf
    ensures IsSet(Pack(sf, zf, of), ZF) == zf
    ensures IsSet(Pack(sf, zf, of), OF) == of
  {
    var p := Pack(sf, zf, of);
    var s, z, o := if sf then 1 else 0, if zf then 1 else 0, if of then 1 else 0;
    assert p == s + 2 * z + 4 * o;
    assert Bit(p, 0) == s;
    assert Bit(p, 1) == Bit(z + 2 * o, 0) == z;
    assert Bit(p, 2) == Bit(z + 2 * o, 1) == Bit(o, 0) == o;
    FlagBit(p, SF);
    FlagBit(p, ZF);
    FlagBit(p, OF);
  }

  /** Each flag's bit reads as that flag and as no other. */
  lemma FlagTable()
    ensures IsSet(SF, SF) && !IsSet(SF, ZF) && !IsSet(SF, OF)
    ensures !IsSet(ZF, SF) && IsSet(ZF, ZF) && !IsSet(ZF, OF)
    ensures !IsSet(OF, SF) && !IsSet(OF, ZF) && IsSet(OF, OF)
    ensures Raise(0, SF) == SF && Raise(0, ZF) == ZF && Raise(0, OF) == OF
  {
  }

  /** A reset register holds no flag; setting one flag there yields just its bit. */
  lemma RaiseFromClear(f: byte)
    requires IsFlag(f)
    ensures Raise(0, f) == f
    ensures forall g :: IsFlag(g) ==> (IsSet(Raise(0, f), g) <==> g == f)
  {
    FlagTable();
  }

  lemma ResetHasNoFlags()
    ensures forall g :: IsFlag(g) ==> !IsSet(0, g)
  {
    PackReadsBack(false, false, false);
  }
}
