/**
 * What the instructions and the loop promise, stated over the semantics:
 * each instruction's effect on A, B:C, the flags, PC and memory, how many
 * operand bytes it consumes, the word round trip, when the loop stops,
 * and where a loaded program ends up.
 */
module Properties {
  import opened Bits
  import opened Flags
  import opened Isa
  import opened Semantics

  /** The address i bytes past PC, as the byte-wide PC reaches it. */
  function Addr(m: Machine, i: nat): byte
    requires WellFormed(m)
  {
    Wrap8(Reg(m, PC) + i)
  }

  /** Counting from a PC that is j bytes on is counting from j. */
  lemma AddrShift(m: Machine, m1: Machine, j: nat, i: nat)
    requires WellFormed(m) && WellFormed(m1) && Reg(m1, PC) == Addr(m, j)
    ensures Addr(m1, i) == Addr(m, j + i)
  {
    WrapAdd(Reg(m, PC) + j, i);
  }

  /** The bytes at PC onwards are `code`. */
  predicate Decodes(m: Machine, code: seq<byte>)
    requires WellFormed(m)
  {
    forall i :: 0 <= i < |code| ==> Addr(m, i) < |m.memory| && m.memory[Addr(m, i)] == code[i]
  }

  /**
   * Memory, plugin and every register outside `changed` are as in m.  The
   * names A, B, C, D, PC and FL cover the register file.
   */
  predicate Untouched(m: Machine, m': Machine, changed: set<byte>)
    requires WellFormed(m) && WellFormed(m')
  {
    m'.memory == m.memory && m'.io == m.io &&
    (A in changed || Reg(m', A) == Reg(m, A)) &&
    (B in changed || Reg(m', B) == Reg(m, B)) &&
    (C in changed || Reg(m', C) == Reg(m, C)) &&
    (D in changed || Reg(m', D) == Reg(m, D)) &&
    (PC in changed || Reg(m', PC) == Reg(m, PC)) &&
    (FL in changed || Reg(m', FL) == Reg(m, FL))
  }

  // ---------------------------------------------------------------------
  // Memory words.

  /** A word written at a and a+1 reads back; nothing else changes. */
  lemma PokeWordThenPeekWord(m: Machine, address: word, v: word)
    requires WellFormed(m) && address + 1 < |m.memory|
    ensures PokeWord(m, address, v).r.Ok?
    ensures PeekWord(PokeWord(m, address, v).m, address) == Ok(v)
    ensures PokeWord(m, address, v).m.memory[address] == v / 256
    ensures PokeWord(m, address, v).m.memory[address + 1] == v % 256
    ensures forall i :: 0 <= i < |m.memory| && i != address && i != address + 1 ==>
              PokeWord(m, address, v).m.memory[i] == m.memory[i]
    ensures PokeWord(m, address, v).m.registers == m.registers
    ensures PokeWord(m, address, v).m.io == m.io
  {
    assert Wrap16(address + 1) == address + 1;
  }

  /** Writing back the word just read leaves the machine as it was. */
  lemma PokeWordOfPeekWord(m: Machine, address: word)
    requires WellFormed(m) && PeekWord(m, address).Ok?
    ensures PokeWord(m, address, PeekWord(m, address).value) == Effect(m, Ok(()))
  {
    var v := PeekWord(m, address).value;
    assert Wrap16(address + 1) == address + 1;
    assert PokeWord(m, address, v).m.memory == m.memory;
  }

  /**
   * A word written where its low byte does not fit throws, but only after
   * its high byte has been stored; one written outside memory changes
   * nothing.
   */
  lemma PokeWordFaults(m: Machine, address: word, v: word)
    requires WellFormed(m) && address + 1 >= |m.memory|
    ensures address < |m.memory| ==>
              PokeWord(m, address, v) == Effect(m.(memory := m.memory[address := High(v)]), Err(MemoryOutOfRange(address + 1)))
    ensures address >= |m.memory| ==>
              PokeWord(m, address, v) == Effect(m, Err(MemoryOutOfRange(address)))
  {
  }

  // ---------------------------------------------------------------------
  // Fetch.

  /** Fetch returns the byte at PC and moves PC on by one, mod 256, and touches nothing else. */
  lemma FetchReadsAtPc(m: Machine)
    requires WellFormed(m)
    ensures Fetch(m).r == if Reg(m, PC) < |m.memory| then Ok(m.memory[Reg(m, PC)]) else Err(MemoryOutOfRange(Reg(m, PC)))
    ensures Reg(Fetch(m).m, PC) == (Reg(m, PC) + 1) % 256
    ensures Untouched(m, Fetch(m).m, {PC})
  {
  }

  // ---------------------------------------------------------------------
  // Helpers for taking one turn apart.

  /** m with PC moved i bytes on. */
  function Advance(m: Machine, i: nat): (m': Machine)
    requires WellFormed(m)
    ensures SameShape(m, m')
  {
    SetReg(m, PC, Addr(m, i))
  }

  /** A turn that fetches an opcode other than END executes it with PC past the opcode. */
  lemma StepExecutes(m: Machine, op: byte)
    requires WellFormed(m) && Decodes(m, [op]) && op != END
    ensures Step(m) == (var e := Execute(op, Advance(m, 1));
                        Outcome(e.m, if e.r.Ok? then Running else Faulted(e.r.fault)))
  {
    assert m.memory[Addr(m, 0)] == op;
  }

  /** Fetching the operand that follows the opcode. */
  lemma FetchOperand(m: Machine, m1: Machine, i: nat, x: byte)
    requires WellFormed(m) && WellFormed(m1) && m1.memory == m.memory
    requires Reg(m1, PC) == Addr(m, i) && Addr(m, i) < |m.memory| && m.memory[Addr(m, i)] == x
    ensures Fetch(m1) == Effect(SetReg(m1, PC, Addr(m, i + 1)), Ok(x))
  {
    assert Wrap8(Addr(m, i) + 1) == Addr(m, i + 1);
  }

  lemma UntouchedChain(m1: Machine, m2: Machine, m3: Machine, s1: set<byte>, s2: set<byte>)
    requires WellFormed(m1) && WellFormed(m2) && WellFormed(m3)
    requires Untouched(m1, m2, s1) && Untouched(m2, m3, s2)
    ensures Untouched(m1, m3, s1 + s2)
  {
  }

  /** A := a + x, and FL holds OF alone when the unsigned sum exceeds 127, else nothing. */
  lemma AddToAEffect(m: Machine, x: byte, a: byte)
    requires WellFormed(m) && Reg(m, A) == a
    ensures Reg(AddToA(m, x), A) == (a + x) % 256
    ensures Reg(AddToA(m, x), FL) == Pack(false, false, a + x > 127)
  {
  }

  /** AddToA changes A and FL only; `s` is what the machine had changed before. */
  lemma AddToAKeeps(m: Machine, m3: Machine, x: byte, s: set<byte>, t: set<byte>)
    requires WellFormed(m) && WellFormed(m3) && Untouched(m, m3, s) && s <= t && A in t && FL in t
    ensures Untouched(m, AddToA(m3, x), t)
  {
  }

  /** A := a - x, and FL holds ZF on a zero difference, SF on a negative one, never OF. */
  lemma SubFromAEffect(m: Machine, x: byte, a: byte)
    requires WellFormed(m) && Reg(m, A) == a
    ensures Reg(SubFromA(m, x), A) == (a - x) % 256
    ensures Reg(SubFromA(m, x), FL) == Pack(a < x, a == x, false)
  {
  }

  /** SubFromA changes A and FL only. */
  lemma SubFromAKeeps(m: Machine, m3: Machine, x: byte, s: set<byte>, t: set<byte>)
    requires WellFormed(m) && WellFormed(m3) && Untouched(m, m3, s) && s <= t && A in t && FL in t
    ensures Untouched(m, SubFromA(m3, x), t)
  {
  }

  lemma IncrementBCEffect(m: Machine)
    requires WellFormed(m)
    ensures BC(IncrementBC(m)) == (BC(m) + 1) % 65536
    ensures Reg(IncrementBC(m), FL) == Pack(false, false, BC(m) + 1 > 32767)
    ensures Untouched(m, IncrementBC(m), {B, C, FL})
  {
    var w := Wrap16(BC(m) + 1);
    var m' := IncrementBC(m);
    assert Reg(m', B) == High(w) && Reg(m', C) == Low(w);
    SplitJoin(w);
  }

  // ---------------------------------------------------------------------
  // The instructions, one turn of the loop each.

  /** Bytes 0..11 and 0xFF are instructions; every other byte is not. */
  predicate IsInstruction(op: byte)
  {
    op <= JMN || op == END
  }

  /** NOP, and any byte that is no instruction, only moves PC past itself. */
  lemma StepSkipsNop(m: Machine, op: byte)
    requires WellFormed(m) && Decodes(m, [op]) && (op == NOP || !IsInstruction(op))
    ensures Step(m) == Outcome(SetReg(m, PC, Addr(m, 1)), Running)
  {
    StepExecutes(m, op);
    NopEffect(Advance(m, 1), op);
  }

  lemma NopEffect(m: Machine, op: byte)
    requires WellFormed(m) && (op == NOP || !IsInstruction(op))
    ensures Execute(op, m) == Effect(m, Ok(()))
  {
    assert op != INP && op != OUT && op != INC && op != DEC && op != ADD && op != SUB;
    assert op != GET && op != PUT && op != JMP && op != JMZ && op != JMN;
  }

  /** END stops the loop, and nothing else does. */
  lemma StepHaltsExactlyAtEnd(m: Machine)
    requires WellFormed(m)
    ensures Step(m).status == Halted <==> Decodes(m, [END])
    ensures Step(m).status == Halted ==> Step(m).m == SetReg(m, PC, Addr(m, 1))
  {
    if Decodes(m, [END]) {
      assert m.memory[Addr(m, 0)] == END;
    }
  }

  lemma StepIncByte(m: Machine)
    requires WellFormed(m) && Decodes(m, [INC, ByteWidth])
    ensures Step(m).status == Running
    ensures Reg(Step(m).m, A) == (Reg(m, A) + 1) % 256
    ensures Reg(Step(m).m, FL) == Pack(false, false, Reg(m, A) + 1 > 127)
    ensures Reg(Step(m).m, PC) == Addr(m, 2)
    ensures Untouched(m, Step(m).m, {A, FL, PC})
  {
    StepExecutes(m, INC);
    IncByteEffect(m);
  }

  /** INC with the byte tag on the machine whose PC has moved past the opcode. */
  lemma IncByteEffect(m: Machine)
    requires WellFormed(m) && Decodes(m, [INC, ByteWidth])
    ensures var e := Inc(Advance(m, 1));
            e.r == Ok(()) &&
            Reg(e.m, A) == (Reg(m, A) + 1) % 256 &&
            Reg(e.m, FL) == Pack(false, false, Reg(m, A) + 1 > 127) &&
            Reg(e.m, PC) == Addr(m, 2) &&
            Untouched(m, e.m, {A, FL, PC})
  {
    var m2 := ResetFlags(Advance(m, 1));
    var m3 := SetReg(m2, PC, Addr(m, 2));
    assert m.memory[Addr(m, 1)] == ByteWidth;
    FetchOperand(m, m2, 1, ByteWidth);
    assert Inc(Advance(m, 1)) == Effect(AddToA(m3, 1), Ok(()));
    assert Untouched(m, m3, {FL, PC}) && Reg(m3, PC) == Addr(m, 2) && Reg(m3, A) == Reg(m, A);
    AddToAEffect(m3, 1, Reg(m, A));
    AddToAKeeps(m, m3, 1, {FL, PC}, {A, FL, PC});
  }

  lemma StepIncWord(m: Machine)
    requires WellFormed(m) && Decodes(m, [INC, WordWidth])
    ensures Step(m).status == Running
    ensures BC(Step(m).m) == (BC(m) + 1) % 65536
    ensures Reg(Step(m).m, FL) == Pack(false, false, BC(m) + 1 > 32767)
    ensures Reg(Step(m).m, PC) == Addr(m, 2)
    ensures Untouched(m, Step(m).m, {B, C, FL, PC})
  {
    StepExecutes(m, INC);
    IncWordEffect(m);
  }

  /** INC with the word tag on the machine whose PC has moved past the opcode. */
  lemma IncWordEffect(m: Machine)
    requires WellFormed(m) && Decodes(m, [INC, WordWidth])
    ensures var e := Inc(Advance(m, 1));
            e.r == Ok(()) &&
            BC(e.m) == (BC(m) + 1) % 65536 &&
            Reg(e.m, FL) == Pack(false, false, BC(m) + 1 > 32767) &&
            Reg(e.m, PC) == Addr(m, 2) &&
            Untouched(m, e.m, {B, C, FL, PC})
  {
    var m2 := ResetFlags(Advance(m, 1));
    var m3 := SetReg(m2, PC, Addr(m, 2));
    assert m.memory[Addr(m, 1)] == WordWidth;
    FetchOperand(m, m2, 1, WordWidth);
    assert Inc(Advance(m, 1)) == Effect(IncrementBC(m3), Ok(()));
    assert Untouched(m, m3, {FL, PC}) && Reg(m3, PC) == Addr(m, 2);
    IncrementBCAfter(m, m3);
  }

  /** IncrementBC once the opcode and operand are fetched and the flags reset. */
  lemma IncrementBCAfter(m: Machine, m3: Machine)
    requires WellFormed(m) && WellFormed(m3) && Untouched(m, m3, {FL, PC})
    ensures BC(IncrementBC(m3)) == (BC(m) + 1) % 65536
    ensures Reg(IncrementBC(m3), FL) == Pack(false, false, BC(m) + 1 > 32767)
    ensures Reg(IncrementBC(m3), PC) == Reg(m3, PC)
    ensures Untouched(m, IncrementBC(m3), {B, C, FL, PC})
  {
    assert Reg(m3, B) == Reg(m, B) && Reg(m3, C) == Reg(m, C);
    assert BC(m3) == BC(m);
    IncrementBCEffect(m3);
    UntouchedChain(m, m3, IncrementBC(m3), {FL, PC}, {B, C, FL});
  }

  lemma StepAdd(m: Machine, x: byte)
    requires WellFormed(m) && Decodes(m, [ADD, x])
    ensures Step(m).status == Running
    ensures Reg(Step(m).m, B) == x
    ensures Reg(Step(m).m, A) == (Reg(m, A) + x) % 256
    ensures Reg(Step(m).m, FL) == Pack(false, false, Reg(m, A) + x > 127)
    ensures Reg(Step(m).m, PC) == Addr(m, 2)
    ensures Untouched(m, Step(m).m, {A, B, FL, PC})
  {
    StepExecutes(m, ADD);
    AddEffect(m, x);
  }

  /** ADD x on the machine whose PC has moved past the opcode. */
  lemma AddEffect(m: Machine, x: byte)
    requires WellFormed(m) && Decodes(m, [ADD, x])
    ensures var e := Add(Advance(m, 1));
            e.r == Ok(()) &&
            Reg(e.m, B) == x &&
            Reg(e.m, A) == (Reg(m, A) + x) % 256 &&
            Reg(e.m, FL) == Pack(false, false, Reg(m, A) + x > 127) &&
            Reg(e.m, PC) == Addr(m, 2) &&
            Untouched(m, e.m, {A, B, FL, PC})
  {
    var m2 := ResetFlags(Advance(m, 1));
    var m3 := SetReg(SetReg(m2, PC, Addr(m, 2)), B, x);
    assert m.memory[Addr(m, 1)] == x;
    FetchOperand(m, m2, 1, x);
    assert Add(Advance(m, 1)) == Effect(AddToA(m3, x), Ok(()));
    assert Untouched(m, m3, {B, FL, PC}) && Reg(m3, B) == x && Reg(m3, PC) == Addr(m, 2) && Reg(m3, A) == Reg(m, A);
    AddToAEffect(m3, x, Reg(m, A));
    AddToAKeeps(m, m3, x, {B, FL, PC}, {A, B, FL, PC});
  }

  lemma StepDec(m: Machine)
    requires WellFormed(m) && Decodes(m, [DEC])
    ensures Step(m).status == Running
    ensures Reg(Step(m).m, A) == (Reg(m, A) - 1) % 256
    ensures Reg(Step(m).m, FL) == Pack(Reg(m, A) == 0, Reg(m, A) == 1, false)
    ensures Reg(Step(m).m, PC) == Addr(m, 1)
    ensures Untouched(m, Step(m).m, {A, FL, PC})
  {
    StepExecutes(m, DEC);
    DecEffect(m);
  }

  /** DEC on the machine whose PC has moved past the opcode. */
  lemma DecEffect(m: Machine)
    requires WellFormed(m)
    ensures var e := Dec(Advance(m, 1));
            e.r == Ok(()) &&
            Reg(e.m, A) == (Reg(m, A) - 1) % 256 &&
            Reg(e.m, FL) == Pack(Reg(m, A) == 0, Reg(m, A) == 1, false) &&
            Reg(e.m, PC) == Addr(m, 1) &&
            Untouched(m, e.m, {A, FL, PC})
  {
    var m1 := Advance(m, 1);
    assert Untouched(m, m1, {PC}) && Reg(m1, A) == Reg(m, A);
    SubFromAEffect(m1, 1, Reg(m, A));
    SubFromAKeeps(m, m1, 1, {PC}, {A, FL, PC});
  }

  lemma StepSub(m: Machine, x: byte)
    requires WellFormed(m) && Decodes(m, [SUB, x])
    ensures Step(m).status == Running
    ensures Reg(Step(m).m, B) == x
    ensures Reg(Step(m).m, A) == (Reg(m, A) - x) % 256
    ensures Reg(Step(m).m, FL) == Pack(Reg(m, A) < x, Reg(m, A) == x, false)
    ensures Reg(Step(m).m, PC) == Addr(m, 2)
    ensures Untouched(m, Step(m).m, {A, B, FL, PC})
  {
    StepExecutes(m, SUB);
    SubEffect(m, x);
  }

  /** SUB x on the machine whose PC has moved past the opcode. */
  lemma SubEffect(m: Machine, x: byte)
    requires WellFormed(m) && Decodes(m, [SUB, x])
    ensures var e := Sub(Advance(m, 1));
            e.r == Ok(()) &&
            Reg(e.m, B) == x &&
            Reg(e.m, A) == (Reg(m, A) - x) % 256 &&
            Reg(e.m, FL) == Pack(Reg(m, A) < x, Reg(m, A) == x, false) &&
            Reg(e.m, PC) == Addr(m, 2) &&
            Untouched(m, e.m, {A, B, FL, PC})
  {
    var m2 := ResetFlags(Advance(m, 1));
    var m3 := SetReg(SetReg(m2, PC, Addr(m, 2)), B, x);
    assert m.memory[Addr(m, 1)] == x;
    FetchOperand(m, m2, 1, x);
    assert Sub(Advance(m, 1)) == Effect(SubFromA(m3, x), Ok(()));
    assert Untouched(m, m3, {B, FL, PC}) && Reg(m3, B) == x && Reg(m3, PC) == Addr(m, 2) && Reg(m3, A) == Reg(m, A);
    SubFromAEffect(m3, x, Reg(m, A));
    SubFromAKeeps(m, m3, x, {B, FL, PC}, {A, B, FL, PC});
  }

  /** JMP t sets PC to t and changes nothing else. */
  lemma StepJmp(m: Machine, t: byte)
    requires WellFormed(m) && Decodes(m, [JMP, t])
    ensures Step(m) == Outcome(SetReg(m, PC, t), Running)
  {
    StepExecutes(m, JMP);
    JumpEffect(m, JMP, t, true);
  }

  /** JMZ t jumps exactly when ZF is set; otherwise PC rests past the operand. */
  lemma StepJmz(m: Machine, t: byte)
    requires WellFormed(m) && Decodes(m, [JMZ, t])
    ensures Step(m) == Outcome(SetReg(m, PC, if Flag(m, ZF) then t else Addr(m, 2)), Running)
  {
    StepExecutes(m, JMZ);
    JumpEffect(m, JMZ, t, Flag(m, ZF));
  }

  /** JMN t jumps exactly when SF is set; otherwise PC rests past the operand. */
  lemma StepJmn(m: Machine, t: byte)
    requires WellFormed(m) && Decodes(m, [JMN, t])
    ensures Step(m) == Outcome(SetReg(m, PC, if Flag(m, SF) then t else Addr(m, 2)), Running)
  {
    StepExecutes(m, JMN);
    JumpEffect(m, JMN, t, Flag(m, SF));
  }

  /** A jump with target t on the machine whose PC has moved past the opcode; moving PC leaves the flags. */
  lemma JumpEffect(m: Machine, op: byte, t: byte, taken: bool)
    requires WellFormed(m) && Decodes(m, [op, t])
    ensures JumpIf(Advance(m, 1), taken) == Effect(SetReg(m, PC, if taken then t else Addr(m, 2)), Ok(()))
    ensures Flag(Advance(m, 1), ZF) == Flag(m, ZF) && Flag(Advance(m, 1), SF) == Flag(m, SF)
  {
    var m1 := Advance(m, 1);
    assert m.memory[Addr(m, 1)] == t;
    FetchOperand(m, m1, 1, t);
    assert SetReg(m1, PC, Addr(m, 2)) == SetReg(m, PC, Addr(m, 2));
    assert SetReg(SetReg(m1, PC, Addr(m, 2)), PC, t) == SetReg(m, PC, t);
  }

  /**
   * GET r, a loads memory[a] into the slot r names, after PC has moved
   * past both operands (so GET into PC is a jump); it throws when a is
   * outside memory or r outside the register file.
   */
  lemma StepGet(m: Machine, r: byte, a: byte)
    requires WellFormed(m) && Decodes(m, [GET, r, a])
    ensures var past := SetReg(m, PC, Addr(m, 3));
            Step(m) ==
              if a >= |m.memory| then Outcome(past, Faulted(MemoryOutOfRange(a)))
              else if !InFile(r) then Outcome(past, Faulted(RegisterOutOfRange(ToRegisterOffset(r))))
              else Outcome(SetReg(past, r, m.memory[a]), Running)
  {
    StepExecutes(m, GET);
    GetEffect(m, r, a);
  }

  /** GET r, a on the machine whose PC has moved past the opcode. */
  lemma GetEffect(m: Machine, r: byte, a: byte)
    requires WellFormed(m) && Decodes(m, [GET, r, a])
    ensures var past := SetReg(m, PC, Addr(m, 3));
            Get(Advance(m, 1)) ==
              if a >= |m.memory| then Effect(past, Err(MemoryOutOfRange(a)))
              else if !InFile(r) then Effect(past, Err(RegisterOutOfRange(ToRegisterOffset(r))))
              else Effect(SetReg(past, r, m.memory[a]), Ok(()))
  {
    var m1 := Advance(m, 1);
    assert m.memory[Addr(m, 1)] == r && m.memory[Addr(m, 2)] == a;
    FetchOperand(m, m1, 1, r);
    var m2 := SetReg(m1, PC, Addr(m, 2));
    FetchOperand(m, m2, 2, a);
    assert SetReg(m2, PC, Addr(m, 3)) == SetReg(m, PC, Addr(m, 3));
  }

  /**
   * PUT r, a stores the slot r names (read after PC has moved past both
   * operands) at memory[a] and changes nothing else.
   */
  lemma StepPut(m: Machine, r: byte, a: byte)
    requires WellFormed(m) && Decodes(m, [PUT, r, a])
    ensures var past := SetReg(m, PC, Addr(m, 3));
            Step(m) ==
              if !InFile(r) then Outcome(past, Faulted(RegisterOutOfRange(ToRegisterOffset(r))))
              else if a >= |m.memory| then Outcome(past, Faulted(MemoryOutOfRange(a)))
              else Outcome(past.(memory := m.memory[a := Reg(past, r)]), Running)
  {
    StepExecutes(m, PUT);
    PutEffect(m, r, a);
  }

  /** PUT r, a on the machine whose PC has moved past the opcode. */
  lemma PutEffect(m: Machine, r: byte, a: byte)
    requires WellFormed(m) && Decodes(m, [PUT, r, a])
    ensures var past := SetReg(m, PC, Addr(m, 3));
            Put(Advance(m, 1)) ==
              if !InFile(r) then Effect(past, Err(RegisterOutOfRange(ToRegisterOffset(r))))
              else if a >= |m.memory| then Effect(past, Err(MemoryOutOfRange(a)))
              else Effect(past.(memory := m.memory[a := Reg(past, r)]), Ok(()))
  {
    var m1 := Advance(m, 1);
    assert m.memory[Addr(m, 1)] == r && m.memory[Addr(m, 2)] == a;
    FetchOperand(m, m1, 1, r);
    var m2 := SetReg(m1, PC, Addr(m, 2));
    FetchOperand(m, m2, 2, a);
    assert SetReg(m2, PC, Addr(m, 3)) == SetReg(m, PC, Addr(m, 3));
  }

  /** PUT then GET of the same register and address restores the register and changes only that cell. */
  lemma PutThenGet(m: Machine, r: byte, a: byte)
    requires WellFormed(m) && InFile(r) && r != PC && a < |m.memory|
    requires Decodes(m, [PUT, r, a, GET, r, a])
    requires a != Addr(m, 3) && a != Addr(m, 4) && a != Addr(m, 5)
    ensures Step(m).status == Running
    ensures Step(Step(m).m).status == Running
    ensures Step(Step(m).m).m == SetReg(m, PC, Addr(m, 6)).(memory := m.memory[a := Reg(m, r)])
  {
    var mem := m.memory[a := Reg(m, r)];
    var m1 := SetReg(m, PC, Addr(m, 3)).(memory := mem);
    assert Step(m) == Outcome(m1, Running) by {
      assert Decodes(m, [PUT, r, a]) by {
        assert forall i :: 0 <= i < 3 ==> [PUT, r, a, GET, r, a][i] == [PUT, r, a][i];
      }
      StepPut(m, r, a);
    }
    assert Decodes(m1, [GET, r, a]) by {
      forall i | 0 <= i < 3
        ensures Addr(m1, i) == Addr(m, 3 + i)
      {
        AddrShift(m, m1, 3, i);
      }
      assert m.memory[Addr(m, 3)] == GET && m.memory[Addr(m, 4)] == r && m.memory[Addr(m, 5)] == a;
    }
    assert Reg(m1, r) == Reg(m, r);
    assert Step(m1) == Outcome(SetReg(SetReg(m1, PC, Addr(m1, 3)), r, mem[a]), Running) by {
      StepGet(m1, r, a);
    }
    AddrShift(m, m1, 3, 3);
    assert SetReg(SetReg(m1, PC, Addr(m, 6)), r, Reg(m, r)).registers == SetReg(m, PC, Addr(m, 6)).registers;
  }

  /** INP with the byte tag reads the plugin's next byte into A. */
  lemma StepInpByte(m: Machine)
    requires WellFormed(m) && Decodes(m, [INP, ByteWidth])
    ensures var past := SetReg(m, PC, Addr(m, 2));
            Step(m) ==
              if m.io.bytesIn == [] then Outcome(past, Faulted(InputExhausted))
              else Outcome(SetReg(past, A, m.io.bytesIn[0]).(io := m.io.(bytesIn := m.io.bytesIn[1..])), Running)
  {
    StepExecutes(m, INP);
    InpByteEffect(m);
  }

  /** INP with the byte tag on the machine whose PC has moved past the opcode. */
  lemma InpByteEffect(m: Machine)
    requires WellFormed(m) && Decodes(m, [INP, ByteWidth])
    ensures var past := SetReg(m, PC, Addr(m, 2));
            Inp(Advance(m, 1)) ==
              if m.io.bytesIn == [] then Effect(past, Err(InputExhausted))
              else Effect(SetReg(past, A, m.io.bytesIn[0]).(io := m.io.(bytesIn := m.io.bytesIn[1..])), Ok(()))
  {
    var m1 := Advance(m, 1);
    assert m.memory[Addr(m, 1)] == ByteWidth;
    FetchOperand(m, m1, 1, ByteWidth);
    assert SetReg(m1, PC, Addr(m, 2)) == SetReg(m, PC, Addr(m, 2));
  }

  /** INP with the word tag reads the plugin's next word into B:C. */
  lemma StepInpWord(m: Machine)
    requires WellFormed(m) && Decodes(m, [INP, WordWidth])
    ensures m.io.wordsIn == [] ==> Step(m) == Outcome(SetReg(m, PC, Addr(m, 2)), Faulted(InputExhausted))
    ensures m.io.wordsIn != [] ==>
              Step(m).status == Running &&
              BC(Step(m).m) == m.io.wordsIn[0] &&
              Step(m).m.io == m.io.(wordsIn := m.io.wordsIn[1..]) &&
              Reg(Step(m).m, PC) == Addr(m, 2) &&
              Step(m).m.memory == m.memory &&
              Reg(Step(m).m, A) == Reg(m, A) && Reg(Step(m).m, D) == Reg(m, D) && Reg(Step(m).m, FL) == Reg(m, FL)
  {
    StepExecutes(m, INP);
    InpWordEffect(m);
  }

  /** INP with the word tag on the machine whose PC has moved past the opcode. */
  lemma InpWordEffect(m: Machine)
    requires WellFormed(m) && Decodes(m, [INP, WordWidth])
    ensures m.io.wordsIn == [] ==> Inp(Advance(m, 1)) == Effect(SetReg(m, PC, Addr(m, 2)), Err(InputExhausted))
    ensures m.io.wordsIn != [] ==>
              var e := Inp(Advance(m, 1));
              e.r == Ok(()) &&
              BC(e.m) == m.io.wordsIn[0] &&
              e.m.io == m.io.(wordsIn := m.io.wordsIn[1..]) &&
              Reg(e.m, PC) == Addr(m, 2) &&
              e.m.memory == m.memory &&
              Reg(e.m, A) == Reg(m, A) && Reg(e.m, D) == Reg(m, D) && Reg(e.m, FL) == Reg(m, FL)
  {
    var m1 := Advance(m, 1);
    assert m.memory[Addr(m, 1)] == WordWidth;
    FetchOperand(m, m1, 1, WordWidth);
    assert SetReg(m1, PC, Addr(m, 2)) == SetReg(m, PC, Addr(m, 2));
    if m.io.wordsIn != [] {
      SplitJoin(m.io.wordsIn[0]);
    }
  }

  /** OUT hands A (byte tag) or B:C (word tag) to the plugin and changes nothing else. */
  lemma StepOut(m: Machine, width: byte)
    requires WellFormed(m) && Decodes(m, [OUT, width]) && (width == ByteWidth || width == WordWidth)
    ensures Step(m) ==
              Outcome(SetReg(m, PC, Addr(m, 2)).(io := m.io.(log := m.io.log + [if width == ByteWidth then ByteOut(Reg(m, A)) else WordOut(BC(m))])),
                      Running)
  {
    StepExecutes(m, OUT);
    OutEffect(m, width);
  }

  /** OUT on the machine whose PC has moved past the opcode. */
  lemma OutEffect(m: Machine, width: byte)
    requires WellFormed(m) && Decodes(m, [OUT, width]) && (width == ByteWidth || width == WordWidth)
    ensures Out(Advance(m, 1)) ==
              Effect(SetReg(m, PC, Addr(m, 2)).(io := m.io.(log := m.io.log + [if width == ByteWidth then ByteOut(Reg(m, A)) else WordOut(BC(m))])),
                     Ok(()))
  {
    var m1 := Advance(m, 1);
    assert m.memory[Addr(m, 1)] == width;
    FetchOperand(m, m1, 1, width);
    assert SetReg(m1, PC, Addr(m, 2)) == SetReg(m, PC, Addr(m, 2));
  }

  /**
   * A width tag other than 1 or 2 makes INP and OUT do nothing but consume
   * it; INC has by then cleared the flags.
   */
  lemma StepIgnoresOtherWidth(m: Machine, op: byte, width: byte)
    requires WellFormed(m) && Decodes(m, [op, width])
    requires op == INP || op == OUT || op == INC
    requires width != ByteWidth && width != WordWidth
    ensures Step(m) == Outcome(SetReg(if op == INC then ResetFlags(m) else m, PC, Addr(m, 2)), Running)
  {
    StepExecutes(m, op);
    OtherWidthEffect(m, op, width);
  }

  /** INP, OUT or INC with an unknown width tag on the machine whose PC has moved past the opcode. */
  lemma OtherWidthEffect(m: Machine, op: byte, width: byte)
    requires WellFormed(m) && Decodes(m, [op, width])
    requires op == INP || op == OUT || op == INC
    requires width != ByteWidth && width != WordWidth
    ensures Execute(op, Advance(m, 1)) == Effect(SetReg(if op == INC then ResetFlags(m) else m, PC, Addr(m, 2)), Ok(()))
  {
    var m1 := Advance(m, 1);
    assert m.memory[Addr(m, 1)] == width;
    if op == INC {
      FetchOperand(m, ResetFlags(m1), 1, width);
      assert SetReg(ResetFlags(m1), PC, Addr(m, 2)) == SetReg(ResetFlags(m), PC, Addr(m, 2));
    } else {
      FetchOperand(m, m1, 1, width);
      assert SetReg(m1, PC, Addr(m, 2)) == SetReg(m, PC, Addr(m, 2));
    }
  }

  /** The one instruction whose operand can redirect PC other than a jump: GET into PC. */
  predicate GetsIntoPc(m: Machine)
    requires WellFormed(m)
  {
    Decodes(m, [GET]) && Addr(m, 1) < |m.memory| && m.memory[Addr(m, 1)] == PC
  }

  /**
   * Every instruction that completes, other than a jump and GET into PC,
   * leaves PC just past its opcode and the operand bytes it declares.
   */
  lemma StepConsumesArity(m: Machine)
    requires WellFormed(m) && !Step(m).status.Faulted?
    ensures Reg(m, PC) < |m.memory|
    ensures var op := m.memory[Reg(m, PC)];
            !IsJump(op) && !GetsIntoPc(m) ==> Reg(Step(m).m, PC) == Addr(m, 1 + Arity(op))
  {
    var op := m.memory[Reg(m, PC)];
    assert Decodes(m, [op]);
    if op == GET || op == PUT {
      if !GetsIntoPc(m) {
        TwoOperandsConsumed(m, op);
      }
    } else if op in {INP, OUT, INC, ADD, SUB} {
      OneOperandConsumed(m, op);
    } else if op != END && !IsJump(op) {
      assert Step(m) == Outcome(Execute(op, Advance(m, 1)).m, Running) by {
        StepExecutes(m, op);
      }
    }
  }

  lemma TwoOperandsConsumed(m: Machine, op: byte)
    requires WellFormed(m) && Decodes(m, [op]) && (op == GET || op == PUT)
    requires !Step(m).status.Faulted? && !GetsIntoPc(m)
    ensures Reg(Step(m).m, PC) == Addr(m, 3)
  {
    var m1 := Advance(m, 1);
    StepExecutes(m, op);
    var m2 := Fetch(m1).m;
    assert Reg(m2, PC) == Addr(m, 2) by {
      AddrShift(m, m1, 1, 1);
    }
    assert Reg(Fetch(m2).m, PC) == Addr(m, 3) by {
      AddrShift(m, m2, 2, 1);
    }
  }

  lemma OneOperandConsumed(m: Machine, op: byte)
    requires WellFormed(m) && Decodes(m, [op]) && op in {INP, OUT, INC, ADD, SUB}
    requires !Step(m).status.Faulted?
    ensures Reg(Step(m).m, PC) == Addr(m, 2)
  {
    var m1 := Advance(m, 1);
    StepExecutes(m, op);
    assert Reg(Fetch(m1).m, PC) == Addr(m, 2) by {
      AddrShift(m, m1, 1, 1);
    }
    assert Reg(Fetch(ResetFlags(m1)).m, PC) == Addr(m, 2) by {
      AddrShift(m, ResetFlags(m1), 1, 1);
    }
  }

  // ---------------------------------------------------------------------
  // The loop.

  /** Running n + k turns is running n turns and then, if still running, k more. */
  lemma {:induction false} RunSplit(m: Machine, n: nat, k: nat)
    requires WellFormed(m)
    ensures Run(m, n + k) == (var o := Run(m, n); if o.status.Running? then Run(o.m, k) else o)
    decreases n
  {
    if n > 0 {
      var s := Step(m);
      if s.status.Running? {
        RunSplit(s.m, n - 1, k);
      }
    }
  }

  /** Once the loop has stopped, more fuel changes nothing. */
  lemma RunStopped(m: Machine, n: nat, k: nat)
    requires WellFormed(m) && !Run(m, n).status.Running?
    ensures Run(m, n + k) == Run(m, n)
  {
    RunSplit(m, n, k);
  }

  /** The loop halts only on a turn that fetched END. */
  lemma {:induction false} RunHaltsOnlyAtEnd(m: Machine, fuel: nat)
    requires WellFormed(m) && Run(m, fuel).status == Halted
    ensures exists n :: 0 <= n < fuel && Run(m, n).status == Running &&
                        Decodes(Run(m, n).m, [END]) && Run(m, fuel) == Step(Run(m, n).m)
    decreases fuel
  {
    var s := Step(m);
    StepHaltsExactlyAtEnd(m);
    if s.status == Halted {
      assert Run(m, 0) == Outcome(m, Running);
    } else {
      RunHaltsOnlyAtEnd(s.m, fuel - 1);
      var n :| 0 <= n < fuel - 1 && Run(s.m, n).status == Running &&
               Decodes(Run(s.m, n).m, [END]) && Run(s.m, fuel - 1) == Step(Run(s.m, n).m);
      assert Run(m, n + 1) == Run(s.m, n);
    }
  }

  /** A turn that fetches END halts the loop, whatever fuel remains. */
  lemma RunHaltsAtEnd(m: Machine, n: nat, fuel: nat)
    requires WellFormed(m) && n < fuel
    requires Run(m, n).status == Running && Decodes(Run(m, n).m, [END])
    ensures Run(m, fuel).status == Halted
    ensures Run(m, fuel) == Step(Run(m, n).m)
  {
    RunSplit(m, n, fuel - n);
    StepHaltsExactlyAtEnd(Run(m, n).m);
  }

  // ---------------------------------------------------------------------
  // Loading.

  lemma {:induction false} LoadFromPlaces(m: Machine, program: seq<byte>, i: nat)
    requires WellFormed(m) && i <= |program| <= |m.memory| && |program| <= 256
    ensures LoadFrom(m, program, i) ==
              Effect(m.(memory := m.memory[..i] + program[i..] + m.memory[|program|..]), Ok(()))
    decreases |program| - i
  {
    if i == |program| {
      assert m.memory[..i] + program[i..] + m.memory[|program|..] == m.memory;
    } else {
      var e := PokeByte(m, Wrap8(i), program[i]);
      assert e.m.memory == m.memory[i := program[i]];
      LoadFromPlaces(e.m, program, i + 1);
      assert e.m.memory[..i + 1] + program[i + 1..] + e.m.memory[|program|..] ==
             m.memory[..i] + program[i..] + m.memory[|program|..];
    }
  }

  /**
   * A program that fits (in memory and in the byte-wide cursor) lands at
   * addresses 0.. of memory, the rest of memory and all registers as they were.
   */
  lemma LoadPlacesProgram(m: Machine, program: seq<byte>)
    requires WellFormed(m) && |program| <= |m.memory| && |program| <= 256
    ensures Load(m, program).r.Ok?
    ensures Load(m, program).m.memory == program + m.memory[|program|..]
    ensures Load(m, program).m.registers == m.registers && Load(m, program).m.io == m.io
  {
    LoadFromPlaces(m, program, 0);
    assert m.memory[..0] + program[0..] == program;
  }

  lemma {:induction false} LoadFromOverflows(m: Machine, program: seq<byte>, i: nat)
    requires WellFormed(m) && |m.memory| < |program| && |m.memory| < 256 && i <= |m.memory|
    ensures LoadFrom(m, program, i) ==
              Effect(m.(memory := m.memory[..i] + program[i..|m.memory|]), Err(MemoryOutOfRange(|m.memory|)))
    decreases |m.memory| - i
  {
    var e := PokeByte(m, Wrap8(i), program[i]);
    if i == |m.memory| {
      assert m.memory[..i] + program[i..|m.memory|] == m.memory;
    } else {
      assert e.m.memory == m.memory[i := program[i]];
      LoadFromOverflows(e.m, program, i + 1);
      assert e.m.memory[..i + 1] + program[i + 1..|m.memory|] == m.memory[..i] + program[i..|m.memory|];
    }
  }

  /**
   * A program longer than a memory of fewer than 256 bytes fills memory
   * and then throws at the first address past its end.
   */
  lemma LoadOverflowFaults(m: Machine, program: seq<byte>)
    requires WellFormed(m) && |m.memory| < |program| && |m.memory| < 256
    ensures Load(m, program).r == Err(MemoryOutOfRange(|m.memory|))
    ensures Load(m, program).m.memory == program[..|m.memory|]
  {
    LoadFromOverflows(m, program, 0);
  }
}
