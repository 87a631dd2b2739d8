/**
 * Whole programs: the ones the V2 tests load and run, followed turn by
 * turn, and the flag register sequence the tests drive through the VM's
 * public methods.
 */
module Programs {
  import opened Bits
  import opened Flags
  import opened Isa
  import opened Semantics
  import opened Properties
  import V2
  import Executive

  /** Read a byte, add one twice, write it back, stop. */
  const IncByteCode: seq<byte> :=
    [NOP, INP, ByteWidth, INC, ByteWidth, INC, ByteWidth, OUT, ByteWidth, END]

  /** The same with the word forms, on B:C. */
  const IncWordCode: seq<byte> :=
    [NOP, INP, WordWidth, INC, WordWidth, INC, WordWidth, OUT, WordWidth, END]

  /** The smallest program: NOP then END. */
  const SimpleCode: seq<byte> := [NOP, END]

  /** The bytes of `code` from index i on sit at the same addresses of memory. */
  predicate HoldsFrom(memory: seq<byte>, code: seq<byte>, i: nat)
    decreases |code| - i
  {
    i >= |code| || (i < |memory| && memory[i] == code[i] && HoldsFrom(memory, code, i + 1))
  }

  /** The program `code` sits at addresses 0.. of memory. */
  predicate Holds(memory: seq<byte>, code: seq<byte>)
  {
    HoldsFrom(memory, code, 0)
  }

  lemma {:induction false} HoldsAt(memory: seq<byte>, code: seq<byte>, i: nat, k: nat)
    requires HoldsFrom(memory, code, i) && i <= k < |code|
    ensures k < |memory| && memory[k] == code[k]
    decreases k - i
  {
    if i < k {
      HoldsAt(memory, code, i + 1, k);
    }
  }

  lemma {:induction false} HoldsOfPrefix(memory: seq<byte>, code: seq<byte>, i: nat)
    requires |code| <= |memory| && memory[..|code|] == code && i <= |code|
    ensures HoldsFrom(memory, code, i)
    decreases |code| - i
  {
    if i < |code| {
      assert memory[i] == memory[..|code|][i];
      HoldsOfPrefix(memory, code, i + 1);
    }
  }

  /** With the program at address 0 and PC at j, the bytes at PC are the program's from j on. */
  lemma DecodesFrom(m: Machine, code: seq<byte>, j: nat, k: nat)
    requires WellFormed(m) && Holds(m.memory, code) && Reg(m, PC) == j && j <= k <= |code| <= 256
    ensures Decodes(m, code[j..k])
  {
    forall i | 0 <= i < k - j
      ensures Addr(m, i) < |m.memory| && m.memory[Addr(m, i)] == code[j..k][i]
    {
      assert Addr(m, i) == j + i;
      HoldsAt(m.memory, code, 0, j + i);
    }
  }

  /** Where a freshly loaded program starts: at address 0, with PC 0. */
  lemma LoadedAtZero(size: word, io: Channel, code: seq<byte>)
    requires |code| <= size && |code| <= 256
    ensures Load(Initial(size, io), code).r.Ok?
    ensures var m := Load(Initial(size, io), code).m;
            Reg(m, PC) == 0 && Holds(m.memory, code) && m.io == io
  {
    var m0 := Initial(size, io);
    LoadPlacesProgram(m0, code);
    var m := Load(m0, code).m;
    assert Reg(m, PC) == m0.registers[4] == 0;
    assert m.memory[..|code|] == code;
    HoldsOfPrefix(m.memory, code, 0);
  }

  /** A turn that leaves the loop running hands the rest of the fuel to the next turn. */
  lemma RunOn(m: Machine, fuel: nat)
    requires WellFormed(m) && fuel >= 1 && Step(m).status == Running
    ensures Run(m, fuel) == Run(Step(m).m, fuel - 1)
  {
  }

  /** The program `code` is at address 0 and the next turn starts at `pc`. */
  predicate Ready(m: Machine, code: seq<byte>, pc: nat)
  {
    WellFormed(m) && |code| < 256 && Holds(m.memory, code) && Reg(m, PC) == pc
  }

  // One turn of each kind, at a PC inside a program held at address 0.

  lemma NopAt(m: Machine, code: seq<byte>, pc: nat)
    requires Ready(m, code, pc) && pc < |code| && code[pc] == NOP
    ensures Step(m).status == Running && Ready(Step(m).m, code, pc + 1)
    ensures Step(m).m == SetReg(m, PC, pc + 1) && Step(m).m.memory == m.memory
  {
    DecodesFrom(m, code, pc, pc + 1);
    assert Addr(m, 1) == pc + 1;
    StepSkipsNop(m, NOP);
  }

  lemma InpByteAt(m: Machine, code: seq<byte>, pc: nat)
    requires Ready(m, code, pc) && pc + 2 <= |code| && code[pc] == INP && code[pc + 1] == ByteWidth
    requires m.io.bytesIn != []
    ensures Step(m).status == Running && Ready(Step(m).m, code, pc + 2)
    ensures Reg(Step(m).m, A) == m.io.bytesIn[0] && Step(m).m.io.log == m.io.log && Step(m).m.memory == m.memory
  {
    DecodesFrom(m, code, pc, pc + 2);
    assert Addr(m, 2) == pc + 2;
    StepInpByte(m);
  }

  lemma InpWordAt(m: Machine, code: seq<byte>, pc: nat)
    requires Ready(m, code, pc) && pc + 2 <= |code| && code[pc] == INP && code[pc + 1] == WordWidth
    requires m.io.wordsIn != []
    ensures Step(m).status == Running && Ready(Step(m).m, code, pc + 2)
    ensures BC(Step(m).m) == m.io.wordsIn[0] && Step(m).m.io.log == m.io.log && Step(m).m.memory == m.memory
  {
    DecodesFrom(m, code, pc, pc + 2);
    assert Addr(m, 2) == pc + 2;
    StepInpWord(m);
  }

  lemma IncByteAt(m: Machine, code: seq<byte>, pc: nat, a: byte)
    requires Ready(m, code, pc) && pc + 2 <= |code| && code[pc] == INC && code[pc + 1] == ByteWidth
    requires a == (Reg(m, A) + 1) % 256
    ensures Step(m).status == Running && Ready(Step(m).m, code, pc + 2)
    ensures Reg(Step(m).m, A) == a && Step(m).m.io == m.io && Step(m).m.memory == m.memory
  {
    DecodesFrom(m, code, pc, pc + 2);
    assert Addr(m, 2) == pc + 2;
    StepIncByte(m);
  }

  lemma IncWordAt(m: Machine, code: seq<byte>, pc: nat, w: word)
    requires Ready(m, code, pc) && pc + 2 <= |code| && code[pc] == INC && code[pc + 1] == WordWidth
    requires w == (BC(m) + 1) % 65536
    ensures Step(m).status == Running && Ready(Step(m).m, code, pc + 2)
    ensures BC(Step(m).m) == w && Step(m).m.io == m.io && Step(m).m.memory == m.memory
  {
    DecodesFrom(m, code, pc, pc + 2);
    assert Addr(m, 2) == pc + 2;
    StepIncWord(m);
  }

  lemma OutAt(m: Machine, code: seq<byte>, pc: nat)
    requires Ready(m, code, pc) && pc + 2 <= |code| && code[pc] == OUT
    requires code[pc + 1] == ByteWidth || code[pc + 1] == WordWidth
    ensures Step(m).status == Running && Ready(Step(m).m, code, pc + 2)
    ensures Step(m).m.io.log == m.io.log + [if code[pc + 1] == ByteWidth then ByteOut(Reg(m, A)) else WordOut(BC(m))]
    ensures Step(m).m.memory == m.memory
  {
    DecodesFrom(m, code, pc, pc + 2);
    assert Addr(m, 2) == pc + 2;
    StepOut(m, code[pc + 1]);
  }

  lemma EndAt(m: Machine, code: seq<byte>, pc: nat)
    requires Ready(m, code, pc) && pc < |code| && code[pc] == END
    ensures Step(m).status == Halted && Step(m).m == SetReg(m, PC, Wrap8(pc + 1))
  {
    DecodesFrom(m, code, pc, pc + 1);
    StepHaltsExactlyAtEnd(m);
  }

  // One turn of the loop each, naming the machine the next turn starts from.

  lemma NopTurn(m: Machine, code: seq<byte>, pc: nat, fuel: nat) returns (m1: Machine)
    requires Ready(m, code, pc) && pc < |code| && code[pc] == NOP && fuel >= 1
    ensures Ready(m1, code, pc + 1) && m1 == SetReg(m, PC, pc + 1) && m1.memory == m.memory && m1.io == m.io
    ensures Run(m, fuel) == Run(m1, fuel - 1)
  {
    NopAt(m, code, pc);
    RunOn(m, fuel);
    m1 := Step(m).m;
  }

  lemma InpByteTurn(m: Machine, code: seq<byte>, pc: nat, fuel: nat) returns (m1: Machine)
    requires Ready(m, code, pc) && pc + 2 <= |code| && code[pc] == INP && code[pc + 1] == ByteWidth
    requires m.io.bytesIn != [] && fuel >= 1
    ensures Ready(m1, code, pc + 2) && m1.memory == m.memory
    ensures Reg(m1, A) == m.io.bytesIn[0] && m1.io.log == m.io.log
    ensures Run(m, fuel) == Run(m1, fuel - 1)
  {
    InpByteAt(m, code, pc);
    RunOn(m, fuel);
    m1 := Step(m).m;
  }

  lemma InpWordTurn(m: Machine, code: seq<byte>, pc: nat, fuel: nat) returns (m1: Machine)
    requires Ready(m, code, pc) && pc + 2 <= |code| && code[pc] == INP && code[pc + 1] == WordWidth
    requires m.io.wordsIn != [] && fuel >= 1
    ensures Ready(m1, code, pc + 2) && m1.memory == m.memory
    ensures BC(m1) == m.io.wordsIn[0] && m1.io.log == m.io.log
    ensures Run(m, fuel) == Run(m1, fuel - 1)
  {
    InpWordAt(m, code, pc);
    RunOn(m, fuel);
    m1 := Step(m).m;
  }

  lemma IncByteTurn(m: Machine, code: seq<byte>, pc: nat, fuel: nat) returns (m1: Machine)
    requires Ready(m, code, pc) && pc + 2 <= |code| && code[pc] == INC && code[pc + 1] == ByteWidth
    requires fuel >= 1
    ensures Ready(m1, code, pc + 2) && m1.memory == m.memory
    ensures Reg(m1, A) == (Reg(m, A) + 1) % 256 && m1.io == m.io
    ensures Run(m, fuel) == Run(m1, fuel - 1)
  {
    IncByteAt(m, code, pc, (Reg(m, A) + 1) % 256);
    RunOn(m, fuel);
    m1 := Step(m).m;
  }

  lemma IncWordTurn(m: Machine, code: seq<byte>, pc: nat, fuel: nat) returns (m1: Machine)
    requires Ready(m, code, pc) && pc + 2 <= |code| && code[pc] == INC && code[pc + 1] == WordWidth
    requires fuel >= 1
    ensures Ready(m1, code, pc + 2) && m1.memory == m.memory
    ensures BC(m1) == (BC(m) + 1) % 65536 && m1.io == m.io
    ensures Run(m, fuel) == Run(m1, fuel - 1)
  {
    IncWordAt(m, code, pc, (BC(m) + 1) % 65536);
    RunOn(m, fuel);
    m1 := Step(m).m;
  }

  /** OUT of either width then END: the loop stops two turns on, having written one datum. */
  lemma OutEndRuns(m: Machine, code: seq<byte>, pc: nat, fuel: nat)
    requires Ready(m, code, pc) && pc + 3 <= |code| && code[pc] == OUT && code[pc + 2] == END
    requires code[pc + 1] == ByteWidth || code[pc + 1] == WordWidth
    requires fuel >= 2
    ensures Run(m, fuel).status == Halted
    ensures Run(m, fuel).m.io.log == m.io.log + [if code[pc + 1] == ByteWidth then ByteOut(Reg(m, A)) else WordOut(BC(m))]
  {
    OutAt(m, code, pc);
    RunOn(m, fuel);
    EndAt(Step(m).m, code, pc + 2);
  }

  /** The INC byte program from its last INC on writes A plus one. */
  lemma IncByteFrom5(m: Machine, fuel: nat)
    requires Ready(m, IncByteCode, 5) && fuel >= 3
    ensures Run(m, fuel).status == Halted
    ensures Run(m, fuel).m.io.log == m.io.log + [ByteOut((Reg(m, A) + 1) % 256)]
  {
    var m1 := IncByteTurn(m, IncByteCode, 5, fuel);
    OutEndRuns(m1, IncByteCode, 7, fuel - 1);
  }

  /** The INC byte program from its first INC on writes A plus one, plus one. */
  lemma IncByteFrom3(m: Machine, fuel: nat)
    requires Ready(m, IncByteCode, 3) && fuel >= 4
    ensures Run(m, fuel).status == Halted
    ensures Run(m, fuel).m.io.log == m.io.log + [ByteOut(((Reg(m, A) + 1) % 256 + 1) % 256)]
  {
    var m1 := IncByteTurn(m, IncByteCode, 3, fuel);
    IncByteFrom5(m1, fuel - 1);
  }

  /** The INC byte program from its INP on writes the byte read plus one, plus one. */
  lemma IncByteFrom1(m: Machine, fuel: nat)
    requires Ready(m, IncByteCode, 1) && m.io.bytesIn != [] && fuel >= 5
    ensures Run(m, fuel).status == Halted
    ensures Run(m, fuel).m.io.log == m.io.log + [ByteOut(((m.io.bytesIn[0] as int + 1) % 256 + 1) % 256)]
  {
    var m1 := InpByteTurn(m, IncByteCode, 1, fuel);
    IncByteFrom3(m1, fuel - 1);
  }

  /** The INC byte program from the start. */
  lemma IncByteFrom0(m: Machine, fuel: nat)
    requires Ready(m, IncByteCode, 0) && m.io.bytesIn != [] && fuel >= 6
    ensures Run(m, fuel).status == Halted
    ensures Run(m, fuel).m.io.log == m.io.log + [ByteOut(((m.io.bytesIn[0] as int + 1) % 256 + 1) % 256)]
  {
    var m1 := NopTurn(m, IncByteCode, 0, fuel);
    IncByteFrom1(m1, fuel - 1);
  }

  /** The INC word program from its last INC on writes B:C plus one. */
  lemma IncWordFrom5(m: Machine, fuel: nat)
    requires Ready(m, IncWordCode, 5) && fuel >= 3
    ensures Run(m, fuel).status == Halted
    ensures Run(m, fuel).m.io.log == m.io.log + [WordOut((BC(m) + 1) % 65536)]
  {
    var m1 := IncWordTurn(m, IncWordCode, 5, fuel);
    OutEndRuns(m1, IncWordCode, 7, fuel - 1);
  }

  /** The INC word program from its first INC on writes B:C plus one, plus one. */
  lemma IncWordFrom3(m: Machine, fuel: nat)
    requires Ready(m, IncWordCode, 3) && fuel >= 4
    ensures Run(m, fuel).status == Halted
    ensures Run(m, fuel).m.io.log == m.io.log + [WordOut(((BC(m) + 1) % 65536 + 1) % 65536)]
  {
    var m1 := IncWordTurn(m, IncWordCode, 3, fuel);
    IncWordFrom5(m1, fuel - 1);
  }

  /** The INC word program from its INP on writes the word read plus one, plus one. */
  lemma IncWordFrom1(m: Machine, fuel: nat)
    requires Ready(m, IncWordCode, 1) && m.io.wordsIn != [] && fuel >= 5
    ensures Run(m, fuel).status == Halted
    ensures Run(m, fuel).m.io.log == m.io.log + [WordOut(((m.io.wordsIn[0] as int + 1) % 65536 + 1) % 65536)]
  {
    var m1 := InpWordTurn(m, IncWordCode, 1, fuel);
    IncWordFrom3(m1, fuel - 1);
  }

  /** The INC word program from the start. */
  lemma IncWordFrom0(m: Machine, fuel: nat)
    requires Ready(m, IncWordCode, 0) && m.io.wordsIn != [] && fuel >= 6
    ensures Run(m, fuel).status == Halted
    ensures Run(m, fuel).m.io.log == m.io.log + [WordOut(((m.io.wordsIn[0] as int + 1) % 65536 + 1) % 65536)]
  {
    var m1 := NopTurn(m, IncWordCode, 0, fuel);
    IncWordFrom1(m1, fuel - 1);
  }

  /** NOP, END halts on the second turn having changed only PC. */
  lemma SimpleRuns(m: Machine, fuel: nat)
    requires Ready(m, SimpleCode, 0) && fuel >= 2
    ensures Run(m, fuel) == Outcome(SetReg(m, PC, 2), Halted)
  {
    var m1 := NopTurn(m, SimpleCode, 0, fuel);
    EndAt(m1, SimpleCode, 1);
    assert SetReg(m1, PC, 2) == SetReg(m, PC, 2);
  }

  // ---------------------------------------------------------------------
  // The test programs on a freshly built VM of the default size.

  /** The INC byte program, fed the byte 10, halts having written 12. */
  lemma IncByteScenario(fuel: nat)
    requires fuel >= 6
    ensures var l := Load(Initial(DefaultSize, Channel([10], [], [])), IncByteCode);
            l.r.Ok? && Run(l.m, fuel).status == Halted && Run(l.m, fuel).m.io.log == [ByteOut(12)]
  {
    var io := Channel([10], [], []);
    LoadedAtZero(DefaultSize, io, IncByteCode);
    IncByteFrom0(Load(Initial(DefaultSize, io), IncByteCode).m, fuel);
  }

  /** The INC word program, fed the word 10, halts having written 12. */
  lemma IncWordScenario(fuel: nat)
    requires fuel >= 6
    ensures var l := Load(Initial(DefaultSize, Channel([], [10], [])), IncWordCode);
            l.r.Ok? && Run(l.m, fuel).status == Halted && Run(l.m, fuel).m.io.log == [WordOut(12)]
  {
    var io := Channel([], [10], []);
    LoadedAtZero(DefaultSize, io, IncWordCode);
    IncWordFrom0(Load(Initial(DefaultSize, io), IncWordCode).m, fuel);
  }

  /** NOP, END on a fresh VM halts. */
  lemma SimpleScenario(fuel: nat)
    requires fuel >= 2
    ensures var l := Load(Initial(DefaultSize, Channel([], [], [])), SimpleCode);
            l.r.Ok? && Run(l.m, fuel).status == Halted
  {
    var io := Channel([], [], []);
    LoadedAtZero(DefaultSize, io, SimpleCode);
    SimpleRuns(Load(Initial(DefaultSize, io), SimpleCode).m, fuel);
  }

  /**
   * The flag sequence of the tests, from a clear flags register: after OF,
   * ZF and SF are raised OF reads set; after OF is lowered it reads clear
   * and ZF still reads set.
   */
  lemma FlagSequence(m: Machine)
    requires WellFormed(m) && Reg(m, FL) == 0
    ensures var m3 := SetFlag(SetFlag(SetFlag(m, OF, true), ZF, true), SF, true);
            Flag(m3, OF) && !Flag(SetFlag(m3, OF, false), OF) && Flag(SetFlag(m3, OF, false), ZF)
  {
    var m3 := SetFlag(SetFlag(SetFlag(m, OF, true), ZF, true), SF, true);
    var fl := Reg(m3, FL);
    assert fl == Raise(Raise(Raise(0, OF), ZF), SF);
    RaiseSetsOnlyIt(Raise(Raise(0, OF), ZF), SF);
    RaiseSetsOnlyIt(Raise(0, OF), ZF);
    RaiseSetsOnlyIt(0, OF);
    LowerSetFlag(fl, OF);
  }

  // ---------------------------------------------------------------------
  // The same through the VM object, as the tests drive it.

  /** A default-sized VM fed the byte 10 runs the INC byte program to END and writes 12. */
  method IncByteTest() returns (status: Status, log: seq<Datum>)
    ensures status == Halted && log == [ByteOut(12)]
  {
    var io := new V2.ScriptedIO(Channel([10], [], []));
    var vm := new V2.VM(io, DefaultSize);
    IncByteScenario(6);
    status := Executive.Run(vm, IncByteCode, 6);
    log := io.log;
  }

  /** A default-sized VM fed the word 10 runs the INC word program to END and writes 12. */
  method IncWordTest() returns (status: Status, log: seq<Datum>)
    ensures status == Halted && log == [WordOut(12)]
  {
    var io := new V2.ScriptedIO(Channel([], [10], []));
    var vm := new V2.VM(io, DefaultSize);
    IncWordScenario(6);
    status := Executive.Run(vm, IncWordCode, 6);
    log := io.log;
  }

  /** The simplest program halts. */
  method SimpleTest() returns (status: Status)
    ensures status == Halted
  {
    var io := new V2.ScriptedIO(Channel([], [], []));
    var vm := new V2.VM(io, DefaultSize);
    SimpleScenario(2);
    status := Executive.Run(vm, SimpleCode, 2);
  }

  /** The flag sequence on a fresh VM, read and written as booleans. */
  method FlagRegistersTest() returns (c1: bool, c2: bool, c3: bool, c4: bool)
    ensures !c1 && c2 && !c3 && c4
  {
    var io := new V2.ScriptedIO(Channel([], [], []));
    var vm := Executive.Init(0, io);
    ghost var m0 := vm.State();
    ResetHasNoFlags();
    FlagSequence(m0);
    c1 := vm.GetFlagValue(OF);
    vm.SetFlagValue(OF, true);
    vm.SetFlagValue(ZF, true);
    vm.SetFlagValue(SF, true);
    c2 := vm.GetFlagValue(OF);
    vm.SetFlagValue(OF, false);
    c3 := vm.GetFlagValue(OF);
    c4 := vm.GetFlagValue(ZF);
  }

  /** The same sequence through the byte forms, where any non-zero byte sets. */
  method FlagRegistersWithBytesTest() returns (c1: byte, c2: byte, c3: byte, c4: byte)
    ensures c1 == 0 && c2 == 1 && c3 == 0 && c4 == 1
  {
    var io := new V2.ScriptedIO(Channel([], [], []));
    var vm := Executive.Init(0, io);
    ghost var m0 := vm.State();
    ResetHasNoFlags();
    FlagSequence(m0);
    c1 := vm.GetFlagValueAsByte(OF);
    vm.SetFlagValueAsByte(OF, 1);
    vm.SetFlagValueAsByte(ZF, 1);
    vm.SetFlagValueAsByte(SF, 1);
    c2 := vm.GetFlagValueAsByte(OF);
    vm.SetFlagValueAsByte(OF, 0);
    c3 := vm.GetFlagValueAsByte(OF);
    c4 := vm.GetFlagValueAsByte(ZF);
  }
}
