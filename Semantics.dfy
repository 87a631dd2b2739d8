/**
 * The machine as a value, and what each instruction does to it.
 *
 * A `Machine` holds the memory, the register file and the IO plugin's
 * state.  Every operation returns the machine it leaves behind together
 * with a `Result`: an operation that would throw an index exception (or
 * whose plugin has nothing to read) returns `Err`, and the machine it
 * returns then carries exactly the writes made before the failing step.
 * These functions are the specification the class `V2.VM` is proved
 * against.
 */
module Semantics {
  import opened Bits
  import opened Flags
  import opened Isa

  datatype Fault =
    | MemoryOutOfRange(address: int)
    | RegisterOutOfRange(offset: int)
    | InputExhausted

  datatype Result<+T> = Ok(value: T) | Err(fault: Fault)
  {
    predicate IsFailure() { Err? }

    function PropagateFailure<U>(): Result<U>
      requires Err?
    {
      Err(fault)
    }

    function Extract(): T
      requires Ok?
    {
      value
    }
  }

  /** One value handed to the IO plugin by OUT. */
  datatype Datum = ByteOut(b: byte) | WordOut(w: word)

  /**
   * The IO plugin: the bytes and words its reads will return, in order,
   * and everything written to it so far.
   */
  datatype Channel = Channel(bytesIn: seq<byte>, wordsIn: seq<word>, log: seq<Datum>)

  datatype Machine = Machine(memory: seq<byte>, registers: seq<byte>, io: Channel)

  /** The machine an operation leaves and what it returned or threw. */
  datatype Effect<+T> = Effect(m: Machine, r: Result<T>)

  datatype Status = Running | Halted | Faulted(fault: Fault)

  datatype Outcome = Outcome(m: Machine, status: Status)

  /** The memory size a VM gets when none is given. */
  const DefaultSize: word := 255

  /** A register file of the declared size; memory addressable by a word. */
  predicate WellFormed(m: Machine)
  {
    |m.registers| == RegisterCount && |m.memory| < 65536
  }

  /** Two machines whose memories have the same size. */
  predicate SameShape(m: Machine, m': Machine)
  {
    WellFormed(m') && |m'.memory| == |m.memory|
  }

  /** A freshly constructed VM: zeroed memory of the given size, zeroed registers. */
  function Initial(size: word, io: Channel): (m: Machine)
    ensures WellFormed(m) && |m.memory| == size && m.io == io
    ensures forall i :: 0 <= i < size ==> m.memory[i] == 0
    ensures forall i :: 0 <= i < RegisterCount ==> m.registers[i] == 0
  {
    Machine(seq(size, _ => 0), seq(RegisterCount, _ => 0), io)
  }

  // ---------------------------------------------------------------------
  // The IO plugin.

  function ReadByte(c: Channel): (Channel, Result<byte>)
  {
    if c.bytesIn == [] then (c, Err(InputExhausted))
    else (c.(bytesIn := c.bytesIn[1..]), Ok(c.bytesIn[0]))
  }

  function ReadWord(c: Channel): (Channel, Result<word>)
  {
    if c.wordsIn == [] then (c, Err(InputExhausted))
    else (c.(wordsIn := c.wordsIn[1..]), Ok(c.wordsIn[0]))
  }

  function Write(c: Channel, d: Datum): Channel
  {
    c.(log := c.log + [d])
  }

  // ---------------------------------------------------------------------
  // Memory.

  function PeekByte(m: Machine, address: word): Result<byte>
  {
    if address < |m.memory| then Ok(m.memory[address]) else Err(MemoryOutOfRange(address))
  }

  function PokeByte(m: Machine, address: word, value: byte): (e: Effect<()>)
    ensures SameShape(m, e.m) <== WellFormed(m)
  {
    if address < |m.memory| then Effect(m.(memory := m.memory[address := value]), Ok(()))
    else Effect(m, Err(MemoryOutOfRange(address)))
  }

  /** A word is stored high byte first; the high byte is written before the low one. */
  function PokeWord(m: Machine, address: word, value: word): (e: Effect<()>)
    ensures SameShape(m, e.m) <== WellFormed(m)
  {
    var hi := PokeByte(m, address, High(value));
    if hi.r.Err? then hi else PokeByte(hi.m, Wrap16(address + 1), Low(value))
  }

  function PeekWord(m: Machine, address: word): Result<word>
  {
    if address >= |m.memory| then Err(MemoryOutOfRange(address))
    else if address + 1 >= |m.memory| then Err(MemoryOutOfRange(address + 1))
    else Ok(Join(m.memory[address], m.memory[address + 1]))
  }

  // ---------------------------------------------------------------------
  // Registers, by any name (as GET and PUT take them from the program).

  function RegisterAt(m: Machine, r: byte): Result<byte>
  {
    var o := ToRegisterOffset(r);
    if o < |m.registers| then Ok(m.registers[o]) else Err(RegisterOutOfRange(o))
  }

  function SetRegisterAt(m: Machine, r: byte, value: byte): (e: Effect<()>)
    ensures SameShape(m, e.m) <== WellFormed(m)
  {
    var o := ToRegisterOffset(r);
    if o < |m.registers| then Effect(m.(registers := m.registers[o := value]), Ok(()))
    else Effect(m, Err(RegisterOutOfRange(o)))
  }

  /** A register that lies inside the file. */
  function Reg(m: Machine, r: byte): byte
    requires WellFormed(m) && InFile(r)
  {
    m.registers[ToRegisterOffset(r)]
  }

  function SetReg(m: Machine, r: byte, value: byte): (m': Machine)
    requires WellFormed(m) && InFile(r)
    ensures SameShape(m, m') && m'.memory == m.memory && m'.io == m.io
  {
    m.(registers := m.registers[ToRegisterOffset(r) := value])
  }

  // Flags.

  function Flag(m: Machine, f: byte): bool
    requires WellFormed(m)
  {
    IsSet(Reg(m, FL), f)
  }

  function SetFlag(m: Machine, f: byte, value: bool): (m': Machine)
    requires WellFormed(m)
    ensures SameShape(m, m')
  {
    SetReg(m, FL, if value then Raise(Reg(m, FL), f) else Lower(Reg(m, FL), f))
  }

  function ResetFlags(m: Machine): (m': Machine)
    requires WellFormed(m)
    ensures SameShape(m, m')
  {
    SetReg(m, FL, 0)
  }

  // The B:C pair, B holding the high byte.

  function BC(m: Machine): word
    requires WellFormed(m)
  {
    Reg(m, B) * 256 + Reg(m, C)
  }

  function SetBC(m: Machine, v: word): (m': Machine)
    requires WellFormed(m)
    ensures SameShape(m, m')
  {
    SetReg(SetReg(m, B, High(v)), C, Low(v))
  }

  // ---------------------------------------------------------------------
  // Fetch: read the byte at PC, having moved PC on by one (mod 256).

  function Fetch(m: Machine): (e: Effect<byte>)
    requires WellFormed(m)
    ensures SameShape(m, e.m)
  {
    var pc := Reg(m, PC);
    Effect(SetReg(m, PC, Wrap8(pc + 1)), PeekByte(m, pc))
  }

  // ---------------------------------------------------------------------
  // Instruction semantics.  Each takes the machine as it is once the
  // opcode has been fetched.

  /** A := A + x with OF raised when the unsigned sum exceeds 127. */
  function AddToA(m: Machine, x: byte): (m': Machine)
    requires WellFormed(m)
    ensures SameShape(m, m')
  {
    var sum := Reg(m, A) + x;
    SetReg(SetReg(m, FL, Pack(false, false, sum > 127)), A, Wrap8(sum))
  }

  /** A := A - x with ZF raised on a zero and SF on a negative difference. */
  function SubFromA(m: Machine, x: byte): (m': Machine)
    requires WellFormed(m)
    ensures SameShape(m, m')
  {
    var diff := Reg(m, A) - x;
    SetReg(SetReg(m, FL, Pack(diff < 0, diff == 0, false)), A, Wrap8(diff))
  }

  /** B:C := B:C + 1 with OF raised when the sum exceeds 32767. */
  function IncrementBC(m: Machine): (m': Machine)
    requires WellFormed(m)
    ensures SameShape(m, m')
  {
    var sum := BC(m) + 1;
    SetBC(SetReg(m, FL, Pack(false, false, sum > 32767)), Wrap16(sum))
  }

  function Inp(m: Machine): (e: Effect<()>)
    requires WellFormed(m)
    ensures SameShape(m, e.m)
  {
    var w := Fetch(m);
    if w.r.Err? then Effect(w.m, Err(w.r.fault))
    else if w.r.value == ByteWidth then
      var read := ReadByte(w.m.io);
      var m1 := w.m.(io := read.0);
      if read.1.Err? then Effect(m1, Err(read.1.fault)) else Effect(SetReg(m1, A, read.1.value), Ok(()))
    else if w.r.value == WordWidth then
      var read := ReadWord(w.m.io);
      var m1 := w.m.(io := read.0);
      if read.1.Err? then Effect(m1, Err(read.1.fault)) else Effect(SetBC(m1, read.1.value), Ok(()))
    else Effect(w.m, Ok(()))
  }

  function Out(m: Machine): (e: Effect<()>)
    requires WellFormed(m)
    ensures SameShape(m, e.m)
  {
    var w := Fetch(m);
    if w.r.Err? then Effect(w.m, Err(w.r.fault))
    else if w.r.value == ByteWidth then Effect(w.m.(io := Write(w.m.io, ByteOut(Reg(w.m, A)))), Ok(()))
    else if w.r.value == WordWidth then Effect(w.m.(io := Write(w.m.io, WordOut(BC(w.m)))), Ok(()))
    else Effect(w.m, Ok(()))
  }

  /** PC := the operand when the condition holds; otherwise PC stays past the operand. */
  function JumpIf(m: Machine, taken: bool): (e: Effect<()>)
    requires WellFormed(m)
    ensures SameShape(m, e.m)
  {
    var w := Fetch(m);
    if w.r.Err? then Effect(w.m, Err(w.r.fault))
    else if taken then Effect(SetReg(w.m, PC, w.r.value), Ok(()))
    else Effect(w.m, Ok(()))
  }

  function Jmp(m: Machine): (e: Effect<()>)
    requires WellFormed(m)
    ensures SameShape(m, e.m)
  {
    JumpIf(m, true)
  }

  function Jmz(m: Machine): (e: Effect<()>)
    requires WellFormed(m)
    ensures SameShape(m, e.m)
  {
    JumpIf(m, Flag(m, ZF))
  }

  function Jmn(m: Machine): (e: Effect<()>)
    requires WellFormed(m)
    ensures SameShape(m, e.m)
  {
    JumpIf(m, Flag(m, SF))
  }

  function Inc(m: Machine): (e: Effect<()>)
    requires WellFormed(m)
    ensures SameShape(m, e.m)
  {
    var w := Fetch(ResetFlags(m));
    if w.r.Err? then Effect(w.m, Err(w.r.fault))
    else if w.r.value == ByteWidth then Effect(AddToA(w.m, 1), Ok(()))
    else if w.r.value == WordWidth then Effect(IncrementBC(w.m), Ok(()))
    else Effect(w.m, Ok(()))
  }

  function Dec(m: Machine): (e: Effect<()>)
    requires WellFormed(m)
    ensures SameShape(m, e.m)
  {
    Effect(SubFromA(m, 1), Ok(()))
  }

  function Add(m: Machine): (e: Effect<()>)
    requires WellFormed(m)
    ensures SameShape(m, e.m)
  {
    var w := Fetch(ResetFlags(m));
    if w.r.Err? then Effect(w.m, Err(w.r.fault))
    else Effect(AddToA(SetReg(w.m, B, w.r.value), w.r.value), Ok(()))
  }

  function Sub(m: Machine): (e: Effect<()>)
    requires WellFormed(m)
    ensures SameShape(m, e.m)
  {
    var w := Fetch(ResetFlags(m));
    if w.r.Err? then Effect(w.m, Err(w.r.fault))
    else Effect(SubFromA(SetReg(w.m, B, w.r.value), w.r.value), Ok(()))
  }

  /** GET r, a: register r := memory[a]. */
  function Get(m: Machine): (e: Effect<()>)
    requires WellFormed(m)
    ensures SameShape(m, e.m)
  {
    var w1 := Fetch(m);
    if w1.r.Err? then Effect(w1.m, Err(w1.r.fault)) else
    var w2 := Fetch(w1.m);
    if w2.r.Err? then Effect(w2.m, Err(w2.r.fault)) else
    var v := PeekByte(w2.m, w2.r.value);
    if v.Err? then Effect(w2.m, Err(v.fault)) else SetRegisterAt(w2.m, w1.r.value, v.value)
  }

  /** PUT r, a: memory[a] := register r. */
  function Put(m: Machine): (e: Effect<()>)
    requires WellFormed(m)
    ensures SameShape(m, e.m)
  {
    var w1 := Fetch(m);
    if w1.r.Err? then Effect(w1.m, Err(w1.r.fault)) else
    var w2 := Fetch(w1.m);
    if w2.r.Err? then Effect(w2.m, Err(w2.r.fault)) else
    var v := RegisterAt(w2.m, w1.r.value);
    if v.Err? then Effect(w2.m, Err(v.fault)) else PokeByte(w2.m, w2.r.value, v.value)
  }

  /** Dispatch on an opcode other than END; NOP and unknown opcodes do nothing. */
  function Execute(op: byte, m: Machine): (e: Effect<()>)
    requires WellFormed(m)
    ensures SameShape(m, e.m)
  {
    if op == INP then Inp(m)
    else if op == OUT then Out(m)
    else if op == INC then Inc(m)
    else if op == DEC then Dec(m)
    else if op == ADD then Add(m)
    else if op == SUB then Sub(m)
    else if op == GET then Get(m)
    else if op == PUT then Put(m)
    else if op == JMP then Jmp(m)
    else if op == JMZ then Jmz(m)
    else if op == JMN then Jmn(m)
    else Effect(m, Ok(()))
  }

  /** One turn of the fetch-decode-execute loop. */
  function Step(m: Machine): (o: Outcome)
    requires WellFormed(m)
    ensures SameShape(m, o.m)
  {
    var w := Fetch(m);
    if w.r.Err? then Outcome(w.m, Faulted(w.r.fault))
    else if w.r.value == END then Outcome(w.m, Halted)
    else
      var e := Execute(w.r.value, w.m);
      Outcome(e.m, if e.r.Ok? then Running else Faulted(e.r.fault))
  }

  /**
   * The loop, for at most `fuel` turns; `Running` at the end means the
   * fuel ran out first.
   */
  function Run(m: Machine, fuel: nat): (o: Outcome)
    requires WellFormed(m)
    ensures SameShape(m, o.m)
    decreases fuel, 0
  {
    if fuel == 0 then Outcome(m, Running) else Turn(m, fuel - 1)
  }

  /** One turn of the loop, then the loop again with `rest` turns left if it is still running. */
  function Turn(m: Machine, rest: nat): (o: Outcome)
    requires WellFormed(m)
    ensures SameShape(m, o.m)
    decreases rest, 1
  {
    var o := Step(m);
    if o.status.Running? then Run(o.m, rest) else o
  }

  // ---------------------------------------------------------------------
  // Loading a program: byte i goes to address i, through a byte-wide cursor.

  function LoadFrom(m: Machine, program: seq<byte>, i: nat): (e: Effect<()>)
    requires WellFormed(m) && i <= |program|
    ensures SameShape(m, e.m)
    decreases |program| - i
  {
    if i == |program| then Effect(m, Ok(()))
    else
      var e := PokeByte(m, Wrap8(i), program[i]);
      if e.r.Err? then e else LoadFrom(e.m, program, i + 1)
  }

  function Load(m: Machine, program: seq<byte>): (e: Effect<()>)
    requires WellFormed(m)
    ensures SameShape(m, e.m)
  {
    LoadFrom(m, program, 0)
  }
}
