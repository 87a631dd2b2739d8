/**
 * The VM as the program has it: an object that owns a memory array, a
 * register array and an IO plugin, and whose methods change them in
 * place.  Each method is proved to do exactly what the matching function
 * of `Semantics` does to the machine `State()` reads off the object; an
 * index exception of the original becomes an `Err` result, returned after
 * the writes that came before it.
 */
module V2 {
  import opened Bits
  import opened Flags
  import opened Isa
  import S = Semantics

  /**
   * An IO plugin whose reads come from queues fixed in advance and whose
   * writes are appended to a log.  A read from an empty queue fails.
   */
  class ScriptedIO {
    var bytesIn: seq<byte>
    var wordsIn: seq<word>
    var log: seq<S.Datum>

    function Value(): S.Channel
      reads this
    {
      S.Channel(bytesIn, wordsIn, log)
    }

    constructor(c: S.Channel)
      ensures Value() == c
    {
      bytesIn, wordsIn, log := c.bytesIn, c.wordsIn, c.log;
    }

    method GetByte() returns (r: S.Result<byte>)
      modifies this
      ensures (Value(), r) == S.ReadByte(old(Value()))
    {
      if bytesIn == [] {
        return S.Err(S.InputExhausted);
      }
      r := S.Ok(bytesIn[0]);
      bytesIn := bytesIn[1..];
    }

    method GetWord() returns (r: S.Result<word>)
      modifies this
      ensures (Value(), r) == S.ReadWord(old(Value()))
    {
      if wordsIn == [] {
        return S.Err(S.InputExhausted);
      }
      r := S.Ok(wordsIn[0]);
      wordsIn := wordsIn[1..];
    }

    method PutByte(data: byte)
      modifies this
      ensures Value() == S.Write(old(Value()), S.ByteOut(data))
    {
      log := log + [S.ByteOut(data)];
    }

    method PutWord(data: word)
      modifies this
      ensures Value() == S.Write(old(Value()), S.WordOut(data))
    {
      log := log + [S.WordOut(data)];
    }
  }

  class VM {
    const memory: array<byte>
    const registers: array<byte>
    const io: ScriptedIO

    ghost predicate Valid()
    {
      registers.Length == RegisterCount && memory.Length < 65536 && memory != registers
    }

    /** The machine this object holds. */
    ghost function State(): (m: S.Machine)
      reads memory, registers, io
      ensures Valid() ==> S.WellFormed(m)
    {
      S.Machine(memory[..], registers[..], io.Value())
    }

    /** A VM with `size` bytes of zeroed memory and a zeroed register file of RegisterCount bytes. */
    constructor(io: ScriptedIO, size: word)
      ensures Valid() && fresh(memory) && fresh(registers) && this.io == io
      ensures State() == S.Initial(size, io.Value())
    {
      memory := new byte[size](_ => 0);
      registers := new byte[RegisterCount](_ => 0);
      this.io := io;
      new;
      assert memory[..] == seq(size, _ => 0);
      assert registers[..] == seq(RegisterCount, _ => 0);
    }

    // -------------------------------------------------------------------
    // Memory.

    method Poke(address: word, value: byte) returns (r: S.Result<()>)
      requires Valid()
      modifies memory
      ensures Valid() && S.Effect(State(), r) == S.PokeByte(old(State()), address, value)
    {
      if address >= memory.Length {
        return S.Err(S.MemoryOutOfRange(address));
      }
      memory[address] := value;
      r := S.Ok(());
    }

    method PeekAsByte(address: word) returns (r: S.Result<byte>)
      requires Valid()
      ensures r == S.PeekByte(State(), address)
    {
      if address >= memory.Length {
        return S.Err(S.MemoryOutOfRange(address));
      }
      r := S.Ok(memory[address]);
    }

    /** Stores a word high byte first, at address and then at address + 1 (mod 2^16). */
    method PokeWord(address: word, value: word) returns (r: S.Result<()>)
      requires Valid()
      modifies memory
      ensures Valid() && S.Effect(State(), r) == S.PokeWord(old(State()), address, value)
    {
      var _ :- Poke(address, High(value));
      r := Poke(Wrap16(address + 1), Low(value));
    }

    /** Reads the word whose high byte is at address and whose low byte is at address + 1. */
    method Peek(address: word) returns (r: S.Result<word>)
      requires Valid()
      ensures r == S.PeekWord(State(), address)
    {
      if address >= memory.Length {
        return S.Err(S.MemoryOutOfRange(address));
      }
      if address + 1 >= memory.Length {
        return S.Err(S.MemoryOutOfRange(address + 1));
      }
      r := S.Ok(Join(memory[address], memory[address + 1]));
    }

    // -------------------------------------------------------------------
    // Registers.

    method GetRegisterValue(r: byte) returns (v: S.Result<byte>)
      requires Valid()
      ensures v == S.RegisterAt(State(), r)
      ensures InFile(r) ==> v == S.Ok(S.Reg(State(), r))
    {
      var o := ToRegisterOffset(r);
      if o >= registers.Length {
        return S.Err(S.RegisterOutOfRange(o));
      }
      v := S.Ok(registers[o]);
    }

    method SetRegisterValue(r: byte, value: byte) returns (res: S.Result<()>)
      requires Valid()
      modifies registers
      ensures Valid() && S.Effect(State(), res) == S.SetRegisterAt(old(State()), r, value)
      ensures InFile(r) ==> res.Ok? && State() == S.SetReg(old(State()), r, value)
    {
      var o := ToRegisterOffset(r);
      if o >= registers.Length {
        return S.Err(S.RegisterOutOfRange(o));
      }
      registers[o] := value;
      res := S.Ok(());
    }

    // Flags.

    method GetFlagValue(f: byte) returns (b: bool)
      requires Valid()
      ensures b == S.Flag(State(), f)
    {
      var fl := GetRegisterValue(FL);
      b := And8(fl.value, f) == f;
    }

    method GetFlagValueAsByte(f: byte) returns (v: byte)
      requires Valid()
      ensures v == AsByte(S.Flag(State(), f))
    {
      var b := GetFlagValue(f);
      v := if b then 1 else 0;
    }

    method SetFlagValue(f: byte, value: bool)
      requires Valid()
      modifies registers
      ensures Valid() && State() == S.SetFlag(old(State()), f, value)
      ensures IsFlag(f) && value && S.Reg(old(State()), FL) == 0 ==> S.Reg(State(), FL) == f
    {
      if IsFlag(f) {
        RaiseFromClear(f);
      }
      var fl := GetRegisterValue(FL);
      if value {
        var _ := SetRegisterValue(FL, Or8(fl.value, f));
      } else {
        var _ := SetRegisterValue(FL, Wrap8(fl.value - f));
      }
    }

    method SetFlagValueAsByte(f: byte, value: byte)
      requires Valid()
      modifies registers
      ensures Valid() && State() == S.SetFlag(old(State()), f, value != 0)
    {
      SetFlagValue(f, value != 0);
    }

    method ResetFlags()
      requires Valid()
      modifies registers
      ensures Valid() && State() == S.ResetFlags(old(State()))
    {
      var _ := SetRegisterValue(FL, 0);
    }

    // The program counter.

    /** Returns PC and, when asked to, moves it on by one (mod 256). */
    method GetPC(increment: bool) returns (pc: byte)
      requires Valid()
      modifies registers
      ensures Valid() && pc == S.Reg(old(State()), PC)
      ensures State() == if increment then S.SetReg(old(State()), PC, Wrap8(pc + 1)) else old(State())
    {
      var v := GetRegisterValue(PC);
      pc := v.value;
      if increment {
        var _ := SetRegisterValue(PC, Wrap8(pc + 1));
      }
    }

    /** Reads the byte at PC, PC having moved on first. */
    method GetNextValue() returns (r: S.Result<byte>)
      requires Valid()
      modifies registers
      ensures Valid() && S.Effect(State(), r) == S.Fetch(old(State()))
    {
      var pc := GetPC(true);
      if pc >= memory.Length {
        return S.Err(S.MemoryOutOfRange(pc));
      }
      r := S.Ok(memory[pc]);
    }

    /** The opcode is the next byte, as fetched. */
    method GetInstruction() returns (r: S.Result<byte>)
      requires Valid()
      modifies registers
      ensures Valid() && S.Effect(State(), r) == S.Fetch(old(State()))
    {
      r := GetNextValue();
    }

    /** Fetches the next byte into register `register`. */
    method PutNextValueTo(register: byte) returns (r: S.Result<()>)
      requires Valid()
      modifies registers
      ensures Valid()
      ensures var w := S.Fetch(old(State()));
              S.Effect(State(), r) ==
                if w.r.Err? then S.Effect(w.m, S.Err(w.r.fault)) else S.SetRegisterAt(w.m, register, w.r.value)
    {
      var v :- GetNextValue();
      r := SetRegisterValue(register, v);
    }

    // The B:C pair.

    method SetBCRegisterValue(value: word)
      requires Valid()
      modifies registers
      ensures Valid() && State() == S.SetBC(old(State()), value)
    {
      var _ := SetRegisterValue(B, High(value));
      var _ := SetRegisterValue(C, Low(value));
    }

    method GetBCRegisterValue() returns (value: word)
      requires Valid()
      ensures value == S.BC(State())
    {
      var hi := GetRegisterValue(B);
      var lo := GetRegisterValue(C);
      value := Join(hi.value, lo.value);
    }

    // -------------------------------------------------------------------
    // The instructions.  Each starts with PC just past its opcode.

    method Inp() returns (r: S.Result<()>)
      requires Valid()
      modifies registers, io
      ensures Valid() && S.Effect(State(), r) == S.Inp(old(State()))
    {
      var width :- GetNextValue();
      if width == ByteWidth {
        var value :- io.GetByte();
        r := SetRegisterValue(A, value);
      } else if width == WordWidth {
        var value :- io.GetWord();
        SetBCRegisterValue(value);
        r := S.Ok(());
      } else {
        r := S.Ok(());
      }
    }

    method Out() returns (r: S.Result<()>)
      requires Valid()
      modifies registers, io
      ensures Valid() && S.Effect(State(), r) == S.Out(old(State()))
    {
      var width :- GetNextValue();
      if width == ByteWidth {
        var value := GetRegisterValue(A);
        io.PutByte(value.value);
      } else if width == WordWidth {
        var value := GetBCRegisterValue();
        io.PutWord(value);
      }
      r := S.Ok(());
    }

    method Jmp() returns (r: S.Result<()>)
      requires Valid()
      modifies registers
      ensures Valid() && S.Effect(State(), r) == S.Jmp(old(State()))
    {
      var address :- GetNextValue();
      r := SetRegisterValue(PC, address);
    }

    method Jmz() returns (r: S.Result<()>)
      requires Valid()
      modifies registers
      ensures Valid() && S.Effect(State(), r) == S.Jmz(old(State()))
    {
      var address :- GetNextValue();
      var value := GetFlagValue(ZF);
      if value {
        r := SetRegisterValue(PC, address);
      } else {
        r := S.Ok(());
      }
    }

    method Jmn() returns (r: S.Result<()>)
      requires Valid()
      modifies registers
      ensures Valid() && S.Effect(State(), r) == S.Jmn(old(State()))
    {
      var address :- GetNextValue();
      var value := GetFlagValue(SF);
      if value {
        r := SetRegisterValue(PC, address);
      } else {
        r := S.Ok(());
      }
    }

    method Inc() returns (r: S.Result<()>)
      requires Valid()
      modifies registers
      ensures Valid() && S.Effect(State(), r) == S.Inc(old(State()))
    {
      ResetFlags();
      var width :- GetNextValue();
      if width == ByteWidth {
        var value := GetRegisterValue(A);
        var result: int := value.value + 1;
        if result > 127 {
          SetFlagValue(OF, true);
        }
        r := SetRegisterValue(A, Wrap8(result));
      } else if width == WordWidth {
        var value := GetBCRegisterValue();
        var result: int := value as int + 1;
        if result > 32767 {
          SetFlagValue(OF, true);
        }
        SetBCRegisterValue(Wrap16(result));
        r := S.Ok(());
      } else {
        r := S.Ok(());
      }
    }

    method Dec() returns (r: S.Result<()>)
      requires Valid()
      modifies registers
      ensures Valid() && S.Effect(State(), r) == S.Dec(old(State()))
    {
      ghost var m0 := State();
      ResetFlags();
      var value := GetRegisterValue(A);
      var result: int := value.value - 1;
      if result == 0 {
        SetFlagValue(ZF, true);
      }
      if result < 0 {
        SetFlagValue(SF, true);
      }
      assert State() == S.SetReg(m0, FL, Pack(result < 0, result == 0, false));
      r := SetRegisterValue(A, Wrap8(result));
    }

    method Add() returns (r: S.Result<()>)
      requires Valid()
      modifies registers
      ensures Valid() && S.Effect(State(), r) == S.Add(old(State()))
    {
      ResetFlags();
      var _ :- PutNextValueTo(B);
      var a := GetRegisterValue(A);
      var b := GetRegisterValue(B);
      var result: int := a.value + b.value;
      if result > 127 {
        SetFlagValue(OF, true);
      }
      r := SetRegisterValue(A, Wrap8(result));
    }

    method Sub() returns (r: S.Result<()>)
      requires Valid()
      modifies registers
      ensures Valid() && S.Effect(State(), r) == S.Sub(old(State()))
    {
      ResetFlags();
      var _ :- PutNextValueTo(B);
      var a := GetRegisterValue(A);
      var b := GetRegisterValue(B);
      var result: int := a.value - b.value;
      if result == 0 {
        SetFlagValue(ZF, true);
      }
      if result < 0 {
        SetFlagValue(SF, true);
      }
      r := SetRegisterValue(A, Wrap8(result));
    }

    method Get() returns (r: S.Result<()>)
      requires Valid()
      modifies registers
      ensures Valid() && S.Effect(State(), r) == S.Get(old(State()))
    {
      var r1 :- GetNextValue();
      var location :- GetNextValue();
      var value :- PeekAsByte(location);
      r := SetRegisterValue(r1, value);
    }

    method Put() returns (r: S.Result<()>)
      requires Valid()
      modifies memory, registers
      ensures Valid() && S.Effect(State(), r) == S.Put(old(State()))
    {
      var r1 :- GetNextValue();
      var location :- GetNextValue();
      var value :- GetRegisterValue(r1);
      r := Poke(location, value);
    }

    // -------------------------------------------------------------------
    // The loop.

    /** The dispatch on one opcode other than END; NOP and unknown opcodes do nothing. */
    method Execute(op: byte) returns (r: S.Result<()>)
      requires Valid()
      modifies memory, registers, io
      ensures Valid() && S.Effect(State(), r) == S.Execute(op, old(State()))
    {
      if op == INP {
        r := Inp();
      } else if op == OUT {
        r := Out();
      } else if op == INC {
        r := Inc();
      } else if op == DEC {
        r := Dec();
      } else if op == ADD {
        r := Add();
      } else if op == SUB {
        r := Sub();
      } else if op == GET {
        r := Get();
      } else if op == PUT {
        r := Put();
      } else if op == JMP {
        r := Jmp();
      } else if op == JMZ {
        r := Jmz();
      } else if op == JMN {
        r := Jmn();
      } else {
        r := S.Ok(());
      }
    }

    /**
     * Fetches and executes until END, for at most `fuel` turns.  `Running`
     * means the fuel ran out; a fault stops the loop as the exception does.
     */
    method Run(fuel: nat) returns (status: S.Status)
      requires Valid()
      modifies memory, registers, io
      ensures Valid() && S.Outcome(State(), status) == S.Run(old(State()), fuel)
    {
      var running := true;
      var left: nat := fuel;
      while running && left > 0
        invariant Valid() && left <= fuel
        invariant running ==> S.Run(old(State()), fuel) == S.Run(State(), left)
        invariant !running ==> S.Run(old(State()), fuel) == S.Outcome(State(), S.Halted)
        decreases left, running
      {
        ghost var before := State();
        var fetched := GetInstruction();
        if fetched.Err? {
          return S.Faulted(fetched.fault);
        }
        var raw := fetched.value;
        if raw == END {
          running := false;
        } else {
          var done := Execute(raw);
          assert S.Step(before) == S.Outcome(State(), if done.Ok? then S.Running else S.Faulted(done.fault));
          if done.Err? {
            return S.Faulted(done.fault);
          }
          left := left - 1;
        }
      }
      status := if running then S.Running else S.Halted;
    }
  }
}
