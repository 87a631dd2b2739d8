/**
 * The simplified set-up and run: build a VM, copy a program into its
 * memory through a byte-wide cursor, and start the loop.
 */
module Executive {
  import opened Bits
  import S = Semantics
  import opened V2

  /** A size of 0 asks for the default memory size. */
  method Init(size: word, io: ScriptedIO) returns (vm: VM)
    ensures vm.Valid() && fresh(vm.memory) && fresh(vm.registers) && vm.io == io
    ensures vm.State() == S.Initial(if size == 0 then S.DefaultSize else size, io.Value())
  {
    if size == 0 {
      vm := new VM(io, S.DefaultSize);
    } else {
      vm := new VM(io, size);
    }
  }

  /**
   * Copies the program byte by byte to addresses 0, 1, ... of memory; the
   * cursor is a byte, so the 257th byte would go to address 0 again.  A
   * write outside memory stops the copy.
   */
  method Load(vm: VM, program: seq<byte>) returns (r: S.Result<()>)
    requires vm.Valid()
    modifies vm.memory
    ensures vm.Valid() && S.Effect(vm.State(), r) == S.Load(old(vm.State()), program)
  {
    var location: byte := 0;
    var i := 0;
    while i < |program|
      invariant vm.Valid() && 0 <= i <= |program| && location == Wrap8(i)
      invariant S.Load(old(vm.State()), program) == S.LoadFrom(vm.State(), program, i)
    {
      var _ :- vm.Poke(location, program[i]);
      location := Wrap8(location + 1);
      i := i + 1;
    }
    r := S.Ok(());
  }

  /** Loads the program and runs it for at most `fuel` turns. */
  method Run(vm: VM, program: seq<byte>, fuel: nat) returns (status: S.Status)
    requires vm.Valid()
    modifies vm.memory, vm.registers, vm.io
    ensures vm.Valid()
    ensures var l := S.Load(old(vm.State()), program);
            S.Outcome(vm.State(), status) ==
              if l.r.Err? then S.Outcome(l.m, S.Faulted(l.r.fault)) else S.Run(l.m, fuel)
  {
    var loaded := Load(vm, program);
    if loaded.Err? {
      return S.Faulted(loaded.fault);
    }
    status := vm.Run(fuel);
  }
}
