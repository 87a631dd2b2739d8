/**
 * The numeric encodings the VM works with: register names and their
 * offsets into the register file, opcodes, and the width tags that INP,
 * OUT and INC take as their operand.
 */
module Isa {
  import opened Bits

  // Register names.  I and FL share the value 6, so they name one slot.
  const A: byte := 1
  const B: byte := 2
  const C: byte := 3
  const D: byte := 4
  const I: byte := 6
  const X: byte := 7
  const PC: byte := 5
  const FL: byte := 6

  /**
   * The register file has as many slots as the value of the last declared
   * register name, FL.
   */
  const RegisterCount: nat := 6

  /** A register name selects slot `name - 1`; 0 wraps round to slot 255. */
  function ToRegisterOffset(r: byte): (o: byte)
    ensures r >= 1 ==> o == r - 1
    ensures r == 0 ==> o == 255
  {
    Wrap8(r - 1)
  }

  /** A name that selects a slot inside the register file. */
  predicate InFile(r: byte)
  {
    ToRegisterOffset(r) < RegisterCount
  }

  // Opcodes.
  const NOP: byte := 0x00
  const INP: byte := 0x01
  const OUT: byte := 0x02
  const PUT: byte := 0x03
  const GET: byte := 0x04
  const ADD: byte := 0x05
  const SUB: byte := 0x06
  const INC: byte := 0x07
  const DEC: byte := 0x08
  const JMP: byte := 0x09
  const JMZ: byte := 0x0A
  const JMN: byte := 0x0B
  const END: byte := 0xFF

  // Width tags.
  const ByteWidth: byte := 0x01
  const WordWidth: byte := 0x02

  predicate IsJump(op: byte)
  {
    op == JMP || op == JMZ || op == JMN
  }

  /** How many operand bytes an opcode fetches after itself. */
  function Arity(op: byte): nat
  {
    if op == GET || op == PUT then 2
    else if op == INP || op == OUT || op == INC || op == ADD || op == SUB || IsJump(op) then 1
    else 0
  }
}
