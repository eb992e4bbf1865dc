/**
 * The LS-8 machine as a value: 256 memory cells, 8 registers (register 7 is
 * the stack pointer), the program counter, the flag byte and the lines PRN
 * has printed so far.  One iteration of the interpreter's fetch-decode-execute
 * loop is the function Step, and the loop itself is Run, bounded by fuel
 * because a program need not halt.
 *
 * Cells and registers hold unbounded naturals, as the interpreter's integers
 * do: nothing masks them except the stack-pointer decrement of PUSH.
 */
module Ls8 {

  datatype Option<T> = None | Some(value: T)

  const MemorySize: nat := 256
  const RegisterCount: nat := 8
  /** Index of the register used as stack pointer. */
  const SP: nat := 7
  const InitialSP: nat := 0xF4

  // Opcodes (the bit patterns 0b00000001, 0b10000010, ... written in hex).
  const HLT: nat := 0x01
  const LDI: nat := 0x82
  const PRN: nat := 0x47
  const MUL: nat := 0xA2
  const ADD: nat := 0xA0
  const PUSH: nat := 0x45
  const POP: nat := 0x46
  const CALL: nat := 0x50
  const RET: nat := 0x11
  /** The three opcodes excluded from the generic pc advance, with no handler. */
  const Reserved1: nat := 0x54
  const Reserved2: nat := 0x55
  const Reserved3: nat := 0x56

  datatype Machine = Machine(ram: seq<nat>, reg: seq<nat>, pc: nat, flag: nat, out: seq<nat>)

  /** How a bounded run of the loop ends. */
  datatype Status =
    | Halted        // the fetched opcode was HLT
    | RanOffEnd     // the loop condition pc < 256 was false
    | OutOfFuel     // the step bound was used up
    | Fault         // the next step indexes outside ram or reg, or drives the stack pointer negative
    | LoadOverflow  // the loader had more than 256 values to store

  predicate WellFormed(m: Machine)
  {
    |m.ram| == MemorySize && |m.reg| == RegisterCount
  }

  /** The state of a freshly constructed CPU. */
  function Initial(): (m: Machine)
    ensures WellFormed(m)
    ensures forall i :: 0 <= i < MemorySize ==> m.ram[i] == 0
    ensures forall i :: 0 <= i < SP ==> m.reg[i] == 0
    ensures m.reg[SP] == InitialSP && m.pc == 0 && m.flag == 0 && m.out == []
  {
    Machine(seq(MemorySize, _ => 0), [0, 0, 0, 0, 0, 0, 0, InitialSP], 0, 0, [])
  }

  /** `x & 0xFF` on an unbounded (possibly negative) integer. */
  function Mask8(x: int): (r: nat)
    ensures r < 256
    ensures 0 <= x < 256 ==> r == x
    ensures exists k: int :: x == 256 * k + r
  {
    var r := x % 256;
    assert x == 256 * (x / 256) + r;
    r
  }

  /** The opcode and both operand bytes can be fetched: all three reads happen
      before the opcode is looked at, and each must be inside ram. */
  predicate Fetchable(m: Machine)
  {
    WellFormed(m) && m.pc + 2 < |m.ram|
  }

  function Opcode(m: Machine): nat
    requires Fetchable(m)
  {
    m.ram[m.pc]
  }

  function Operand1(m: Machine): nat
    requires Fetchable(m)
  {
    m.ram[m.pc + 1]
  }

  function Operand2(m: Machine): nat
    requires Fetchable(m)
  {
    m.ram[m.pc + 2]
  }

  predicate IsRegister(i: nat)
  {
    i < RegisterCount
  }

  predicate IsReserved(op: nat)
  {
    op == Reserved1 || op == Reserved2 || op == Reserved3
  }

  /** Whether the generic advance `pc += (op >> 6) + 1` follows the handler. */
  predicate AdvancesPc(op: nat)
  {
    op != CALL && !IsReserved(op)
  }

  /** The step indexes only inside ram and reg, and the stack pointer stays
      non-negative: every register operand is below 8, POP and RET read
      ram[sp] with sp < 256, CALL writes ram[sp - 1] with 1 <= sp <= 256. */
  predicate CanStep(m: Machine)
  {
    Fetchable(m) &&
    var op, a, b := Opcode(m), Operand1(m), Operand2(m);
    (op == LDI || op == PRN || op == PUSH ==> IsRegister(a)) &&
    (op == MUL || op == ADD ==> IsRegister(a) && IsRegister(b)) &&
    (op == POP ==> IsRegister(a) && m.reg[SP] < MemorySize) &&
    (op == CALL ==> IsRegister(a) && 1 <= m.reg[SP] <= MemorySize) &&
    (op == RET ==> m.reg[SP] < MemorySize)
  }

  predicate Halts(m: Machine)
    requires Fetchable(m)
  {
    Opcode(m) == HLT
  }

  /** What the handler of the fetched opcode does, before the generic advance. */
  function Effect(m: Machine): (r: Machine)
    requires CanStep(m)
    ensures WellFormed(r)
  {
    var op, a, b := Opcode(m), Operand1(m), Operand2(m);
    if op == LDI then
      m.(reg := m.reg[a := b])
    else if op == PRN then
      m.(out := m.out + [m.reg[a]])
    else if op == MUL then
      m.(reg := m.reg[a := m.reg[a] * m.reg[b]])
    else if op == ADD then
      m.(reg := m.reg[a := m.reg[a] + m.reg[b]])
    else if op == PUSH then
      // the stack pointer is decremented first, so PUSH R7 pushes the new sp
      var sp := Mask8(m.reg[SP] as int - 1);
      var reg := m.reg[SP := sp];
      m.(reg := reg, ram := m.ram[sp := reg[a]])
    else if op == POP then
      // POP R7 overwrites sp, and the increment then applies to the popped value
      var sp := m.reg[SP];
      var reg := m.reg[a := m.ram[sp]];
      m.(reg := reg[SP := reg[SP] + 1])
    else if op == CALL then
      var sp := m.reg[SP] - 1;
      var reg := m.reg[SP := sp];
      m.(reg := reg, ram := m.ram[sp := m.pc + 1], pc := reg[a])
    else if op == RET then
      var sp := m.reg[SP];
      m.(reg := m.reg[SP := sp + 1], pc := m.ram[sp])
    else
      m
  }

  /** One iteration of the loop body for an opcode other than HLT. */
  function Step(m: Machine): (r: Machine)
    requires CanStep(m) && !Halts(m)
    ensures WellFormed(r)
  {
    var op := Opcode(m);
    var e := Effect(m);
    // op / 64 is op >> 6: the operand count held in the top two bits
    if AdvancesPc(op) then e.(pc := e.pc + op / 64 + 1) else e
  }

  /** The loop `while pc < len(ram)` run for at most `fuel` iterations. */
  function Run(m: Machine, fuel: nat): (r: (Status, Machine))
    requires WellFormed(m)
    ensures WellFormed(r.1)
    decreases fuel
  {
    if m.pc >= |m.ram| then (RanOffEnd, m)
    else if fuel == 0 then (OutOfFuel, m)
    else if !CanStep(m) then (Fault, m)
    else if Halts(m) then (Halted, m)
    else Run(Step(m), fuel - 1)
  }

  /** The ALU helper: ADD adds register b into register a; CMP compares the
      two index arguments themselves; any other name raises (None). */
  function Alu(m: Machine, op: string, a: int, b: int): (r: Option<Machine>)
    requires WellFormed(m)
    requires op == "ADD" ==> 0 <= a < RegisterCount && 0 <= b < RegisterCount
    ensures r.Some? <==> op == "ADD" || op == "CMP"
    ensures op == "CMP" ==> r.Some? && r.value.(flag := m.flag) == m
    ensures op == "CMP" ==> r.Some? && (r.value.flag == 1 || r.value.flag == 2 || r.value.flag == 4)
    ensures op == "CMP" ==> r.Some? && (r.value.flag == 1 <==> a == b)
    ensures op == "CMP" ==> r.Some? && (r.value.flag == 4 <==> a < b)
    ensures op == "CMP" ==> r.Some? && (r.value.flag == 2 <==> a > b)
    ensures op == "ADD" ==> r.Some? && WellFormed(r.value) && r.value.reg[a] == m.reg[a] + m.reg[b]
    ensures op == "ADD" ==> r.Some? && r.value.(reg := m.reg) == m
    ensures op == "ADD" ==> r.Some? && forall i :: 0 <= i < RegisterCount && i != a ==> r.value.reg[i] == m.reg[i]
  {
    if op == "ADD" then
      Some(m.(reg := m.reg[a := m.reg[a] + m.reg[b]]))
    else if op == "CMP" then
      // the third test (a > b) of the code always holds when reached
      Some(m.(flag := if a == b then 1 else if a < b then 4 else 2))
    else
      None
  }
}
