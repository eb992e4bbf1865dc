/**
 * What one step and a bounded run of the LS-8 loop do: the pc-advance rule,
 * the fields each instruction touches, the stack discipline of PUSH/POP and
 * CALL/RET, the fixed point of the reserved opcodes, and programs whose
 * printed output is known.
 */
module Ls8Properties {
  import opened Ls8
  import opened Ls8Loader

  // ---------------------------------------------------------------------
  // One step

  /** PRN appends one line of output; no other instruction prints. */
  lemma StepOutput(m: Machine)
    requires CanStep(m) && !Halts(m)
    ensures Step(m).out == m.out + (if Opcode(m) == PRN then [m.reg[Operand1(m)]] else [])
  {
  }

  /** Apart from CALL and the reserved opcodes, the pc moves past the opcode
      and the operand count its top two bits give, starting from where the
      handler left it: RET returns to the popped address plus one. */
  lemma StepAdvance(m: Machine)
    requires CanStep(m) && !Halts(m) && AdvancesPc(Opcode(m))
    ensures Opcode(m) != RET ==> Step(m).pc == m.pc + Opcode(m) / 64 + 1
    ensures Opcode(m) == RET ==> Step(m).pc == m.ram[m.reg[SP]] + 1
  {
  }

  /** An opcode without a handler, other than the reserved three, is a no-op
      as wide as its top two bits say. */
  lemma UnlistedOpcodeIsNoOp(m: Machine)
    requires CanStep(m) && !Halts(m)
    requires Opcode(m) !in {LDI, PRN, MUL, ADD, PUSH, POP, CALL, RET}
    requires !IsReserved(Opcode(m))
    ensures Step(m) == m.(pc := m.pc + Opcode(m) / 64 + 1)
  {
  }

  /** A reserved opcode leaves every field as it was: the machine refetches
      the same byte for ever. */
  lemma ReservedIsFixedPoint(m: Machine)
    requires CanStep(m) && IsReserved(Opcode(m))
    ensures !Halts(m) && Step(m) == m
  {
  }

  /** Hence a run that reaches a reserved opcode only stops for lack of fuel. */
  lemma {:induction false} ReservedNeverFinishes(m: Machine, fuel: nat)
    requires CanStep(m) && IsReserved(Opcode(m))
    ensures Run(m, fuel) == (OutOfFuel, m)
    decreases fuel
  {
    if fuel > 0 {
      ReservedIsFixedPoint(m);
      ReservedNeverFinishes(m, fuel - 1);
    }
  }

  /** LDI, MUL and ADD change register a only: to the immediate b, or to the
      unbounded product or sum of the two registers' old values. */
  lemma RegisterInstruction(m: Machine)
    requires CanStep(m) && Opcode(m) in {LDI, MUL, ADD}
    ensures var r, op, a, b := Step(m), Opcode(m), Operand1(m), Operand2(m);
      && r.reg[a] == (if op == LDI then b else if op == MUL then m.reg[a] * m.reg[b] else m.reg[a] + m.reg[b])
      && (forall i :: 0 <= i < RegisterCount && i != a ==> r.reg[i] == m.reg[i])
      && r.ram == m.ram && r.flag == m.flag && r.out == m.out && r.pc == m.pc + 3
  {
  }

  /** PRN prints register a and changes nothing else but the pc. */
  lemma PrnPrints(m: Machine)
    requires CanStep(m) && Opcode(m) == PRN
    ensures Step(m) == m.(out := m.out + [m.reg[Operand1(m)]], pc := m.pc + 2)
  {
  }

  /** PUSH decrements the stack pointer modulo 256 and stores register a at
      the new top; with a = 7 the stored value is the new stack pointer. */
  lemma PushEffect(m: Machine)
    requires CanStep(m) && Opcode(m) == PUSH
    ensures var r, a, sp := Step(m), Operand1(m), Mask8(m.reg[SP] as int - 1);
      && r.reg[SP] == sp
      && (1 <= m.reg[SP] <= MemorySize ==> sp == m.reg[SP] - 1)
      && (m.reg[SP] == 0 ==> sp == 255)
      && r.ram[sp] == (if a == SP then sp else m.reg[a])
      && (forall i :: 0 <= i < MemorySize && i != sp ==> r.ram[i] == m.ram[i])
      && (forall i :: 0 <= i < RegisterCount && i != SP ==> r.reg[i] == m.reg[i])
      && r.flag == m.flag && r.out == m.out && r.pc == m.pc + 2
  {
  }

  /** POP loads the top of the stack into register a and then adds one to
      register 7, unmasked; with a = 7 the increment applies to the popped value. */
  lemma PopEffect(m: Machine)
    requires CanStep(m) && Opcode(m) == POP
    ensures var r, a, sp := Step(m), Operand1(m), m.reg[SP];
      && (a != SP ==> r.reg[a] == m.ram[sp] && r.reg[SP] == sp + 1)
      && (a == SP ==> r.reg[SP] == m.ram[sp] + 1)
      && (forall i :: 0 <= i < RegisterCount && i != SP && i != a ==> r.reg[i] == m.reg[i])
      && r.ram == m.ram && r.flag == m.flag && r.out == m.out && r.pc == m.pc + 2
  {
  }

  /** PUSH r1 followed by POP r2 (neither being register 7) restores the
      stack pointer and copies r1's old value into r2. */
  lemma PushThenPop(m: Machine)
    requires CanStep(m) && Opcode(m) == PUSH && Operand1(m) != SP
    requires 1 <= m.reg[SP] <= MemorySize
    requires CanStep(Step(m)) && Opcode(Step(m)) == POP && Operand1(Step(m)) != SP
    ensures var m1 := Step(m); var m2 := Step(m1); var r1, r2 := Operand1(m), Operand1(m1);
      && m2.reg[SP] == m.reg[SP]
      && m2.reg[r2] == m.reg[r1]
      && (forall i :: 0 <= i < RegisterCount && i != r2 ==> m2.reg[i] == m.reg[i])
      && m2.pc == m.pc + 4 && m2.flag == m.flag && m2.out == m.out
  {
    PushEffect(m);
    PopEffect(Step(m));
  }

  /** CALL r at address p pushes p + 1, decrements the stack pointer by one
      and jumps to register r, read after the decrement (so CALL R7 jumps to
      the new stack pointer), without the generic advance. */
  lemma CallEffect(m: Machine)
    requires CanStep(m) && Opcode(m) == CALL
    ensures var r, a, sp := Step(m), Operand1(m), m.reg[SP] - 1;
      && r.pc == (if a == SP then sp else m.reg[a])
      && r.reg == m.reg[SP := sp]
      && r.ram == m.ram[sp := m.pc + 1]
      && r.flag == m.flag && r.out == m.out
  {
  }

  /** RET pops the return address into pc, adds one for the generic advance,
      increments the stack pointer unmasked, and changes nothing else. */
  lemma RetEffect(m: Machine)
    requires CanStep(m) && Opcode(m) == RET
    ensures Step(m) == m.(reg := m.reg[SP := m.reg[SP] + 1], pc := m.ram[m.reg[SP]] + 1)
  {
  }

  /** A RET that finds the stack pointer and the slot a CALL left returns to
      the instruction after that CALL, and pops the slot. */
  lemma RetAfterCall(m: Machine, later: Machine)
    requires CanStep(m) && Opcode(m) == CALL
    requires CanStep(later) && Opcode(later) == RET
    requires later.reg[SP] == Step(m).reg[SP]
    requires later.ram[later.reg[SP]] == Step(m).ram[Step(m).reg[SP]]
    ensures Step(later).pc == m.pc + 2
    ensures Step(later).reg[SP] == m.reg[SP]
  {
  }

  /** CALL to a subroutine that is just RET comes back two bytes on, with the
      stack pointer and all registers restored. */
  lemma CallThenReturn(m: Machine)
    requires CanStep(m) && Opcode(m) == CALL
    requires CanStep(Step(m)) && Opcode(Step(m)) == RET
    ensures var m2 := Step(Step(m));
      m2.pc == m.pc + 2 && m2.reg == m.reg && m2.flag == m.flag && m2.out == m.out
  {
    CallEffect(m);
    RetAfterCall(m, Step(m));
    assert Step(Step(m)).reg == m.reg[SP := m.reg[SP] - 1][SP := m.reg[SP]];
  }

  /** The ALU's ADD has the effect of the loop's inline ADD, less the pc advance. */
  lemma AluAddMatchesStep(m: Machine)
    requires CanStep(m) && Opcode(m) == ADD
    ensures Alu(m, "ADD", Operand1(m), Operand2(m)) == Some(Step(m).(pc := m.pc))
  {
  }

  // ---------------------------------------------------------------------
  // Bounded runs

  /** How a run can end, and that it only ever appends to the output. */
  lemma {:induction false} RunOutcome(m: Machine, fuel: nat)
    requires WellFormed(m)
    ensures |m.out| <= |Run(m, fuel).1.out| && Run(m, fuel).1.out[..|m.out|] == m.out
    ensures Run(m, fuel).0 == Halted ==> CanStep(Run(m, fuel).1) && Halts(Run(m, fuel).1)
    ensures Run(m, fuel).0 == RanOffEnd ==> Run(m, fuel).1.pc >= MemorySize
    ensures Run(m, fuel).0 == Fault ==> Run(m, fuel).1.pc < MemorySize && !CanStep(Run(m, fuel).1)
    ensures Run(m, fuel).0 != LoadOverflow
    decreases fuel
  {
    if m.pc < MemorySize && fuel > 0 && CanStep(m) && !Halts(m) {
      StepOutput(m);
      RunOutcome(Step(m), fuel - 1);
    }
  }

  /** HLT ends the run with every field untouched. */
  lemma HaltStops(m: Machine, fuel: nat)
    requires CanStep(m) && Halts(m) && fuel > 0
    ensures Run(m, fuel) == (Halted, m)
  {
  }

  /** Exactly when the next step fails: the opcode and both operands are
      fetched first, so a pc in the last two cells fails even for HLT; then a
      register operand of 8 or more, POP or RET with sp past the end of
      memory, and CALL with sp = 0 (a negative index) or past 256. The model
      then keeps the state from before the step. */
  lemma FaultingStep(m: Machine)
    requires WellFormed(m) && m.pc < MemorySize
    ensures Run(m, 1).0 == Fault ==> Run(m, 1).1 == m
    ensures m.pc + 2 >= MemorySize ==> Run(m, 1).0 == Fault
    ensures Fetchable(m) ==>
      var op, a, b, sp := Opcode(m), Operand1(m), Operand2(m), m.reg[SP];
      (Run(m, 1).0 == Fault <==>
        || ((op == LDI || op == PRN || op == PUSH) && a >= RegisterCount)
        || ((op == MUL || op == ADD) && (a >= RegisterCount || b >= RegisterCount))
        || (op == POP && (a >= RegisterCount || sp >= MemorySize))
        || (op == CALL && (a >= RegisterCount || sp == 0 || sp > MemorySize))
        || (op == RET && sp >= MemorySize))
  {
    if CanStep(m) && !Halts(m) {
      assert Run(m, 1) == Run(Step(m), 0);
    }
  }

  /** A run that finished within `fuel` steps finishes the same way with more. */
  lemma {:induction false} RunMoreFuel(m: Machine, fuel: nat, extra: nat)
    requires WellFormed(m) && Run(m, fuel).0 != OutOfFuel
    ensures Run(m, fuel + extra) == Run(m, fuel)
    decreases fuel
  {
    if m.pc < MemorySize && fuel > 0 && CanStep(m) && !Halts(m) {
      RunMoreFuel(Step(m), fuel - 1, extra);
    }
  }

  // ---------------------------------------------------------------------
  // Programs with known output

  /** Every index is that of a register. */
  predicate AllRegisters(rs: seq<nat>)
  {
    forall i :: 0 <= i < |rs| ==> IsRegister(rs[i])
  }

  /** `LDI r, v; PRN r` for each register r of rs and value v of vs in turn. */
  function LdiPrn(rs: seq<nat>, vs: seq<nat>): (code: seq<nat>)
    requires |rs| == |vs|
    ensures |code| == 5 * |vs|
  {
    if vs == [] then [] else [LDI, rs[0], vs[0], PRN, rs[0]] + LdiPrn(rs[1..], vs[1..])
  }

  /** One `LDI r, v; PRN r` pair: register r becomes v, v is printed, and
      the run goes on two steps later. */
  lemma LdiPrnPair(m: Machine, r: nat, v: nat, fuel: nat)
    requires WellFormed(m) && IsRegister(r) && m.pc + 5 < MemorySize && fuel >= 2
    requires m.ram[m.pc] == LDI && m.ram[m.pc + 1] == r && m.ram[m.pc + 2] == v
    requires m.ram[m.pc + 3] == PRN && m.ram[m.pc + 4] == r
    ensures Run(m, fuel) == Run(m.(reg := m.reg[r := v], out := m.out + [v], pc := m.pc + 5), fuel - 2)
  {
    assert CanStep(m) && !Halts(m);
    var m1 := Step(m);
    assert m1 == m.(reg := m.reg[r := v], pc := m.pc + 3);
    assert CanStep(m1) && !Halts(m1);
    assert Run(m, fuel) == Run(m1, fuel - 1);
  }

  /** Transfers a run's outcome along an equation between runs. */
  lemma RunChain(x: (Status, Machine), y: (Status, Machine), out: seq<nat>, vs: seq<nat>)
    requires vs != [] && x == y && y.0 == Halted && y.1.out == out + [vs[0]] + vs[1..]
    ensures x.0 == Halted && x.1.out == out + vs
  {
    assert [vs[0]] + vs[1..] == vs;
  }

  /** The cells of `ram` from p on hold `code`. */
  predicate CodeAt(ram: seq<nat>, p: nat, code: seq<nat>)
  {
    p + |code| <= |ram| && ram[p..p + |code|] == code
  }

  lemma CodeAtSplit(ram: seq<nat>, p: nat, code: seq<nat>, k: nat)
    requires CodeAt(ram, p, code) && k <= |code|
    ensures CodeAt(ram, p + k, code[k..])
    ensures forall i :: 0 <= i < k ==> ram[p + i] == code[i]
  {
    forall i | 0 <= i < k ensures ram[p + i] == code[i] {
      assert ram[p + i] == ram[p..p + |code|][i];
    }
    assert ram[p + k..p + |code|] == ram[p..p + |code|][k..];
  }

  lemma LdiPrnHead(ram: seq<nat>, p: nat, rs: seq<nat>, vs: seq<nat>)
    requires |rs| == |vs| && vs != [] && CodeAt(ram, p, LdiPrn(rs, vs) + [HLT])
    ensures ram[p] == LDI && ram[p + 1] == rs[0] && ram[p + 2] == vs[0] && ram[p + 3] == PRN && ram[p + 4] == rs[0]
    ensures CodeAt(ram, p + 5, LdiPrn(rs[1..], vs[1..]) + [HLT])
  {
    var code, rest := LdiPrn(rs, vs) + [HLT], LdiPrn(rs[1..], vs[1..]) + [HLT];
    assert code == [LDI, rs[0], vs[0], PRN, rs[0]] + rest;
    assert code[5..] == rest;
    assert code[0] == LDI && code[1] == rs[0] && code[2] == vs[0] && code[3] == PRN && code[4] == rs[0];
    CodeAtSplit(ram, p, code, 5);
    assert ram[p + 0] == code[0] && ram[p + 1] == code[1] && ram[p + 2] == code[2];
    assert ram[p + 3] == code[3] && ram[p + 4] == code[4];
  }

  /** From p on, ram holds `LDI r, v; PRN r` for each r of rs and v of vs, then HLT. */
  predicate PairsAt(ram: seq<nat>, p: nat, rs: seq<nat>, vs: seq<nat>)
    requires |rs| == |vs|
    decreases vs
  {
    if vs == [] then p < |ram| && ram[p] == HLT
    else
      p + 4 < |ram| && ram[p] == LDI && ram[p + 1] == rs[0] && ram[p + 2] == vs[0] &&
      ram[p + 3] == PRN && ram[p + 4] == rs[0] && PairsAt(ram, p + 5, rs[1..], vs[1..])
  }

  lemma {:induction false} CodeAtPairs(ram: seq<nat>, p: nat, rs: seq<nat>, vs: seq<nat>)
    requires |rs| == |vs| && CodeAt(ram, p, LdiPrn(rs, vs) + [HLT])
    ensures PairsAt(ram, p, rs, vs)
    decreases vs
  {
    if vs == [] {
      CodeAtSplit(ram, p, LdiPrn(rs, vs) + [HLT], 1);
    } else {
      LdiPrnHead(ram, p, rs, vs);
      CodeAtPairs(ram, p + 5, rs[1..], vs[1..]);
    }
  }

  lemma AllRegistersTail(rs: seq<nat>)
    requires AllRegisters(rs) && rs != []
    ensures IsRegister(rs[0]) && AllRegisters(rs[1..])
  {
    assert forall i :: 0 <= i < |rs[1..]| ==> rs[1..][i] == rs[i + 1];
  }

  /** A program of LDI/PRN pairs ended by HLT prints exactly its immediates,
      in order, whichever registers the pairs go through. */
  lemma {:induction false} PrintsImmediates(m: Machine, rs: seq<nat>, vs: seq<nat>, fuel: nat)
    requires WellFormed(m) && |rs| == |vs| && AllRegisters(rs)
    requires m.pc + 5 * |vs| + 2 < MemorySize
    requires PairsAt(m.ram, m.pc, rs, vs)
    requires fuel > 2 * |vs|
    ensures Run(m, fuel).0 == Halted
    ensures Run(m, fuel).1.out == m.out + vs
    decreases vs
  {
    if vs == [] {
      assert Opcode(m) == HLT;
      HaltStops(m, fuel);
    } else {
      AllRegistersTail(rs);
      var m2 := m.(reg := m.reg[rs[0] := vs[0]], out := m.out + [vs[0]], pc := m.pc + 5);
      LdiPrnPair(m, rs[0], vs[0], fuel);
      PrintsImmediates(m2, rs[1..], vs[1..], fuel - 2);
      RunChain(Run(m, fuel), Run(m2, fuel - 2), m.out, vs);
    }
  }

  /** The image after loading a program into a fresh CPU. */
  function Boot(image: seq<nat>): (m: Machine)
    requires |image| <= MemorySize
    ensures WellFormed(m) && m.ram[..|image|] == image
  {
    Initial().(ram := image + Initial().ram[|image|..])
  }

  /** With register 0 preset to 42, PUSH R0; POP R1; PRN R1; HLT prints 42. */
  lemma PushPopPrint()
    ensures var m := Boot([PUSH, 0, POP, 1, PRN, 1, HLT]).(reg := Initial().reg[0 := 42]);
      Run(m, 4).0 == Halted && Run(m, 4).1.out == [42]
  {
    var m := Boot([PUSH, 0, POP, 1, PRN, 1, HLT]).(reg := Initial().reg[0 := 42]);
    assert m.ram[0] == PUSH && m.ram[1] == 0;
    var m1 := Step(m);
    assert m1.pc == 2 && m1.ram[2] == POP && m1.ram[3] == 1;
    var m2 := Step(m1);
    PushThenPop(m);
    assert m2.pc == 4 && m2.reg[1] == 42 && m2.ram[4] == PRN && m2.ram[5] == 1;
    var m3 := Step(m2);
    assert m3.out == [42] && m3.pc == 6 && m3.ram[6] == HLT;
    assert Run(m, 4) == Run(m3, 1);
  }

  /** Every byte of an LDI/PRN listing fits in a cell of the file format. */
  lemma {:induction false} LdiPrnBytes(rs: seq<nat>, vs: seq<nat>)
    requires |rs| == |vs| && AllRegisters(rs) && forall i :: 0 <= i < |vs| ==> vs[i] < 256
    ensures forall i :: 0 <= i < |LdiPrn(rs, vs)| ==> LdiPrn(rs, vs)[i] < 256
    decreases vs
  {
    if vs != [] {
      AllRegistersTail(rs);
      LdiPrnBytes(rs[1..], vs[1..]);
      var code := LdiPrn(rs, vs);
      forall i | 0 <= i < |code| ensures code[i] < 256 {
        if i >= 5 { assert code[i] == LdiPrn(rs[1..], vs[1..])[i - 5]; }
      }
    }
  }

  /** End to end: a program file of LDI/PRN pairs and HLT, loaded into a
      fresh CPU (whose memory is all zero), prints exactly its immediates. */
  lemma LoadedListingPrints(rs: seq<nat>, vs: seq<nat>, notes: seq<string>, fuel: nat)
    requires |rs| == |vs| && AllRegisters(rs) && forall i :: 0 <= i < |vs| ==> vs[i] < 256
    requires 5 * |vs| + 2 < MemorySize && |notes| == 5 * |vs| + 1 && fuel > 2 * |vs|
    ensures var lines := Listing(LdiPrn(rs, vs) + [HLT], notes);
      Loadable(lines) &&
      var (loaded, image) := Ls8Loader.Load(Initial().ram, lines);
      loaded && Run(Initial().(ram := image), fuel).0 == Halted && Run(Initial().(ram := image), fuel).1.out == vs
  {
    var code := LdiPrn(rs, vs) + [HLT];
    LdiPrnBytes(rs, vs);
    assert forall i :: 0 <= i < |code| ==> code[i] < 256 by {
      forall i | 0 <= i < |code| ensures code[i] < 256 {
        if i < |LdiPrn(rs, vs)| { assert code[i] == LdiPrn(rs, vs)[i]; }
      }
    }
    var lines := Listing(code, notes);
    ListingLoads(code, notes);
    var image := Ls8Loader.Load(Initial().ram, lines).1;
    var m := Initial().(ram := image);
    assert CodeAt(m.ram, 0, code) by { assert image[0..|code|] == image[..|code|]; }
    CodeAtPairs(m.ram, 0, rs, vs);
    PrintsImmediates(m, rs, vs, fuel);
  }

  /** The print8 file (LDI R0,8; PRN R0; HLT as the bytes 10000010,
      00000000, 00001000, 01000111, 00000000, 00000001), loaded into a fresh
      CPU, prints the single line 8 and halts. */
  lemma PrintEight()
    ensures var lines := Listing([LDI, 0, 8, PRN, 0, HLT], [" LDI R0,8", "", "", " PRN R0", "", " HLT"]);
      Loadable(lines) &&
      var (loaded, image) := Ls8Loader.Load(Initial().ram, lines);
      loaded && Run(Initial().(ram := image), 3).0 == Halted && Run(Initial().(ram := image), 3).1.out == [8]
  {
    assert LdiPrn([0], [8]) + [HLT] == [LDI, 0, 8, PRN, 0, HLT];
    LoadedListingPrints([0], [8], [" LDI R0,8", "", "", " PRN R0", "", " HLT"], 3);
  }
}
