/**
 * The interpreter's CPU object: memory and registers are fixed-size arrays
 * updated in place, the program counter and flag are fields, and PRN's
 * console output is a sequence the object appends to.  Each method is proved
 * against the value-level model in Ls8 and Ls8Loader.
 */
module Ls8Cpu {
  import opened Ls8
  import opened Ls8Loader

  class Cpu {
    var ram: array<nat>
    var reg: array<nat>
    var pc: nat
    var flag: nat
    /** The values PRN has printed, one line each, oldest first. */
    var output: seq<nat>

    ghost predicate Valid()
      reads this
    {
      ram.Length == MemorySize && reg.Length == RegisterCount && ram != reg
    }

    /** The machine value this object currently represents. */
    function State(): (m: Machine)
      reads this, ram, reg
    {
      Machine(ram[..], reg[..], pc, flag, output)
    }

    constructor ()
      ensures Valid() && fresh(ram) && fresh(reg)
      ensures State() == Initial()
      ensures forall i :: 0 <= i < ram.Length ==> ram[i] == 0
      ensures forall i :: 0 <= i < SP ==> reg[i] == 0
      ensures reg[SP] == 0xF4 && pc == 0 && flag == 0 && output == []
    {
      ram := new nat[MemorySize](_ => 0);
      pc := 0;
      var r := new nat[RegisterCount](_ => 0);
      r[SP] := InitialSP;
      reg := r;
      flag := 0;
      output := [];
      assert r[..] == [0, 0, 0, 0, 0, 0, 0, InitialSP];
    }

    /** Reads one memory cell. */
    method RamRead(address: nat) returns (value: nat)
      requires Valid() && address < MemorySize
      ensures value == State().ram[address]
    {
      value := ram[address];
    }

    /** Despite its name, stores `value` into REGISTER `address`; memory is untouched. */
    method RamWrite(address: nat, value: nat)
      requires Valid() && IsRegister(address)
      modifies reg
      ensures reg[..] == old(reg[..])[address := value]
      ensures unchanged(ram)
    {
      reg[address] := value;
    }

    /** The ALU helper; returns false where the code raises "Unsupported ALU operation". */
    method Alu(op: string, a: int, b: int) returns (ok: bool)
      requires Valid()
      requires op == "ADD" ==> 0 <= a < RegisterCount && 0 <= b < RegisterCount
      modifies this, reg
      ensures Valid() && ram == old(ram) && reg == old(reg)
      ensures ok == Ls8.Alu(old(State()), op, a, b).Some?
      ensures State() == if ok then Ls8.Alu(old(State()), op, a, b).value else old(State())
    {
      if op == "ADD" {
        reg[a] := reg[a] + reg[b];
        ok := true;
      } else if op == "CMP" {
        if a == b {
          flag := 1;
        } else if a < b {
          flag := 4;
        } else {
          flag := 2;
        }
        ok := true;
      } else {
        ok := false;
      }
    }

    /** One iteration of the fetch-decode-execute loop; `halted` is the `break` on HLT. */
    method Step() returns (halted: bool)
      requires Valid() && CanStep(State())
      modifies this, ram, reg
      ensures Valid() && ram == old(ram) && reg == old(reg)
      ensures halted == Halts(old(State()))
      ensures State() == if halted then old(State()) else Ls8.Step(old(State()))
    {
      var command := ram[pc];
      var operand1 := RamRead(pc + 1);
      var operand2 := RamRead(pc + 2);
      if command == HLT {
        return true;
      }
      halted := false;
      // the code tests each opcode in a separate `if`; they are exclusive
      if command == LDI {
        Ldi(operand1, operand2);
      } else if command == PRN {
        Prn(operand1);
      } else if command == MUL {
        Mul(operand1, operand2);
      } else if command == ADD {
        Add(operand1, operand2);
      } else if command == PUSH {
        Push();
      } else if command == POP {
        Pop();
      } else if command == CALL {
        Call(operand1);
      } else if command == RET {
        Ret();
      }
      if AdvancesPc(command) {
        pc := pc + command / 64;
        pc := pc + 1;
      }
    }

    // The handlers of the loop body, one per opcode; each does what Effect
    // says for its opcode.

    method Ldi(a: nat, b: nat)
      requires Valid() && CanStep(State()) && Opcode(State()) == LDI
      requires a == Operand1(State()) && b == Operand2(State())
      modifies reg
      ensures State() == Effect(old(State()))
    {
      RamWrite(a, b);
    }

    method Prn(a: nat)
      requires Valid() && CanStep(State()) && Opcode(State()) == PRN && a == Operand1(State())
      modifies this
      ensures Valid() && ram == old(ram) && reg == old(reg)
      ensures State() == Effect(old(State()))
    {
      output := output + [reg[a]];
    }

    method Mul(a: nat, b: nat)
      requires Valid() && CanStep(State()) && Opcode(State()) == MUL
      requires a == Operand1(State()) && b == Operand2(State())
      modifies reg
      ensures State() == Effect(old(State()))
    {
      reg[a] := reg[a] * reg[b];
    }

    method Add(a: nat, b: nat)
      requires Valid() && CanStep(State()) && Opcode(State()) == ADD
      requires a == Operand1(State()) && b == Operand2(State())
      modifies reg
      ensures State() == Effect(old(State()))
    {
      reg[a] := reg[a] + reg[b];
    }

    method Push()
      requires Valid() && CanStep(State()) && Opcode(State()) == PUSH
      modifies ram, reg
      ensures State() == Effect(old(State()))
    {
      reg[SP] := Mask8(reg[SP] as int - 1);
      var regIndex := ram[pc + 1];
      var value := reg[regIndex];
      ram[reg[SP]] := value;
    }

    method Pop()
      requires Valid() && CanStep(State()) && Opcode(State()) == POP
      modifies reg
      ensures State() == Effect(old(State()))
    {
      var sp := reg[SP];
      var r := ram[pc + 1];
      var value := ram[sp];
      reg[r] := value;
      reg[SP] := reg[SP] + 1;
    }

    method Call(a: nat)
      requires Valid() && CanStep(State()) && Opcode(State()) == CALL && a == Operand1(State())
      modifies this, ram, reg
      ensures Valid() && ram == old(ram) && reg == old(reg)
      ensures State() == Effect(old(State()))
    {
      reg[SP] := reg[SP] - 1;
      var sp := reg[SP];
      ram[sp] := pc + 1;
      pc := reg[a];
    }

    method Ret()
      requires Valid() && CanStep(State()) && Opcode(State()) == RET
      modifies this, reg
      ensures Valid() && ram == old(ram) && reg == old(reg)
      ensures State() == Effect(old(State()))
    {
      var sp := reg[SP];
      reg[SP] := reg[SP] + 1;
      pc := ram[sp];
    }

    /** The loader's loop: stores each non-blank line's value at the next
        address; false is the IndexError raised by a 257th value. */
    method Load(lines: seq<string>) returns (ok: bool)
      requires Valid() && Loadable(lines)
      modifies ram
      ensures (ok, ram[..]) == Ls8Loader.Load(old(ram[..]), lines)
    {
      ghost var before := ram[..];
      var address := 0;
      var i := 0;
      assert lines[..0] == [];
      while i < |lines|
        invariant 0 <= i <= |lines|
        invariant Loadable(lines[..i])
        invariant address == |Program(lines[..i])| <= MemorySize
        invariant ram[..] == Program(lines[..i]) + before[address..]
      {
        var command := Command(lines[i]);
        if command != [] {
          ProgramStores(lines, i);
          if address == ram.Length {
            // the 257th value: the first 256 are already in place
            ProgramOverflow(lines, i);
            assert before[address..] == [];
            assert ram[..] == Program(lines)[..MemorySize];
            return false;
          }
          ghost var stored := Program(lines[..i]);
          ram[address] := ParseBinary(command);
          StoreAfter(stored, before[address..], ParseBinary(command));
          assert before[address..][1..] == before[address + 1..];
          address := address + 1;
        } else {
          ProgramSkipsBlank(lines, i);
        }
        i := i + 1;
      }
      assert lines[..i] == lines;
      assert ram[..] == Program(lines) + before[|Program(lines)|..];
      ok := true;
    }

    /** The loop of `run`: while pc < 256, at most `fuel` iterations.  Where
        the code would raise an IndexError (or index with a negative stack
        pointer) the model stops with Fault instead. */
    method Execute(fuel: nat) returns (status: Status)
      requires Valid()
      modifies this, ram, reg
      ensures Valid() && ram == old(ram) && reg == old(reg)
      ensures (status, State()) == Ls8.Run(old(State()), fuel)
    {
      ghost var start := State();
      var n := 0;
      while pc < ram.Length
        invariant Valid() && ram == old(ram) && reg == old(reg)
        invariant n <= fuel
        invariant Ls8.Run(start, fuel) == Ls8.Run(State(), fuel - n)
        decreases fuel - n
      {
        ghost var here := State();
        if n == fuel {
          assert Ls8.Run(here, 0) == (OutOfFuel, here);
          return OutOfFuel;
        }
        if !CanStep(State()) {
          assert Ls8.Run(here, fuel - n) == (Fault, here);
          return Fault;
        }
        var halted := Step();
        if halted {
          assert Ls8.Run(here, fuel - n) == (Halted, here);
          return Halted;
        }
        assert Ls8.Run(here, fuel - n) == Ls8.Run(Ls8.Step(here), fuel - n - 1);
        n := n + 1;
      }
      assert Ls8.Run(State(), fuel - n) == (RanOffEnd, State());
      return RanOffEnd;
    }

    /** `run`: load the program, then execute it. */
    method Run(lines: seq<string>, fuel: nat) returns (status: Status)
      requires Valid() && Loadable(lines)
      modifies this, ram, reg
      ensures Valid() && ram == old(ram) && reg == old(reg)
      ensures var (loaded, image) := Ls8Loader.Load(old(ram[..]), lines);
              if loaded then (status, State()) == Ls8.Run(old(State()).(ram := image), fuel)
              else status == LoadOverflow && State() == old(State()).(ram := image)
    {
      var loaded := Load(lines);
      if !loaded {
        return LoadOverflow;
      }
      status := Execute(fuel);
    }
  }

  /** Writing the cell just after a stored prefix extends the prefix by one. */
  lemma StoreAfter(stored: seq<nat>, rest: seq<nat>, v: nat)
    requires rest != []
    ensures (stored + rest)[|stored| := v] == stored + [v] + rest[1..]
  {
  }
}
