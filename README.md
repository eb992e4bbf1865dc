# LS-8 interpreter in Dafny

This project models the `CPU` class of a small LS-8 byte-code interpreter
(`ls8/cpu.py`) and proves properties of the model. The machine has 256 memory
cells and 8 registers. Register 7 is the stack pointer and starts at 0xF4.
The machine also has a program counter and a flag byte. It loads a program
given as lines of base-2 literals. Then it runs a fetch-decode-execute loop
until HLT or until the program counter leaves memory.

The Dafny files:

- `ls8.dfy` (module `Ls8`): the machine as a value. `Step` is one iteration of
  the loop body. `Run` is the loop, bounded by a fuel count. `Alu` is the ALU
  helper.
- `loader.dfy` (module `Ls8Loader`): the per-line logic of `load`. A line is cut
  at its first `#`, then stripped of whitespace exactly as `str.strip()` strips
  it. Blank results are skipped. Every other result is parsed in base 2 and
  stored at the next address. This file also holds the loader's properties.
- `cpu.dfy` (module `Ls8Cpu`): the class `Cpu`. Memory and registers are arrays
  updated in place. The program counter and flag are fields. PRN's console
  output is a sequence field that PRN appends to. Every method is proved equal
  to the value-level model: the constructor, `RamRead`, `RamWrite`, `Alu`, the
  loop body `Step` with one handler per opcode, the loader loop `Load`, the run
  loop `Execute`, and `Run`.
- `properties.dfy` (module `Ls8Properties`): lemmas about single steps and
  bounded runs.

Cells and registers are unbounded naturals, like the Python integers the code
uses. Nothing in the code masks them except PUSH's decrement of the stack
pointer (`x & 0xFF` is written as `x % 256`, which agrees with Python for every
integer). POP and CALL do not mask. MUL and ADD do not wrap.

A step is defined when everything it indexes exists:

- the opcode and both operand bytes lie inside memory (`pc + 2 < 256`, since
  both operands are fetched before the opcode is examined);
- every register operand is below 8;
- POP and RET read `ram[sp]` with `sp < 256`;
- CALL writes `ram[sp - 1]` with `1 <= sp <= 256`.

In Python every violation but one raises an IndexError. The exception is
CALL with sp = 0, which writes `ram[-1]`, the last cell. `Run` reports all of
these states as `Fault` and keeps the state from before the step. `Cpu.Step` takes
their absence as its precondition.

Further facts about the code that the model keeps:

- `load` stores each value at the next address with no bound check. The 257th
  value raises an IndexError with the first 256 already stored. `Load` returns
  `false` with that image, and `Cpu.Run` then reports `LoadOverflow` without
  executing anything.
- The loop ends either at HLT (`Halted`) or when the loop condition `pc < 256`
  fails (`RanOffEnd`). The model keeps the two endings apart.

The ALU's CMP compares its two index arguments, not the registers' contents.
That is what the code does, and the model keeps it.

## Model

| member | source | states |
|---|---|---|
| Ls8.Initial | ls8/cpu.py:9-22 | a fresh machine has 256 zero cells, registers 0-6 zero, register 7 = 0xF4, pc 0, flag 0 and no output |
| Ls8.Mask8 | ls8/cpu.py:137-138 | `x & 0xFF` is below 256, is the identity on 0..255, and differs from x by a multiple of 256, negative x included |
| Ls8.Effect | ls8/cpu.py:121-171 | no opcode handler changes the number of memory cells or registers |
| Ls8.Step | ls8/cpu.py:112-175 | one loop iteration keeps memory at 256 cells and the register file at 8 |
| Ls8.Run | ls8/cpu.py:111-175 | a bounded run keeps memory at 256 cells and the register file at 8 |
| Ls8.Alu | ls8/cpu.py:63-78 | ADD and CMP succeed and other names fail; ADD sets reg[a] to reg[a] + reg[b] and changes nothing else; CMP changes only the flag, to 1, 4 or 2 exactly when a = b, a < b or a > b (the indices) |
| Ls8Loader.BeforeHash | ls8/cpu.py:51 | the result is the longest prefix without '#', so it is followed by '#' or by the end of the line |
| Ls8Loader.LeadingSpaces | ls8/cpu.py:52 | counts exactly the run of whitespace the text starts with |
| Ls8Loader.TrailingSpaces | ls8/cpu.py:52 | counts exactly the run of whitespace the text ends with |
| Ls8Loader.ParseBinary | ls8/cpu.py:55 | the value of n binary digits is below 2^n |
| Ls8Loader.Program | ls8/cpu.py:50-58 | at most one value per line |
| Ls8Loader.Load | ls8/cpu.py:48-58 | loading succeeds iff there are at most 256 values; on success they occupy addresses 0.. in order and the rest of memory is unchanged; otherwise memory holds the first 256 |
| Ls8Loader.ProgramAppend | ls8/cpu.py:50-58 | the values of two consecutive pieces of a file are the values of the first followed by those of the second |
| Ls8Loader.ProgramPrefix | ls8/cpu.py:50-58 | the lines before line n store a prefix of what the whole file stores |
| Ls8Loader.ProgramSkipsBlank | ls8/cpu.py:53-54 | a line whose command is empty stores nothing |
| Ls8Loader.ProgramStores | ls8/cpu.py:55-58 | any other line stores its base-2 value right after the values before it |
| Ls8Loader.ProgramOverflow | ls8/cpu.py:57 | a further value after 256 means the file holds more than 256, the first 256 being those stored |
| Ls8Loader.CommentIgnored | ls8/cpu.py:51-52 | whatever follows a '#' does not change the line's command |
| Ls8Loader.BeforeHashOfPlain | ls8/cpu.py:51 | a line without '#' is all command |
| Ls8Loader.SpaceChars | ls8/cpu.py:52 | space, tab, newline and carriage return are whitespace to strip; no whitespace character is a binary digit or '#' |
| Ls8Loader.LstripShape | ls8/cpu.py:52 | lstrip keeps a suffix, drops only whitespace before it, and the suffix does not start with whitespace |
| Ls8Loader.RstripShape | ls8/cpu.py:52 | rstrip keeps a prefix, drops only whitespace after it, and the prefix does not end with whitespace |
| Ls8Loader.StripShape | ls8/cpu.py:52 | strip keeps a contiguous middle part of the text, drops only whitespace on either side, and the middle neither starts nor ends with whitespace |
| Ls8Loader.StripPadded | ls8/cpu.py:52 | conversely, any text that neither starts nor ends with whitespace, padded on both sides with whitespace, strips back to itself |
| Ls8Loader.CommandOfPadded | ls8/cpu.py:51-52 | a line made of such a text without '#', padded with whitespace and optionally followed by '#' and a comment, has that text as its command |
| Ls8Loader.CommandShape | ls8/cpu.py:51-52 | a command holds no '#' and neither starts nor ends with whitespace |
| Ls8Loader.CommandIdempotent | ls8/cpu.py:51-52 | cutting and stripping a command again changes nothing |
| Ls8Loader.BlankLineStoresNothing | ls8/cpu.py:53-54 | inserting a blank or comment-only line anywhere leaves the stored values as they were |
| Ls8Loader.CleanLoadsSame | ls8/cpu.py:50-58 | the file with comments, surrounding blanks and empty lines removed stores the same values |
| Ls8Loader.CleanLoadsSameImage | ls8/cpu.py:48-58 | that file gives the same memory image and the same overflow outcome |
| Ls8Loader.CleanIsClean | ls8/cpu.py:51-54 | each line of the cleaned file is non-empty and is its own command |
| Ls8Loader.Bits | ls8/cpu.py:55 | the fixed-width numeral has exactly that many binary digits |
| Ls8Loader.ParseBits | ls8/cpu.py:55 | parsing the numeral of v that is wide enough gives back v |
| Ls8Loader.BitsOfParse | ls8/cpu.py:55 | conversely, the numeral of a string's value, as wide as the string, is that string, leading zeros included |
| Ls8Loader.LeadingZero | ls8/cpu.py:55 | a leading zero does not change a literal's value |
| Ls8Loader.TrimSolid | ls8/cpu.py:52 | strip leaves text that has no surrounding whitespace unchanged (StripPadded with no padding) |
| Ls8Loader.TrimSolidSpace | ls8/cpu.py:52 | strip removes one trailing space from such text (StripPadded with one blank after) |
| Ls8Loader.DigitsLine | ls8/cpu.py:51-55 | a line of binary digits, alone or followed by ' #' and a comment, has those digits as its command (the general form is `CommandOfPadded`) |
| Ls8Loader.Listing | ls8/cpu.py:50 | a listing has one line per byte |
| Ls8Loader.ByteLine | ls8/cpu.py:51-55 | an 8-digit numeral line with a comment stores its byte |
| Ls8Loader.ProgramSnoc | ls8/cpu.py:55-58 | a further non-blank line stores one more value, at the end |
| Ls8Loader.ListingLoads | ls8/cpu.py:48-58 | a file of 8-digit numerals stores exactly those bytes, in order |
| Ls8Cpu.Cpu.constructor | ls8/cpu.py:9-22 | new arrays, holding the initial machine |
| Ls8Cpu.Cpu.RamRead | ls8/cpu.py:80-82 | returns the memory cell at the address |
| Ls8Cpu.Cpu.RamWrite | ls8/cpu.py:84-86 | stores into the register of that index, leaving memory untouched |
| Ls8Cpu.Cpu.Alu | ls8/cpu.py:63-78 | the object's new state is that of Ls8.Alu, and false with nothing changed where the code raises |
| Ls8Cpu.Cpu.Step | ls8/cpu.py:112-175 | reports HLT with nothing changed, otherwise performs exactly Ls8.Step in place |
| Ls8Cpu.Cpu.Ldi | ls8/cpu.py:121-124 | LDI's handler, through ram_write, performs Ls8.Effect |
| Ls8Cpu.Cpu.Prn | ls8/cpu.py:126-128 | PRN's handler performs Ls8.Effect |
| Ls8Cpu.Cpu.Mul | ls8/cpu.py:130-131 | MUL's handler performs Ls8.Effect |
| Ls8Cpu.Cpu.Add | ls8/cpu.py:133-134 | ADD's handler performs Ls8.Effect |
| Ls8Cpu.Cpu.Push | ls8/cpu.py:136-144 | PUSH's handler performs Ls8.Effect |
| Ls8Cpu.Cpu.Pop | ls8/cpu.py:146-156 | POP's handler performs Ls8.Effect |
| Ls8Cpu.Cpu.Call | ls8/cpu.py:162-166 | CALL's handler performs Ls8.Effect |
| Ls8Cpu.Cpu.Ret | ls8/cpu.py:168-171 | RET's handler performs Ls8.Effect |
| Ls8Cpu.Cpu.Load | ls8/cpu.py:48-58 | the in-place loader loop leaves the memory and outcome that Ls8Loader.Load describes |
| Ls8Cpu.Cpu.Execute | ls8/cpu.py:111-175 | the in-place run loop ends in the status and state of Ls8.Run |
| Ls8Cpu.Cpu.Run | ls8/cpu.py:108-175 | loads and then runs; runs nothing when the load overflows |
| Ls8Properties.StepOutput | ls8/cpu.py:126-128 | PRN appends its register to the output and no other instruction prints |
| Ls8Properties.StepAdvance | ls8/cpu.py:173-175 | outside CALL and the reserved opcodes, pc advances by (op >> 6) + 1; after RET that is the popped address + 1 |
| Ls8Properties.UnlistedOpcodeIsNoOp | ls8/cpu.py:121-175 | an opcode without a handler, other than the reserved three, only advances pc by (op >> 6) + 1 |
| Ls8Properties.ReservedIsFixedPoint | ls8/cpu.py:173 | 0x54, 0x55 and 0x56 leave the whole state unchanged |
| Ls8Properties.ReservedNeverFinishes | ls8/cpu.py:111-175 | a run reaching a reserved opcode spins there until the fuel runs out |
| Ls8Properties.RegisterInstruction | ls8/cpu.py:121-134 | LDI, MUL and ADD change only register a, to b, a·b or a+b of the old values; memory and the other registers stay; pc + 3 |
| Ls8Properties.PrnPrints | ls8/cpu.py:126-128 | PRN appends register a to the output and changes nothing else but pc + 2 |
| Ls8Properties.PushEffect | ls8/cpu.py:136-144 | PUSH sets sp to (sp - 1) & 0xFF, which is sp - 1 for 1 ≤ sp ≤ 256 and 255 for sp = 0, and stores register a there (the new sp for a = 7); nothing else changes but pc + 2 |
| Ls8Properties.PopEffect | ls8/cpu.py:146-156 | POP loads ram[sp] into register a and then adds 1 to register 7, unmasked; nothing else changes but pc + 2 |
| Ls8Properties.PushThenPop | ls8/cpu.py:136-156 | PUSH r1; POP r2 restores sp and copies old r1 into r2, no other register changing |
| Ls8Properties.CallEffect | ls8/cpu.py:162-166 | CALL stores p + 1 at sp - 1, decrements sp and jumps to register a with no further advance; for a = 7 it jumps to the decremented sp; memory, flag and output otherwise unchanged |
| Ls8Properties.RetEffect | ls8/cpu.py:168-175 | RET sets pc to ram[sp] + 1 (the popped address plus the generic advance), adds 1 to sp unmasked, and changes nothing else |
| Ls8Properties.RetAfterCall | ls8/cpu.py:162-175 | a RET that finds the CALL's stack slot returns to p + 2 and restores sp |
| Ls8Properties.CallThenReturn | ls8/cpu.py:162-175 | CALL into a bare RET, through any register, comes back to p + 2 with all registers, flag and output restored |
| Ls8Properties.AluAddMatchesStep | ls8/cpu.py:133-134 | the ALU's ADD has the effect of the loop's ADD, less the pc advance |
| Ls8Properties.RunOutcome | ls8/cpu.py:111-119 | output only grows; Halted means HLT was fetched, RanOffEnd means pc ≥ 256, Fault means `CanStep` fails: an IndexError in the code, or CALL with sp = 0 |
| Ls8Properties.FaultingStep | ls8/cpu.py:112-171 | exactly when the next step fails (`CanStep` false): pc in the last two cells, even for HLT, since both operands are fetched first; a register operand ≥ 8 for LDI, PRN, PUSH, MUL, ADD, POP or CALL; POP or RET with sp ≥ 256; CALL with sp = 0 or sp > 256; the model then keeps the state from before the step |
| Ls8Properties.HaltStops | ls8/cpu.py:118-119 | HLT ends the run with every field untouched |
| Ls8Properties.RunMoreFuel | ls8/cpu.py:111 | a run that finished within some fuel finishes the same way with more |
| Ls8Properties.LdiPrnPair | ls8/cpu.py:121-128 | an LDI r, v; PRN r pair sets r to v and prints v |
| Ls8Properties.PrintsImmediates | ls8/cpu.py:111-175 | a program of LDI/PRN pairs and HLT, each pair through any register of its own, halts having printed exactly its immediates, in order |
| Ls8Properties.PushPopPrint | ls8/cpu.py:136-156 | with register 0 preset to 42, PUSH R0; POP R1; PRN R1; HLT prints 42 and halts |
| Ls8Properties.LoadedListingPrints | ls8/cpu.py:108-175 | such a program, with any register per pair, loaded from its file into a fresh CPU, halts having printed exactly its immediates |
| Ls8Properties.PrintEight | ls8/cpu.py:108-175 | the print8 file loads, halts and prints the single line 8 |

## Left out

- Command-line handling, file opening and the missing-file handler (`sys.argv`, `sys.exit`, `open`, `FileNotFoundError`) are I/O glue. The loader takes the file's lines as a sequence of strings.
- `trace` and the formatting of PRN's `print` are console output only. PRN appends the value to the output sequence.
- The commented-out hard-coded program in `load` is not code. Its bytes appear in `PrintEight`.
- Python's negative-index wraparound is not modelled. It arises in two places: CALL with sp = 0 writes the return address into `ram[-1]`, the last cell, and `alu` with a negative register index reads and writes from the end of the register list. The first state is outside `CanStep`, where `Run` reports `Fault`. The second is outside `Alu`'s precondition, and so is ADD with an index of 8 or more, an IndexError at `alu`'s addition. The remaining states outside `CanStep` are IndexErrors in the code: a register operand of 8 or more, POP or RET with sp ≥ 256, CALL with sp > 256, and a pc in the last two cells.
- `Fault` keeps the state from before the failing step. In the code, three failing handlers have already partly updated it when they raise: PUSH with a register operand of 8 or more has already decremented and masked `reg[7]`; CALL has already decremented `reg[7]`, and with a register operand of 8 or more also written `ram[sp]`; RET has already incremented `reg[7]`. The uncaught exception ends the process, so no later step sees that state.
- `int(s, 2)` accepts more than digits 0 and 1 (a `0b` prefix, a sign, underscores). The loader requires every command to be binary digits only (`Loadable`), and lines with anything else are not modelled.
- Termination of `run` is not guaranteed, so `Run` and `Execute` take a fuel count. `OutOfFuel` is a status of the model, not of the code.
- The opcode tests in the loop are separate `if`s in the code and an `else if` chain in `Cpu.Step`. They are equivalent because `command` is fixed during the step.
- Ls8.Step: its own contract states only that the sizes of memory and the register file are kept. What it computes is stated by the lemmas in `Ls8Properties` and by `Cpu.Step`, which is proved equal to it.
- Ls8.Run: its own contract states only that the sizes of memory and the register file are kept. What it computes is stated by the lemmas in `Ls8Properties` and by `Cpu.Execute`, which is proved equal to it.
- Ls8.Effect: its own contract states only that the sizes of memory and the register file are kept. What it computes is stated by the per-opcode lemmas in `Ls8Properties` and by the handler methods of `Cpu`, which are proved equal to it.
