# Bit-probing solvers for GPU instruction encodings

Two Python 2 scripts recover the meaning of the bits of 64-bit GPU instruction
encodings by asking a disassembler. They take a listing of disassembled
instructions and an architecture name. For each line of the listing, they flip
the 64 bits of the line's encoding one at a time, disassemble the probe and
compare it with the original instruction.

- `Solver/KeplerAs/opcode/opcode.py` looks for **opcode bits**: bits whose flip
  turns the instruction into a different one. Alias pairs (LDG/TEX, RED/ATOM)
  do not count. The recorded bits are collected in one set shared by every line.
- `Solver/PascalAs/modifier/modifier.py` looks for **modifier bits**: bits
  whose flip keeps the opcode but changes the set of modifiers. It reports them
  per line, then disassembles every assignment of values to those bits and
  prints each accepted answer.

This project models both scripts in Dafny. The disassembler is a parameter: an
`Oracle`, a function from a 64-bit encoding to the text the disassembler
prints. Everything between the oracle and the printed results is modelled:

- `check_mode`;
- the `'0x%016x'` / `int(.., 16)` round trip and the `struct.pack('Q', ..)`
  range check of `dump`;
- the selection of the instruction line in the answer;
- the `Inst` constructor, including the `pop(0)` calls it makes on the
  caller's list;
- `and64` and `or64` on Python's unbounded, two's-complement integers;
- the two main loops, including their exceptions. An `IndexError`,
  `ValueError`, `struct.error` or `exit()` ends a run. The model keeps what
  was found or printed up to that point, plus the error (`Run`).

Each loop of the scripts is a Dafny method. The method is proved to compute a
specification function, and the properties are proved about those functions.
The loops over the lines, over the 64 bits and over the enumerated values
are specified with `Loops.Loop`, a `for` loop whose body may raise. The
loops of `and64`, `or64` and the digit loop have no error path; they are
specified by `Bits.Cleared`, `Bits.Placed` and `ModifierSolver.Digits`.

Modules:

- `Errors`: the exceptions, `Result`, and the run record `Run`.
- `Text`: the Python string built-ins the scripts use.
- `Hex`: `'0x%016x'` and `int(s, 16)`.
- `Arch`: `check_mode`.
- `Bits`: Python bit operators, `and64`/`or64` and the probe flip.
- `Instruction`: `Inst`, with the caller's list as a `TokenList` object.
- `Disasm`: `dump` and the reading of its answer.
- `Loops`: the generic loop.
- `OpcodeSolver`: `opcode.py`.
- `ModifierSolver`: `modifier.py`.

The two scripts have identical `check_mode` functions. Their `dump` functions
differ only in details the model does not see (see "Left out"). Their `Inst`
constructors pop the same tokens and fail on exactly the same lists: the
empty list, or no non-empty token left for the opcode. So `Instruction.Parse`
serves both. `opcode.py` only reads `op` from it.

Two facts about the code bound what a run can do:

- Both scripts count lines and break when the count reaches 100, before
  handling that line, so at most 99 lines are handled (`Loops.Processed`).
- An unknown architecture name is detected inside `dump`, which calls
  `exit()` at the first probe of the first line that parses. A line that
  fails to parse before that ends the run with its own error
  (`OpcodeSolver.UnknownArchFindsNothing`,
  `ModifierSolver.UnknownArchPrintsNothing`).

## Model

| member | source | states |
|---|---|---|
| Arch.CheckMode | Solver/PascalAs/modifier/modifier.py:7-15 | mode 1 exactly for SM21/Fermi/SM35/Kepler, 2 exactly for SM52/Maxwell, 3 exactly for SM60/Pascal, 0 exactly for every other name (the same function is at Solver/KeplerAs/opcode/opcode.py:7-15) |
| Text.SplitJoin | Solver/PascalAs/modifier/modifier.py:154 | joining the pieces of `s.split(c)` with `c` gives `s` back |
| Text.JoinSplit | Solver/PascalAs/modifier/modifier.py:154 | `c.join(ps).split(c) == ps` when no piece holds `c` |
| Text.WordsAreWords | Solver/PascalAs/modifier/modifier.py:125 | every word of `s.split()` is non-empty and holds no whitespace |
| Text.WordsJoin | Solver/PascalAs/modifier/modifier.py:207-210 | `" ".join(ws).split() == ws` for whitespace-free words |
| Hex.ParseFormat | Solver/PascalAs/modifier/modifier.py:139 | `int('0x%016x' % n, 16)` gives back `n` for `n >= 0` and raises ValueError for `n < 0`, whose sign is printed after `0x` |
| Hex.FormatWidth | Solver/PascalAs/modifier/modifier.py:139 | a 64-bit value prints as exactly 18 characters |
| Bits.ShrBit | Solver/PascalAs/modifier/modifier.py:178 | `(v >> j)` is odd exactly when bit `j` of `v` is set |
| Bits.AndOne | Solver/PascalAs/modifier/modifier.py:178 | `x & 1 == x % 2` |
| Bits.PyAndBit | Solver/PascalAs/modifier/modifier.py:72 | Python's bitwise and works bit by bit in two's complement, negative operands included |
| Bits.PyOrBit | Solver/PascalAs/modifier/modifier.py:80 | Python's bitwise or works bit by bit in two's complement, negative operands included |
| Bits.PyXorBit | Solver/PascalAs/modifier/modifier.py:135 | Python's bitwise xor works bit by bit in two's complement, negative operands included |
| Bits.Flip | Solver/PascalAs/modifier/modifier.py:134-135 | `base ^ 2**i` stays negative, inside [0, 2^64) or at least 2^64, as `base` is |
| Bits.FlipBits | Solver/PascalAs/modifier/modifier.py:134-135 | the probe differs from `base` in bit `i` and in no other bit |
| Bits.FlipFlip | Solver/PascalAs/modifier/modifier.py:134-135 | flipping the same bit twice restores `base`, for every Python integer |
| Bits.HoleBits | Solver/PascalAs/modifier/modifier.py:68-70 | `0xFFFFFFFFFFFFFFFF ^ (1 << p)` has exactly the bits below 64 other than `p` |
| Bits.And64 | Solver/PascalAs/modifier/modifier.py:64-73 | the loop computes `Cleared`, one masking per position whose entry is 0 |
| Bits.Or64 | Solver/PascalAs/modifier/modifier.py:75-81 | the loop computes `Placed`, one bit set per position whose entry is 1 |
| Bits.ClearedBits | Solver/PascalAs/modifier/modifier.py:64-73 | bit `j < 64` of the result is set exactly when it is set in `enc` and no position `j` has entry 0, so `and64` never sets a bit; with a 0 entry, or on a 64-bit `enc`, the result is a 64-bit value |
| Bits.PlacedBits | Solver/PascalAs/modifier/modifier.py:75-81 | a bit of the result is set exactly when it is set in `enc` or some position names it with entry 1, so `or64` never clears a bit; a 64-bit value stays one |
| Instruction.StripSemicolon | Solver/PascalAs/modifier/modifier.py:99-102 | the token loses its last character exactly when that is a `;`, and is otherwise unchanged |
| Instruction.ParseShape | Solver/PascalAs/modifier/modifier.py:83-110 | `Inst` raises only IndexError, and exactly when no non-empty token is left for the opcode, so always on the empty list. It pops a leading `{`, then a token holding `@`, and nothing else. `enc` is the second-to-last token of the list as passed in, and when at least two tokens are left the caller finds the same token second to last |
| Instruction.ParseOpcode | Solver/PascalAs/modifier/modifier.py:99-110 | `op` and the modifiers hold no `.`, and joined with `.` they make up the opcode token less its `;` |
| Instruction.RenderParse | Solver/PascalAs/modifier/modifier.py:83-110 | on a line as the tools print it, `Inst` gives back its predicate, opcode, modifier set and encoding, and leaves the list without the predicate |
| Instruction.BracedRenderParse | Solver/PascalAs/modifier/modifier.py:88-110 | on a printed line that opens a bundle with `{`, `Inst` also pops the `{` and otherwise reads the line as without it |
| Instruction.AtomExample | Solver/PascalAs/modifier/modifier.py:124 | the commented line gives op `ATOM`, modifiers {E, ADD, F32, FTZ, RN}, and pops nothing |
| Instruction.MovExample | Solver/KeplerAs/opcode/opcode.py:63 | the commented list gives op `MOV` and pops nothing |
| Instruction.BracedExample | Solver/KeplerAs/opcode/opcode.py:69-74 | `{` and the `@P0` predicate are popped off the caller's list; `enc` is still the token that was second to last |
| Instruction.TokenList.PopFront | Solver/PascalAs/modifier/modifier.py:93 | `list.pop(0)` returns the first token and removes it; on an empty list it raises IndexError |
| Instruction.NewInst | Solver/PascalAs/modifier/modifier.py:83-110 | constructing `Inst` on the caller's list returns what `Parse` computes and leaves the list as `Parse` says |
| Disasm.DumpFormatted | Solver/PascalAs/modifier/modifier.py:17-62 | dumping `'0x%016x' % code` exits when there is no tool for the mode, raises ValueError on a negative code and `struct.error` on one of 2^64 or more, and otherwise shows the disassembler exactly `code` |
| Disasm.InstructionWordsOfLines | Solver/PascalAs/modifier/modifier.py:154-158 | on an answer made of lines, the words read are those of line 1 (mode 1) or line 5 (other modes); too few lines raise IndexError |
| Disasm.RereadRendered | Solver/PascalAs/modifier/modifier.py:153-161 | a refused answer gives nothing. An accepted answer whose instruction line is an address and a rendered instruction gives that instruction back, less its predicate |
| Disasm.RereadShape | Solver/PascalAs/modifier/modifier.py:153-161 | reading an answer raises only IndexError and only on an accepted answer; a refused answer gives nothing |
| Disasm.RereadAnswer | Solver/PascalAs/modifier/modifier.py:153-161 | the step-by-step reading on the mutable list computes `Reread` |
| Loops.Processed | Solver/PascalAs/modifier/modifier.py:117-123 | the number of lines handled is at most 99, and is all of them when there are fewer than 99 |
| Loops.LoopStop | Solver/PascalAs/modifier/modifier.py:119-168 | once a step raises, later steps change nothing |
| OpcodeSolver.SolveOpcodes | Solver/KeplerAs/opcode/opcode.py:87-144 | the main block computes `Solve` on the listing |
| OpcodeSolver.ProbeLine | Solver/KeplerAs/opcode/opcode.py:98-144 | the body of the line loop (split, `Inst`, reading `enc` back from the popped list, `int(enc, 16)`, the sweep) computes `LineRun` |
| OpcodeSolver.SweepBits | Solver/KeplerAs/opcode/opcode.py:107-144 | the loop over the 64 bits computes `Sweep` from what was found before the line |
| OpcodeSolver.ProbeBit | Solver/KeplerAs/opcode/opcode.py:109-144 | one pass of the bit loop computes `Probe` |
| OpcodeSolver.ProbeFails | Solver/KeplerAs/opcode/opcode.py:113-115 | with an unknown architecture a probe exits; a negative encoding raises ValueError; an encoding of 2^64 or more raises `struct.error` |
| OpcodeSolver.ProbeSees | Solver/KeplerAs/opcode/opcode.py:109-115 | otherwise the disassembler sees the encoding with exactly bit `i` flipped, and its answer decides the outcome |
| OpcodeSolver.ExamineShape | Solver/KeplerAs/opcode/opcode.py:129-144 | a refused answer records nothing. A change is recorded only for an accepted answer that leaves more than three tokens after `Inst`, and names the original opcode, the flipped bit, and a different opcode that is not an alias of it in either order. The only error is IndexError |
| OpcodeSolver.ExamineRendered | Solver/KeplerAs/opcode/opcode.py:129-144 | on an accepted, well-formed answer, the bit is recorded exactly when the opcode differs and is not an alias; the length test never decides |
| OpcodeSolver.SweepKeeps | Solver/KeplerAs/opcode/opcode.py:107-144 | the sweep keeps every printed change genuine and `pos` equal to the set of their bits |
| OpcodeSolver.SolveConsistent | Solver/KeplerAs/opcode/opcode.py:94-147 | whether the run finishes or raises, every printed change is genuine and `pos` is exactly their bits |
| OpcodeSolver.SweepFinds | Solver/KeplerAs/opcode/opcode.py:107-144 | a sweep that does not raise adds to `pos` exactly the bits whose probe records a change |
| OpcodeSolver.LineFinds | Solver/KeplerAs/opcode/opcode.py:99-144 | a line that does not raise adds to `pos` exactly the bits its sweep records |
| OpcodeSolver.SolveFinds | Solver/KeplerAs/opcode/opcode.py:94-147 | a run that does not raise prints as `pos` exactly the bits recorded for one of the lines it handled |
| OpcodeSolver.LineGrows | Solver/KeplerAs/opcode/opcode.py:107-144 | a line only adds to `pos` and only appends changes |
| OpcodeSolver.SolveGrows | Solver/KeplerAs/opcode/opcode.py:92-144 | the shared `pos` and the printed changes only grow from one line to a later one |
| OpcodeSolver.SolveReadsPrefix | Solver/KeplerAs/opcode/opcode.py:96-98 | lines after the 99th are never read |
| OpcodeSolver.BadEncodingStops | Solver/KeplerAs/opcode/opcode.py:104-115 | a line whose encoding is negative or of 2^64 or more raises at its first probe, with nothing new found |
| OpcodeSolver.UnknownArchFindsNothing | Solver/KeplerAs/opcode/opcode.py:113-115 | with an unknown architecture nothing is found, and the first line that parses ends the run with `exit()` |
| ModifierSolver.SolveModifiers | Solver/PascalAs/modifier/modifier.py:116-210 | the main block computes `SolveMod` on the listing |
| ModifierSolver.HandleLine | Solver/PascalAs/modifier/modifier.py:120-210 | the body of the line loop computes `ModLine` |
| ModifierSolver.SweepModifiers | Solver/PascalAs/modifier/modifier.py:132-168 | the loop over the 64 bits computes `ModSweep` |
| ModifierSolver.BinaryDigits | Solver/PascalAs/modifier/modifier.py:175-179 | the `bits` list is the `k` low binary digits of `v`, lowest first |
| ModifierSolver.EnumerateVariants | Solver/PascalAs/modifier/modifier.py:174-210 | the enumeration loop computes `Enumerate` |
| ModifierSolver.EnumerateWith | Solver/PascalAs/modifier/modifier.py:174-210 | the `range(1 << len(pos))` loop, given the outcome of each pass as `Enumerated` defines it, stops at the first pass that raises and otherwise prints what every pass shows, in order |
| ModifierSolver.PassStep | Solver/PascalAs/modifier/modifier.py:175-210 | one pass of the enumeration, with its `print`, is one step of `Enumerate` |
| ModifierSolver.EnumeratePass | Solver/PascalAs/modifier/modifier.py:175-207 | one pass of the enumeration, up to its `print`, computes `Enumerated` |
| ModifierSolver.CollectOrdered | Solver/PascalAs/modifier/modifier.py:132-168 | after its first `n` passes without error, `pos` holds exactly the hits below `n`, each once, in increasing order |
| ModifierSolver.ModSweepFinds | Solver/PascalAs/modifier/modifier.py:132-168 | a sweep that does not raise reports exactly the bits whose flip keeps the opcode and changes the modifier set, in increasing order with no repeats |
| ModifierSolver.ModProbeFails | Solver/PascalAs/modifier/modifier.py:138-140 | with an unknown architecture a pass exits; a negative encoding raises ValueError; an encoding of 2^64 or more raises `struct.error` |
| ModifierSolver.ModProbeSees | Solver/PascalAs/modifier/modifier.py:134-140 | otherwise the disassembler sees the encoding with exactly bit `i` flipped, and its answer decides the outcome |
| ModifierSolver.JudgeRendered | Solver/PascalAs/modifier/modifier.py:153-168 | on a well-formed answer, a pass is a hit exactly when the answer is accepted, the opcode is the original one and the modifier set is not |
| ModifierSolver.DigitsInjective | Solver/PascalAs/modifier/modifier.py:174-179 | different values below 2^k have different digit lists |
| ModifierSolver.CandidateBit | Solver/PascalAs/modifier/modifier.py:181-184 | in the probe for `v`, a bit named in `pos` takes the digit of `v` at its place in `pos`; every other bit is that of the original encoding |
| ModifierSolver.CandidateDigit | Solver/PascalAs/modifier/modifier.py:176-184 | with `pos` increasing, bit `pos[t]` of the probe for `v` is `(v >> t) & 1` |
| ModifierSolver.CandidateRange | Solver/PascalAs/modifier/modifier.py:181-184 | every probe of the enumeration is a 64-bit value, whatever the sign and width of the encoding |
| ModifierSolver.CandidateDistinct | Solver/PascalAs/modifier/modifier.py:174-184 | different values below 2^len(pos) give different probes |
| ModifierSolver.EnumeratedSees | Solver/PascalAs/modifier/modifier.py:182-198 | an unreadable encoding raises ValueError; an unknown architecture exits; otherwise the disassembler sees exactly the probe for `v` |
| ModifierSolver.ShownWords | Solver/PascalAs/modifier/modifier.py:200-210 | a variant is printed only for an accepted answer, and it splits back into the words of the answer's instruction line less the address: at least four of them |
| ModifierSolver.ShownRendered | Solver/PascalAs/modifier/modifier.py:200-210 | an accepted, well-formed answer is always printed, and its printed line splits into the rendered instruction |
| ModifierSolver.EnumeratePrints | Solver/PascalAs/modifier/modifier.py:173-210 | the enumeration only appends to the output, at most one variant per value, so at most 2^len(pos) lines |
| ModifierSolver.EnumerateKeeps | Solver/PascalAs/modifier/modifier.py:173-210 | the enumeration keeps every report well formed |
| ModifierSolver.ModLineKeeps | Solver/PascalAs/modifier/modifier.py:170-210 | a line prints a report only with a non-empty, increasing list of bits |
| ModifierSolver.SolveModReported | Solver/PascalAs/modifier/modifier.py:116-210 | whether the run finishes or raises, every printed report lists at least one bit, each once, in increasing order |
| ModifierSolver.SolveModReadsPrefix | Solver/PascalAs/modifier/modifier.py:119-123 | lines after the 99th are never read |
| ModifierSolver.UnknownArchPrintsNothing | Solver/PascalAs/modifier/modifier.py:138-140 | with an unknown architecture nothing is printed, and the first line that parses ends the run with `exit()` |

## Left out

- The file and process work of `dump` is not modelled: writing `tmp.bin`,
  patching a container template, running `nvdisasm` or `cuobjdump`, and
  removing the file. The disassembler's answer is the `Oracle` parameter, fixed
  for a run. So the template offsets are not modelled either:
  `modifier.py` patches at byte 808 in mode 2, `opcode.py` at byte 904.
- `opcode.py`'s `dump` has no `else` branch for mode 2 with a non-Maxwell
  name, so it returns `None` there. That case cannot happen, because the mode
  comes from `check_mode` of the same name. The model uses `modifier.py`'s
  `exit()` rule for both scripts (`Disasm.HasTool`).
- Printing is modelled as values, not text:
  - `opcode.py`'s changes and final set are the `Found` record.
  - `modifier.py`'s reports and variants are the `Printed` list.
  - Python's formatting of lists and sets is not modelled.
  - The banner lines, the `print inst` of every accepted answer in
    `opcode.py`, and the unused `printInst` are left out.
- `sys.argv` and reading the listing are not modelled. The listing is a
  sequence of lines and the architecture name is a parameter.
- `Hex.ParseInt16` models `int(s, 16)` on tokens without whitespace: an
  optional sign, an optional `0x`, then hexadecimal digits. Any other form
  Python might accept, such as a trailing `L`, is not modelled.
- The unused `fname = hex(newcode)` of both scripts and the commented-out
  blocks are left out.
