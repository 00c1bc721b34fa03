# A verified model of a small MIPS32 interpreter

The program models a subset of MIPS32 in `main.py`. It keeps a register file of 32 cells, `REGS`. The cells are addressed by the name table `REGS_DICT`, which maps `zero` … `ra` to slots 0-31. Slot 30 is keyed literally as `fp/s8`.

It also keeps a program counter `PC` and an instruction memory `IM`. `IM` holds one list of tokens per source line. The program has four routines:

- `dump` loads every line after the exact line `"\t.text\n"` into `IM`, each split on whitespace.
- `decRegs` separates an instruction's opcode from its operands. It removes every `$` and `,` from each operand.
- `ex` runs one instruction through a long `if`/`elif` chain.
- `start` repeats fetch, `ex` and `PC += 1` while `PC < len(IM)`.

The model has two layers.

**The reference semantics.** This layer is a set of pure functions.
- `Semantics` defines the machine state and the effect of `ex` (`Classify`, `Perform`, `Dispatch`, `Exec`), of one loop iteration (`Step`) and of a bounded run (`Run`).
- `Loader` defines what `dump` appends.
- These functions rest on small libraries:
  - `Registers`: the name table.
  - `Text`: `str.replace`, `str.split()` and `int()`.
  - `Bits`: Python's unbounded shifts and bitwise operators, and `"{:032b}"` formatting.
- `Opcodes` and `Control` hold the lemmas that state, opcode by opcode and loop by loop, what the program does:
  - which register changes, and to what;
  - that nothing else changes;
  - how the program counter moves together with the loop's own increment.

**The interpreter as the program runs it.** Module `Interpreter` is imperative:
- A class `Machine` has the register array `regs`, `pc` and `im`, which its methods update in place.
- The loops of `decRegs`, `clo`/`clz`, `start` and `dump` are `while`/`for` loops with invariants.
- Every method is proved to agree exactly with the reference semantics:
  - On success, its new state is the one the semantics gives.
  - On failure, it reports the same error, and the registers and `pc` are unchanged.

The interpreter's quirks are modelled as the code has them:

| Quirk | What the code does |
|---|---|
| `slt`-family skip | When the comparison holds, `slt`, `sltu`, `slti` and `sltiu` add 1 to `PC`. With the loop's increment, the next line is old `PC` + 2. |
| `clz` | Counts every `0` character of the 32-wide binary text, not only the leading zeros. |
| `nor` | Computes `~a \| ~b`, which is a NAND. |
| `jr` | Continues at `ra + 1`. |
| Label line | Stores the current `PC` in `ra`, which is the line's own index when `PC` ≥ 0. |
| Negative `PC` | Fetches from the end of `IM`, as Python indexing does. |
| Register width | Registers are unbounded integers with no 32-bit wrap-around. |

Errors are values of `Outcomes.Error`:
- an `IndexError` for a missing operand or a `PC` out of range;
- a `KeyError` for an unknown register name;
- a `ValueError` for a malformed immediate or a negative shift count.

They are raised in Python's evaluation order. The right-hand side is read first, left to right, then the destination. A failing instruction therefore leaves no partial write.

## Model

| member | source | states |
|---|---|---|
| Registers.RegisterIndex | main.py:50-83 | A successful lookup gives a slot below 32 whose listed name is the key looked up. Any other name gives the `KeyError` for that name. |
| Registers.NameResolvesToSlot | main.py:50-83 | The table and the list of 32 names agree: slot i's name resolves to slot i, for every i. |
| Registers.ResolvesIffListed | main.py:50-83 | A name resolves if and only if it is one of the 32 register names. |
| Registers.FpAndS8DoNotResolve | main.py:81 | `fp` and `s8` are unknown names. Slot 30 is reachable only as `fp/s8`. |
| Registers.NamesAreBare | main.py:50-83 | No register name contains `$` or `,`, so operand cleaning never alters a name. |
| Text.Strip | main.py:95 | The cleaned operand contains no `$` and no `,`. A token with neither is returned unchanged. |
| Text.RemoveAll | main.py:95 | One `str.replace(c, '')`: the result has no c, only characters of the input, and is the input itself when c does not occur. |
| Text.StripKeepsOtherChars | main.py:95 | The two chained `replace` calls equal one left-to-right pass that drops exactly the sigils and commas and keeps every other character in order. |
| Text.SigilRoundTrip | main.py:95 | Cleaning `$name,` or `$name` gives back `name`, for any name without sigils or commas. |
| Text.StripIdempotent | main.py:95 | Cleaning a cleaned operand changes nothing. |
| Text.Split | main.py:229 | Every token `str.split()` produces is non-empty and free of whitespace. |
| Text.SplitLineRoundTrip | main.py:229 | Splitting a line written from whitespace-free words, separated by spaces and ending in a newline, gives back exactly those words. |
| Text.ParseShowRoundTrip | main.py:108 | `int()` of any integer's decimal text gives back that integer, negative numbers included. |
| Text.ParseDigits | main.py:127 | `int()` of a run of decimal digits, with or without a leading minus, is the digits' value with that sign. |
| Text.ParseInt | main.py:108 | `int()` rejects a text with the `ValueError` that carries the text. An accepted text starts with a sign or a digit and has only digits after it, and a negative value comes only from a leading `-`. |
| Bits.ShiftLeft | main.py:129 | `x << n` fails exactly when `n < 0`, with a negative-shift error. Otherwise the result is a multiple of 2^n whose quotient by 2^n is x. |
| Bits.ShiftRight | main.py:157 | `x >> n` fails exactly when `n < 0`. Otherwise the result r satisfies r·2^n ≤ x < (r+1)·2^n, which is floor division. |
| Bits.ShiftRoundTrip | main.py:150-157 | Shifting left and then right by the same count gives the value back. |
| Bits.Not | main.py:176 | `~x` has the opposite sign of x and the opposite lowest bit. |
| Bits.And | main.py:164 | `a & b` is negative exactly when both are, and lies between 0 and each non-negative operand. |
| Bits.Or | main.py:178 | `a \| b` is negative exactly when either is. For non-negative operands it is at least each operand and at most their sum. |
| Bits.Xor | main.py:185 | `a ^ b` is negative exactly when one operand is. For non-negative operands it lies between 0 and their sum. |
| Bits.BitNot | main.py:176 | `~x` flips every bit of x in infinite two's complement. |
| Bits.BitAnd | main.py:164 | Bit k of `a & b` is the conjunction of bit k of a and bit k of b. |
| Bits.BitOr | main.py:178 | Bit k of `a \| b` is the disjunction of the two bits. |
| Bits.BitXor | main.py:185 | Bit k of `a ^ b` is the exclusive or of the two bits. |
| Bits.NorIsNand | main.py:174 | The program's `~a \| ~b` equals `~(a & b)`, a NAND, for all a and b. |
| Bits.NorDiffersFromMipsNor | main.py:174 | On a = 1, b = 0 the program's `nor` gives -1 and MIPS NOR, `~(a \| b)`, gives -2. |
| Bits.Nor | main.py:174 | The program's `~a \| ~b` is negative exactly when a or b is non-negative; NorIsNand gives its value as `~(a & b)`. |
| Bits.ParseBinaryOfPadded | main.py:153 | `int(…, 2)` of a zero-filled binary text gives back the number. |
| Bits.FormatBin32 | main.py:110 | `"{:032b}"` is at least 32 characters. It starts with `-` exactly for a negative value, and every later character is a binary digit. |
| Bits.ShiftAmount | main.py:152-153 | The amount read from the last five binary characters is below 32. |
| Bits.CountOnes | main.py:110-115 | The count of `1` characters never exceeds the width of the formatted text; CountOnesIsPopCount gives its value. |
| Bits.CountZeros | main.py:117-122 | The count of `0` characters never exceeds the width of the formatted text; CountZerosOfWord gives its value on 32-bit words. |
| Bits.LastDigits | main.py:153 | The last k digits of a binary text are its value modulo 2^k. |
| Bits.ShiftAmountIsLowBits | main.py:152-153 | The shift amount `sllv`/`srav`/`srlv` read from the last five characters of `"{:032b}"` is the magnitude of the register modulo 32. This holds for negative values too, whose text carries a `-`. |
| Bits.CountOnesIsPopCount | main.py:110-115 | The count of `1` characters that `clo` computes is the number of 1 bits of the value's magnitude, for every value. |
| Bits.CountZerosOfWord | main.py:117-122 | For 0 ≤ v < 2^32 the count of `0` characters that `clz` computes is 32 minus the number of 1 bits. The two counts add up to 32. |
| Bits.AllOnesCounts | main.py:110-122 | A word with its low n bits set, n ≤ 32, has n ones and 32 − n zeros. So `clo` of 0xFFFFFFFF and `clz` of 0 are both 32. |
| Semantics.SetReg | main.py:106 | A register write changes exactly the named slot to the new value. Every other slot and the program counter stay as they were. |
| Semantics.Operands | main.py:91-97 | `decRegs` yields one operand per token after the opcode, none containing `$` or `,`. |
| Semantics.Target | main.py:106 | `REGS_DICT[params[i]]` gives a slot below 32 whose name is the operand; a missing operand is an `IndexError` and an unknown name the `KeyError` for it. |
| Semantics.Source | main.py:106 | `REGS[REGS_DICT[params[i]]]` succeeds exactly when the operand resolves, and otherwise fails with the lookup's error. |
| Semantics.Immediate | main.py:108 | `int(params[i])` succeeds exactly when the operand exists and `int()` accepts it; a missing operand is an `IndexError` and a malformed one the `ValueError` for its text. |
| Semantics.RegisterStep | main.py:104-106 | The three-register forms keep 32 registers and `PC`; the write is stated by Opcodes.RegisterForm3, AddSubWrite and BitwiseWrite. Also the branches at main.py:140-142, 163-164, 173-178 and 184-185. |
| Semantics.ImmediateStep | main.py:107-108 | The register/immediate forms keep 32 registers and `PC`; the write is stated by Opcodes.ImmediateWrite. Also the branches at main.py:165-166, 179-180 and 186-187. |
| Semantics.UnaryStep | main.py:109-133 | `move`, `negu`, `not`, `clo` and `clz` keep 32 registers and `PC`; the writes are stated by Opcodes.UnaryWrite, CountOnesWrite and CountZerosWrite. Also the `not` branch at main.py:175-176. |
| Semantics.LoadStep | main.py:126-129 | `li`/`lui` keep 32 registers and `PC`; the write is stated by Opcodes.LoadImmediateWrite. |
| Semantics.ShiftImmediateStep | main.py:149-157 | The corrected `sll`/`sra`/`srl` keep 32 registers and `PC`; the write is stated by Opcodes.ShiftImmediateWrite. |
| Semantics.ShiftRegisterStep | main.py:151-162 | `sllv`/`srav`/`srlv` keep 32 registers and `PC`; the write is stated by Opcodes.ShiftVariableWrite. |
| Semantics.MoveIfStep | main.py:188-193 | `movn`/`movz` keep 32 registers and `PC`; when the move happens is stated by Opcodes.ConditionalMove. |
| Semantics.SetLessStep | main.py:194-207 | The compare succeeds exactly when the destination resolves. It then writes 1 and adds 1 to `PC` when a < b, and otherwise writes 0 and leaves `PC`. |
| Semantics.Classify | main.py:102-211 | Only an opcode ending in `:` is a label. Each branch of the chain is reached only by the mnemonics it tests. |
| Semantics.Perform | main.py:102-211 | Every branch writes at most one register. Label, `jr`, reserved and unknown opcodes never fail, and reserved and unknown ones change nothing. Only the `slt` family and `jr` move `PC`, the `slt` family by at most one. |
| Semantics.Dispatch | main.py:99-211 | An empty opcode is an `IndexError`. Otherwise at most one register changes, and `PC` stays unless the opcode is `jr` or of the `slt` family. |
| Semantics.Exec | main.py:99-211 | `ex` succeeds only on a line with a non-empty opcode, writes at most one register, and leaves `PC` unless the opcode is `jr` or of the `slt` family. |
| Semantics.Fetch | main.py:216 | `IM[PC]` succeeds exactly when -len(IM) ≤ `PC` < len(IM), and then yields one of the program's lines. Otherwise it is an `IndexError`. |
| Semantics.Step | main.py:216-218 | A `PC` outside -len(IM) ≤ `PC` < len(IM) makes the iteration fail with an `IndexError`. A successful iteration keeps 32 registers. |
| Semantics.Run | main.py:213-218 | A run that finishes has `PC ≥ len(IM)`. A run that uses up its iteration bound stops with `PC < len(IM)`. The register file keeps 32 cells. |
| Loader.NothingWithoutMarker | main.py:220-230 | A listing without the line `"\t.text\n"` loads nothing. |
| Loader.Loaded | main.py:220-230 | `dump` appends at most one instruction per line, and strictly fewer instructions than lines once the marker is present, since the marker line itself is never loaded. |
| Loader.LoadedAfterMarker | main.py:220-230 | Everything before the first marker line is dropped. Every later line except further marker lines is appended in order, split on whitespace. |
| Loader.LoadedTokensAreWords | main.py:229-230 | Every token of every loaded instruction is non-empty and free of whitespace. |
| Opcodes.SigilOperandResolves | main.py:95 | A register written `$name,` or `$name` in a listing resolves, after cleaning, to that register's slot. |
| Opcodes.LabelCapturesPc | main.py:102-103 | An opcode ending in `:` sets `ra` to the current `PC` and changes nothing else, whatever operands follow. |
| Opcodes.RegisterForm3 | main.py:104-106 | A three-register form writes `a op b` to the first operand's slot exactly when all three operands exist and resolve. Otherwise it fails with an `IndexError` or with the `KeyError` of one of its first three operands. |
| Opcodes.AddSubWrite | main.py:104-106 | `add`/`addu` write the exact sum of the two sources and `sub`/`subu` the exact difference, with no wrap-around. Only the destination changes. |
| Opcodes.BitwiseWrite | main.py:163-185 | `and`, `or` and `xor` write the bitwise combination of their sources. `nor` writes `~(a & b)`. Only the destination changes. |
| Opcodes.RegisterOpcodeNeedsRegisters | main.py:104-106 | A three-register opcode with a missing operand, or an operand that names no register, fails. |
| Opcodes.UnaryFails | main.py:109-133 | `move`, `negu`, `not`, `clo` and `clz` fail if and only if the source or the destination is missing or names no register. The source is read first, so its error wins. |
| Opcodes.LoadFails | main.py:126-129 | `li`/`lui` fail if and only if the immediate is missing or malformed or the destination does not resolve. A missing immediate is an `IndexError` and a malformed one the `ValueError` for its text. |
| Opcodes.ImmediateFails | main.py:107-108 | A register/immediate form fails if and only if the source, the immediate or the destination is missing or bad. A bad source is reported first. |
| Opcodes.ShiftImmediateFails | main.py:149-157 | `sll`/`sra`/`srl` fail if and only if an operand is missing or bad or the count is negative. A bad source is reported first. |
| Opcodes.ShiftRegisterFails | main.py:151-162 | `sllv`/`srav`/`srlv` fail if and only if one of the three registers does not resolve. The count register is read first, so its error wins. |
| Opcodes.MoveIfFails | main.py:188-193 | `movn`/`movz` fail if and only if the test register does not resolve, or the move is taken and the source or the destination does not. |
| Opcodes.SetLessFails | main.py:194-200 | `slt`/`sltu` fail if and only if one of the three registers does not resolve, with the first source's error first. |
| Opcodes.SetLessImmediateFails | main.py:201-207 | `slti`/`sltiu` fail if and only if the source, the immediate or the destination is missing or bad. |
| Opcodes.ImmediateWrite | main.py:107-108 | `addi`/`addiu` write source + immediate. `andi`, `ori` and `xori` combine the source bitwise with the immediate. Only the destination changes. |
| Opcodes.MalformedImmediateFails | main.py:107-207 | An immediate that `int()` rejects stops every immediate-taking opcode with the `ValueError` for that text. For `li`/`lui` the immediate is `params[1]`; for `addi`, `addiu`, `andi`, `ori`, `xori`, `slti`, `sltiu`, `sll`, `sra` and `srl` it is `params[2]`, once the source register has been read. |
| Opcodes.LoadImmediateWrite | main.py:126-129 | `li` writes N and `lui` writes N << 16, that is N·65536. Only the destination changes. |
| Opcodes.UnaryWrite | main.py:130-133 | `move` copies the source, `negu` writes its negation and `not` writes `-a - 1`. Only the destination changes. |
| Opcodes.CountOnesWrite | main.py:109-115 | `clo` writes the number of 1 bits of the source's magnitude. Only the destination changes. |
| Opcodes.CountZerosWrite | main.py:116-122 | For a source 0 ≤ v < 2^32, `clz` writes 32 minus its number of 1 bits, which counts all zero bits and not only the leading ones. |
| Opcodes.ShiftImmediateWrite | main.py:149-157 | `sll` multiplies by 2^n and `sra`/`srl` floor-divide by 2^n for a literal count n ≥ 0. A negative count fails with the negative-shift error. |
| Opcodes.ShiftVariableWrite | main.py:151-162 | `sllv` multiplies and `srav`/`srlv` floor-divide by 2 to the power of the count register's magnitude modulo 32. |
| Opcodes.ConditionalMove | main.py:188-193 | `movn` copies when the test register is non-zero and `movz` when it is zero. Otherwise the state is unchanged and the other operands are not read. |
| Opcodes.SetLessThan | main.py:194-200 | `slt`/`sltu` write 1 and add 1 to `PC` when rs < rt. Otherwise they write 0 and leave `PC`. |
| Opcodes.SetLessThanImmediate | main.py:201-207 | `slti`/`sltiu` do the same against `int(params[2])`. |
| Opcodes.JumpRegisterSetsPc | main.py:208-209 | `jr` sets `PC` to `ra`, leaves every register unchanged and ignores its operand. |
| Opcodes.UnrecognizedIffUnknown | main.py:99-211 | An opcode that is not a label reaches the final `else` if and only if it is none of the 41 recognised mnemonics. |
| Opcodes.ReservedDoNothing | main.py:123-183 | `la`, `seb`, `seh`, `rotr`, `rotrv`, `ext`, `ins` and `wsbh` change nothing and never fail, whatever their operands. |
| Opcodes.UnknownDoesNothing | main.py:210-211 | Any opcode the chain does not know changes nothing and never fails. |
| Control.FetchIsModular | main.py:216 | `IM[PC]` succeeds exactly when -len(IM) ≤ `PC` < len(IM), and then fetches the line at `PC` modulo len(IM). Otherwise it is an `IndexError`. |
| Control.LabelStep | main.py:102-103 | One loop iteration on a label line with `PC` ≥ 0 stores the line's index in `ra` and moves to the next line. |
| Control.JumpRegisterStep | main.py:208-209 | One loop iteration on `jr` continues at `ra + 1`, with the registers unchanged. |
| Control.SetLessSkips | main.py:194-200 | One loop iteration on `slt`/`sltu` moves `PC` by 2 when the comparison holds and by 1 otherwise, and writes 1 or 0. |
| Control.SetLessImmediateSkips | main.py:201-207 | One loop iteration on `slti`/`sltiu` moves `PC` by 2 when the source is below the immediate and by 1 otherwise, and writes 1 or 0. |
| Control.StepEffect | main.py:215-218 | One loop iteration writes at most one register and fails on an empty line. Unless the opcode is `jr` or of the `slt` family it moves `PC` to the next line. |
| Control.NoOpStep | main.py:210-211 | One loop iteration on a reserved or unknown opcode moves `PC` by exactly 1 and changes no register. |
| Control.RunSplit | main.py:215-218 | Running for a + b iterations is running for a, then running b more from where the first run stopped if it ran out. |
| Control.RunMoreFuel | main.py:215-218 | Once a run halts, by finishing or by an error, more iterations do not change its outcome. |
| Control.LabelLoopNeverEnds | main.py:102-103 | The program `L:` followed by `jr` never leaves the loop, whatever the iteration bound. |
| Control.JumpLoopNeverEnds | main.py:208-209 | From `jr` with `ra` = 0, the program `L:` / `jr` keeps returning to `jr` and never finishes. |
| Scenarios.SumListingLoads | main.py:220-230 | The listing of `li`/`li`/`add` loads back as exactly those three token lists, for any registers and any immediates. The data directive before the marker is dropped. |
| Scenarios.SyscallIsSkipped | main.py:210-211 | `syscall` does not fail, changes no register and advances `PC` by exactly one. |
| Interpreter.DecRegs | main.py:91-97 | The opcode is the first token unchanged. The operands are the remaining tokens, in order, each cleaned. An empty line is an `IndexError`. |
| Interpreter.CountChar | main.py:111-114 | The counting loop returns the number of occurrences of the character. |
| Interpreter.UnaryValue | main.py:109-133 | The value `move`, `negu`, `not`, `clo` and `clz` write, the counts computed by the counting loops, is the reference value of the one-source form. |
| Interpreter.Machine.constructor | main.py:48-89 | The initial machine has 32 zero registers, `PC = 0` and an empty `IM`. |
| Interpreter.Machine.Read | main.py:106 | Reading operand i succeeds exactly when the operand exists and is a key of the register table, and then gives that register's cell. A missing operand is an `IndexError`; an unknown name is the `KeyError` for that name. |
| Interpreter.Machine.ExRegister | main.py:104-106 | The in-place three-register form agrees with the reference semantics: same new state on success, same error and no change on failure. |
| Interpreter.Machine.ExImmediate | main.py:107-108 | The in-place register/immediate form agrees with the reference semantics. |
| Interpreter.Machine.ExUnary | main.py:109-133 | `move`, `negu`, `not` and the `clo`/`clz` counting loops agree with the reference semantics. |
| Interpreter.Machine.ExLoad | main.py:126-129 | `li`/`lui` in place agree with the reference semantics. |
| Interpreter.Machine.ExShiftImmediate | main.py:149-157 | The literal-count shifts in place agree with the reference semantics. |
| Interpreter.Machine.LowFiveDigits | main.py:152-153 | The value of the last five characters of the binary text is the magnitude of the register modulo 32, for negative values too. |
| Interpreter.Machine.ExShiftRegister | main.py:151-162 | The register-count shifts in place agree with the reference semantics. |
| Interpreter.Machine.ExMoveIf | main.py:188-193 | `movn`/`movz` in place agree with the reference semantics. |
| Interpreter.Machine.ExSetLess | main.py:194-207 | The `slt` family in place, including its extra `PC += 1`, agrees with the reference semantics. |
| Interpreter.Machine.ExForm | main.py:102-211 | Every branch of the chain agrees with the reference semantics of its instruction class. |
| Interpreter.Machine.Ex | main.py:99-211 | `ex(inst)` changes the registers and `PC` exactly as the reference semantics does. An error leaves them untouched. |
| Interpreter.Machine.Cycle | main.py:216-218 | One loop body, fetch, `ex` and then `PC += 1`, agrees with the reference semantics' step. |
| Interpreter.Machine.Start | main.py:213-218 | The loop, bounded by a number of iterations, ends in the state and with the outcome of the reference run. |
| Interpreter.Machine.Dump | main.py:220-230 | The loop appends to `IM` exactly what the reference loader gives for the lines. |
| Findings.ShiftImmediateAsWritten | main.py:149-157 | As written, `sll`/`sra`/`srl` always fail. They either fail on their operands or raise a type error on the floating-point cell. |
| Findings.AsWrittenShiftFails | main.py:149-157 | With valid operands and a count ≥ 0, the as-written shift fails where the integer shift of the model succeeds. |
| Findings.ShiftLeftByTwoCounterexample | main.py:150 | On `sll $t0, $t1, 2` with all registers zero, the as-written form fails and the corrected form writes 0 to `t0`. |

## Left out

- Register storage: the registers are a numpy `float64` array. The model stores unbounded integers.
  - Precision loss above 2^53 is not modelled.
  - The `int()` conversions of cells are therefore the identity.
  - Two overflow errors of the float cells are not modelled. First, storing an integer of magnitude 2^1024 or more raises `OverflowError`, for example `li`/`lui` with a 309-digit immediate (main.py:127, 129); the model stores the exact value and succeeds. Second, `add`/`sub`/`addi` on cells near 1.8e308 give `inf` (main.py:106, 108, 142), and a later `int()` of that cell raises `OverflowError` in `negu`, `clo`, `clz`, `sllv`, `srav`, `srlv`, the bitwise forms and `jr` (main.py:110, 117, 133, 152-162, 164-187, 209); the model computes exact integers there.
  - The type error of the literal-count shifts `sll`/`sra`/`srl` on a float cell is reported under Findings.
- Some program text is output only:
  - the `__main__` block (file opening, `sys.argv`, the register dump);
  - the "Program started" print in `dump`.
- `dump` is modelled over the sequence of lines the file iterator yields, each with its newline kept.
- Text.ParseInt covers the common form of `int()` only: an optional sign and ASCII decimal digits. Surrounding whitespace, `_` separators and non-ASCII digits, which Python also accepts, are not modelled. Such texts are treated as malformed.
- Interpreter.Machine.Start runs for at most a given number of iterations, because `start` need not terminate: `Control.LabelLoopNeverEnds` exhibits a program that loops forever. The result says whether the loop finished, crashed or used up the bound.
- Opcodes.CountZerosWrite is stated for 0 ≤ v < 2^32 only. Outside that range the formatted text is wider or signed. The reference semantics and the interpreter still count its `0` characters exactly; only the closed-form count is left unstated.
- Memory errors and Python's `OverflowError` for astronomically large shift counts are not modelled. A shift by any non-negative count succeeds in the model.
- The end-to-end run of the `li`/`li`/`add` listing is not proved as one lemma, because the combined proof over symbolic register names exceeds the solver budget. Its loading is proved (`Scenarios.SumListingLoads`), and so is the effect of each of its instructions (`Opcodes.LoadImmediateWrite`, `Opcodes.AddSubWrite`).
- The model follows the code, including where it departs from MIPS32 conventions:
  - Registers are not 32-bit: nothing wraps.
  - `decRegs` removes every `$` and `,`, not only a leading sigil and a trailing comma.
  - The code-section marker must match the whole line, including its newline. Later marker lines are skipped rather than loaded.
  - `"{:032b}"` of a negative value is written with a `-` sign and 31 digits, not in two's complement.

## Findings

| source | as written | input that shows it | evidently intended | confidence | as-written member | corrected member |
|---|---|---|---|---|---|---|
| main.py:150, main.py:157 | `sll`, `sra` and `srl` apply `<<`/`>>` to the register cell itself, a numpy `float64`, which raises a `TypeError`. `sllv`, `srav` and `srlv` wrap the cell in `int()` first. | `sll $t0, $t1, 2` | An integer shift of `int(REGS[…])` by the literal count, as the variable-count forms do | not executed | Findings.ShiftImmediateAsWritten | Opcodes.ShiftImmediateWrite |
