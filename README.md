# Hack assembler — a verified model

This project models a two-pass assembler for the Hack machine language. The Hack machine is the 16-bit computer of *The Elements of Computing Systems*. The assembler reads a `.asm` program line by line and writes one line of sixteen binary digits per instruction.

- **A-instruction** (`@value`): the operand is a decimal literal, a label or a variable.
- **C-instruction** (`dest=comp;jump`): three fields, each encoded by its own table.
- **Label declaration** (`(NAME)`): names the ROM address of the next instruction.

The model has four parts, matching the program's crates:

| file | module | models | form |
|---|---|---|---|
| `code.dfy` | `Code` | `Code::dest`, `Code::comp`, `Code::jump` | pure functions and lemmas |
| `symbol_table.dfy` | `SymbolTable` | `SymbolTable` and its four methods | a class whose `entries` map the methods update |
| `parser.dfy` | `Parser` | the parser: `advance` and the field extractors | a class with a cursor, an `Advance` loop and pure field functions |
| `assembler.dfy` | `Assembler` | `first_pass`, `second_pass`, `hack_assembler`, `format_16bit_binary_string` | loop methods over the parser, proved against folds |

`strings.dfy` holds the `str` operations the source calls: `starts_with`, `ends_with`, `contains`, `split` on a set of characters, `filter` and `{:016b}`. It also holds an `Option` type.

The file is given as the sequence of its lines, and the output as the sequence of words, each ending in `\n`.

Each pass is a `while` loop over the parser, proved equal to a fold over the program's instructions:

- `Assembler.FirstPass` ends with the table `Pass1(Instructions(lines), m)`.
- `Assembler.SecondPass` ends with the table `Pass2(...)` and returns exactly `Encode(Instructions(lines), final table)`.
- `Encode` is the reference translation: every A- and C-instruction, in order, as its word under the final table.

The folds carry the properties as lemmas:

- Each label is bound to the ROM address after it.
- The first pass binds nothing but labels.
- The second pass keeps every binding it starts with and gives the k-th new variable address 16 + k.
- After the second pass every name the program uses is bound.
- Binary words and decimal literals round-trip.
- The `comp` heuristic reproduces the whole Hack computation table.
- Changing A to M in a mnemonic changes only the a bit.

Where the code and the documented Hack language disagree, the model follows the code:

- **A C-instruction must hold `;`.** `instruction_type` classifies a line as C only when it contains `;` and panics on any other line. So `D=A` is not a valid instruction here, although Hack allows it. The driver's test `test_second_pass` feeds such a line (`Assembler.AssignmentWithoutJump`).
- **`comp` is not a table lookup.** Except for `0`, `1` and `-1`, it derives each bit from which characters and character pairs occur in the mnemonic. The model keeps that heuristic and proves that it yields the standard code for all 28 standard mnemonics.
- **The code of `1` is shared.** The codes of `0` and `-1` come from those mnemonics alone. But the bit heuristic also gives `+1` (and `!+`) the code `0111111` of `1`.
- **`jump` encodes any text other than the seven mnemonics as `000`.**
- **`dest` looks only at which of `A`, `D`, `M` occur**, in any order.
- **A label may rebind a predefined symbol.** `add_entry` overwrites. A later declaration of the same label wins.
- **A numeric operand is whatever `parse::<u16>` accepts:** an optional `+`, one or more ASCII digits, value at most 65535. `@65535` is therefore written as `1111111111111111`.

## Model

| member | source | states |
|---|---|---|
| Code.Dest | code/src/lib.rs:14-22 | the dest field is three binary digits, one per register: the first is 1 iff the mnemonic holds A, the second iff D, the third iff M |
| Code.DestSelects | code/src/lib.rs:14-22 | the three dest bits select exactly the registers among A, D, M whose letters occur in the mnemonic |
| Code.DestOrderIndependent | code/src/lib.rs:14-22 | two mnemonics naming the same registers get the same dest bits, whatever the order of the letters |
| Code.DestTable | code/src/lib.rs:117-127 | the dest table of the unit test, plus `null` and the empty field as 000, and `MD`, `AMD` as their reorderings |
| Code.Comp | code/src/lib.rs:23-86 | the comp field is always seven binary digits |
| Code.CompBits | code/src/lib.rs:63-83 | for every mnemonic but the three constants, each of the seven bits is a plain condition on the mnemonic's characters and tokens |
| Code.CompAt | code/src/lib.rs:63-83 | bit by bit: a = M present, zx = D absent, nx/ny/no = the source's `any` over its token lists, zy = neither A nor M, f = `+` or `-` present |
| Code.CompShort | code/src/lib.rs:63-83 | for mnemonics of up to three characters, every token test reduces to adjacent characters |
| Code.CompSwapAM | code/src/lib.rs:63-83 | replacing A by M in a mnemonic without M sets the a bit from 0 to 1 and leaves all six ALU bits unchanged |
| Code.CompZeroUnique | code/src/lib.rs:25-29 | a mnemonic gets `0101010` exactly when it is `0`: without D the heuristic sets zx and nx together, which that code has apart |
| Code.CompMinusOneUnique | code/src/lib.rs:25-29 | a mnemonic gets `0111010` exactly when it is `-1`: without A and M the heuristic sets zy and ny together, which that code has apart |
| Code.CompOneShared | code/src/lib.rs:25-29 | the code `0111111` of `1` is not unique: `+1` and `!+` also get it, from the bit rules of lines 63-83 |
| Code.CompMatchesHackTable | code/src/lib.rs:130-163 | all 28 comp mnemonics of the Hack table get their standard seven bits |
| Code.Jump | code/src/lib.rs:87-98 | the jump field is always three bits |
| Code.JumpCodes | code/src/lib.rs:87-98 | the k-th of JGT, JEQ, JGE, JLT, JNE, JLE, JMP is encoded as k in three binary digits |
| Code.JumpFallback | code/src/lib.rs:87-98 | a field gets 000 exactly when it is not one of the seven mnemonics; `null` and the empty field both get 000 |
| SymbolTable.SymbolTable.constructor | symbol_table/src/lib.rs:9-38 | a new table holds exactly the 23 predefined entries |
| SymbolTable.PredefinedRegisters | symbol_table/src/lib.rs:12-27 | R0 to R15 are bound to addresses 0 to 15 |
| SymbolTable.PredefinedPointers | symbol_table/src/lib.rs:29-35 | SP, LCL, ARG, THIS and THAT are bound to 0 to 4; SCREEN to 16384; KBD to 24576 |
| SymbolTable.PredefinedKeys | symbol_table/src/lib.rs:9-38 | a new table binds the 23 predefined names and nothing else |
| SymbolTable.SymbolTable.AddEntry | symbol_table/src/lib.rs:40-43 | the symbol is bound to the address, replacing any earlier binding; every other binding is unchanged |
| SymbolTable.AddEntryIdempotent | symbol_table/src/lib.rs:40-43 | adding the same binding twice leaves the table as adding it once |
| SymbolTable.SymbolTable.Contains | symbol_table/src/lib.rs:45-47 | true exactly when the symbol is bound |
| SymbolTable.SymbolTable.GetAddress | symbol_table/src/lib.rs:49-51 | the address the symbol is bound to; an unbound symbol is a caller error (the source unwraps) |
| SymbolTable.FreshNameUnbound | symbol_table/src/lib.rs:58-66 | a name outside the predefined set is unbound in a new table |
| SymbolTable.AddThenLookup | symbol_table/src/lib.rs:58-66 | after binding `sum` to 5, `sum` is found at 5 and `empty` is still unbound |
| Parser.Parser.constructor | parser/src/lib.rs:26-31 | a new parser has read nothing and holds no instruction |
| Parser.Parser.HasMoreLines | parser/src/lib.rs:33-35 | true exactly when some line is still unread |
| Parser.NextInstruction | parser/src/lib.rs:37-51 | the first line at or after the cursor that is neither blank nor a comment; every line before it is skippable |
| Parser.Parser.Advance | parser/src/lib.rs:37-51 | makes the next non-blank, non-comment line current and moves past it; if only skippable lines remain, consumes them and leaves no instruction; at end of file, changes nothing |
| Parser.InstructionTypeOf | parser/src/lib.rs:53-73 | A exactly for lines starting with `@`; else L exactly for `(`…`)`; else C, which requires a `;`; no instruction, no type |
| Parser.Symbol | parser/src/lib.rs:75-95 | no symbol exactly for C-instructions; an A symbol has no `@`; a label has no parentheses |
| Parser.SymbolOfA | parser/src/lib.rs:75-84 | `@s` gives back `s` when `s` has no `@` |
| Parser.SymbolOfLabel | parser/src/lib.rs:85-92 | `(s)` gives back `s` when `s` has no parentheses |
| Parser.Dest | parser/src/lib.rs:97-113 | a dest field exists exactly for a C-instruction holding `=`, and contains no `=` |
| Parser.Comp | parser/src/lib.rs:115-144 | every C-instruction has a comp field, and it contains no separator |
| Parser.Jump | parser/src/lib.rs:146-175 | every C-instruction has a jump field, and it contains no `;` |
| Parser.FieldsOfAssignment | parser/src/lib.rs:97-175 | `d=c;j` with separator-free fields is a C-instruction whose dest, comp and jump are exactly d, c, j |
| Parser.FieldsOfJump | parser/src/lib.rs:115-175 | `c;j` is a C-instruction with no dest, comp c and jump j |
| Parser.FieldsRejoin | parser/src/lib.rs:130-169 | a `comp;jump` line with one `;` and no `=` is its comp and jump fields rejoined |
| Parser.SampleReading | parser/src/lib.rs:232-255 | on the test file, `advance` stops at `@123`, then at `(START)` past the comment and blank line, then at `D;JGT` |
| Parser.SampleTypes | parser/src/lib.rs:257-281 | the test's instructions are typed A, L and C |
| Parser.SampleAssignment | parser/src/lib.rs:316-319 | `D=D+1;JLE` has dest `D`, comp `D+1`, jump `JLE` |
| Parser.SampleDoubleDest | parser/src/lib.rs:321-324 | the test's second C-instruction (D or A into DM, jump if less) has dest `DM`, comp D-or-A and jump `JLT` |
| Parser.SampleNoDest | parser/src/lib.rs:326-329 | `D&A;JMP` has no dest, comp `D&A`, jump `JMP` |
| Assembler.InstructionsAppend | parser/src/lib.rs:37-51 | the instructions of a file read in two parts are the instructions of each part, in order |
| Assembler.AdvanceReads | parser/src/lib.rs:37-51 | one `advance` adds exactly the next instruction to those read so far, or none at end of file |
| Assembler.InstructionsPrefix | parser/src/lib.rs:37-51 | the instructions read so far are a prefix of all of the file's instructions |
| Assembler.ReadNext | src/bin/main.rs:40-41 | after one `advance` inside a pass, the read instructions grow by the current one, which is the next instruction of the file |
| Assembler.RowCountPrefix | src/bin/main.rs:36-58 | a prefix of the program has no more A- and C-instructions than the whole |
| Assembler.LabelAddress | src/bin/main.rs:36-58 | after the first pass, a label's last declaration binds it to the number of A- and C-instructions before it |
| Assembler.Pass1KeepsOthers | src/bin/main.rs:36-58 | the first pass leaves every name that is not a declared label exactly as it was, bound or not |
| Assembler.Pass1Snoc | src/bin/main.rs:42-50 | one more instruction: a label is bound to the current row count; any other instruction adds one to the count |
| Assembler.FirstPass | src/bin/main.rs:36-58 | the loop over the parser leaves the table equal to the first-pass fold over the file's instructions |
| Assembler.DecimalRoundTrip | src/bin/main.rs:80 | reading a decimal numeral gives its number back |
| Assembler.LiteralRoundTrip | src/bin/main.rs:80 | every 16-bit number written in decimal is a `u16` literal denoting itself |
| Assembler.Format16 | src/bin/main.rs:123-125 | sixteen binary digits, then a newline |
| Assembler.Format16RoundTrip | src/bin/main.rs:123-125 | the sixteen digits read back as the number, so distinct addresses give distinct words |
| Strings.BinaryRoundTrip | src/bin/main.rs:123-125 | `width` binary digits are exact for every value below 2^width |
| Assembler.CWord | src/bin/main.rs:101-110 | a C-word is 17 characters: `111` first and a newline last |
| Assembler.CWordBits | src/bin/main.rs:101-110 | the first sixteen characters of a C-word are binary digits: `111`, seven comp bits, three dest bits, three jump bits |
| Assembler.Pass2Prefix | src/bin/main.rs:60-121 | a second pass that does not panic did not panic on any prefix of the program |
| Assembler.FirstUses | src/bin/main.rs:86-97 | the program's variables, in order of first use: unbound at the start and each listed once |
| Assembler.Pass2Allocates | src/bin/main.rs:86-97 | the second pass keeps every initial binding, binds the k-th new variable to 16 + k, binds nothing else, and ends its counter at 16 + the number of variables |
| Assembler.Pass2Extends | src/bin/main.rs:60-121 | the second pass only adds bindings |
| Assembler.Pass2Binds | src/bin/main.rs:86-97 | after the second pass every name an A-instruction uses is bound |
| Assembler.Step2 | src/bin/main.rs:86-97 | one instruction only adds bindings and binds the name it uses; an unbound name is bound to the counter, which moves on by one, and binding one at 65535 is the `u16` overflow panic (no state); any other instruction changes nothing |
| Assembler.EncodeStable | src/bin/main.rs:86-97 | the translation does not depend on bindings the program does not use |
| Assembler.Encode | src/bin/main.rs:74-118 | the reference translation has exactly one word per A- and C-instruction |
| Assembler.Pass2Round | src/bin/main.rs:76-113 | one more instruction in the second pass: no panic, and the words so far plus its word make the translation of the instructions read |
| Assembler.WriteInstruction | src/bin/main.rs:76-113 | a literal is written as itself; a bound name as its address; an unbound name is bound to the next variable address, written, and the counter advanced; a C-instruction as its C-word; a label as nothing |
| Assembler.SecondPass | src/bin/main.rs:60-121 | the loop leaves the table equal to the second-pass fold, and returns exactly the reference translation under that final table |
| Assembler.Assemble | src/bin/main.rs:25-34 | predefined table, first pass, second pass: the words are the translation under the final table, one per A- and C-instruction |
| Assembler.FirstPassSample | src/bin/main.rs:172-185 | on the test file, START is bound to 0, LOOP to 1, and STOP and END both to 2 |
| Assembler.AssembleSample | src/bin/main.rs:155-170 | `@40` and `DM=A+1;JNE` assemble to `0000000000101000` and `1110110111011101` |
| Assembler.AssignmentWithoutJump | src/bin/main.rs:187-201 | the line `D=A` of the second-pass test is an instruction that `instruction_type` cannot classify, so no program holding it is valid |

## Left out

- File I/O is not modelled. This covers opening and reading the `.asm` file and creating and writing the `.hack` file and its path (`file_stem`, `parent`, `join`). The model takes the file as its lines and returns the words; `Assemble` returns them instead of a path.
- The command-line front end is not modelled: `main`, `Arg`, clap and the `println!` of the output path.
- `anyhow` errors are not modelled. Every `Result` the core returns is `Ok`, except I/O errors, which are out of scope.
- A line that is not valid UTF-8 is not modelled. There `lines()` yields `Err` and `advance` treats it like a blank line. Lines are Dafny strings.
- The model assumes the lines are already split. `lines()` splitting at `\n` and dropping a trailing `\r` is not modelled.
- Panics are preconditions or `None`:
  - `instruction_type` on a line it cannot classify is excluded by the precondition `ValidProgram`.
  - `get_address` on an unbound name is excluded by its requires.
  - The `u16` row counter of the first pass overflowing is excluded by `RowCount < 65536`.
  - The variable counter of the second pass overflowing makes `Pass2` give `None`, which `SecondPass` requires away.
- The release-build wrap-around of these `u16` counters is not modelled, because a debug build panics there.
- `second_pass` passes `Option<String>` where `Code::dest`, `Code::comp` and `Code::jump` take `&str`, which does not type-check as written. The model passes an absent field as the empty mnemonic, which encodes as `000` for dest and jump.
- Assembler.FirstPass: the `if !has_more_lines() { break }` at the end of each pass's loop body is folded into the loop condition. This is equivalent, because the condition is tested again right there.
- Parser.Parser.HasMoreLines: a non-empty `fill_buf` is modelled as "some line is still unread" (`cursor < |lines|`). Mid-line buffering is not modelled.
- Assembler.AssignmentWithoutJump: `test_second_pass` expects END at 3 after a `D=A` line. As written, the code panics on that line, so the model proves the line is rejected rather than the test's expectations.
- The `playground` tests are not modelled, because they test the standard library rather than the assembler.
