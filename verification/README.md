# A model of the core of `mips_rust_int`

`mips_rust_int` is a small MIPS interpreter written in Rust. This project
models its core in Dafny:

- **Instruction catalogue** (`src/instruction.rs`): the `OP_*` bit patterns
  of the MIPS instructions and the two field masks. `OPName::from` maps a
  mnemonic to its pattern, and 0 stands for "not an instruction".
- **Instruction names** (`src/mips_int/instruction.rs`): the `OPName` enum,
  its case-insensitive parser, and the `Instruction` record with its empty
  constructor.
- **Registers** (`src/mips_int/Register.rs`): the register names (`R0`..`R31`,
  the calling-convention aliases `ZERO`..`RA`, and `PC`, `HI`, `LO`). It covers
  parsing a name (`str_to_enum`), its label (`to_str`), mapping an alias to
  its general register (`register_align`), the slot index of a name
  (`idx_from_enum`), and the `Register` value with its display string.
- **The interpreter** (`src/mips_int.rs`), a class whose methods update
  the register file, the program counter, the loaded program and the label
  table in place. It covers:
  - the one-step executor `process_line`, with `add` and `j`;
  - the byte helpers used by the data-section directives;
  - the assembler-like loader `load_program`, with its three phases
    (variable definitions, data section, code section);
  - the program listing and the register display.

The modules follow the source files:

| module | file | models |
|---|---|---|
| `Opcodes` | `opcodes.dfy` | `src/instruction.rs` |
| `Mnemonics` | `mnemonics.dfy` | `src/mips_int/instruction.rs` |
| `Registers` | `registers.dfy` | `src/mips_int/Register.rs` |
| `LineBytes` | `bytes.dfy` | the byte helpers of `src/mips_int.rs` |
| `Machine` | `machine.dfy` | decoding and one step of `src/mips_int.rs` |
| `Loader` | `loader.dfy` | the loading loop of `load_program`, one line at a time |
| `Interpreter` | `interpreter.dfy` | the `MipsInterpreter` struct and its methods |

Two supporting modules have no counterpart in the repository:

- `RustStd` (`text.dfy`) models the parts of Rust's standard library and of
  the `regex` crate that the core relies on: trimming, splitting on
  `[=\s]+`, `lines()`, decimal formatting and parsing, and the `as` casts.
- `Bits` (`bits.dfy`) defines `&`, `|` and the shifts on natural numbers.

Each state-changing method of `MipsInterpreter` is proved against a
value-level definition: `ProcessLine` against `Machine.Step`, and
`LoadProgram` against `Loader.Load`. The properties proved about those
definitions therefore describe the interpreter. Among them:

- decoding an encoded `add` or `j` word and executing it;
- every mnemonic round-trips through its parser;
- every name `str_to_enum` recognises (`R1`–`R31`, `T0`–`T9`, `S0`–`S7`,
  `PC`, `HI`, `LO`) round-trips through it;
- the program listing reads back to the program;
- the loader keeps the layout of the data section consistent.

The model follows the source as written, including where it behaves
surprisingly, and states those behaviours as lemmas:

- **Bytes are and-ed, not or-ed.** `add_byte_to_line` ands a byte into a
  word. So every byte that `.word` and `.halfword` store into a fresh word
  leaves it zero (`Loader.WordStoredAsZero`).
- **Aliases display the zero register.** `idx_from_enum` sends every alias
  to slot 0, so `display_register` on an alias shows `R0`
  (`Interpreter.AliasShowsZeroRegister`).
- **`.asciiz` is never reached.** `.ascii` comes first in the chain of prefixes, and every
  `.asciiz` line also starts with `.ascii` (`Loader.AsciiIgnored`).
- **`load_program` always fails.** Labels are stored under the whole line,
  colon included. The entry lookup is for the key `main`, so it never
  succeeds. The labels are also kept in a local table rather than in the
  interpreter (`Loader.LoadNeverSucceeds`).
- **`.space` does not round up.** Only completed words are pushed, so
  `.space 10` from the start of the data section gives two zero words and
  leaves the last two bytes in a word that is never pushed
  (`Loader.SpaceTen`). The unit test in `src/unit_tests.rs` expects three
  words there.

## Model

| member | source | states |
|---|---|---|
| Opcodes.OpFrom | src/instruction.rs:113-166 | `OPName::from`: each result sets only one opcode field, either a multiple of 2^26 (primary opcode) or below 2^6 (function code); its table is stated by `OpFromInverse`, `OpFromInjective` and `TableAliases` |
| Opcodes.OpFromInverse | src/instruction.rs:113-166 | every mnemonic the table recognises assembles to a pattern that names it back; `li` comes back as `ori` |
| Opcodes.MnemonicOfInverse | src/instruction.rs:3-50 | every pattern in the catalogue is what its mnemonic assembles to |
| Opcodes.OpFromInjective | src/instruction.rs:113-166 | two recognised mnemonics with the same pattern are the same mnemonic, apart from the `li`/`ori` pair |
| Opcodes.TableAliases | src/instruction.rs:113-166 | `li` assembles as `ori`; `sll` gives 0, the same as unknown text; upper-case text is not recognised |
| Mnemonics.FromName | src/mips_int/instruction.rs:60-113 | whatever `from` recognises is spelled exactly like the lower-cased input; `SpellingParses` and `FromNameIgnoresCase` state the converse and the case rule |
| Mnemonics.SpellingParses | src/mips_int/instruction.rs:60-113 | every instruction's spelling parses back to that instruction |
| Mnemonics.LowerSpelling | src/mips_int/instruction.rs:62-112 | the match on the lower-cased text only accepts the exact spelling of the instruction it returns |
| Mnemonics.LowerParses | src/mips_int/instruction.rs:62-112 | the match maps each spelling to its own instruction |
| Mnemonics.SpellingIsLower | src/mips_int/instruction.rs:5-57 | every spelling is already lower case |
| Mnemonics.FromNameIgnoresCase | src/mips_int/instruction.rs:61 | lower-casing the input first does not change the result |
| Mnemonics.FromNameAgreesWithCatalogue | src/mips_int/instruction.rs:60-113 | this parser and the opcode table of `src/instruction.rs` accept exactly the same mnemonics once lower-cased (both directions) |
| Mnemonics.NewInstruction | src/mips_int/instruction.rs:131-141 | a new instruction has operation `VOID` (the parser's result for unrecognised text), all three register operands `ZERO` (slot 0), and a zero immediate and address |
| Registers.StrToEnum | src/mips_int/Register.rs:75-135 | any result other than the default `ZERO` is a name the table recognises; `StrToEnumSound`, `StrToEnumParses` and `StrToEnumDefault` state the whole table |
| Registers.StrToEnumSound | src/mips_int/Register.rs:75-135 | any name `str_to_enum` returns other than the default is a recognised name spelled exactly as the input |
| Registers.StrToEnumParses | src/mips_int/Register.rs:75-135 | every recognised name's own spelling parses to that name |
| Registers.StrToEnumDefault | src/mips_int/Register.rs:75-135 | the result is `ZERO` if and only if the text spells no recognised name |
| Registers.StrToEnumExamples | src/mips_int/Register.rs:75-135 | `R0`, `ZERO`, lower-case and `$`-prefixed spellings all fall to the default `ZERO`; `T0` and `R31` parse |
| Registers.Canonical | src/mips_int.rs:68-111 | slot `k` of the register file is a general register `Rk` |
| Registers.RegisterAlign | src/mips_int/Register.rs:183-224 | the result is never an alias; a non-alias is unchanged; an alias becomes a general register |
| Registers.AlignIdempotent | src/mips_int/Register.rs:183-224 | aligning twice is aligning once |
| Registers.AlignInjectiveOnAliases | src/mips_int/Register.rs:183-224 | distinct aliases align to distinct general registers |
| Registers.AlignAgreesWithDisplay | src/mips_int/Register.rs:137-181 | an alias aligns to the general register whose label names that alias (`Rk/alias`; `R0/Z` for `ZERO`) |
| Registers.DisplayOfNonGeneral | src/mips_int/Register.rs:137-181 | `PC`, `HI` and `LO` are labelled by their own names; an alias variant gets the placeholder label |
| Registers.IdxFromEnum | src/mips_int/Register.rs:226-264 | the index is a slot below 32, and 0 for every name that is not `Rk` |
| Registers.CanonicalSlot | src/mips_int/Register.rs:226-264 | the index of `Rk` is `k`, and `Rk` is spelled `R` then `k` in decimal |
| Registers.IndexedSlot | src/mips_int/Register.rs:226-264 | every general register sits in the slot its index names |
| Registers.ParsedGeneralSlot | src/mips_int/Register.rs:75-264 | parsing `Rk`, aligning and indexing gives slot `k` |
| Registers.ParsedTemporarySlot | src/mips_int/Register.rs:75-264 | parsing `Tk`, aligning and indexing gives slot `8+k`, and slots 24 and 25 for `T8` and `T9` |
| Registers.ParsedSavedSlot | src/mips_int/Register.rs:75-264 | parsing `Sk`, aligning and indexing gives slot `16+k` |
| Registers.GetU32 | src/mips_int.rs:58-59 | the register's value is read as its 32 bits taken unsigned |
| Registers.SetU32 | src/mips_int.rs:60 | storing a word keeps the name, and reading it back gives that word |
| Registers.AddU32 | src/mips_int.rs:146 | adding wraps modulo 2^32 and keeps the name |
| Registers.NewRegister | src/mips_int/Register.rs:274-279 | a new register has the given name and value 0 |
| Registers.NewRegisterDisplay | src/mips_int/Register.rs:274-283 | a new register displays as its label followed by `: 0` |
| Registers.DisplayString | src/mips_int/Register.rs:281-283 | the display starts with the label and `: `, and the rest is the canonical decimal (no `+`, no leading zero, no `-0`) that parses back to the register's signed value; by `RustStd.DecimalUnique` that is exactly what `{}` prints |
| RustStd.DecimalUnique | src/mips_int/Register.rs:281-283 | a canonical numeral that parses to `v` is exactly `Decimal(v)`, the text integer `Display` prints, so the value and the canonical form determine the display |
| LineBytes.LoadZeroIntoLine | src/mips_int.rs:172-180 | byte `idx` of the word is cleared and the other three are kept; an index past 3 gives 0 |
| LineBytes.GetByteSegmentU32 | src/mips_int.rs:182-193 | the result is byte `idx` of the word (0 = most significant); an index past 3 gives 0 |
| LineBytes.GetByteSegmentU16 | src/mips_int.rs:195-204 | the result is byte `idx` of the half-word (0 = high); an index past 1 gives 0 |
| LineBytes.AddByteToLine | src/mips_int.rs:206-214 | slot `pointer % 4` becomes the old byte `&` the new byte, and the other bytes are kept |
| LineBytes.AddToZeroLine | src/mips_int.rs:206-214 | adding any byte to a zero word leaves it zero |
| LineBytes.AddedByteNotReadBack | src/mips_int.rs:172-214 | clearing a slot, adding a byte there and reading the slot back gives 0, not the byte |
| LineBytes.ClearZeroLine | src/mips_int.rs:172-180 | clearing a byte of a zero word leaves it zero |
| LineBytes.WordFromBytes | src/mips_int.rs:182-193 | a word is the weighted sum of its four bytes |
| LineBytes.BytesDetermineWord | src/mips_int.rs:182-193 | two words with the same four bytes are equal |
| LineBytes.HalfWordFromBytes | src/mips_int.rs:195-204 | a half-word is its high byte then its low byte |
| Machine.OpcodeOf | src/mips_int.rs:119-128 | the six leading bits are kept in place when they are not all zero; otherwise the six trailing bits (the function code) are returned |
| Machine.LeadingField | src/instruction.rs:53 | masking with `OP_FIRST_CODE` keeps the top six bits in place |
| Machine.TrailingField | src/instruction.rs:54 | masking with `OP_SECOND_CODE` keeps the low six bits |
| Machine.RsField | src/mips_int.rs:54 | `rs` is bits 25..21 of the word |
| Machine.RtField | src/mips_int.rs:55 | `rt` is bits 20..16 of the word |
| Machine.RdField | src/mips_int.rs:56 | `rd` is bits 15..11 of the word |
| Machine.DecodeR | src/mips_int.rs:52-61 | an encoded register-format word decodes to its function code and its three register numbers |
| Machine.DecodeJump | src/mips_int.rs:119-128 | a `j` word with any 26-bit target decodes to `OP_J` |
| Machine.CatalogueDecodes | src/mips_int.rs:119-128 | every catalogue pattern decodes to itself |
| Machine.ExecutableMnemonics | src/mips_int.rs:138-149 | of the recognised mnemonics, only `add` decodes to `OP_ADD` and only `j` to `OP_J` (both directions) |
| Machine.Add | src/mips_int.rs:52-61 | register `rd` receives the sum of `rs` and `rt` modulo 2^32; every other register and every name is kept |
| Machine.Step | src/mips_int.rs:138-149 | `process_line` on values: a step keeps the program, the 32 slots, every register's name and the program counter's name; `StepOutcome`, `StepAdd` and `StepJump` state its effect |
| Machine.StepOutcome | src/mips_int.rs:138-149 | a step succeeds exactly on `add` and `j`; otherwise it reports `UnknownInstruction` with the word and changes nothing |
| Machine.StepAddFields | src/mips_int.rs:138-149 | executing an `add` word writes the wrapped sum into `rd`, keeps every other register and advances the program counter by 4 |
| Machine.StepAdd | src/mips_int.rs:138-149 | executing an encoded `add rd, rs, rt` writes the wrapped sum of `rs` and `rt` into `rd`, keeps the rest and advances the program counter by 4 |
| Machine.StepJump | src/mips_int.rs:138-149 | executing an encoded `j target` leaves the registers alone; the program counter ends at the whole word plus 4 |
| Loader.ReadValOrImmediate | src/mips_int.rs:151-170 | a variable shadows a label of the same name, and a label (its address read back modulo 2^32) shadows a numeral; any other token is parsed as an `i32` (`+`, leading zeros and `-0` accepted), and a token that does not parse gives nothing (the source panics) |
| Loader.ReadLiteral | src/mips_int.rs:151-170 | a decimal numeral that names no variable or label stands for its own value |
| Loader.LoadLine | src/mips_int.rs:230-350 | one pass of the loop: the phase only moves forward, by at most one phase (FileOpen, then Data, then Code), and a line that stops the loop reports `InvalidMain` on the state it was given |
| Loader.PhaseLine | src/mips_int.rs:249-350 | a line handled by its phase never stops the loop and moves the phase forward by at most one |
| Loader.Assign | src/mips_int.rs:251-260 | a line before `.data` never stops the loop; it keeps the phase or, for `.data`, opens the data section |
| Loader.Directive | src/mips_int.rs:262-345 | a data-section line never stops the loop; it keeps the phase or, for `.text`, opens the code section |
| Loader.Align | src/mips_int.rs:269-278 | `.align` never stops the loop and keeps the phase |
| Loader.AlignPanics | src/mips_int.rs:269-273 | `.align` panics exactly when its operand is missing, is not a `u32`, or makes `2 * v` zero modulo 2^32 |
| Loader.AlignEffect | src/mips_int.rs:269-278 | otherwise, on a multiple of `2 * v` the state is unchanged; off it, the current word is pushed, a zero word started and the data pointer set to four times the new program length, with the phase, variables and labels kept |
| Loader.PhaseAdvances | src/mips_int.rs:229-351 | over any run of lines the phase never moves backwards |
| Loader.LineStops | src/mips_int.rs:238-246 | a line stops the loop exactly when it is a label line starting with `main:` while the data pointer is not word-aligned |
| Loader.LoadLinesStops | src/mips_int.rs:229-351 | the loop only ever stops with `InvalidMain` |
| Loader.LabelRecorded | src/mips_int.rs:238-246 | a label line is stored under its whole trimmed text at the data pointer |
| Loader.AssignDefines | src/mips_int.rs:251-260 | before `.data`, a line `name=value` defines the variable `name` as `value` |
| Loader.SplitAssignment | src/mips_int.rs:234-257 | splitting on `[=\s]+` separates `name=value` into the name and the value |
| Loader.CodeLinePushesZero | src/mips_int.rs:347-350 | in the code section each instruction line pushes one word, and that word is 0 |
| Loader.SpaceWords | src/mips_int.rs:279-290 | `.space n` moves the data pointer by `n` and pushes one zero word per completed word |
| Loader.SpaceTen | src/mips_int.rs:279-290 | ten bytes of `.space` from the start give two zero words, not three: the partial word is never pushed |
| Loader.WordStoredAsZero | src/mips_int.rs:291-302 | on a word boundary `.word v` pushes exactly one word, and it is 0 whatever `v` is |
| Loader.HalfWordStoredAsZero | src/mips_int.rs:303-314 | `.halfword v` moves the data pointer by 2 and keeps every stored word 0 |
| Loader.AsciiIgnored | src/mips_int.rs:315-337 | any line starting with `.ascii`, `.asciiz` included, leaves the loader state unchanged |
| Loader.PutByteInv | src/mips_int.rs:284-289 | storing a byte moves the data pointer by one and pushes a word exactly when a word is completed |
| Loader.SpaceInv | src/mips_int.rs:279-290 | the `.space` loop keeps the layout consistent |
| Loader.BytesInv | src/mips_int.rs:291-314 | the `.word` and `.halfword` loops keep the layout consistent |
| Loader.SpacePrefix | src/mips_int.rs:279-290 | the `.space` loop only appends to the program |
| Loader.BytesPrefix | src/mips_int.rs:291-314 | the `.word` and `.halfword` loops only append to the program |
| Loader.AlignInv | src/mips_int.rs:269-278 | `.align` keeps the layout consistent |
| Loader.DirectiveInv | src/mips_int.rs:262-345 | every data-section line keeps the layout consistent |
| Loader.LoadLineInv | src/mips_int.rs:229-351 | every line after which the loop goes on keeps the loader invariant |
| Loader.PhaseLineInv | src/mips_int.rs:249-350 | every line handled by its phase keeps the loader invariant |
| Loader.LoadLinesInv | src/mips_int.rs:229-351 | the whole loop keeps the loader invariant |
| Loader.MainIsNoLabel | src/mips_int.rs:355 | the key `main` has no colon, so it is never the text of a label line |
| Loader.Load | src/mips_int.rs:216-362 | `load_program` on a readable file: the outcome is `Ok` exactly when an entry point is found; `LoadNeverSucceeds` shows that this never happens |
| Loader.LoadNeverSucceeds | src/mips_int.rs:238-361 | on a readable file `load_program` ends with `MissingMain` or `InvalidMain`, never sets an entry point, and every loaded word is 0 |
| Interpreter.ProgramTextLines | src/mips_int.rs:130-136 | the listing has one line per word, and each line parses back to its word |
| Interpreter.ZeroFill | src/mips_int.rs:281-289 | the `.space` loop computes exactly what `Loader.Space` defines |
| Interpreter.StoreBytes | src/mips_int.rs:293-301 | the `.word` and `.halfword` byte loops compute exactly what `Loader.Bytes` defines |
| Interpreter.NewRegisterFile | src/mips_int.rs:68-111 | a fresh array of 32 registers, slot `k` holding a zero `Rk` |
| Interpreter.RunLoader | src/mips_int.rs:229-351 | the loop over the lines ends as `Loader.LoadLines` says |
| Interpreter.LoadLineStep | src/mips_int.rs:230-350 | one pass of the loop does what `Loader.LoadLine` says; a stopping line leaves the state unchanged |
| Interpreter.DirectiveStep | src/mips_int.rs:262-345 | a data-section line does what `Loader.Directive` says |
| Interpreter.MipsInterpreter.constructor | src/mips_int.rs:68-111 | every register is zero under its own name, slot `k` holds `Rk`, and there is no program and no label |
| Interpreter.MipsInterpreter.Reset | src/mips_int.rs:113-117 | the program counter becomes 0 and the program and labels are emptied; the registers, `hi` and `lo` are kept |
| Interpreter.MipsInterpreter.InstAdd | src/mips_int.rs:52-61 | the register file becomes what `Machine.Add` gives |
| Interpreter.MipsInterpreter.InstJump | src/mips_int.rs:63-66 | the program counter holds the address and nothing else changes |
| Interpreter.MipsInterpreter.ProcessLine | src/mips_int.rs:138-149 | outcome and new state are exactly `Machine.Step` of the old state; the register file stays valid |
| Interpreter.MipsInterpreter.Shown | src/mips_int.rs:40-50 | `PC`, `HI` and `LO` show their own registers, `Rk` shows slot `k`, and an alias shows slot 0 |
| Interpreter.MipsInterpreter.DisplayRegister | src/mips_int.rs:40-50 | the text starts with the shown register's label and `: `, and the rest is the canonical decimal that parses back to its value |
| Interpreter.MipsInterpreter.GetProgramContents | src/mips_int.rs:130-136 | the text is the program, one decimal word per line |
| Interpreter.MipsInterpreter.LoadProgram | src/mips_int.rs:216-362 | an unreadable file changes nothing and gives `MissingMain`; a readable one resets and ends as `Loader.Load` says (outcome, program, entry point); the label table stays empty |
| Interpreter.ShownSlot | src/mips_int/Register.rs:226-264 | a general register is either `Rk`, whose index names its own slot, or an alias, whose index is 0 |
| Interpreter.AliasShowsZeroRegister | src/mips_int.rs:40-50 | every alias displays exactly what `R0` displays |

## Left out

- Interpreter.MipsInterpreter.LoadProgram: the source panics on some inputs, and the model excludes them with the precondition that `Loader.Load` does not panic. The panicking inputs are:
  - an unparsable assignment or `.align` operand;
  - `.align 0`, which divides by zero;
  - an unknown `.space`, `.word` or `.halfword` operand;
  - a negative `.space` count.

  `Loader.Load` reports these inputs as `Panicked`.
- Interpreter.MipsInterpreter.ProcessLine: indexing the program past its end panics in the source. This is excluded by the precondition `Steppable`.
- Interpreter.MipsInterpreter.LoadProgram: the program words are built in a local layout and assigned to the field once the loop ends, instead of being pushed onto the field one at a time. The final field contents are the same, including when the loop stops early.
- Interpreter.MipsInterpreter.LoadProgram: reading the file is replaced by an `Option<string>` parameter. `None` stands for a file that cannot be read.
- Interpreter.MipsInterpreter.InstAdd: the addition wraps modulo 2^32, as in a release build. A debug build would panic on overflow. The same holds for the `2 * val` of `.align` and for `add_u32`.
- Loader.Layout: the data pointer is an unbounded `nat` and does not wrap at 2^32. Labels store it modulo 2^32.
- Loader.AsciiIgnored: the `.asciiz` branch, with its quote split and `to_digit` loop, is unreachable and is not modelled beyond that fact. `.byte`, `.float` and `.double` do nothing in the source, and nothing in the model.
- The `stack` field of `MipsInterpreter` is never used by the modelled methods, and it is not modelled.
- Console output (`println!`) is not modelled.
- The `OPName` enum in `src/instruction.rs` (lines 56-110) is never used and is not modelled.
- Mnemonics.FromName: `to_lowercase` is modelled for ASCII letters only. Other Unicode case mappings are not modelled.
- Regex construction is not modelled; `[=\s]+` splitting and the `[A-Za-z]+:` match are defined directly. The separators are `=` and the Unicode White_Space characters, the set that `\s` and `str::trim` use.
- The `Register` methods `get_u32`, `set_u32` and `add_u32` are used by the core but defined in a file that is not part of this model. They are modelled from their use, as the value's 32 bits read unsigned and a wrapping add.
- Mnemonics.NewInstruction: the `addr: usize` field is an unbounded `nat`.
- `src/main.rs` (the GUI) and `src/unit_tests.rs` are not part of this model.
