/**
 * The execution core of the interpreter (src/mips_int.rs): the error type,
 * opcode extraction, the register fields of an instruction word and one
 * execution step (`process_line`), stated on values.  The `MipsInterpreter`
 * class in interpreter.dfy is proved to step exactly as `Step` says.
 */
module Machine {
  import opened RustStd
  import opened Bits
  import opened Registers
  import opened Opcodes

  /** `MipsError`. */
  datatype MipsError =
    | UnknownInstruction(inst: u32)
    | SyntaxError(line: nat)
    | MissingMain
    | InvalidMain

  /** `Result<(), MipsError>`. */
  datatype Outcome = Ok | Err(error: MipsError)

  // ---------------------------------------------------------------------
  // Decoding an instruction word
  // ---------------------------------------------------------------------

  /** `code & OP_FIRST_CODE` keeps the six leading bits in place. */
  lemma LeadingField(code: nat)
    requires code < TWO_32
    ensures BitAnd(code, OP_FIRST_CODE) == code / 0x400_0000 * 0x400_0000
  {
    Pow2Values();
    var q := code / 0x400_0000;
    AndShiftedMask(code, 0x3F, 26, 0x400_0000, OP_FIRST_CODE);
    assert BitAnd(code, OP_FIRST_CODE) == BitAnd(q, 0x3F) * 0x400_0000;
    assert q < 0x40;
    AndLowMask(q, 6);
    DivModUnique(q, 0x40, 0, q);
    assert Pow2(6) - 1 == 0x3F;
  }

  /** `code & OP_SECOND_CODE` keeps the six trailing bits. */
  lemma TrailingField(code: nat)
    ensures BitAnd(code, OP_SECOND_CODE) == code % 0x40
  {
    Pow2Values();
    AndLowMask(code, 6);
  }

  /** `get_opcode_from_instruction`: the six leading bits, kept in place,
      when any of them is set; otherwise the six trailing bits. */
  function OpcodeOf(code: u32): (r: u32)
    ensures code / 0x400_0000 != 0 ==> r == code / 0x400_0000 * 0x400_0000
    ensures code / 0x400_0000 == 0 ==> r == code % 0x40
  {
    LeadingField(code);
    TrailingField(code);
    var first := BitAnd(code, OP_FIRST_CODE);
    if first != 0 then first else BitAnd(code, OP_SECOND_CODE)
  }

  /** A field of width `w` starting at bit `n`, masked in place and then
      shifted down. */
  lemma MaskedField(x: nat, n: nat, w: nat, p: nat, mask: nat)
    requires p == Pow2(n) && mask == (Pow2(w) - 1) * p
    ensures Shr(BitAnd(x, mask), n) == x / p % Pow2(w)
  {
    AndShiftedMask(x, Pow2(w) - 1, n, p, mask);
    AndLowMask(x / p, w);
    var y := x / p % Pow2(w);
    ShrIsDiv(y * p, n);
    DivModUnique(y * p, p, y, 0);
  }

  /** The `rs` operand of `inst_add`: bits 21 to 25. */
  function RsField(inst: u32): (r: nat)
    ensures r < 32 && r == inst / 0x20_0000 % 32
  {
    Pow2Values();
    MaskedField(inst, 21, 5, 0x20_0000, 0x03E0_0000);
    Shr(BitAnd(inst, 0x03E0_0000), 21)
  }

  /** The `rt` operand of `inst_add`: bits 16 to 20. */
  function RtField(inst: u32): (r: nat)
    ensures r < 32 && r == inst / 0x1_0000 % 32
  {
    Pow2Values();
    MaskedField(inst, 16, 5, 0x1_0000, 0x001F_0000);
    Shr(BitAnd(inst, 0x001F_0000), 16)
  }

  /** The `rd` operand of `inst_add`: bits 11 to 15. */
  function RdField(inst: u32): (r: nat)
    ensures r < 32 && r == inst / 0x800 % 32
  {
    Pow2Values();
    MaskedField(inst, 11, 5, 0x800, 0xF800);
    Shr(BitAnd(inst, 0xF800), 11)
  }

  /** A register-format word: three register numbers and a function code
      in the trailing six bits, the leading six bits clear. */
  function EncodeR(rs: nat, rt: nat, rd: nat, funct: nat): (w: u32)
    requires rs < 32 && rt < 32 && rd < 32 && funct < 0x40
    ensures w < 0x400_0000
  {
    rs * 0x20_0000 + rt * 0x1_0000 + rd * 0x800 + funct
  }

  /** Decoding a register-format word gives back its function code and its
      three register numbers. */
  lemma DecodeR(rs: nat, rt: nat, rd: nat, funct: nat)
    requires rs < 32 && rt < 32 && rd < 32 && funct < 0x40
    ensures OpcodeOf(EncodeR(rs, rt, rd, funct)) == funct
    ensures RsField(EncodeR(rs, rt, rd, funct)) == rs
    ensures RtField(EncodeR(rs, rt, rd, funct)) == rt
    ensures RdField(EncodeR(rs, rt, rd, funct)) == rd
  {
    var w := EncodeR(rs, rt, rd, funct);
    DivModUnique(w, 0x400_0000, 0, w);
    DivModUnique(w, 0x40, rs * 0x8000 + rt * 0x400 + rd * 0x20, funct);
    DivModUnique(w, 0x20_0000, rs, rt * 0x1_0000 + rd * 0x800 + funct);
    DivModUnique(rs, 32, 0, rs);
    DivModUnique(w, 0x1_0000, rs * 32 + rt, rd * 0x800 + funct);
    DivModUnique(rs * 32 + rt, 32, rs, rt);
    DivModUnique(w, 0x800, rs * 0x400 + rt * 32 + rd, funct);
    DivModUnique(rs * 0x400 + rt * 32 + rd, 32, rs * 32 + rt, rd);
  }

  /** A jump word: the `j` opcode and a 26-bit target. */
  lemma DecodeJump(target: nat)
    requires target < 0x400_0000
    ensures OpcodeOf(OP_J + target) == OP_J
  {
    DivModUnique(OP_J + target, 0x400_0000, 2, target);
  }

  /** Every opcode in the catalogue decodes to itself, so each mnemonic is
      told apart from the others by `get_opcode_from_instruction`. */
  lemma CatalogueDecodes(name: string)
    ensures OpcodeOf(OpFrom(name)) == OpFrom(name)
  {
    var code := OpFrom(name);
    if code < 0x40 {
      DivModUnique(code, 0x400_0000, 0, code);
      DivModUnique(code, 0x40, 0, code);
    } else {
      var q := code / 0x400_0000;
      DivModUnique(code, 0x400_0000, q, 0);
    }
  }

  /** Of all the mnemonics, only `add` and `j` are executed; every other
      recognised mnemonic is an unknown instruction to `process_line`. */
  lemma ExecutableMnemonics(name: string)
    requires Recognised(name)
    ensures OpcodeOf(OpFrom(name)) == OP_ADD <==> name == "add"
    ensures OpcodeOf(OpFrom(name)) == OP_J <==> name == "j"
  {
    CatalogueDecodes(name);
    assert OpFrom("add") == OP_ADD && OpFrom("j") == OP_J;
    if OpFrom(name) == OP_ADD {
      OpFromInjective(name, "add");
    }
    if OpFrom(name) == OP_J {
      OpFromInjective(name, "j");
    }
  }

  // ---------------------------------------------------------------------
  // One step
  // ---------------------------------------------------------------------

  /** `inst_add` on the register file: `rd` receives the wrapped sum of the
      unsigned values of `rs` and `rt`; every other register and every
      register's name is unchanged. */
  function Add(regs: seq<Register>, inst: u32): (r: seq<Register>)
    requires |regs| == 32
    ensures |r| == 32
    ensures GetU32(r[RdField(inst)]) == (GetU32(regs[RsField(inst)]) + GetU32(regs[RtField(inst)])) % TWO_32
    ensures forall k :: 0 <= k < 32 && k != RdField(inst) ==> r[k] == regs[k]
    ensures forall k :: 0 <= k < 32 ==> r[k].name == regs[k].name
  {
    var rd := RdField(inst);
    var sum := GetU32(regs[RsField(inst)]) + GetU32(regs[RtField(inst)]);
    regs[rd := SetU32(regs[rd], WrapU32(sum))]
  }

  /** The part of the interpreter's state that a step reads and writes. */
  datatype Core = Core(registers: seq<Register>, pc: Register, program: seq<u32>)

  /** A step can be taken: the register file is complete and the program
      counter, used as a word index, lies inside the program. */
  predicate Steppable(m: Core)
  {
    |m.registers| == 32 && GetU32(m.pc) < |m.program|
  }

  /** The word `process_line` executes. */
  function Fetch(m: Core): u32
    requires Steppable(m)
  {
    m.program[GetU32(m.pc)]
  }

  /** `process_line`: fetch the word the program counter indexes, run `add`
      or `j`, and advance the program counter by 4; any other opcode is
      reported as an unknown instruction and nothing changes.  A step never
      changes the program, the size of the register file, the names of the
      registers or the name of the program counter. */
  function Step(m: Core): (r: (Outcome, Core))
    requires Steppable(m)
    ensures r.1.program == m.program && |r.1.registers| == 32
    ensures forall k :: 0 <= k < 32 ==> r.1.registers[k].name == m.registers[k].name
    ensures r.1.pc.name == m.pc.name
  {
    var inst := Fetch(m);
    var opcode := OpcodeOf(inst);
    if opcode == OP_ADD then
      (Ok, m.(registers := Add(m.registers, inst), pc := AddU32(m.pc, 4)))
    else if opcode == OP_J then
      (Ok, m.(pc := AddU32(SetU32(m.pc, inst), 4)))
    else
      (Err(UnknownInstruction(inst)), m)
  }

  /** A step succeeds exactly on `add` and `j`; a failed step reports the
      word it fetched and leaves the state as it was. */
  lemma StepOutcome(m: Core)
    requires Steppable(m)
    ensures Step(m).0 == Ok <==> OpcodeOf(Fetch(m)) == OP_ADD || OpcodeOf(Fetch(m)) == OP_J
    ensures Step(m).0 != Ok ==> Step(m).0 == Err(UnknownInstruction(Fetch(m))) && Step(m).1 == m
  {
  }

  /** Executing any `add` word: the register its `rd` field names holds the
      wrapped sum of the registers its `rs` and `rt` fields name, every other
      register is unchanged, and the program counter moves on by 4. */
  lemma StepAddFields(m: Core)
    requires Steppable(m) && OpcodeOf(Fetch(m)) == OP_ADD
    ensures Step(m).0 == Ok
    ensures GetU32(Step(m).1.registers[RdField(Fetch(m))]) == (GetU32(m.registers[RsField(Fetch(m))]) + GetU32(m.registers[RtField(Fetch(m))])) % TWO_32
    ensures forall k :: 0 <= k < 32 && k != RdField(Fetch(m)) ==> Step(m).1.registers[k] == m.registers[k]
    ensures GetU32(Step(m).1.pc) == (GetU32(m.pc) + 4) % TWO_32
  {
    var inst := Fetch(m);
    var regs := Add(m.registers, inst);
    assert Step(m) == (Ok, m.(registers := regs, pc := AddU32(m.pc, 4)));
  }

  /** Executing an encoded `add rd, rs, rt`: register `rd` holds the wrapped
      sum, every other register is unchanged, and the program counter
      moves on by 4. */
  lemma StepAdd(m: Core, rs: nat, rt: nat, rd: nat)
    requires Steppable(m) && rs < 32 && rt < 32 && rd < 32
    requires Fetch(m) == EncodeR(rs, rt, rd, OP_ADD)
    ensures Step(m).0 == Ok
    ensures GetU32(Step(m).1.registers[rd]) == (GetU32(m.registers[rs]) + GetU32(m.registers[rt])) % TWO_32
    ensures forall k :: 0 <= k < 32 && k != rd ==> Step(m).1.registers[k] == m.registers[k]
    ensures GetU32(Step(m).1.pc) == (GetU32(m.pc) + 4) % TWO_32
  {
    var inst := Fetch(m);
    DecodeR(rs, rt, rd, OP_ADD);
    assert OpcodeOf(inst) == OP_ADD;
    assert RsField(inst) == rs && RtField(inst) == rt && RdField(inst) == rd;
    StepAddFields(m);
  }

  /** Executing an encoded `j target`: the program counter is set to the
      whole instruction word, opcode bits included, and then moved on by 4;
      no register changes. */
  lemma StepJump(m: Core, target: nat)
    requires Steppable(m) && target < 0x400_0000
    requires Fetch(m) == OP_J + target
    ensures Step(m).0 == Ok
    ensures Step(m).1.registers == m.registers
    ensures GetU32(Step(m).1.pc) == OP_J + target + 4
  {
    DecodeJump(target);
  }
}
