/**
 * The opcode catalogue (src/instruction.rs): one 32-bit pattern per
 * instruction, with the primary opcode in bits 31..26 for I- and J-type
 * instructions and the function code in bits 5..0 for R-type ones, and the
 * table from lower-case mnemonics to those patterns.
 */
module Opcodes {
  import opened RustStd

  const OP_ADD: u32 := 0x20
  const OP_ADDI: u32 := 0x20000000
  const OP_ADDIU: u32 := 0x24000000
  const OP_ADDU: u32 := 0x21
  const OP_SUB: u32 := 0x22
  const OP_SUBU: u32 := 0x23
  const OP_AND: u32 := 0x24
  const OP_ANDI: u32 := 0x30000000
  const OP_OR: u32 := 0x25
  const OP_ORI: u32 := 0x34000000
  const OP_XOR: u32 := 0x26
  const OP_XORI: u32 := 0x38000000
  const OP_NOR: u32 := 0x27
  const OP_SLL: u32 := 0x0
  const OP_SRL: u32 := 0x2
  const OP_SRA: u32 := 0x3
  const OP_SLLV: u32 := 0x4
  const OP_SRLV: u32 := 0x6
  const OP_SRAV: u32 := 0x7
  const OP_SLT: u32 := 0x2A
  const OP_SLTI: u32 := 0x28000000
  const OP_SLTU: u32 := 0x2B
  const OP_SLTIU: u32 := 0x2C000000
  const OP_MULT: u32 := 0x18
  const OP_MULTU: u32 := 0x19
  const OP_DIV: u32 := 0x1A
  const OP_DIVU: u32 := 0x1B
  const OP_MFHI: u32 := 0x10
  const OP_MTHI: u32 := 0x11
  const OP_MFLO: u32 := 0x12
  const OP_MTLO: u32 := 0x13
  const OP_LUI: u32 := 0x3C000000
  const OP_LW: u32 := 0x8C000000
  const OP_LH: u32 := 0x84000000
  const OP_LHU: u32 := 0x94000000
  const OP_LB: u32 := 0x80000000
  const OP_LBU: u32 := 0x90000000
  const OP_SW: u32 := 0xB8000000
  const OP_SH: u32 := 0xA8000000
  const OP_SB: u32 := 0xA0000000
  const OP_BEQ: u32 := 0x10000000
  const OP_BNE: u32 := 0x14000000
  const OP_JR: u32 := 0x8
  const OP_J: u32 := 0x8000000
  const OP_JAL: u32 := 0xC000000
  const OP_SYSCALL: u32 := 0xC

  /** The masks that select the primary opcode field (bits 31..26) and the
      function field (bits 5..0). */
  const OP_FIRST_CODE: u32 := 0xFC000000
  const OP_SECOND_CODE: u32 := 0x3F

  /** `OPName::from`: the pattern of a lower-case mnemonic; any other text
      gives 0 (which is also the pattern of `sll`). `li` is assembled as
      `ori`.  Every pattern sets only one of the two opcode fields: it is a
      multiple of 2^26 (primary opcode only) or below 2^6 (function code
      only). */
  function OpFrom(name: string): (r: u32)
    ensures r % 0x400_0000 == 0 || r < 0x40
  {
    match name
    case "add" => OP_ADD
    case "addi" => OP_ADDI
    case "addiu" => OP_ADDIU
    case "addu" => OP_ADDU
    case "sub" => OP_SUB
    case "subu" => OP_SUBU
    case "and" => OP_AND
    case "andi" => OP_ANDI
    case "or" => OP_OR
    case "ori" => OP_ORI
    case "xor" => OP_XOR
    case "xori" => OP_XORI
    case "nor" => OP_NOR
    case "sll" => OP_SLL
    case "srl" => OP_SRL
    case "sra" => OP_SRA
    case "sllv" => OP_SLLV
    case "srlv" => OP_SRLV
    case "srav" => OP_SRAV
    case "slt" => OP_SLT
    case "slti" => OP_SLTI
    case "sltu" => OP_SLTU
    case "sltiu" => OP_SLTIU
    case "mult" => OP_MULT
    case "multu" => OP_MULTU
    case "div" => OP_DIV
    case "divu" => OP_DIVU
    case "mfhi" => OP_MFHI
    case "mthi" => OP_MTHI
    case "mflo" => OP_MFLO
    case "mtlo" => OP_MTLO
    case "li" => OP_ORI
    case "lui" => OP_LUI
    case "lw" => OP_LW
    case "lh" => OP_LH
    case "lhu" => OP_LHU
    case "lb" => OP_LB
    case "lbu" => OP_LBU
    case "sw" => OP_SW
    case "sh" => OP_SH
    case "sb" => OP_SB
    case "beq" => OP_BEQ
    case "bne" => OP_BNE
    case "jr" => OP_JR
    case "j" => OP_J
    case "jal" => OP_JAL
    case "syscall" => OP_SYSCALL
    case _ => 0
  }

  /** The mnemonic each pattern of the catalogue stands for (`ori` for the
      pattern `li` shares with it, `sll` for 0); "" for any other word. */
  function MnemonicOf(code: u32): string
  {
    match code
    case 0x20 => "add"
    case 0x20000000 => "addi"
    case 0x24000000 => "addiu"
    case 0x21 => "addu"
    case 0x22 => "sub"
    case 0x23 => "subu"
    case 0x24 => "and"
    case 0x30000000 => "andi"
    case 0x25 => "or"
    case 0x34000000 => "ori"
    case 0x26 => "xor"
    case 0x38000000 => "xori"
    case 0x27 => "nor"
    case 0x0 => "sll"
    case 0x2 => "srl"
    case 0x3 => "sra"
    case 0x4 => "sllv"
    case 0x6 => "srlv"
    case 0x7 => "srav"
    case 0x2A => "slt"
    case 0x28000000 => "slti"
    case 0x2B => "sltu"
    case 0x2C000000 => "sltiu"
    case 0x18 => "mult"
    case 0x19 => "multu"
    case 0x1A => "div"
    case 0x1B => "divu"
    case 0x10 => "mfhi"
    case 0x11 => "mthi"
    case 0x12 => "mflo"
    case 0x13 => "mtlo"
    case 0x3C000000 => "lui"
    case 0x8C000000 => "lw"
    case 0x84000000 => "lh"
    case 0x94000000 => "lhu"
    case 0x80000000 => "lb"
    case 0x90000000 => "lbu"
    case 0xB8000000 => "sw"
    case 0xA8000000 => "sh"
    case 0xA0000000 => "sb"
    case 0x10000000 => "beq"
    case 0x14000000 => "bne"
    case 0x8 => "jr"
    case 0x8000000 => "j"
    case 0xC000000 => "jal"
    case 0xC => "syscall"
    case _ => ""
  }

  /** Decoding a recognised mnemonic's pattern gives the mnemonic back
      (`ori` for `li`). */
  lemma OpFromInverse(name: string)
    requires OpFrom(name) != 0 || name == "sll"
    ensures MnemonicOf(OpFrom(name)) == if name == "li" then "ori" else name
  {
  }

  /** Every pattern of the catalogue is what its mnemonic assembles to. */
  lemma MnemonicOfInverse(code: u32)
    requires MnemonicOf(code) != ""
    ensures OpFrom(MnemonicOf(code)) == code
  {
  }

  /** A text the table recognises (`sll` is recognised although its
      pattern is 0, the same as for unknown text). */
  predicate Recognised(name: string)
  {
    OpFrom(name) != 0 || name == "sll"
  }

  /** Two recognised mnemonics with the same pattern are the same mnemonic,
      except for the pseudo-instruction `li`, which shares `ori`'s. */
  lemma OpFromInjective(a: string, b: string)
    requires Recognised(a) && Recognised(b) && OpFrom(a) == OpFrom(b)
    ensures a == b || (a in {"li", "ori"} && b in {"li", "ori"})
  {
    OpFromInverse(a);
    OpFromInverse(b);
  }

  /** `li` is assembled as `ori`; `sll` cannot be told from unknown text. */
  lemma TableAliases()
    ensures OpFrom("li") == OpFrom("ori") == OP_ORI
    ensures OpFrom("sll") == OpFrom("nop") == 0
    ensures OpFrom("ADD") == 0
  {
  }
}
