/**
 * The interpreter's own instruction vocabulary (src/mips_int/instruction.rs):
 * the `OPName` enumeration, its case-insensitive parser `OPName::from`, and
 * the `Instruction` record.
 */
module Mnemonics {
  import opened RustStd
  import opened Registers
  import Opcodes

  /** `OPName`; `VOID` is "not a real instruction". */
  datatype OPName =
    | VOID | ADD | ADDU | ADDI | ADDIU | SUB | SUBU | AND | ANDI | OR | ORI | XOR | XORI
    | NOR | SLL | SRL | SRA | SLLV | SRLV | SRAV | SLT | SLTI | SLTU | SLTIU | MULT
    | MULTU | DIV | DIVU | MFHI | MTHI | MFLO | MTLO | LI | LUI | LW | LH | LHU | LB
    | LBU | SW | SH | SB | BEQ | BNE | JR | J | JAL | SYSCALL

  /** The lower-case spelling of each instruction; none for `VOID`. */
  function Spelling(op: OPName): string
  {
    match op
    case VOID => ""
    case ADD => "add"
    case ADDU => "addu"
    case ADDI => "addi"
    case ADDIU => "addiu"
    case SUB => "sub"
    case SUBU => "subu"
    case AND => "and"
    case ANDI => "andi"
    case OR => "or"
    case ORI => "ori"
    case XOR => "xor"
    case XORI => "xori"
    case NOR => "nor"
    case SLL => "sll"
    case SRL => "srl"
    case SRA => "sra"
    case SLLV => "sllv"
    case SRLV => "srlv"
    case SRAV => "srav"
    case SLT => "slt"
    case SLTI => "slti"
    case SLTU => "sltu"
    case SLTIU => "sltiu"
    case MULT => "mult"
    case MULTU => "multu"
    case DIV => "div"
    case DIVU => "divu"
    case MFHI => "mfhi"
    case MTHI => "mthi"
    case MFLO => "mflo"
    case MTLO => "mtlo"
    case LI => "li"
    case LUI => "lui"
    case LW => "lw"
    case LH => "lh"
    case LHU => "lhu"
    case LB => "lb"
    case LBU => "lbu"
    case SW => "sw"
    case SH => "sh"
    case SB => "sb"
    case BEQ => "beq"
    case BNE => "bne"
    case JR => "jr"
    case J => "j"
    case JAL => "jal"
    case SYSCALL => "syscall"
  }

  /** `OPName::from`: the instruction whose spelling is `s` once lower-cased;
      `VOID` for any other text.  What it recognises is spelled exactly like
      the lower-cased text. */
  function FromName(s: string): (op: OPName)
    ensures op != VOID ==> Spelling(op) == AsciiLower(s)
  {
    LowerSpelling(AsciiLower(s));
    FromLower(AsciiLower(s))
  }

  /** The match of `OPName::from` on the lower-cased text. */
  function FromLower(t: string): OPName
  {
    match t
    case "add" => ADD
    case "addu" => ADDU
    case "addi" => ADDI
    case "addiu" => ADDIU
    case "sub" => SUB
    case "subu" => SUBU
    case "and" => AND
    case "andi" => ANDI
    case "or" => OR
    case "ori" => ORI
    case "xor" => XOR
    case "xori" => XORI
    case "nor" => NOR
    case "sll" => SLL
    case "srl" => SRL
    case "sra" => SRA
    case "sllv" => SLLV
    case "srlv" => SRLV
    case "srav" => SRAV
    case "slt" => SLT
    case "slti" => SLTI
    case "sltu" => SLTU
    case "sltiu" => SLTIU
    case "mult" => MULT
    case "multu" => MULTU
    case "div" => DIV
    case "divu" => DIVU
    case "mfhi" => MFHI
    case "mthi" => MTHI
    case "mflo" => MFLO
    case "mtlo" => MTLO
    case "li" => LI
    case "lui" => LUI
    case "lw" => LW
    case "lh" => LH
    case "lhu" => LHU
    case "lb" => LB
    case "lbu" => LBU
    case "sw" => SW
    case "sh" => SH
    case "sb" => SB
    case "beq" => BEQ
    case "bne" => BNE
    case "jr" => JR
    case "j" => J
    case "jal" => JAL
    case "syscall" => SYSCALL
    case _ => VOID
  }

  /** The match on lower-cased text only accepts the exact spelling of the
      instruction it returns. */
  lemma LowerSpelling(t: string)
    ensures FromLower(t) != VOID ==> Spelling(FromLower(t)) == t
  {
    match FromLower(t)
    case ADD | ADDU | ADDI | ADDIU => LowerSpellingAddToAddiu(t);
    case SUB | SUBU | AND | ANDI => LowerSpellingSubToAndi(t);
    case OR | ORI | XOR | XORI => LowerSpellingOrToXori(t);
    case NOR | SLL | SRL | SRA => LowerSpellingNorToSra(t);
    case SLLV | SRLV | SRAV | SLT => LowerSpellingSllvToSlt(t);
    case SLTI | SLTU | SLTIU | MULT => LowerSpellingSltiToMult(t);
    case MULTU | DIV | DIVU | MFHI => LowerSpellingMultuToMfhi(t);
    case MTHI | MFLO | MTLO | LI => LowerSpellingMthiToLi(t);
    case LUI | LW | LH | LHU => LowerSpellingLuiToLhu(t);
    case LB | LBU | SW | SH => LowerSpellingLbToSh(t);
    case SB | BEQ | BNE | JR => LowerSpellingSbToJr(t);
    case J | JAL | SYSCALL => LowerSpellingJToSyscall(t);
    case VOID =>
  }

  // `LowerSpelling`, a few instructions at a time.

  lemma LowerSpellingAddToAddiu(t: string)
    requires FromLower(t).ADD? || FromLower(t).ADDU? || FromLower(t).ADDI? ||
      FromLower(t).ADDIU?
    ensures Spelling(FromLower(t)) == t
  {
  }

  lemma LowerSpellingSubToAndi(t: string)
    requires FromLower(t).SUB? || FromLower(t).SUBU? || FromLower(t).AND? || FromLower(t).ANDI?
    ensures Spelling(FromLower(t)) == t
  {
  }

  lemma LowerSpellingOrToXori(t: string)
    requires FromLower(t).OR? || FromLower(t).ORI? || FromLower(t).XOR? || FromLower(t).XORI?
    ensures Spelling(FromLower(t)) == t
  {
  }

  lemma LowerSpellingNorToSra(t: string)
    requires FromLower(t).NOR? || FromLower(t).SLL? || FromLower(t).SRL? || FromLower(t).SRA?
    ensures Spelling(FromLower(t)) == t
  {
  }

  lemma LowerSpellingSllvToSlt(t: string)
    requires FromLower(t).SLLV? || FromLower(t).SRLV? || FromLower(t).SRAV? || FromLower(t).SLT?
    ensures Spelling(FromLower(t)) == t
  {
  }

  lemma LowerSpellingSltiToMult(t: string)
    requires FromLower(t).SLTI? || FromLower(t).SLTU? || FromLower(t).SLTIU? ||
      FromLower(t).MULT?
    ensures Spelling(FromLower(t)) == t
  {
  }

  lemma LowerSpellingMultuToMfhi(t: string)
    requires FromLower(t).MULTU? || FromLower(t).DIV? || FromLower(t).DIVU? ||
      FromLower(t).MFHI?
    ensures Spelling(FromLower(t)) == t
  {
  }

  lemma LowerSpellingMthiToLi(t: string)
    requires FromLower(t).MTHI? || FromLower(t).MFLO? || FromLower(t).MTLO? || FromLower(t).LI?
    ensures Spelling(FromLower(t)) == t
  {
  }

  lemma LowerSpellingLuiToLhu(t: string)
    requires FromLower(t).LUI? || FromLower(t).LW? || FromLower(t).LH? || FromLower(t).LHU?
    ensures Spelling(FromLower(t)) == t
  {
  }

  lemma LowerSpellingLbToSh(t: string)
    requires FromLower(t).LB? || FromLower(t).LBU? || FromLower(t).SW? || FromLower(t).SH?
    ensures Spelling(FromLower(t)) == t
  {
  }

  lemma LowerSpellingSbToJr(t: string)
    requires FromLower(t).SB? || FromLower(t).BEQ? || FromLower(t).BNE? || FromLower(t).JR?
    ensures Spelling(FromLower(t)) == t
  {
  }

  lemma LowerSpellingJToSyscall(t: string)
    requires FromLower(t).J? || FromLower(t).JAL? || FromLower(t).SYSCALL?
    ensures Spelling(FromLower(t)) == t
  {
  }

  /** Every instruction's spelling parses back to it. */
  lemma SpellingParses(op: OPName)
    requires op != VOID
    ensures FromName(Spelling(op)) == op
  {
    SpellingIsLower(op);
    LowerParses(op);
  }

  lemma SpellingIsLower(op: OPName)
    ensures AsciiLower(Spelling(op)) == Spelling(op)
  {
    match op
    case ADD | ADDU | ADDI | ADDIU | SUB | SUBU => SpellingIsLowerAddToSubu(op);
    case AND | ANDI | OR | ORI | XOR | XORI => SpellingIsLowerAndToXori(op);
    case NOR | SLL | SRL | SRA | SLLV | SRLV => SpellingIsLowerNorToSrlv(op);
    case SRAV | SLT | SLTI | SLTU | SLTIU | MULT => SpellingIsLowerSravToMult(op);
    case MULTU | DIV | DIVU | MFHI | MTHI | MFLO => SpellingIsLowerMultuToMflo(op);
    case MTLO | LI | LUI | LW | LH | LHU => SpellingIsLowerMtloToLhu(op);
    case LB | LBU | SW | SH | SB | BEQ => SpellingIsLowerLbToBeq(op);
    case BNE | JR | J | JAL | SYSCALL => SpellingIsLowerBneToSyscall(op);
    case VOID =>
  }

  // `SpellingIsLower`, a few instructions at a time.

  lemma SpellingIsLowerAddToSubu(op: OPName)
    requires op.ADD? || op.ADDU? || op.ADDI? || op.ADDIU? || op.SUB? || op.SUBU?
    ensures AsciiLower(Spelling(op)) == Spelling(op)
  {
    AsciiLowerOfLower(Spelling(op));
  }

  lemma SpellingIsLowerAndToXori(op: OPName)
    requires op.AND? || op.ANDI? || op.OR? || op.ORI? || op.XOR? || op.XORI?
    ensures AsciiLower(Spelling(op)) == Spelling(op)
  {
    AsciiLowerOfLower(Spelling(op));
  }

  lemma SpellingIsLowerNorToSrlv(op: OPName)
    requires op.NOR? || op.SLL? || op.SRL? || op.SRA? || op.SLLV? || op.SRLV?
    ensures AsciiLower(Spelling(op)) == Spelling(op)
  {
    AsciiLowerOfLower(Spelling(op));
  }

  lemma SpellingIsLowerSravToMult(op: OPName)
    requires op.SRAV? || op.SLT? || op.SLTI? || op.SLTU? || op.SLTIU? || op.MULT?
    ensures AsciiLower(Spelling(op)) == Spelling(op)
  {
    AsciiLowerOfLower(Spelling(op));
  }

  lemma SpellingIsLowerMultuToMflo(op: OPName)
    requires op.MULTU? || op.DIV? || op.DIVU? || op.MFHI? || op.MTHI? || op.MFLO?
    ensures AsciiLower(Spelling(op)) == Spelling(op)
  {
    AsciiLowerOfLower(Spelling(op));
  }

  lemma SpellingIsLowerMtloToLhu(op: OPName)
    requires op.MTLO? || op.LI? || op.LUI? || op.LW? || op.LH? || op.LHU?
    ensures AsciiLower(Spelling(op)) == Spelling(op)
  {
    AsciiLowerOfLower(Spelling(op));
  }

  lemma SpellingIsLowerLbToBeq(op: OPName)
    requires op.LB? || op.LBU? || op.SW? || op.SH? || op.SB? || op.BEQ?
    ensures AsciiLower(Spelling(op)) == Spelling(op)
  {
    AsciiLowerOfLower(Spelling(op));
  }

  lemma SpellingIsLowerBneToSyscall(op: OPName)
    requires op.BNE? || op.JR? || op.J? || op.JAL? || op.SYSCALL?
    ensures AsciiLower(Spelling(op)) == Spelling(op)
  {
    AsciiLowerOfLower(Spelling(op));
  }

  lemma LowerParses(op: OPName)
    requires op != VOID
    ensures FromLower(Spelling(op)) == op
  {
    match op
    case ADD | ADDU => LowerParsesAddAddu(op);
    case ADDI | ADDIU => LowerParsesAddiAddiu(op);
    case SUB | SUBU => LowerParsesSubSubu(op);
    case AND | ANDI => LowerParsesAndAndi(op);
    case OR | ORI => LowerParsesOrOri(op);
    case XOR | XORI => LowerParsesXorXori(op);
    case NOR | SLL => LowerParsesNorSll(op);
    case SRL | SRA => LowerParsesSrlSra(op);
    case SLLV | SRLV => LowerParsesSllvSrlv(op);
    case SRAV | SLT => LowerParsesSravSlt(op);
    case SLTI | SLTU => LowerParsesSltiSltu(op);
    case SLTIU | MULT => LowerParsesSltiuMult(op);
    case MULTU | DIV => LowerParsesMultuDiv(op);
    case DIVU | MFHI => LowerParsesDivuMfhi(op);
    case MTHI | MFLO => LowerParsesMthiMflo(op);
    case MTLO | LI => LowerParsesMtloLi(op);
    case LUI | LW => LowerParsesLuiLw(op);
    case LH | LHU => LowerParsesLhLhu(op);
    case LB | LBU => LowerParsesLbLbu(op);
    case SW | SH => LowerParsesSwSh(op);
    case SB | BEQ => LowerParsesSbBeq(op);
    case BNE | JR => LowerParsesBneJr(op);
    case J | JAL => LowerParsesJJal(op);
    case SYSCALL => LowerParsesSyscall(op);
  }

  // `LowerParses`, two instructions at a time.

  lemma LowerParsesAddAddu(op: OPName)
    requires op.ADD? || op.ADDU?
    ensures FromLower(Spelling(op)) == op
  {
  }

  lemma LowerParsesAddiAddiu(op: OPName)
    requires op.ADDI? || op.ADDIU?
    ensures FromLower(Spelling(op)) == op
  {
  }

  lemma LowerParsesSubSubu(op: OPName)
    requires op.SUB? || op.SUBU?
    ensures FromLower(Spelling(op)) == op
  {
  }

  lemma LowerParsesAndAndi(op: OPName)
    requires op.AND? || op.ANDI?
    ensures FromLower(Spelling(op)) == op
  {
  }

  lemma LowerParsesOrOri(op: OPName)
    requires op.OR? || op.ORI?
    ensures FromLower(Spelling(op)) == op
  {
  }

  lemma LowerParsesXorXori(op: OPName)
    requires op.XOR? || op.XORI?
    ensures FromLower(Spelling(op)) == op
  {
  }

  lemma LowerParsesNorSll(op: OPName)
    requires op.NOR? || op.SLL?
    ensures FromLower(Spelling(op)) == op
  {
  }

  lemma LowerParsesSrlSra(op: OPName)
    requires op.SRL? || op.SRA?
    ensures FromLower(Spelling(op)) == op
  {
  }

  lemma LowerParsesSllvSrlv(op: OPName)
    requires op.SLLV? || op.SRLV?
    ensures FromLower(Spelling(op)) == op
  {
  }

  lemma LowerParsesSravSlt(op: OPName)
    requires op.SRAV? || op.SLT?
    ensures FromLower(Spelling(op)) == op
  {
  }

  lemma LowerParsesSltiSltu(op: OPName)
    requires op.SLTI? || op.SLTU?
    ensures FromLower(Spelling(op)) == op
  {
  }

  lemma LowerParsesSltiuMult(op: OPName)
    requires op.SLTIU? || op.MULT?
    ensures FromLower(Spelling(op)) == op
  {
  }

  lemma LowerParsesMultuDiv(op: OPName)
    requires op.MULTU? || op.DIV?
    ensures FromLower(Spelling(op)) == op
  {
  }

  lemma LowerParsesDivuMfhi(op: OPName)
    requires op.DIVU? || op.MFHI?
    ensures FromLower(Spelling(op)) == op
  {
  }

  lemma LowerParsesMthiMflo(op: OPName)
    requires op.MTHI? || op.MFLO?
    ensures FromLower(Spelling(op)) == op
  {
  }

  lemma LowerParsesMtloLi(op: OPName)
    requires op.MTLO? || op.LI?
    ensures FromLower(Spelling(op)) == op
  {
  }

  lemma LowerParsesLuiLw(op: OPName)
    requires op.LUI? || op.LW?
    ensures FromLower(Spelling(op)) == op
  {
  }

  lemma LowerParsesLhLhu(op: OPName)
    requires op.LH? || op.LHU?
    ensures FromLower(Spelling(op)) == op
  {
  }

  lemma LowerParsesLbLbu(op: OPName)
    requires op.LB? || op.LBU?
    ensures FromLower(Spelling(op)) == op
  {
  }

  lemma LowerParsesSwSh(op: OPName)
    requires op.SW? || op.SH?
    ensures FromLower(Spelling(op)) == op
  {
  }

  lemma LowerParsesSbBeq(op: OPName)
    requires op.SB? || op.BEQ?
    ensures FromLower(Spelling(op)) == op
  {
  }

  lemma LowerParsesBneJr(op: OPName)
    requires op.BNE? || op.JR?
    ensures FromLower(Spelling(op)) == op
  {
  }

  lemma LowerParsesJJal(op: OPName)
    requires op.J? || op.JAL?
    ensures FromLower(Spelling(op)) == op
  {
  }

  lemma LowerParsesSyscall(op: OPName)
    requires op.SYSCALL?
    ensures FromLower(Spelling(op)) == op
  {
  }

  /** Upper and lower case are not told apart. */
  lemma FromNameIgnoresCase(s: string)
    ensures FromName(AsciiLower(s)) == FromName(s)
  {
    AsciiLowerIdempotent(s);
  }

  /** This parser and the catalogue's table accept the same mnemonics. */
  lemma FromNameAgreesWithCatalogue(s: string)
    ensures FromName(s) != VOID <==> Opcodes.Recognised(AsciiLower(s))
  {
    LowerAgreesWithCatalogue(AsciiLower(s));
  }

  lemma LowerAgreesWithCatalogue(t: string)
    ensures FromLower(t) != VOID <==> Opcodes.Recognised(t)
  {
  }

  /** `Instruction`: an operation, three register operands, a signed 16-bit
      immediate and an address. */
  datatype Instruction = Instruction(op: OPName, rs: RegName, rt: RegName, rd: RegName, imm: i16, addr: nat)

  /** `Instruction::new`: no operation, every register operand the zero
      register (slot 0), immediate and address 0.  The empty operation is
      the one the parser gives for unrecognised text. */
  function NewInstruction(): (i: Instruction)
    ensures i.op == VOID && i.rs == ZERO && i.rt == ZERO && i.rd == ZERO
    ensures Spelling(i.op) == "" && FromName(Spelling(i.op)) == i.op
    ensures IdxFromEnum(i.rs) == 0 && IdxFromEnum(i.rt) == 0 && IdxFromEnum(i.rd) == 0
    ensures i.imm == 0 && i.addr == 0
  {
    Instruction(VOID, ZERO, ZERO, ZERO, 0, 0)
  }
}
