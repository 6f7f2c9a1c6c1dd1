/**
 * `MipsInterpreter` (src/mips_int.rs): the register file, the program
 * counter, `hi` and `lo`, the loaded program and the label table, updated in
 * place.  Each method is proved to do what the value-level definitions of
 * Machine and Loader say, so the properties proved there carry over.
 */
module Interpreter {
  import opened RustStd
  import opened Registers
  import opened LineBytes
  import opened Machine
  import opened Loader
  import opened Opcodes

  // ---------------------------------------------------------------------
  // The listing of `get_program_contents`
  // ---------------------------------------------------------------------

  /** Each word of the program in decimal, on a line of its own. */
  function ProgramText(program: seq<u32>): string
  {
    if program == [] then "" else Decimal(program[0]) + "\n" + ProgramText(program[1..])
  }

  /** The listing reads back: it has one line per word, and each line
      parses as an unsigned 32-bit number to its word. */
  lemma {:induction false} ProgramTextLines(program: seq<u32>)
    ensures |Lines(ProgramText(program))| == |program|
    ensures forall k :: 0 <= k < |program| ==> ParseU32(Lines(ProgramText(program))[k]) == Some(program[k])
  {
    if program != [] {
      var d := Decimal(program[0]);
      var rest := ProgramText(program[1..]);
      DecimalHasNoSeparator(program[0]);
      assert d[|d| - 1] != '\r' by {
        DecimalChars(program[0]);
      }
      LinesCons(d, rest);
      ProgramTextLines(program[1..]);
      DecimalParsesBackU32(program[0]);
      forall k | 0 <= k < |program|
        ensures ParseU32(Lines(ProgramText(program))[k]) == Some(program[k])
      {
        if k > 0 {
          assert Lines(ProgramText(program))[k] == Lines(rest)[k - 1];
        }
      }
    }
  }

  // ---------------------------------------------------------------------
  // The byte loops of `load_program`
  // ---------------------------------------------------------------------

  /** The `.space` loop: `n` iterations, iteration `i` clearing byte `i % 4`
      of the current word. */
  method ZeroFill(l: Layout, n: nat) returns (r: Layout)
    ensures r == Space(l, 0, n)
  {
    var program, currentLine, dataPointer: nat := l.program, l.currentLine, l.dataPointer;
    for i := 0 to n
      invariant Space(Layout(program, currentLine, dataPointer), i, n) == Space(l, 0, n)
    {
      currentLine := LoadZeroIntoLine(currentLine, i % 4);
      dataPointer := dataPointer + 1;
      if dataPointer % 4 == 0 {
        program := program + [currentLine];
        currentLine := 0;
      }
    }
    r := Layout(program, currentLine, dataPointer);
  }

  /** The `.word` and `.halfword` loops: each byte is added at the data
      pointer's slot of the current word. */
  method StoreBytes(l: Layout, bs: seq<u8>) returns (r: Layout)
    ensures r == Bytes(l, bs)
  {
    var program, currentLine, dataPointer: nat := l.program, l.currentLine, l.dataPointer;
    for k := 0 to |bs|
      invariant Bytes(Layout(program, currentLine, dataPointer), bs[k..]) == Bytes(l, bs)
    {
      assert bs[k..][1..] == bs[k + 1..];
      currentLine := AddByteToLine(currentLine, dataPointer % TWO_32, bs[k]);
      dataPointer := dataPointer + 1;
      if dataPointer % 4 == 0 {
        program := program + [currentLine];
        currentLine := 0;
      }
    }
    r := Layout(program, currentLine, dataPointer);
  }

  // ---------------------------------------------------------------------
  // The interpreter
  // ---------------------------------------------------------------------

  /** The register file `new` builds: slot `k` holds a zero `Rk`. */
  method NewRegisterFile() returns (regs: array<Register>)
    ensures fresh(regs) && regs.Length == 32
    ensures forall k :: 0 <= k < 32 ==> regs[k] == NewRegister(Canonical(k))
  {
    regs := new Register[32];
    for k := 0 to 32
      invariant forall j :: 0 <= j < k ==> regs[j] == NewRegister(Canonical(j))
    {
      regs[k] := NewRegister(Canonical(k));
    }
  }

  class MipsInterpreter {
    var registers: array<Register>
    var pc: Register
    var hi: Register
    var lo: Register
    var program: seq<u32>
    var labels: map<string, u32>

    /** Thirty-two general registers, slot `k` holding `Rk`, and the three
        special registers under their own names. */
    predicate Valid()
      reads this, registers
    {
      && registers.Length == 32
      && (forall k {:trigger Canonical(k)} :: 0 <= k < 32 ==> registers[k].name == Canonical(k))
      && pc.name.PC? && hi.name.HI? && lo.name.LO?
    }

    /** The part of the state that `process_line` reads and writes. */
    function State(): Core
      reads this, registers
    {
      Core(registers[..], pc, program)
    }

    /** `new`: every register zero under its own name, no program and no
        labels. */
    constructor ()
      ensures Valid() && fresh(registers)
      ensures forall k :: 0 <= k < 32 ==> registers[k] == NewRegister(Canonical(k))
      ensures pc == NewRegister(PC) && hi == NewRegister(HI) && lo == NewRegister(LO)
      ensures program == [] && labels == map[]
    {
      var regs := NewRegisterFile();
      registers := regs;
      pc := NewRegister(PC);
      hi := NewRegister(HI);
      lo := NewRegister(LO);
      program := [];
      labels := map[];
    }

    /** `reset`: the program counter back to 0, the program and the labels
        emptied; the registers, `hi` and `lo` keep their values. */
    method Reset()
      modifies this
      ensures GetU32(pc) == 0 && pc.name == old(pc.name)
      ensures program == [] && labels == map[]
      ensures registers == old(registers) && hi == old(hi) && lo == old(lo)
    {
      pc := SetU32(pc, 0);
      program := [];
      labels := map[];
    }

    /** `inst_add`: the register file becomes what `Add` says. */
    method InstAdd(inst: u32)
      requires registers.Length == 32
      modifies registers
      ensures registers[..] == Add(old(registers[..]), inst)
    {
      var rs := RsField(inst);
      var rt := RtField(inst);
      var rd := RdField(inst);
      var rsVal := GetU32(registers[rs]);
      var rtVal := GetU32(registers[rt]);
      registers[rd] := SetU32(registers[rd], WrapU32(rsVal as int + rtVal));
    }

    /** `inst_jump`: the program counter holds `addr`; nothing else
        changes. */
    method InstJump(addr: u32)
      modifies this
      ensures pc == SetU32(old(pc), addr) && GetU32(pc) == addr
      ensures registers == old(registers) && hi == old(hi) && lo == old(lo)
      ensures program == old(program) && labels == old(labels)
    {
      pc := SetU32(pc, addr);
    }

    /** `process_line`: one step exactly as `Step` describes it. */
    method ProcessLine() returns (r: Outcome)
      requires Valid() && Steppable(State())
      modifies this, registers
      ensures Valid()
      ensures (r, State()) == Step(old(State()))
      ensures registers == old(registers) && hi == old(hi) && lo == old(lo) && labels == old(labels)
    {
      var inst := program[GetU32(pc)];
      var opcode := OpcodeOf(inst);
      if opcode == OP_ADD {
        InstAdd(inst);
      } else if opcode == OP_J {
        InstJump(inst);
      } else {
        return Err(UnknownInstruction(inst));
      }
      pc := AddU32(pc, 4);
      return Ok;
    }

    /** The register `display_register` shows for `n`: a special register
        shows itself and a general register the slot it names; an alias
        names no slot and shows slot 0, `R0`. */
    function Shown(n: RegName): (r: Register)
      requires Valid()
      reads this, registers
      ensures !IsAlias(n) ==> r.name == n
      ensures IsAlias(n) ==> r.name == R0
      ensures n.PC? ==> r == pc
      ensures n.HI? ==> r == hi
      ensures n.LO? ==> r == lo
      ensures IsCanonical(n) ==> r == registers[IdxFromEnum(n)]
      ensures IsAlias(n) ==> r == registers[0]
    {
      if n.PC? then pc
      else if n.HI? then hi
      else if n.LO? then lo
      else
        ShownSlot(n);
        assert Canonical(0) == R0;
        registers[IdxFromEnum(n)]
    }

    /** `display_register`: the label of the register shown for `n`, then
        its value in decimal, which reads back as that value. */
    function DisplayRegister(n: RegName): (s: string)
      requires Valid()
      reads this, registers
      ensures StartsWith(s, ToStr(Shown(n).name) + ": ")
      ensures ParseI32(s[|ToStr(Shown(n).name)| + 2..]) == Some(Shown(n).value)
      ensures CanonicalDecimal(s[|ToStr(Shown(n).name)| + 2..])
    {
      DisplayString(Shown(n))
    }

    /** `get_program_contents`: the listing of the program. */
    method GetProgramContents() returns (s: string)
      ensures s == ProgramText(program)
    {
      s := "";
      for k := 0 to |program|
        invariant s + ProgramText(program[k..]) == ProgramText(program)
      {
        assert program[k..][1..] == program[k + 1..];
        s := s + Decimal(program[k]) + "\n";
      }
    }

    /** `load_program` on a file whose text is `contents` (`None` when it
        cannot be read).  An unreadable file changes nothing and reports the
        missing `main`; a readable one resets the interpreter and ends as
        `Load` says: the same outcome and program, and the program counter
        at the entry point when there is one.  The label table of the
        interpreter stays empty: the labels are collected in a local table. */
    method LoadProgram(contents: Option<string>) returns (r: Outcome)
      requires Valid()
      requires contents.Some? ==> !Load(contents.value).Panicked?
      modifies this
      ensures Valid()
      ensures registers == old(registers) && hi == old(hi) && lo == old(lo)
      ensures contents.None? ==> r == Err(MissingMain) && pc == old(pc) && program == old(program) && labels == old(labels)
      ensures contents.Some? ==>
        && r == Load(contents.value).outcome
        && program == Load(contents.value).program
        && GetU32(pc) == (if Load(contents.value).entry.Some? then Load(contents.value).entry.value else 0)
        && labels == map[]
    {
      if contents.None? {
        return Err(MissingMain);
      }
      Reset();
      var step := RunLoader(Lines(contents.value));
      match step
      case Stop(st, e) =>
        program := st.layout.program;
        r := Err(e);
      case Next(st) =>
        program := st.layout.program;
        if "main" in st.labels {
          pc := SetU32(pc, st.labels["main"]);
          r := Ok;
        } else {
          r := Err(MissingMain);
        }
    }
  }

  /** The loop of `load_program` over the lines of the file, from the reset
      state; it ends at the last line or at the first line that stops it. */
  method RunLoader(lines: seq<string>) returns (step: LineStep)
    requires !LoadLines(Start(), lines).Panic?
    ensures step == LoadLines(Start(), lines)
  {
    var st := Start();
    for i := 0 to |lines|
      invariant LoadLines(st, lines[i..]) == LoadLines(Start(), lines)
    {
      assert lines[i..][1..] == lines[i + 1..];
      step := LoadLineStep(st, lines[i]);
      if step.Stop? {
        return;
      }
      st := step.st;
    }
    step := Next(st);
  }

  /** One line of `load_program`'s loop, on the loop's state: the
      comment, blank-line and label checks, then the handling of the
      current phase. */
  method LoadLineStep(st: Loading, raw: string) returns (step: LineStep)
    requires !LoadLine(st, raw).Panic?
    ensures step == LoadLine(st, raw)
    ensures step.Stop? ==> step.at == st
  {
    var line := Trim(raw);
    if StartsWith(line, "#") || line == "" {
      return Next(st);
    }
    if IsLabelLine(line) {
      if StartsWith(line, "main:") && st.layout.dataPointer % 4 != 0 {
        return Stop(st, InvalidMain);
      }
      return Next(st.(labels := st.labels[line := st.layout.dataPointer % TWO_32]));
    }
    match st.phase
    case FileOpen =>
      step := Assign(st, line);
    case Data =>
      var st' := DirectiveStep(st, line);
      step := Next(st');
    case Code =>
      step := Next(st.(layout := st.layout.(program := st.layout.program + [st.layout.currentLine], currentLine := 0)));
  }

  /** A line of the data section: `.text`, or a directive, whose byte loops
      run here. */
  method DirectiveStep(st: Loading, line: string) returns (st': Loading)
    requires !Directive(st, line).Panic?
    ensures Directive(st, line) == Next(st')
  {
    var terms := Split(line);
    if line == ".text" {
      st' := st.(phase := Code);
    } else if StartsWith(line, ".align") {
      st' := Align(st, terms).st;
    } else if StartsWith(line, ".space") {
      var n := Operand(st, terms).value;
      var l := ZeroFill(st.layout, n as nat);
      st' := st.(layout := l);
    } else if StartsWith(line, ".word") {
      var v := Operand(st, terms).value;
      var l := StoreBytes(st.layout, WordBytes(I32AsU32(v)));
      st' := st.(layout := l);
    } else if StartsWith(line, ".halfword") {
      var v := Operand(st, terms).value;
      var l := StoreBytes(st.layout, HalfWordBytes(I32AsU16(v)));
      st' := st.(layout := l);
    } else {
      st' := st;
    }
  }

  /** A general register shows the slot it names. */
  lemma ShownSlot(n: RegName)
    requires !IsSpecial(n)
    ensures IsCanonical(n) ==> Canonical(IdxFromEnum(n)) == n
    ensures IsAlias(n) ==> IdxFromEnum(n) == 0 && !IsCanonical(n)
    ensures IsCanonical(n) || IsAlias(n)
  {
    if IsCanonical(n) {
      IndexedSlot(n);
    }
  }

  /** Every alias displays the zero register, whatever register it stands
      for: `T0` shows slot 0, not slot 8. */
  lemma AliasShowsZeroRegister(m: MipsInterpreter, n: RegName)
    requires m.Valid() && IsAlias(n)
    ensures m.DisplayRegister(n) == m.DisplayRegister(R0)
  {
    ShownSlot(n);
    ShownSlot(R0);
  }
}
