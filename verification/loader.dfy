/**
 * The assembler-file loader of the interpreter (`load_program`,
 * src/mips_int.rs), stated line by line on values.  A file is read in three
 * phases: variable assignments, then a `.data` section of directives that
 * lay out bytes, then a `.text` section of instructions.  Lines that contain
 * a letter followed by a colon are labels in every phase.
 *
 * The `MipsInterpreter` class in interpreter.dfy runs these steps with
 * loops and is proved to end exactly as `Load` says.
 */
module Loader {
  import opened RustStd
  import opened LineBytes
  import opened Machine

  /** `LoadingState`. */
  datatype Phase = FileOpen | Data | Code

  /** The position of a phase in the order the loader passes through them. */
  function Rank(p: Phase): nat
  {
    match p
    case FileOpen => 0
    case Data => 1
    case Code => 2
  }

  /** Where the loader lays out bytes: the words pushed onto the program so
      far, the word being filled (`current_line`) and the byte-granular
      `data_pointer`. */
  datatype Layout = Layout(program: seq<u32>, currentLine: u32, dataPointer: nat)

  /** The state of the loading loop: the phase, the `variables` and `labels`
      tables, and the byte layout. */
  datatype Loading = Loading(
    phase: Phase,
    variables: map<string, i32>,
    labels: map<string, u32>,
    layout: Layout)

  /** What one line does: the loop goes on, returns an error, or the
      program panics (an `unwrap` of nothing, a division by zero, or a
      negative `.space` count cast to a loop bound of about 2^64). */
  datatype LineStep = Next(st: Loading) | Stop(at: Loading, error: MipsError) | Panic

  /** The state right after `reset`: an empty program and empty tables. */
  function Start(): Loading
  {
    Loading(FileOpen, map[], map[], Layout([], 0, 0))
  }

  /** `Regex::new("[A-Za-z]+:").is_match(line)`: somewhere in the line a
      letter is immediately followed by a colon. */
  predicate IsLabelLine(line: string)
  {
    exists i :: 0 <= i < |line| - 1 && IsAsciiLetter(line[i]) && line[i + 1] == ':'
  }

  /** `read_val_or_immediate` on the operand `token`: a variable's value,
      else a label's address reinterpreted as `i32`, else the token parsed
      as a decimal `i32` (`None` where that parse, and so the program,
      fails).  A variable shadows a label of the same name, and a label
      shadows a numeral. */
  function ReadValOrImmediate(variables: map<string, i32>, labels: map<string, u32>, token: string): (r: Option<i32>)
    ensures token in variables ==> r == Some(variables[token])
    ensures token !in variables && token in labels ==> r.Some? && r.value % TWO_32 == labels[token]
    ensures token !in variables && token !in labels ==> r == ParseI32(token)
  {
    if token in variables then Some(variables[token])
    else if token in labels then Some(U32AsI32(labels[token]))
    else ParseI32(token)
  }

  /** Storing one byte: the data pointer moves on, and a word that has just
      been completed is pushed and the next one started at zero. */
  function PutByte(l: Layout, line: u32): Layout
  {
    var dp := l.dataPointer + 1;
    if dp % 4 == 0 then Layout(l.program + [line], 0, dp)
    else Layout(l.program, line, dp)
  }

  /** The `.space` loop from iteration `i` up to `n`: each iteration clears
      byte `i % 4` of the current word. */
  function Space(l: Layout, i: nat, n: nat): Layout
    decreases n - i
  {
    if i >= n then l
    else Space(PutByte(l, LoadZeroIntoLine(l.currentLine, i % 4)), i + 1, n)
  }

  /** The `.word` and `.halfword` loops: each byte is added at the data
      pointer's slot of the current word. */
  function Bytes(l: Layout, bs: seq<u8>): Layout
    decreases |bs|
  {
    if bs == [] then l
    else Bytes(PutByte(l, AddByteToLine(l.currentLine, l.dataPointer % TWO_32, bs[0])), bs[1..])
  }

  /** The four bytes `.word` stores, most significant first. */
  function WordBytes(w: u32): seq<u8>
  {
    seq(4, k requires 0 <= k < 4 => GetByteSegmentU32(w, k))
  }

  /** The two bytes `.halfword` stores, most significant first. */
  function HalfWordBytes(h: u16): seq<u8>
  {
    seq(2, k requires 0 <= k < 2 => GetByteSegmentU16(h, k))
  }

  /** A line of the first phase: `.data` opens the data section; anything
      else is `name = value`, which defines a variable. */
  function Assign(st: Loading, line: string): (r: LineStep)
    ensures !r.Stop?
    ensures r.Next? ==> r.st.phase == st.phase || r.st.phase == Data
  {
    if line == ".data" then Next(st.(phase := Data))
    else
      var terms := Split(line);
      if |terms| < 2 then Panic
      else
        match ParseI32(Trim(terms[1]))
        case None => Panic
        case Some(v) => Next(st.(variables := st.variables[Trim(terms[0]) := v]))
  }

  /** The operand of a directive, looked up as `read_val_or_immediate`
      does. */
  function Operand(st: Loading, terms: seq<string>): Option<i32>
  {
    if |terms| < 2 then None else ReadValOrImmediate(st.variables, st.labels, terms[1])
  }

  /** `.align v`: when the data pointer is not a multiple of `2 * v`
      (computed modulo 2^32; a zero divisor panics), the current word is
      pushed and the data pointer moved to the end of the program. */
  function Align(st: Loading, terms: seq<string>): (r: LineStep)
    ensures !r.Stop?
    ensures r.Next? ==> r.st.phase == st.phase
  {
    if |terms| < 2 then Panic
    else
      match ParseU32(Trim(terms[1]))
      case None => Panic
      case Some(v) =>
        var modulus := (2 * v) % TWO_32;
        if modulus == 0 then Panic
        else if st.layout.dataPointer % modulus != 0 then
          var program := st.layout.program + [st.layout.currentLine];
          Next(st.(layout := Layout(program, 0, |program| * 4)))
        else Next(st)
  }

  /** `.space n`: `n` bytes cleared one by one. */
  function Reserve(st: Loading, n: Option<i32>): LineStep
  {
    match n
    case None => Panic
    case Some(n) => if n < 0 then Panic else Next(st.(layout := Space(st.layout, 0, n)))
  }

  /** `.word v`: the four bytes of `v as u32`. */
  function StoreWord(st: Loading, v: Option<i32>): LineStep
  {
    match v
    case None => Panic
    case Some(v) => Next(st.(layout := Bytes(st.layout, WordBytes(I32AsU32(v)))))
  }

  /** `.halfword v`: the two bytes of `v as u16`. */
  function StoreHalfWord(st: Loading, v: Option<i32>): LineStep
  {
    match v
    case None => Panic
    case Some(v) => Next(st.(layout := Bytes(st.layout, HalfWordBytes(I32AsU16(v)))))
  }

  /** A line of the data section: `.text` opens the code section; a
      directive is recognised by prefix, in the order `.align`, `.space`,
      `.word`, `.halfword`; `.ascii`, `.asciiz`, `.byte`, `.float`,
      `.double` and any other line change nothing. */
  function Directive(st: Loading, line: string): (r: LineStep)
    ensures !r.Stop?
    ensures r.Next? ==> r.st.phase == st.phase || r.st.phase == Code
  {
    var terms := Split(line);
    if line == ".text" then Next(st.(phase := Code))
    else if StartsWith(line, ".align") then Align(st, terms)
    else if StartsWith(line, ".space") then Reserve(st, Operand(st, terms))
    else if StartsWith(line, ".word") then StoreWord(st, Operand(st, terms))
    else if StartsWith(line, ".halfword") then StoreHalfWord(st, Operand(st, terms))
    else Next(st)
  }

  /** One line of the file: trimmed; comments and blank lines skipped;
      label lines recorded at the data pointer (a `main:` label off a word
      boundary is an error); everything else handled by the phase.  The
      phase only moves forward, one phase at a time, and a line that stops
      the loop reports `InvalidMain` on the state it was given. */
  function LoadLine(st: Loading, raw: string): (r: LineStep)
    ensures r.Next? ==> Rank(st.phase) <= Rank(r.st.phase) <= Rank(st.phase) + 1
    ensures r.Stop? ==> r.at == st && r.error == InvalidMain
  {
    var line := Trim(raw);
    if StartsWith(line, "#") || line == "" then Next(st)
    else if IsLabelLine(line) then
      if StartsWith(line, "main:") && st.layout.dataPointer % 4 != 0 then Stop(st, InvalidMain)
      else Next(st.(labels := st.labels[line := st.layout.dataPointer % TWO_32]))
    else PhaseLine(st, line)
  }

  /** A line that is no comment, blank or label, handled by the current
      phase: an assignment, a directive, or an instruction, which pushes the
      current word. */
  function PhaseLine(st: Loading, line: string): (r: LineStep)
    ensures !r.Stop?
    ensures r.Next? ==> Rank(st.phase) <= Rank(r.st.phase) <= Rank(st.phase) + 1
  {
    match st.phase
    case FileOpen => Assign(st, line)
    case Data => Directive(st, line)
    case Code => Next(st.(layout := st.layout.(program := st.layout.program + [st.layout.currentLine], currentLine := 0)))
  }

  /** The loop over the lines. */
  function LoadLines(st: Loading, lines: seq<string>): LineStep
    decreases |lines|
  {
    if lines == [] then Next(st)
    else
      match LoadLine(st, lines[0])
      case Next(st') => LoadLines(st', lines[1..])
      case other => other
  }

  /** How `load_program` ends on a readable file. */
  datatype LoadResult = Panicked | Loaded(outcome: Outcome, program: seq<u32>, entry: Option<u32>)

  /** `load_program` on the text of a readable file: the lines are loaded
      from the reset state; at the end the entry point is the address of
      the label `"main"`, whose absence is an error. */
  function Load(contents: string): (r: LoadResult)
    ensures r.Loaded? ==> (r.outcome == Ok <==> r.entry.Some?)
  {
    match LoadLines(Start(), Lines(contents))
    case Panic => Panicked
    case Stop(st, e) => Loaded(Err(e), st.layout.program, None)
    case Next(st) =>
      if "main" in st.labels then Loaded(Ok, st.layout.program, Some(st.labels["main"]))
      else Loaded(Err(MissingMain), st.layout.program, None)
  }

  // ---------------------------------------------------------------------
  // What the loader keeps invariant
  // ---------------------------------------------------------------------

  /** Every word pushed and the word being filled are zero: bytes are and-ed
      into a word that starts at zero. */
  predicate Zeroed(l: Layout)
  {
    l.currentLine == 0 && forall k :: 0 <= k < |l.program| ==> l.program[k] == 0
  }

  /** Outside the code section the program holds exactly the words the data
      pointer has completed; in it, possibly more.  Every label key is a
      whole label line. */
  predicate Inv(st: Loading)
  {
    && Zeroed(st.layout)
    && (st.phase != Code ==> |st.layout.program| == st.layout.dataPointer / 4)
    && (st.phase == Code ==> |st.layout.program| >= st.layout.dataPointer / 4)
    && (forall key :: key in st.labels ==> IsLabelLine(key))
  }

  /** Storing a zero byte into a zeroed layout keeps it zeroed, moves the
      data pointer by one and pushes a zero word exactly when a word
      boundary is reached. */
  lemma PutByteInv(l: Layout, line: u32)
    requires Zeroed(l) && line == 0
    ensures Zeroed(PutByte(l, line))
    ensures PutByte(l, line).dataPointer == l.dataPointer + 1
    ensures PutByte(l, line).program == l.program + (if (l.dataPointer + 1) % 4 == 0 then [0] else [])
  {
  }

  /** `.space n` from iteration `i` keeps the layout zeroed, moves the data
      pointer by `n - i` bytes and pushes one zero word per word boundary
      crossed. */
  lemma {:induction false} SpaceInv(l: Layout, i: nat, n: nat)
    requires Zeroed(l)
    ensures var l' := Space(l, i, n);
      && Zeroed(l')
      && l'.dataPointer == l.dataPointer + (if i < n then n - i else 0)
      && |l'.program| - l'.dataPointer / 4 == |l.program| - l.dataPointer / 4
    decreases n - i
  {
    if i < n {
      ClearZeroLine(i % 4);
      PutByteInv(l, LoadZeroIntoLine(l.currentLine, i % 4));
      SpaceInv(PutByte(l, LoadZeroIntoLine(l.currentLine, i % 4)), i + 1, n);
    }
  }

  /** `.word` and `.halfword` keep the layout zeroed and move the data
      pointer by one per byte: whatever the bytes, only zero words are
      stored. */
  lemma {:induction false} BytesInv(l: Layout, bs: seq<u8>)
    requires Zeroed(l)
    ensures var l' := Bytes(l, bs);
      && Zeroed(l')
      && l'.dataPointer == l.dataPointer + |bs|
      && |l'.program| - l'.dataPointer / 4 == |l.program| - l.dataPointer / 4
    decreases |bs|
  {
    if bs != [] {
      var line := AddByteToLine(l.currentLine, l.dataPointer % TWO_32, bs[0]);
      AddToZeroLine(l.dataPointer % TWO_32, bs[0]);
      PutByteInv(l, line);
      BytesInv(PutByte(l, line), bs[1..]);
    }
  }

  /** Every line the loop goes on after keeps the invariant. */
  lemma LoadLineInv(st: Loading, raw: string)
    requires Inv(st)
    ensures LoadLine(st, raw).Next? ==> Inv(LoadLine(st, raw).st)
  {
    var line := Trim(raw);
    if StartsWith(line, "#") || line == "" {
    } else if IsLabelLine(line) {
    } else {
      PhaseLineInv(st, line);
    }
  }

  /** So does every line handled by its phase. */
  lemma PhaseLineInv(st: Loading, line: string)
    requires Inv(st)
    ensures PhaseLine(st, line).Next? ==> Inv(PhaseLine(st, line).st)
  {
    match st.phase
    case FileOpen =>
    case Data => DirectiveInv(st, line);
    case Code =>
  }

  lemma DirectiveInv(st: Loading, line: string)
    requires Inv(st) && st.phase == Data
    ensures Directive(st, line).Next? ==> Inv(Directive(st, line).st)
  {
    var terms := Split(line);
    if line == ".text" {
    } else if StartsWith(line, ".align") {
      AlignInv(st, terms);
    } else if StartsWith(line, ".space") {
      var n := Operand(st, terms);
      if n.Some? && n.value >= 0 {
        SpaceInv(st.layout, 0, n.value);
      }
    } else if StartsWith(line, ".word") {
      var v := Operand(st, terms);
      if v.Some? {
        BytesInv(st.layout, WordBytes(I32AsU32(v.value)));
      }
    } else if StartsWith(line, ".halfword") {
      var v := Operand(st, terms);
      if v.Some? {
        BytesInv(st.layout, HalfWordBytes(I32AsU16(v.value)));
      }
    }
  }

  /** `.align` pushes the (zero) current word and moves the data pointer to
      the next word boundary after the program. */
  lemma AlignInv(st: Loading, terms: seq<string>)
    requires Inv(st) && st.phase == Data
    ensures Align(st, terms).Next? ==> Inv(Align(st, terms).st)
  {
  }

  /** `.align v` panics exactly when the operand is missing, is not a
      `u32`, or makes the divisor `2 * v` zero modulo 2^32. */
  lemma AlignPanics(st: Loading, terms: seq<string>)
    ensures Align(st, terms).Panic? <==>
      |terms| < 2 || ParseU32(Trim(terms[1])).None? || (2 * ParseU32(Trim(terms[1])).value) % TWO_32 == 0
  {
  }

  /** Otherwise an aligned data pointer leaves the state alone, and a
      misaligned one pushes the current word, starts a zero word and moves
      the data pointer to the end of the program; the phase and the tables
      are kept either way. */
  lemma AlignEffect(st: Loading, terms: seq<string>, v: u32)
    requires |terms| >= 2 && ParseU32(Trim(terms[1])) == Some(v) && (2 * v) % TWO_32 != 0
    ensures Align(st, terms).Next?
    ensures st.layout.dataPointer % ((2 * v) % TWO_32) == 0 ==> Align(st, terms).st == st
    ensures st.layout.dataPointer % ((2 * v) % TWO_32) != 0 ==>
      var after := Align(st, terms).st;
      after.layout.program == st.layout.program + [st.layout.currentLine] &&
      after.layout.currentLine == 0 &&
      after.layout.dataPointer == 4 * |after.layout.program| &&
      after.phase == st.phase && after.variables == st.variables && after.labels == st.labels
  {
  }

  /** The whole loop keeps the invariant. */
  lemma {:induction false} LoadLinesInv(st: Loading, lines: seq<string>)
    requires Inv(st)
    ensures LoadLines(st, lines).Next? ==> Inv(LoadLines(st, lines).st)
    ensures LoadLines(st, lines).Stop? ==> Inv(LoadLines(st, lines).at)
    decreases |lines|
  {
    if lines != [] {
      LoadLineInv(st, lines[0]);
      if LoadLine(st, lines[0]).Next? {
        LoadLinesInv(LoadLine(st, lines[0]).st, lines[1..]);
      }
    }
  }

  /** "main" contains no colon, so it is never a label key. */
  lemma MainIsNoLabel()
    ensures !IsLabelLine("main")
  {
  }

  /** `load_program` never succeeds: every label key is a whole line with a
      colon in it, so the lookup of `"main"` always fails.  A readable file
      either panics, stops at a misaligned `main:` label, or reports the
      missing `main`; and every word it loads is zero. */
  lemma LoadNeverSucceeds(contents: string)
    ensures Load(contents).Loaded? ==> Load(contents).outcome in {Err(MissingMain), Err(InvalidMain)}
    ensures Load(contents).Loaded? ==> Load(contents).entry == None
    ensures Load(contents).Loaded? ==> forall k :: 0 <= k < |Load(contents).program| ==> Load(contents).program[k] == 0
  {
    var lines := Lines(contents);
    LoadLinesInv(Start(), lines);
    LoadLinesStops(Start(), lines);
    MainIsNoLabel();
  }

  /** The loop only ever stops with `InvalidMain`. */
  lemma {:induction false} LoadLinesStops(st: Loading, lines: seq<string>)
    ensures LoadLines(st, lines).Stop? ==> LoadLines(st, lines).error == InvalidMain
    decreases |lines|
  {
    if lines != [] {
      if LoadLine(st, lines[0]).Next? {
        LoadLinesStops(LoadLine(st, lines[0]).st, lines[1..]);
      }
    }
  }

  /** A line stops the loop exactly when it is a label line starting with
      `main:` and the data pointer is not on a word boundary. */
  lemma LineStops(st: Loading, raw: string)
    ensures LoadLine(st, raw).Stop? <==>
      IsLabelLine(Trim(raw)) && StartsWith(Trim(raw), "main:") && st.layout.dataPointer % 4 != 0
  {
    var line := Trim(raw);
    if StartsWith(line, "#") || line == "" {
      assert !StartsWith(line, "main:") by {
        if line != [] { assert line[0] == '#'; }
      }
      assert LoadLine(st, raw) == Next(st);
    } else if !IsLabelLine(line) {
      assert LoadLine(st, raw) == PhaseLine(st, line);
    }
  }

  // ---------------------------------------------------------------------
  // What single lines do
  // ---------------------------------------------------------------------

  /** A decimal numeral that names no variable and no label stands for its
      own value. */
  lemma ReadLiteral(variables: map<string, i32>, labels: map<string, u32>, v: i32)
    requires Decimal(v) !in variables && Decimal(v) !in labels
    ensures ReadValOrImmediate(variables, labels, Decimal(v)) == Some(v)
  {
    DecimalParsesBack(v);
  }

  /** A label line is recorded under its whole text at the data pointer;
      nothing else changes. */
  lemma LabelRecorded(st: Loading, raw: string)
    requires IsLabelLine(Trim(raw)) && !StartsWith(Trim(raw), "#")
    requires !(StartsWith(Trim(raw), "main:") && st.layout.dataPointer % 4 != 0)
    ensures LoadLine(st, raw) == Next(st.(labels := st.labels[Trim(raw) := st.layout.dataPointer % TWO_32]))
  {
  }

  /** In the code section every instruction line pushes one word, and
      under the invariant that word is zero. */
  lemma CodeLinePushesZero(st: Loading, raw: string)
    requires Inv(st) && st.phase == Code
    requires Trim(raw) != [] && !StartsWith(Trim(raw), "#") && !IsLabelLine(Trim(raw))
    ensures LoadLine(st, raw) == Next(st.(layout := st.layout.(program := st.layout.program + [0])))
  {
  }

  /** `.space n` in a zeroed layout whose words are all complete moves the
      data pointer by `n` and pushes one zero word per word it completes. */
  lemma SpaceWords(l: Layout, n: nat)
    requires Zeroed(l) && |l.program| == l.dataPointer / 4
    ensures Space(l, 0, n).dataPointer == l.dataPointer + n
    ensures Space(l, 0, n).program == l.program + seq((l.dataPointer + n) / 4 - l.dataPointer / 4, _ => 0)
  {
    SpaceInv(l, 0, n);
    var l' := Space(l, 0, n);
    var k := (l.dataPointer + n) / 4 - l.dataPointer / 4;
    assert |l'.program| == |l.program| + k;
    SpacePrefix(l, 0, n);
    assert l'.program == l.program + seq(k, _ => 0) by {
      assert forall j :: 0 <= j < |l'.program| ==> l'.program[j] == 0;
    }
  }

  /** The loops only ever append to the program. */
  lemma {:induction false} SpacePrefix(l: Layout, i: nat, n: nat)
    ensures l.program <= Space(l, i, n).program
    decreases n - i
  {
    if i < n {
      SpacePrefix(PutByte(l, LoadZeroIntoLine(l.currentLine, i % 4)), i + 1, n);
    }
  }

  lemma {:induction false} BytesPrefix(l: Layout, bs: seq<u8>)
    ensures l.program <= Bytes(l, bs).program
    decreases |bs|
  {
    if bs != [] {
      BytesPrefix(PutByte(l, AddByteToLine(l.currentLine, l.dataPointer % TWO_32, bs[0])), bs[1..]);
    }
  }

  /** `.word v` on a word boundary pushes exactly one word, and that word is
      zero whatever `v` is: the bytes are and-ed into a cleared word
      instead of or-ed. */
  lemma WordStoredAsZero(st: Loading, v: i32)
    requires Inv(st) && st.phase == Data && st.layout.dataPointer % 4 == 0
    ensures StoreWord(st, Some(v)).Next?
    ensures StoreWord(st, Some(v)).st.layout.program == st.layout.program + [0]
    ensures StoreWord(st, Some(v)).st.layout.dataPointer == st.layout.dataPointer + 4
  {
    var bs := WordBytes(I32AsU32(v));
    BytesInv(st.layout, bs);
    BytesPrefix(st.layout, bs);
    var l' := Bytes(st.layout, bs);
    assert |l'.program| == |st.layout.program| + 1;
    assert l'.program == st.layout.program + [l'.program[|st.layout.program|]];
  }

  /** `.halfword v` moves the data pointer by two and stores only zero
      words. */
  lemma HalfWordStoredAsZero(st: Loading, v: i32)
    requires Inv(st) && st.phase == Data
    ensures StoreHalfWord(st, Some(v)).Next?
    ensures StoreHalfWord(st, Some(v)).st.layout.dataPointer == st.layout.dataPointer + 2
    ensures Inv(StoreHalfWord(st, Some(v)).st)
  {
    BytesInv(st.layout, HalfWordBytes(I32AsU16(v)));
  }

  /** `.ascii` comes before `.asciiz` in the chain of prefixes, so a
      `.asciiz` line, like every `.ascii` line, changes nothing. */
  lemma AsciiIgnored(st: Loading, line: string)
    requires StartsWith(line, ".ascii")
    ensures Directive(st, line) == Next(st)
  {
    assert line[..6][1] == 'a' && line[..6][2] == 's';
    assert line[1] == 'a' && line[2] == 's';
    assert line != ".text";
    assert !StartsWith(line, ".align") && !StartsWith(line, ".space");
    assert !StartsWith(line, ".word") && !StartsWith(line, ".halfword");
  }

  /** In the first phase, `name=value` defines the variable `name`. */
  lemma AssignDefines(st: Loading, name: string, v: i32)
    requires st.phase == FileOpen
    requires name != [] && name[0] != '#'
    requires forall i :: 0 <= i < |name| ==> !IsSeparator(name[i]) && name[i] != ':'
    ensures LoadLine(st, name + "=" + Decimal(v)) == Next(st.(variables := st.variables[name := v]))
  {
    DecimalHasNoSeparator(v);
    AssignmentLine(name, Decimal(v));
    SplitAssignment(name, Decimal(v));
    TrimNoWhitespace(name);
    TrimNoWhitespace(Decimal(v));
    DecimalParsesBack(v);
  }

  /** An assignment line without spaces is its own trim, is neither a
      comment nor a label line, and is not `.data`. */
  lemma AssignmentLine(name: string, d: string)
    requires name != [] && name[0] != '#'
    requires forall i :: 0 <= i < |name| ==> !IsSeparator(name[i]) && name[i] != ':'
    requires forall i :: 0 <= i < |d| ==> !IsSeparator(d[i]) && d[i] != ':'
    ensures var line := name + "=" + d;
      Trim(line) == line && !StartsWith(line, "#") && !IsLabelLine(line) && line != ".data"
  {
    var line := name + "=" + d;
    PlainJoin(name, d);
    TrimNoWhitespace(line);
    assert line[0] == name[0];
    assert line[|name|] == '=';
  }

  lemma PlainJoin(name: string, d: string)
    requires forall i :: 0 <= i < |name| ==> !IsSeparator(name[i]) && name[i] != ':'
    requires forall i :: 0 <= i < |d| ==> !IsSeparator(d[i]) && d[i] != ':'
    ensures forall i :: 0 <= i < |name + "=" + d| ==> !IsWhitespace((name + "=" + d)[i]) && (name + "=" + d)[i] != ':'
  {
    var line := name + "=" + d;
    forall i | 0 <= i < |line|
      ensures !IsWhitespace(line[i]) && line[i] != ':'
    {
      if i < |name| {
        assert line[i] == name[i];
      } else if i > |name| {
        assert line[i] == d[i - |name| - 1];
      }
    }
  }

  /** `name=value` splits into the name and the value. */
  lemma SplitAssignment(name: string, d: string)
    requires forall i :: 0 <= i < |name| ==> !IsSeparator(name[i])
    requires d != [] && forall i :: 0 <= i < |d| ==> !IsSeparator(d[i])
    ensures Split(name + "=" + d) == [name, d]
  {
    SplitNameOperand(name, '=', d);
  }

  /** Ten bytes of `.space` from the start of the data section complete
      only two words: the last two bytes stay in the current word, which is
      never pushed, so the program holds two zero words, not three. */
  lemma SpaceTen()
    ensures Space(Layout([], 0, 0), 0, 10).program == [0, 0]
    ensures Space(Layout([], 0, 0), 0, 10).dataPointer == 10
  {
    SpaceWords(Layout([], 0, 0), 10);
  }

  /** Over any run of lines the phase never moves backwards. */
  lemma {:induction false} PhaseAdvances(st: Loading, lines: seq<string>)
    ensures LoadLines(st, lines).Next? ==> Rank(st.phase) <= Rank(LoadLines(st, lines).st.phase)
    ensures LoadLines(st, lines).Stop? ==> Rank(st.phase) <= Rank(LoadLines(st, lines).at.phase)
    decreases |lines|
  {
    if lines != [] && LoadLine(st, lines[0]).Next? {
      PhaseAdvances(LoadLine(st, lines[0]).st, lines[1..]);
    }
  }
}

