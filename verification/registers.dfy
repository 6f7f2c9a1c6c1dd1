/**
 * Register naming (src/mips_int/Register.rs): the `RegNames` enumeration of
 * the 32 general registers, their calling-convention aliases and the PC, HI
 * and LO registers; the text-to-name, name-to-label, alias-to-slot and
 * slot-index tables; and the `Register` record with its display string.
 */
module Registers {
  import opened RustStd

  /** `RegNames`, in declaration order. */
  datatype RegName =
    | R0 | R1 | R2 | R3 | R4 | R5 | R6 | R7 | R8 | R9 | R10 | R11 | R12 | R13 | R14 | R15
    | R16 | R17 | R18 | R19 | R20 | R21 | R22 | R23 | R24 | R25 | R26 | R27 | R28 | R29 | R30 | R31
    | ZERO | At | V0 | V1 | A0 | A1 | A2 | A3 | T0 | T1 | T2 | T3 | T4 | T5 | T6 | T7
    | T8 | T9 | S0 | S1 | S2 | S3 | S4 | S5 | S6 | S7 | K0 | K1 | GP | SP | FP | RA
    | PC | HI | LO

  /** The identifier each variant is declared with. */
  function VariantName(n: RegName): string
  {
    match n
    case R0 => "R0"
    case R1 => "R1"
    case R2 => "R2"
    case R3 => "R3"
    case R4 => "R4"
    case R5 => "R5"
    case R6 => "R6"
    case R7 => "R7"
    case R8 => "R8"
    case R9 => "R9"
    case R10 => "R10"
    case R11 => "R11"
    case R12 => "R12"
    case R13 => "R13"
    case R14 => "R14"
    case R15 => "R15"
    case R16 => "R16"
    case R17 => "R17"
    case R18 => "R18"
    case R19 => "R19"
    case R20 => "R20"
    case R21 => "R21"
    case R22 => "R22"
    case R23 => "R23"
    case R24 => "R24"
    case R25 => "R25"
    case R26 => "R26"
    case R27 => "R27"
    case R28 => "R28"
    case R29 => "R29"
    case R30 => "R30"
    case R31 => "R31"
    case ZERO => "ZERO"
    case At => "At"
    case V0 => "V0"
    case V1 => "V1"
    case A0 => "A0"
    case A1 => "A1"
    case A2 => "A2"
    case A3 => "A3"
    case T0 => "T0"
    case T1 => "T1"
    case T2 => "T2"
    case T3 => "T3"
    case T4 => "T4"
    case T5 => "T5"
    case T6 => "T6"
    case T7 => "T7"
    case T8 => "T8"
    case T9 => "T9"
    case S0 => "S0"
    case S1 => "S1"
    case S2 => "S2"
    case S3 => "S3"
    case S4 => "S4"
    case S5 => "S5"
    case S6 => "S6"
    case S7 => "S7"
    case K0 => "K0"
    case K1 => "K1"
    case GP => "GP"
    case SP => "SP"
    case FP => "FP"
    case RA => "RA"
    case PC => "PC"
    case HI => "HI"
    case LO => "LO"
  }

  /** The 32 general-register variants `R0` .. `R31`. */
  predicate IsCanonical(n: RegName)
  {
    match n
    case R0 | R1 | R2 | R3 | R4 | R5 | R6 | R7 | R8 | R9 | R10
      | R11 | R12 | R13 | R14 | R15 | R16 | R17 | R18 | R19 | R20 | R21
      | R22 | R23 | R24 | R25 | R26 | R27 | R28 | R29 | R30 | R31 => true
    case _ => false
  }

  /** The calling-convention alias variants `ZERO` .. `RA`. */
  predicate IsAlias(n: RegName)
  {
    match n
    case ZERO | At | V0 | V1 | A0 | A1 | A2 | A3 | T0 | T1 | T2
      | T3 | T4 | T5 | T6 | T7 | T8 | T9 | S0 | S1 | S2 | S3
      | S4 | S5 | S6 | S7 | K0 | K1 | GP | SP | FP | RA => true
    case _ => false
  }

  /** The distinguished registers. */
  predicate IsSpecial(n: RegName)
  {
    n.PC? || n.HI? || n.LO?
  }

  /** The general register in slot `k`, as the interpreter builds its
      register file: slot k holds `Rk`. */
  function Canonical(k: nat): (n: RegName)
    requires k < 32
    ensures IsCanonical(n)
  {
    match k
    case 0 => R0
    case 1 => R1
    case 2 => R2
    case 3 => R3
    case 4 => R4
    case 5 => R5
    case 6 => R6
    case 7 => R7
    case 8 => R8
    case 9 => R9
    case 10 => R10
    case 11 => R11
    case 12 => R12
    case 13 => R13
    case 14 => R14
    case 15 => R15
    case 16 => R16
    case 17 => R17
    case 18 => R18
    case 19 => R19
    case 20 => R20
    case 21 => R21
    case 22 => R22
    case 23 => R23
    case 24 => R24
    case 25 => R25
    case 26 => R26
    case 27 => R27
    case 28 => R28
    case 29 => R29
    case 30 => R30
    case _ => R31
  }

  /** The names `str_to_enum` recognises. */
  predicate Parsable(n: RegName)
  {
    match n
    case R1 | R2 | R3 | R4 | R5 | R6 | R7 | R8 | R9 | R10
      | R11 | R12 | R13 | R14 | R15 | R16 | R17 | R18 | R19 | R20 | R21
      | R22 | R23 | R24 | R25 | R26 | R27 | R28 | R29 | R30 | R31 => true
    case T0 | T1 | T2 | T3 | T4 | T5 | T6 | T7 | T8 | T9 => true
    case S0 | S1 | S2 | S3 | S4 | S5 | S6 | S7 => true
    case PC | HI | LO => true
    case _ => false
  }

  /** `RegNames::str_to_enum`: the exact (upper-case) spelling of a
      recognised name gives that name; any other text gives `ZERO`.  The
      source's match on the whole text is decided here character by
      character; `StrToEnumParses` and `StrToEnumSound` show that it is the
      same table.  Only a two- or three-character text can name a register. */
  function StrToEnum(s: string): (r: RegName)
    ensures r != ZERO ==> Parsable(r)
  {
    if |s| == 2 then
      match s[0]
      case 'R' => GeneralByDigit(s[1])
      case 'T' => TemporaryByDigit(s[1])
      case 'S' => SavedByDigit(s[1])
      case 'H' => if s[1] == 'I' then HI else ZERO
      case 'L' => if s[1] == 'O' then LO else ZERO
      case 'P' => if s[1] == 'C' then PC else ZERO
      case _ => ZERO
    else if |s| == 3 && s[0] == 'R' then
      match s[1]
      case '1' => TeenByDigit(s[2])
      case '2' => TwentiesByDigit(s[2])
      case '3' => ThirtiesByDigit(s[2])
      case _ => ZERO
    else
      ZERO
  }

  /** "R1" to "R9". */
  function GeneralByDigit(c: char): (r: RegName)
    ensures r != ZERO ==> VariantName(r) == "R" + [c]
  {
    match c
    case '1' => R1
    case '2' => R2
    case '3' => R3
    case '4' => R4
    case '5' => R5
    case '6' => R6
    case '7' => R7
    case '8' => R8
    case '9' => R9
    case _ => ZERO
  }

  /** "T0" to "T9". */
  function TemporaryByDigit(c: char): RegName
  {
    match c
    case '0' => T0
    case '1' => T1
    case '2' => T2
    case '3' => T3
    case '4' => T4
    case '5' => T5
    case '6' => T6
    case '7' => T7
    case '8' => T8
    case '9' => T9
    case _ => ZERO
  }

  /** "S0" to "S7". */
  function SavedByDigit(c: char): RegName
  {
    match c
    case '0' => S0
    case '1' => S1
    case '2' => S2
    case '3' => S3
    case '4' => S4
    case '5' => S5
    case '6' => S6
    case '7' => S7
    case _ => ZERO
  }

  /** What `TemporaryByDigit` accepts is recognised and spelled "T" followed by that digit. */
  lemma TemporarySpelling(c: char)
    ensures TemporaryByDigit(c) != ZERO ==> Parsable(TemporaryByDigit(c)) && VariantName(TemporaryByDigit(c)) == "T" + [c]
  {
    if c < '4' {
      TemporarySpellingLow(c);
    } else if c < '7' {
      TemporarySpellingMid(c);
    } else {
      TemporarySpellingHigh(c);
    }
  }

  lemma TemporarySpellingLow(c: char)
    requires c < '4'
    ensures TemporaryByDigit(c) != ZERO ==> Parsable(TemporaryByDigit(c)) && VariantName(TemporaryByDigit(c)) == "T" + [c]
  {
  }

  lemma TemporarySpellingMid(c: char)
    requires '4' <= c && c < '7'
    ensures TemporaryByDigit(c) != ZERO ==> Parsable(TemporaryByDigit(c)) && VariantName(TemporaryByDigit(c)) == "T" + [c]
  {
  }

  lemma TemporarySpellingHigh(c: char)
    requires '7' <= c
    ensures TemporaryByDigit(c) != ZERO ==> Parsable(TemporaryByDigit(c)) && VariantName(TemporaryByDigit(c)) == "T" + [c]
  {
  }

  /** What `SavedByDigit` accepts is recognised and spelled "S" followed by that digit. */
  lemma SavedSpelling(c: char)
    ensures SavedByDigit(c) != ZERO ==> Parsable(SavedByDigit(c)) && VariantName(SavedByDigit(c)) == "S" + [c]
  {
    if c < '3' {
      SavedSpellingLow(c);
    } else if c < '6' {
      SavedSpellingMid(c);
    } else {
      SavedSpellingHigh(c);
    }
  }

  lemma SavedSpellingLow(c: char)
    requires c < '3'
    ensures SavedByDigit(c) != ZERO ==> Parsable(SavedByDigit(c)) && VariantName(SavedByDigit(c)) == "S" + [c]
  {
  }

  lemma SavedSpellingMid(c: char)
    requires '3' <= c && c < '6'
    ensures SavedByDigit(c) != ZERO ==> Parsable(SavedByDigit(c)) && VariantName(SavedByDigit(c)) == "S" + [c]
  {
  }

  lemma SavedSpellingHigh(c: char)
    requires '6' <= c
    ensures SavedByDigit(c) != ZERO ==> Parsable(SavedByDigit(c)) && VariantName(SavedByDigit(c)) == "S" + [c]
  {
  }

  /** "R10" to "R19". */
  function TeenByDigit(c: char): (r: RegName)
    ensures r != ZERO ==> VariantName(r) == "R1" + [c]
  {
    match c
    case '0' => R10
    case '1' => R11
    case '2' => R12
    case '3' => R13
    case '4' => R14
    case '5' => R15
    case '6' => R16
    case '7' => R17
    case '8' => R18
    case '9' => R19
    case _ => ZERO
  }

  /** "R20" to "R29". */
  function TwentiesByDigit(c: char): (r: RegName)
    ensures r != ZERO ==> VariantName(r) == "R2" + [c]
  {
    match c
    case '0' => R20
    case '1' => R21
    case '2' => R22
    case '3' => R23
    case '4' => R24
    case '5' => R25
    case '6' => R26
    case '7' => R27
    case '8' => R28
    case '9' => R29
    case _ => ZERO
  }

  /** "R30" and "R31". */
  function ThirtiesByDigit(c: char): (r: RegName)
    ensures r != ZERO ==> VariantName(r) == "R3" + [c]
  {
    match c
    case '0' => R30
    case '1' => R31
    case _ => ZERO
  }

  /** Whatever `StrToEnum` recognises is spelled exactly as the name it
      returns. */
  lemma StrToEnumSound(s: string)
    ensures StrToEnum(s) != ZERO ==> Parsable(StrToEnum(s)) && VariantName(StrToEnum(s)) == s
  {
    if |s| == 2 {
      assert s == [s[0]] + [s[1]];
      if s[0] == 'T' {
        TemporarySpelling(s[1]);
      } else if s[0] == 'S' {
        SavedSpelling(s[1]);
      }
    } else if |s| == 3 {
      assert s == [s[0], s[1]] + [s[2]];
    }
  }

  /** The text shown for a register that is not in `R##` form. */
  const Placeholder: string := "[NEED TO CONVERT REGISTER NAME TO R## FIRST]"

  /** `RegNames::to_str`: `Rk/<alias>` for a general register, the bare name
      for PC, HI and LO, and a placeholder for an alias variant, which never
      sits in the register file. */
  function ToStr(n: RegName): string
  {
    match n
    case R0 => "R0/Z"
    case R1 => "R1/At"
    case R2 => "R2/V0"
    case R3 => "R3/V1"
    case R4 => "R4/A0"
    case R5 => "R5/A1"
    case R6 => "R6/A2"
    case R7 => "R7/A3"
    case R8 => "R8/T0"
    case R9 => "R9/T1"
    case R10 => "R10/T2"
    case R11 => "R11/T3"
    case R12 => "R12/T4"
    case R13 => "R13/T5"
    case R14 => "R14/T6"
    case R15 => "R15/T7"
    case R16 => "R16/S0"
    case R17 => "R17/S1"
    case R18 => "R18/S2"
    case R19 => "R19/S3"
    case R20 => "R20/S4"
    case R21 => "R21/S5"
    case R22 => "R22/S6"
    case R23 => "R23/S7"
    case R24 => "R24/T8"
    case R25 => "R25/T9"
    case R26 => "R26/K0"
    case R27 => "R27/K1"
    case R28 => "R28/GP"
    case R29 => "R29/SP"
    case R30 => "R30/FP"
    case R31 => "R31/RA"
    case HI => "HI"
    case LO => "LO"
    case PC => "PC"
    case _ => Placeholder
  }

  /** `RegNames::register_align`: an alias becomes the general register it
      names; every other name is returned unchanged. */
  function RegisterAlign(n: RegName): (r: RegName)
    ensures !IsAlias(r)
    ensures !IsAlias(n) ==> r == n
    ensures IsAlias(n) ==> IsCanonical(r)
  {
    match n
    case ZERO => R0
    case At => R1
    case V0 => R2
    case V1 => R3
    case A0 => R4
    case A1 => R5
    case A2 => R6
    case A3 => R7
    case T0 => R8
    case T1 => R9
    case T2 => R10
    case T3 => R11
    case T4 => R12
    case T5 => R13
    case T6 => R14
    case T7 => R15
    case T8 => R24
    case T9 => R25
    case S0 => R16
    case S1 => R17
    case S2 => R18
    case S3 => R19
    case S4 => R20
    case S5 => R21
    case S6 => R22
    case S7 => R23
    case K0 => R26
    case K1 => R27
    case GP => R28
    case SP => R29
    case FP => R30
    case RA => R31
    case _ => n
  }

  /** `RegNames::idx_from_enum`: the slot of a general register; every other
      name (aliases, PC, HI, LO) gives slot 0. */
  function IdxFromEnum(n: RegName): (r: nat)
    ensures r < 32
    ensures !IsCanonical(n) ==> r == 0
  {
    match n
    case R0 => 0
    case R1 => 1
    case R2 => 2
    case R3 => 3
    case R4 => 4
    case R5 => 5
    case R6 => 6
    case R7 => 7
    case R8 => 8
    case R9 => 9
    case R10 => 10
    case R11 => 11
    case R12 => 12
    case R13 => 13
    case R14 => 14
    case R15 => 15
    case R16 => 16
    case R17 => 17
    case R18 => 18
    case R19 => 19
    case R20 => 20
    case R21 => 21
    case R22 => 22
    case R23 => 23
    case R24 => 24
    case R25 => 25
    case R26 => 26
    case R27 => 27
    case R28 => 28
    case R29 => 29
    case R30 => 30
    case R31 => 31
    case ZERO => 0
    case _ => 0
  }

  // ---------------------------------------------------------------------
  // Properties of the tables
  // ---------------------------------------------------------------------

  /** Slot indices and general registers are inverse: slot k holds `Rk`,
      whose spelled name is "R" followed by k in decimal. */
  lemma CanonicalSlot(k: nat)
    requires k < 32
    ensures IdxFromEnum(Canonical(k)) == k
    ensures VariantName(Canonical(k)) == "R" + Decimal(k)
  {
    SmallDecimal(k);
    if k < 16 { LowSlot(k); } else { HighSlot(k); }
  }

  lemma LowSlot(k: nat)
    requires k < 16
    ensures IdxFromEnum(Canonical(k)) == k
    ensures VariantName(Canonical(k)) == "R" + if k < 10 then [DigitChar(k)] else [DigitChar(k / 10), DigitChar(k % 10)]
  {
  }

  lemma HighSlot(k: nat)
    requires 16 <= k < 32
    ensures IdxFromEnum(Canonical(k)) == k
    ensures VariantName(Canonical(k)) == "R" + [DigitChar(k / 10), DigitChar(k % 10)]
  {
  }

  /** Conversely, every general register sits in the slot its index names. */
  lemma IndexedSlot(n: RegName)
    requires IsCanonical(n)
    ensures Canonical(IdxFromEnum(n)) == n
  {
  }

  lemma SmallDecimal(k: nat)
    requires k < 100
    ensures Decimal(k) == if k < 10 then [DigitChar(k)] else [DigitChar(k / 10), DigitChar(k % 10)]
  {
    assert Decimal(k) == NatDigits(k);
    if k >= 10 {
      assert NatDigits(k / 10) == [DigitChar(k / 10)];
    }
  }

  /** Aligning twice is aligning once. */
  lemma AlignIdempotent(n: RegName)
    ensures RegisterAlign(RegisterAlign(n)) == RegisterAlign(n)
  {
  }

  /** `register_align` and `to_str` agree: the general register an alias is
      aligned to displays that very alias after its slot name (the zero
      register's alias is displayed as "Z"). */
  lemma AlignAgreesWithDisplay(a: RegName)
    requires IsAlias(a)
    ensures ToStr(RegisterAlign(a)) == VariantName(RegisterAlign(a)) + "/" + (if a == ZERO then "Z" else VariantName(a))
  {
  }

  /** PC, HI and LO display as their bare names; an alias variant
      displays as the placeholder. */
  lemma DisplayOfNonGeneral(n: RegName)
    ensures IsSpecial(n) ==> ToStr(n) == VariantName(n)
    ensures IsAlias(n) ==> ToStr(n) == Placeholder
  {
  }

  /** No two aliases name the same slot. */
  lemma AlignInjectiveOnAliases(a: RegName, b: RegName)
    requires IsAlias(a) && IsAlias(b) && a != b
    ensures RegisterAlign(a) != RegisterAlign(b)
  {
    AlignAgreesWithDisplay(a);
    AlignAgreesWithDisplay(b);
  }

  /** Every recognised spelling parses to its own name. */
  lemma StrToEnumParses(n: RegName)
    requires Parsable(n)
    ensures StrToEnum(VariantName(n)) == n
  {
    match n
    case R1 | R2 | R3 | R4 | R5 | R6 | R7 | R8 | R9 => ParsesGeneral(n);
    case R10 | R11 | R12 | R13 | R14 | R15 | R16 | R17 | R18 | R19 => ParsesTeens(n);
    case R20 | R21 | R22 | R23 | R24 | R25 | R26 | R27 | R28 | R29 => ParsesTwenties(n);
    case R30 | R31 => ParsesThirties(n);
    case T0 | T1 | T2 | T3 | T4 => ParsesTemporaryLow(n);
    case T5 | T6 | T7 | T8 | T9 => ParsesTemporaryHigh(n);
    case S0 | S1 | S2 | S3 => ParsesSavedLow(n);
    case S4 | S5 | S6 | S7 => ParsesSavedHigh(n);
    case PC | HI | LO =>
  }

  // The round trip of `StrToEnumParses`, family by family: each spelling
  // leads `StrToEnum` to the digit table of its family.

  lemma ParsesGeneral(n: RegName)
    requires n.R1? || n.R2? || n.R3? || n.R4? || n.R5? || n.R6? || n.R7? || n.R8? || n.R9?
    ensures StrToEnum(VariantName(n)) == n
  {
    var s := VariantName(n);
    assert |s| == 2 && s[0] == 'R';
    assert StrToEnum(s) == GeneralByDigit(s[1]);
  }

  lemma ParsesTeens(n: RegName)
    requires n.R10? || n.R11? || n.R12? || n.R13? || n.R14? || n.R15? || n.R16? || n.R17? ||
      n.R18? || n.R19?
    ensures StrToEnum(VariantName(n)) == n
  {
    var s := VariantName(n);
    assert |s| == 3 && s[0] == 'R' && s[1] == '1';
    assert StrToEnum(s) == TeenByDigit(s[2]);
  }

  lemma ParsesTwenties(n: RegName)
    requires n.R20? || n.R21? || n.R22? || n.R23? || n.R24? || n.R25? || n.R26? || n.R27? ||
      n.R28? || n.R29?
    ensures StrToEnum(VariantName(n)) == n
  {
    var s := VariantName(n);
    assert |s| == 3 && s[0] == 'R' && s[1] == '2';
    assert StrToEnum(s) == TwentiesByDigit(s[2]);
  }

  lemma ParsesThirties(n: RegName)
    requires n.R30? || n.R31?
    ensures StrToEnum(VariantName(n)) == n
  {
    var s := VariantName(n);
    assert |s| == 3 && s[0] == 'R' && s[1] == '3';
    assert StrToEnum(s) == ThirtiesByDigit(s[2]);
  }

  lemma ParsesTemporaryLow(n: RegName)
    requires n.T0? || n.T1? || n.T2? || n.T3? || n.T4?
    ensures StrToEnum(VariantName(n)) == n
  {
    var s := VariantName(n);
    assert |s| == 2 && s[0] == 'T';
    assert StrToEnum(s) == TemporaryByDigit(s[1]);
  }

  lemma ParsesTemporaryHigh(n: RegName)
    requires n.T5? || n.T6? || n.T7? || n.T8? || n.T9?
    ensures StrToEnum(VariantName(n)) == n
  {
    var s := VariantName(n);
    assert |s| == 2 && s[0] == 'T';
    assert StrToEnum(s) == TemporaryByDigit(s[1]);
  }

  lemma ParsesSavedLow(n: RegName)
    requires n.S0? || n.S1? || n.S2? || n.S3?
    ensures StrToEnum(VariantName(n)) == n
  {
    var s := VariantName(n);
    assert |s| == 2 && s[0] == 'S';
    assert StrToEnum(s) == SavedByDigit(s[1]);
  }

  lemma ParsesSavedHigh(n: RegName)
    requires n.S4? || n.S5? || n.S6? || n.S7?
    ensures StrToEnum(VariantName(n)) == n
  {
    var s := VariantName(n);
    assert |s| == 2 && s[0] == 'S';
    assert StrToEnum(s) == SavedByDigit(s[1]);
  }

  /** A text is mapped to `ZERO` exactly when it spells no recognised name. */
  lemma StrToEnumDefault(s: string)
    ensures StrToEnum(s) == ZERO <==> forall n :: Parsable(n) ==> VariantName(n) != s
  {
    var r := StrToEnum(s);
    if r == ZERO {
      forall n | Parsable(n) ensures VariantName(n) != s {
        StrToEnumParses(n);
      }
    } else {
      StrToEnumSound(s);
      assert Parsable(r) && VariantName(r) == s;
    }
  }

  /** Lower-case spellings, the zero register's own names and `$`-prefixed
      names are not recognised. */
  lemma StrToEnumExamples()
    ensures StrToEnum("R0") == ZERO && StrToEnum("ZERO") == ZERO
    ensures StrToEnum("t0") == ZERO && StrToEnum("$t0") == ZERO && StrToEnum("$T0") == ZERO
    ensures StrToEnum("T0") == T0 && StrToEnum("R31") == R31
  {
  }

  /** Parsing "Rk", then aligning, then indexing yields slot k. */
  lemma ParsedGeneralSlot(k: nat)
    requires k < 32
    ensures IdxFromEnum(RegisterAlign(StrToEnum("R" + Decimal(k)))) == k
  {
    CanonicalSlot(k);
    if k != 0 {
      StrToEnumParses(Canonical(k));
    }
  }

  /** Parsing "Tk" gives slot 8+k for k < 8, and slots 24 and 25 for T8 and T9. */
  lemma ParsedTemporarySlot(k: nat)
    requires k < 10
    ensures IdxFromEnum(RegisterAlign(StrToEnum("T" + Decimal(k)))) == if k < 8 then 8 + k else 16 + k
  {
    SmallDecimal(k);
  }

  /** Parsing "Sk" gives slot 16+k. */
  lemma ParsedSavedSlot(k: nat)
    requires k < 8
    ensures IdxFromEnum(RegisterAlign(StrToEnum("S" + Decimal(k)))) == 16 + k
  {
    SmallDecimal(k);
  }

  // ---------------------------------------------------------------------
  // The register record
  // ---------------------------------------------------------------------

  /** `Register`: a signed 32-bit value and the register's name. */
  datatype Register = Register(value: i32, name: RegName)

  /** `get_u32`: the value's 32 bits read as unsigned. */
  function GetU32(r: Register): (w: u32)
    ensures w == r.value % TWO_32
  {
    I32AsU32(r.value)
  }

  /** `set_u32`: stores the 32 bits of `w`; reading them back gives `w`. */
  function SetU32(r: Register, w: u32): (r': Register)
    ensures r'.name == r.name
    ensures GetU32(r') == w
  {
    r.(value := U32AsI32(w))
  }

  /** `add_u32`: wrapping unsigned addition to the value. */
  function AddU32(r: Register, k: u32): (r': Register)
    ensures r'.name == r.name
    ensures GetU32(r') == (GetU32(r) + k) % TWO_32
  {
    SetU32(r, WrapU32(GetU32(r) + k))
  }

  /** `Register::new`: a zero-valued register of the given name. */
  function NewRegister(n: RegName): (r: Register)
    ensures r.name == n && GetU32(r) == 0
  {
    Register(0, n)
  }

  /** A new register displays its label and 0. */
  lemma NewRegisterDisplay(n: RegName)
    ensures DisplayString(NewRegister(n)) == ToStr(n) + ": 0"
  {
    assert Decimal(0) == "0";
  }

  /** `display_string`: the register's label, a colon and a space, then the
      signed decimal value in canonical form, which parses back to the value
      (by `DecimalUnique`, that pins the text to `Display`'s). */
  function DisplayString(r: Register): (d: string)
    ensures StartsWith(d, ToStr(r.name) + ": ")
    ensures ParseI32(d[|ToStr(r.name)| + 2..]) == Some(r.value)
    ensures CanonicalDecimal(d[|ToStr(r.name)| + 2..])
  {
    var d := ToStr(r.name) + ": " + Decimal(r.value);
    assert d[|ToStr(r.name)| + 2..] == Decimal(r.value);
    DecimalParsesBack(r.value);
    d
  }
}
