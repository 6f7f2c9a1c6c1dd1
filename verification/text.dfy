/**
 * The pieces of the Rust standard library (and of the `regex` crate) that the
 * simulator leans on, stated as functions over `string`: `str::trim`,
 * `str::starts_with`, splitting on the pattern `[=\s]+`, `str::parse` for
 * `i32` and `u32`, the decimal `Display` of integers, `str::lines`, and the
 * `as` casts between `i32` and `u32`.
 */
module RustStd {

  /** Rust's `Option`. */
  datatype Option<T> = None | Some(value: T)

  const TWO_32: int := 0x1_0000_0000

  /** Rust's fixed-width integers. Bit masks on them are written as division
      and remainder by powers of two. */
  type u8 = x: int | 0 <= x < 0x100
  type u16 = x: int | 0 <= x < 0x1_0000
  type u32 = x: int | 0 <= x < 0x1_0000_0000
  type i16 = x: int | -0x8000 <= x < 0x8000
  type i32 = x: int | -0x8000_0000 <= x < 0x8000_0000

  /** Release-mode wrapping of a `u32` result (`wrapping_add`). */
  function WrapU32(x: int): (w: u32)
    ensures 0 <= x < TWO_32 ==> w == x
  {
    x % TWO_32
  }

  // ---------------------------------------------------------------------
  // `as` casts between i32 and u32 (two's complement reinterpretation)
  // ---------------------------------------------------------------------

  /** `v as u32`: the unsigned word with the same 32 bits. */
  function I32AsU32(v: i32): (w: u32)
    ensures w == v % TWO_32
  {
    if v < 0 then v + TWO_32 else v
  }

  /** `w as i32`: the signed integer with the same 32 bits. */
  function U32AsI32(w: u32): (v: i32)
    ensures v % TWO_32 == w
    ensures v < 0 <==> w >= 0x8000_0000
  {
    if w < 0x8000_0000 then w else w - TWO_32
  }

  /** The two casts are inverse bijections. */
  lemma CastsRoundTrip(v: i32, w: u32)
    ensures U32AsI32(I32AsU32(v)) == v
    ensures I32AsU32(U32AsI32(w)) == w
  {
  }

  /** `v as u16` for an `i32`: the low 16 bits of its two's complement. */
  function I32AsU16(v: i32): u16
  {
    v % 0x1_0000
  }

  /** `x as u8`: the low 8 bits. */
  function AsU8(x: int): u8
  {
    x % 0x100
  }

  lemma AsU8OfByte(x: int)
    requires 0 <= x < 0x100
    ensures AsU8(x) == x
  {
  }

  // ---------------------------------------------------------------------
  // Characters
  // ---------------------------------------------------------------------

  /** Unicode `White_Space`, the class behind both `char::is_whitespace`
      (used by `trim`) and the regex class `\s`. */
  predicate IsWhitespace(c: char)
  {
    ('\U{0009}' <= c <= '\U{000D}') || c == '\U{0020}' || c == '\U{0085}' || c == '\U{00A0}'
    || c == '\U{1680}' || ('\U{2000}' <= c <= '\U{200A}') || c == '\U{2028}'
    || c == '\U{2029}' || c == '\U{202F}' || c == '\U{205F}' || c == '\U{3000}'
  }

  predicate IsAsciiLetter(c: char)
  {
    ('A' <= c <= 'Z') || ('a' <= c <= 'z')
  }

  predicate IsDigit(c: char)
  {
    '0' <= c <= '9'
  }

  function DigitValue(c: char): (d: nat)
    requires IsDigit(c)
    ensures d < 10
  {
    c as int - '0' as int
  }

  function DigitChar(d: nat): (c: char)
    requires d < 10
    ensures IsDigit(c) && DigitValue(c) == d
  {
    ('0' as int + d) as char
  }

  /** ASCII lower-casing of one character. */
  function LowerChar(c: char): char
  {
    if 'A' <= c <= 'Z' then (c as int + 32) as char else c
  }

  /** Lower-cases every ASCII capital of `s`, leaving other characters alone. */
  function AsciiLower(s: string): (r: string)
    ensures |r| == |s|
    ensures forall i :: 0 <= i < |s| ==> r[i] == LowerChar(s[i])
  {
    seq(|s|, i requires 0 <= i < |s| => LowerChar(s[i]))
  }

  /** Text without ASCII capitals is its own lower case. */
  lemma AsciiLowerOfLower(s: string)
    requires forall i :: 0 <= i < |s| ==> !('A' <= s[i] <= 'Z')
    ensures AsciiLower(s) == s
  {
  }

  /** Lower-casing twice is lower-casing once. */
  lemma AsciiLowerIdempotent(s: string)
    ensures AsciiLower(AsciiLower(s)) == AsciiLower(s)
  {
  }

  // ---------------------------------------------------------------------
  // str::starts_with, str::trim
  // ---------------------------------------------------------------------

  predicate StartsWith(s: string, prefix: string)
  {
    |prefix| <= |s| && s[..|prefix|] == prefix
  }

  /** `str::trim_start`: drops the longest whitespace prefix. */
  function TrimStart(s: string): (r: string)
    ensures |r| <= |s| && r == s[|s| - |r|..]
    ensures r == [] || !IsWhitespace(r[0])
    ensures forall i :: 0 <= i < |s| - |r| ==> IsWhitespace(s[i])
  {
    if s != [] && IsWhitespace(s[0]) then TrimStart(s[1..]) else s
  }

  /** `str::trim_end`: drops the longest whitespace suffix. */
  function TrimEnd(s: string): (r: string)
    ensures |r| <= |s| && r == s[..|r|]
    ensures r == [] || !IsWhitespace(r[|r| - 1])
    ensures forall i :: |r| <= i < |s| ==> IsWhitespace(s[i])
  {
    if s != [] && IsWhitespace(s[|s| - 1]) then TrimEnd(s[..|s| - 1]) else s
  }

  /** `str::trim`. */
  function Trim(s: string): (r: string)
    ensures r == [] || (!IsWhitespace(r[0]) && !IsWhitespace(r[|r| - 1]))
  {
    TrimEnd(TrimStart(s))
  }

  /** A string without whitespace at either end is its own trim. */
  lemma TrimNoWhitespace(s: string)
    requires forall i :: 0 <= i < |s| ==> !IsWhitespace(s[i])
    ensures Trim(s) == s
  {
  }

  // ---------------------------------------------------------------------
  // Regex split on `[=\s]+`
  // ---------------------------------------------------------------------

  predicate IsSeparator(c: char)
  {
    c == '=' || IsWhitespace(c)
  }

  /** `s` with its leading run of separators removed. */
  function SkipSeparators(s: string): (r: string)
    ensures |r| <= |s| && r == s[|s| - |r|..]
    ensures r == [] || !IsSeparator(r[0])
  {
    if s != [] && IsSeparator(s[0]) then SkipSeparators(s[1..]) else s
  }

  /** The pieces of `s` between maximal runs of separators, the current
      piece so far being `piece`. */
  function SplitFrom(s: string, piece: string): (r: seq<string>)
    requires forall i :: 0 <= i < |piece| ==> !IsSeparator(piece[i])
    ensures |r| >= 1
    ensures forall k, i :: 0 <= k < |r| && 0 <= i < |r[k]| ==> !IsSeparator(r[k][i])
    decreases |s|
  {
    if s == [] then [piece]
    else if IsSeparator(s[0]) then [piece] + SplitFrom(SkipSeparators(s), "")
    else SplitFrom(s[1..], piece + [s[0]])
  }

  /** `Regex::new("[=\\s]+").split(s)` as a sequence: the pieces between
      maximal runs of `=` and whitespace. A leading (trailing) run yields an
      empty first (last) piece. No piece contains a separator. */
  function Split(s: string): (r: seq<string>)
    ensures |r| >= 1
    ensures forall k, i :: 0 <= k < |r| && 0 <= i < |r[k]| ==> !IsSeparator(r[k][i])
  {
    SplitFrom(s, "")
  }

  /** A line without separators is a single piece. */
  lemma {:induction false} SplitWithoutSeparators(s: string, piece: string)
    requires forall i :: 0 <= i < |piece| ==> !IsSeparator(piece[i])
    requires forall i :: 0 <= i < |s| ==> !IsSeparator(s[i])
    ensures SplitFrom(s, piece) == [piece + s]
    decreases |s|
  {
    if s != [] {
      var piece' := piece + [s[0]];
      assert !IsSeparator(s[0]);
      assert SplitFrom(s, piece) == SplitFrom(s[1..], piece');
      SplitWithoutSeparators(s[1..], piece');
      assert piece' + s[1..] == piece + s;
    } else {
      assert piece + s == piece;
    }
  }

  lemma {:induction false} SkipSpaces(spaces: string, rest: string)
    requires forall i :: 0 <= i < |spaces| ==> spaces[i] == ' '
    requires rest == [] || !IsSeparator(rest[0])
    ensures SkipSeparators(spaces + rest) == rest
    decreases |spaces|
  {
    if spaces != [] {
      assert IsSeparator((spaces + rest)[0]);
      assert (spaces + rest)[1..] == spaces[1..] + rest;
      SkipSpaces(spaces[1..], rest);
    }
  }

  lemma AppendAssoc(a: string, b: string, c: string)
    ensures (a + b) + c == a + (b + c)
  {
  }

  lemma {:induction false} SplitKeyword(keyword: string, piece: string, rest: string)
    requires forall i :: 0 <= i < |piece| ==> !IsSeparator(piece[i])
    requires forall i :: 0 <= i < |keyword| ==> !IsSeparator(keyword[i])
    requires rest != [] && IsSeparator(rest[0])
    ensures SplitFrom(keyword + rest, piece) == [piece + keyword] + SplitFrom(SkipSeparators(rest), "")
    decreases |keyword|
  {
    if keyword == [] {
      assert keyword + rest == rest;
      assert piece + keyword == piece;
    } else {
      var s := keyword + rest;
      var piece' := piece + [keyword[0]];
      assert s[0] == keyword[0] && !IsSeparator(s[0]);
      assert s[1..] == keyword[1..] + rest;
      assert SplitFrom(s, piece) == SplitFrom(s[1..], piece');
      SplitKeyword(keyword[1..], piece', rest);
      assert keyword == [keyword[0]] + keyword[1..];
      AppendAssoc(piece, [keyword[0]], keyword[1..]);
    }
  }

  /** A piece without separators, then a run of separators and a last piece
      without separators, split into exactly those two pieces. */
  lemma SplitTwo(first: string, rest: string)
    requires forall i :: 0 <= i < |first| ==> !IsSeparator(first[i])
    requires rest != [] && IsSeparator(rest[0])
    requires forall i :: 0 <= i < |SkipSeparators(rest)| ==> !IsSeparator(SkipSeparators(rest)[i])
    ensures Split(first + rest) == [first, SkipSeparators(rest)]
  {
    var last := SkipSeparators(rest);
    SplitKeyword(first, "", rest);
    SplitWithoutSeparators(last, "");
    assert "" + first == first && "" + last == last;
  }

  /** A keyword, one run of spaces and an operand split into exactly those two
      pieces. */
  lemma SplitKeywordOperand(keyword: string, spaces: string, operand: string)
    requires keyword != [] && spaces != [] && operand != []
    requires forall i :: 0 <= i < |keyword| ==> !IsSeparator(keyword[i])
    requires forall i :: 0 <= i < |spaces| ==> spaces[i] == ' '
    requires forall i :: 0 <= i < |operand| ==> !IsSeparator(operand[i])
    ensures Split(keyword + spaces + operand) == [keyword, operand]
  {
    AppendAssoc(keyword, spaces, operand);
    SkipSpaces(spaces, operand);
    SplitTwo(keyword, spaces + operand);
  }

  /** A name, one separator and an operand split into exactly those two
      pieces. */
  lemma SplitNameOperand(name: string, sep: char, operand: string)
    requires IsSeparator(sep) && operand != []
    requires forall i :: 0 <= i < |name| ==> !IsSeparator(name[i])
    requires forall i :: 0 <= i < |operand| ==> !IsSeparator(operand[i])
    ensures Split(name + [sep] + operand) == [name, operand]
  {
    AppendAssoc(name, [sep], operand);
    assert ([sep] + operand)[1..] == operand;
    assert SkipSeparators([sep] + operand) == operand;
    SplitTwo(name, [sep] + operand);
  }

  // ---------------------------------------------------------------------
  // Decimal rendering (`Display` for integers) and parsing (`str::parse`)
  // ---------------------------------------------------------------------

  predicate AllDigits(s: string)
  {
    forall i :: 0 <= i < |s| ==> IsDigit(s[i])
  }

  /** The value of a string of decimal digits, most significant first. */
  function DigitsValue(s: string): nat
    requires AllDigits(s)
  {
    if s == [] then 0 else DigitsValue(s[..|s| - 1]) * 10 + DigitValue(s[|s| - 1])
  }

  /** The shortest decimal digit string of `n`. */
  function NatDigits(n: nat): (r: string)
    ensures r != [] && AllDigits(r)
    ensures |r| > 1 ==> r[0] != '0'
    decreases n
  {
    if n < 10 then [DigitChar(n)] else NatDigits(n / 10) + [DigitChar(n % 10)]
  }

  /** The form `Display` gives an integer: digits with no leading zero (a
      lone `0` aside), preceded by a minus sign only for a nonzero magnitude;
      no `+` and no `-0`. */
  predicate CanonicalDecimal(s: string)
  {
    if s != [] && s[0] == '-' then |s| > 1 && AllDigits(s[1..]) && s[1] != '0'
    else s != [] && AllDigits(s) && (|s| > 1 ==> s[0] != '0')
  }

  /** Rust's `{}` formatting of an integer: a minus sign for negative values,
      then the digits without leading zeros. */
  function Decimal(n: int): (r: string)
    ensures CanonicalDecimal(r)
    ensures n < 0 <==> r[0] == '-'
  {
    if n < 0 then
      var d := NatDigits(-n);
      assert |d| == 1 ==> d[0] == DigitChar(-n) && DigitValue(d[0]) != 0;
      assert ("-" + d)[1..] == d;
      "-" + d
    else NatDigits(n)
  }

  /** A digit string without a leading zero is the shortest rendering of its
      value. */
  lemma {:induction false} DigitsCanonical(s: string)
    requires s != [] && AllDigits(s) && (|s| > 1 ==> s[0] != '0')
    ensures NatDigits(DigitsValue(s)) == s
    ensures |s| > 1 ==> DigitsValue(s) >= 10
    decreases |s|
  {
    var p := s[..|s| - 1];
    var c := s[|s| - 1];
    if |s| == 1 {
      assert p == [];
      assert DigitChar(DigitValue(c)) == c;
    } else {
      assert p[0] == s[0];
      if |p| > 1 {
        DigitsCanonical(p);
      } else {
        assert p == [s[0]];
        assert DigitsValue(p) == DigitValue(s[0]) >= 1;
        assert NatDigits(DigitsValue(p)) == [DigitChar(DigitValue(s[0]))] == p;
      }
      var n := DigitsValue(s);
      assert n == DigitsValue(p) * 10 + DigitValue(c);
      assert n / 10 == DigitsValue(p) && n % 10 == DigitValue(c);
      assert DigitChar(DigitValue(c)) == c;
      assert s == p + [c];
    }
  }

  /** `Display` is the only canonical spelling of a value: a canonical
      numeral that parses to `v` is exactly `Decimal(v)`. */
  lemma DecimalUnique(s: string, v: i32)
    requires CanonicalDecimal(s) && ParseI32(s) == Some(v)
    ensures s == Decimal(v)
  {
    if s[0] == '-' {
      var d := s[1..];
      DigitsCanonical(d);
      assert v == -(DigitsValue(d) as int);
      assert DigitsValue(d) >= 1 by {
        if |d| == 1 { assert DigitsValue(d) == DigitValue(d[0]); }
      }
      assert s == "-" + d;
    } else {
      DigitsCanonical(s);
    }
  }

  lemma {:induction false} NatDigitsValue(n: nat)
    ensures DigitsValue(NatDigits(n)) == n
    decreases n
  {
    if n >= 10 {
      var r := NatDigits(n);
      NatDigitsValue(n / 10);
      assert r[..|r| - 1] == NatDigits(n / 10);
    }
  }

  /** A rendering consists of digits and at most a minus sign. */
  lemma DecimalChars(n: int)
    ensures forall i :: 0 <= i < |Decimal(n)| ==> Decimal(n)[i] == '-' || IsDigit(Decimal(n)[i])
  {
    var r := Decimal(n);
    forall i | 0 <= i < |r|
      ensures r[i] == '-' || IsDigit(r[i])
    {
      if n < 0 && i > 0 {
        assert r[1..][i - 1] == r[i];
      }
    }
  }

  /** So it contains no newline, no whitespace and no `=`. */
  lemma DecimalHasNoSeparator(n: int)
    ensures '\n' !in Decimal(n)
    ensures forall i :: 0 <= i < |Decimal(n)| ==> !IsSeparator(Decimal(n)[i]) && Decimal(n)[i] != ':'
  {
    DecimalChars(n);
  }

  /** `str::parse::<i32>`: an optional `+` or `-`, then at least one ASCII
      digit and nothing else; the value must fit in 32 signed bits. */
  function ParseI32(s: string): (r: Option<i32>)
    ensures r.Some? ==> s != [] && (r.value < 0 ==> s[0] == '-')
  {
    if s == [] then None
    else if (s[0] == '+' || s[0] == '-') && |s| == 1 then None
    else
      var digits := if s[0] == '+' || s[0] == '-' then s[1..] else s;
      if !AllDigits(digits) then None
      else
        var v: int := if s[0] == '-' then -(DigitsValue(digits) as int) else DigitsValue(digits);
        if -0x8000_0000 <= v < 0x8000_0000 then Some(v) else None
  }

  /** `str::parse::<u32>`: an optional `+` (a `-` is rejected), then at least
      one ASCII digit; the value must fit in 32 unsigned bits. */
  function ParseU32(s: string): (r: Option<u32>)
    ensures r.Some? ==> s != [] && s[0] != '-'
  {
    if s == [] then None
    else if s[0] == '+' && |s| == 1 then None
    else
      var digits := if s[0] == '+' then s[1..] else s;
      if !AllDigits(digits) then None
      else if DigitsValue(digits) < TWO_32 then Some(DigitsValue(digits)) else None
  }

  /** Parsing what `Display` printed gives the value back. */
  lemma DecimalParsesBack(v: i32)
    ensures ParseI32(Decimal(v)) == Some(v)
  {
    var s := Decimal(v);
    if v < 0 {
      var d := NatDigits(-(v as int));
      NatDigitsValue(-(v as int));
      assert s == "-" + d;
      assert s[1..] == d;
      assert |s| > 1;
    } else {
      NatDigitsValue(v);
      assert s == NatDigits(v);
      assert s[0] != '-' && s[0] != '+';
    }
  }

  /** Same for an unsigned word. */
  lemma DecimalParsesBackU32(w: u32)
    ensures ParseU32(Decimal(w)) == Some(w)
  {
    NatDigitsValue(w);
  }

  // ---------------------------------------------------------------------
  // str::lines
  // ---------------------------------------------------------------------

  /** Index of the first `'\n'` in `s`, or `|s|` when there is none. */
  function NewlineIndex(s: string): (i: nat)
    ensures i <= |s|
    ensures i < |s| ==> s[i] == '\n'
    ensures forall j :: 0 <= j < i ==> s[j] != '\n'
  {
    if s == [] then 0 else if s[0] == '\n' then 0 else 1 + NewlineIndex(s[1..])
  }

  /** Removes one trailing carriage return (the `\r` of a `\r\n` ending). */
  function StripCR(s: string): string
  {
    if s != [] && s[|s| - 1] == '\r' then s[..|s| - 1] else s
  }

  /** `str::lines`: split at `\n` (dropping the `\r` of `\r\n`); a final line
      ending is optional and yields no empty last line. */
  function Lines(s: string): (r: seq<string>)
    ensures s == [] <==> r == []
    decreases |s|
  {
    if s == [] then []
    else
      var i := NewlineIndex(s);
      if i == |s| then [s] else [StripCR(s[..i])] + Lines(s[i + 1..])
  }

  /** A line without a line break (and not ending in a carriage return),
      then `\n`, then the rest: the line comes first. */
  lemma LinesCons(d: string, rest: string)
    requires '\n' !in d && (d == [] || d[|d| - 1] != '\r')
    ensures Lines(d + "\n" + rest) == [d] + Lines(rest)
  {
    var s := d + "\n" + rest;
    var i := NewlineIndex(s);
    assert s[|d|] == '\n';
    assert s[..i] == d;
    assert s[i + 1..] == rest;
  }
}
