/**
 * Bitwise `&`, `|`, `>>` and `<<` on unsigned integers, defined bit by bit
 * from the least significant end, and the facts that let a mask be read as
 * a field: `&` and `|` commute with shifting right and with keeping the low
 * bits, a mask of low ones keeps the low bits, and a shifted mask keeps the
 * corresponding shifted field.
 */
module Bits {

  function Pow2(n: nat): (r: nat)
    ensures r >= 1
  {
    if n == 0 then 1 else 2 * Pow2(n - 1)
  }

  /** `a & b`. */
  function BitAnd(a: nat, b: nat): (r: nat)
    ensures r <= a && r <= b
    decreases a
  {
    if a == 0 || b == 0 then 0
    else 2 * BitAnd(a / 2, b / 2) + (if a % 2 == 1 && b % 2 == 1 then 1 else 0)
  }

  /** `a | b`. */
  function BitOr(a: nat, b: nat): (r: nat)
    ensures r >= a && r >= b
    decreases a
  {
    if a == 0 then b
    else if b == 0 then a
    else 2 * BitOr(a / 2, b / 2) + (if a % 2 == 1 || b % 2 == 1 then 1 else 0)
  }

  /** `x >> n`. */
  function Shr(x: nat, n: nat): nat
  {
    if n == 0 then x else Shr(x / 2, n - 1)
  }

  /** `x << n`, without truncation. */
  function Shl(x: nat, n: nat): nat
  {
    if n == 0 then x else 2 * Shl(x, n - 1)
  }

  /** The low `n` bits of `x` (`x & (2^n - 1)`, proved in `AndOnes`). */
  function Low(x: nat, n: nat): (r: nat)
    ensures r < Pow2(n)
  {
    if n == 0 then 0 else 2 * Low(x / 2, n - 1) + x % 2
  }

  /** `2^n - 1`: `n` one bits. */
  function Ones(n: nat): nat
  {
    if n == 0 then 0 else 2 * Ones(n - 1) + 1
  }

  // ---------------------------------------------------------------------
  // One bit at a time
  // ---------------------------------------------------------------------

  lemma AndStep(a: nat, b: nat)
    ensures BitAnd(a, b) == 2 * BitAnd(a / 2, b / 2) + (if a % 2 == 1 && b % 2 == 1 then 1 else 0)
  {
  }

  lemma OrStep(a: nat, b: nat)
    ensures BitOr(a, b) == 2 * BitOr(a / 2, b / 2) + (if a % 2 == 1 || b % 2 == 1 then 1 else 0)
  {
  }

  /** `y` is `x` with one more bit below. */
  lemma Halves(y: nat, x: nat)
    requires y == 2 * x || y == 2 * x + 1
    ensures y / 2 == x
  {
  }

  lemma LowStep(x: nat, n: nat)
    requires n > 0
    ensures Low(x, n) / 2 == Low(x / 2, n - 1) && Low(x, n) % 2 == x % 2
  {
  }

  // ---------------------------------------------------------------------
  // Fields
  // ---------------------------------------------------------------------

  /** `(a & b) >> n == (a >> n) & (b >> n)`. */
  lemma {:induction false} AndShr(a: nat, b: nat, n: nat)
    ensures Shr(BitAnd(a, b), n) == BitAnd(Shr(a, n), Shr(b, n))
  {
    if n > 0 {
      AndStep(a, b);
      AndShr(a / 2, b / 2, n - 1);
    }
  }

  /** The low bits of `a & b` are the `&` of the low bits. */
  lemma {:induction false} AndLow(a: nat, b: nat, n: nat)
    ensures Low(BitAnd(a, b), n) == BitAnd(Low(a, n), Low(b, n))
  {
    if n > 0 {
      var c := BitAnd(a, b);
      AndStep(a, b);
      Halves(c, BitAnd(a / 2, b / 2));
      assert c % 2 == (if a % 2 == 1 && b % 2 == 1 then 1 else 0);
      AndLow(a / 2, b / 2, n - 1);
      assert Low(c, n) == 2 * BitAnd(Low(a / 2, n - 1), Low(b / 2, n - 1)) + (if a % 2 == 1 && b % 2 == 1 then 1 else 0);
      LowStep(a, n);
      LowStep(b, n);
      AndStep(Low(a, n), Low(b, n));
      assert BitAnd(Low(a, n), Low(b, n)) == 2 * BitAnd(Low(a / 2, n - 1), Low(b / 2, n - 1)) + (if a % 2 == 1 && b % 2 == 1 then 1 else 0);
    }
  }

  /** `(a | b) >> n == (a >> n) | (b >> n)`. */
  lemma {:induction false} OrShr(a: nat, b: nat, n: nat)
    ensures Shr(BitOr(a, b), n) == BitOr(Shr(a, n), Shr(b, n))
  {
    if n > 0 {
      OrStep(a, b);
      OrShr(a / 2, b / 2, n - 1);
    }
  }

  /** The low bits of `a | b` are the `|` of the low bits. */
  lemma {:induction false} OrLow(a: nat, b: nat, n: nat)
    ensures Low(BitOr(a, b), n) == BitOr(Low(a, n), Low(b, n))
  {
    if n > 0 {
      var c := BitOr(a, b);
      OrStep(a, b);
      Halves(c, BitOr(a / 2, b / 2));
      assert c % 2 == (if a % 2 == 1 || b % 2 == 1 then 1 else 0);
      OrLow(a / 2, b / 2, n - 1);
      assert Low(c, n) == 2 * BitOr(Low(a / 2, n - 1), Low(b / 2, n - 1)) + (if a % 2 == 1 || b % 2 == 1 then 1 else 0);
      LowStep(a, n);
      LowStep(b, n);
      OrStep(Low(a, n), Low(b, n));
      assert BitOr(Low(a, n), Low(b, n)) == 2 * BitOr(Low(a / 2, n - 1), Low(b / 2, n - 1)) + (if a % 2 == 1 || b % 2 == 1 then 1 else 0);
    }
  }

  /** A mask of `n` low ones keeps exactly the low `n` bits. */
  lemma {:induction false} AndOnes(a: nat, n: nat)
    ensures BitAnd(a, Ones(n)) == Low(a, n)
  {
    if n > 0 {
      AndStep(a, Ones(n));
      AndOnes(a / 2, n - 1);
    }
  }

  /** A mask shifted left by `n` keeps the field above bit `n`, in place. */
  lemma {:induction false} AndShl(a: nat, m: nat, n: nat)
    ensures BitAnd(a, Shl(m, n)) == Shl(BitAnd(Shr(a, n), m), n)
  {
    if n > 0 {
      AndStep(a, Shl(m, n));
      AndShl(a / 2, m, n - 1);
    }
  }

  /** A value that already fits in `n` bits is its own low part. */
  lemma {:induction false} LowOfSmall(x: nat, n: nat)
    requires x < Pow2(n)
    ensures Low(x, n) == x
  {
    if n > 0 {
      LowOfSmall(x / 2, n - 1);
    }
  }

  /** Shifting an `m`-bit value right by `n` leaves `m - n` bits. */
  lemma {:induction false} ShrOfSmall(x: nat, m: nat, n: nat)
    requires x < Pow2(m) && n <= m
    ensures Shr(x, n) < Pow2(m - n)
  {
    if n > 0 {
      ShrOfSmall(x / 2, m - 1, n - 1);
    }
  }

  /** Shifting left by `n` then right by `k <= n` is shifting left by `n - k`. */
  lemma {:induction false} ShrShl(b: nat, n: nat, k: nat)
    requires k <= n
    ensures Shr(Shl(b, n), k) == Shl(b, n - k)
  {
    if k > 0 {
      ShrShl(b, n - 1, k - 1);
    }
  }

  /** A value shifted left by at least `n` has no low `n` bits. */
  lemma {:induction false} LowShl(b: nat, k: nat, n: nat)
    requires n <= k
    ensures Low(Shl(b, k), n) == 0
  {
    if n > 0 {
      LowShl(b, k - 1, n - 1);
    }
  }

  /** Shifting right in two steps. */
  lemma {:induction false} ShrShr(x: nat, a: nat, b: nat)
    ensures Shr(Shr(x, a), b) == Shr(x, a + b)
  {
    if a > 0 {
      ShrShr(x / 2, a - 1, b);
    }
  }

  /** Shifting left in two steps. */
  lemma {:induction false} ShlShl(x: nat, a: nat, b: nat)
    ensures Shl(Shl(x, a), b) == Shl(x, a + b)
  {
    if b > 0 {
      ShlShl(x, a, b - 1);
    }
  }

  // ---------------------------------------------------------------------
  // Shifts as arithmetic
  // ---------------------------------------------------------------------

  lemma MulBounds(k: int, d: int)
    requires d > 0
    ensures k >= 1 ==> k * d >= d
    ensures k <= -1 ==> k * d <= -d
  {
    if k >= 1 {
      assert k * d == (k - 1) * d + d;
    } else if k <= -1 {
      assert k * d == (k + 1) * d - d;
    }
  }

  lemma DivModUnique(x: int, d: int, q: int, r: int)
    requires d > 0 && 0 <= r < d && x == q * d + r
    ensures x / d == q && x % d == r
  {
    var q', r' := x / d, x % d;
    assert x == q' * d + r';
    MulBounds(q' - q, d);
    assert (q' - q) * d == r - r';
  }

  lemma HalveDivMod(x: nat, m: nat)
    requires m >= 1
    ensures x / (2 * m) == (x / 2) / m
    ensures x % (2 * m) == 2 * ((x / 2) % m) + x % 2
  {
    var q, r := (x / 2) / m, (x / 2) % m;
    assert x / 2 == q * m + r;
    assert x == 2 * (x / 2) + x % 2;
    assert x == q * (2 * m) + (2 * r + x % 2);
    DivModUnique(x, 2 * m, q, 2 * r + x % 2);
  }

  /** `x >> n == x / 2^n`. */
  lemma {:induction false} ShrIsDiv(x: nat, n: nat)
    ensures Shr(x, n) == x / Pow2(n)
  {
    if n > 0 {
      ShrIsDiv(x / 2, n - 1);
      HalveDivMod(x, Pow2(n - 1));
    }
  }

  /** The low `n` bits are the remainder by `2^n`. */
  lemma {:induction false} LowIsMod(x: nat, n: nat)
    ensures Low(x, n) == x % Pow2(n)
  {
    if n > 0 {
      LowIsMod(x / 2, n - 1);
      HalveDivMod(x, Pow2(n - 1));
    }
  }

  /** `x << n == x * 2^n`. */
  lemma {:induction false} ShlIsMul(x: nat, n: nat)
    ensures Shl(x, n) == x * Pow2(n)
  {
    if n > 0 {
      ShlIsMul(x, n - 1);
      assert x * Pow2(n) == 2 * (x * Pow2(n - 1));
    }
  }

  lemma {:induction false} Pow2Add(a: nat, b: nat)
    ensures Pow2(a + b) == Pow2(a) * Pow2(b)
  {
    if b > 0 {
      Pow2Add(a, b - 1);
      assert Pow2(a) * Pow2(b) == 2 * (Pow2(a) * Pow2(b - 1));
    }
  }

  /** The powers of two the masks of a 32-bit word are made of. */
  lemma Pow2Values()
    ensures Pow2(5) == 0x20 && Pow2(6) == 0x40 && Pow2(8) == 0x100 && Pow2(11) == 0x800
    ensures Pow2(16) == 0x1_0000 && Pow2(21) == 0x20_0000 && Pow2(24) == 0x100_0000
    ensures Pow2(26) == 0x400_0000 && Pow2(32) == 0x1_0000_0000
  {
    assert Pow2(3) == 8;
    Pow2Add(3, 2);
    Pow2Add(3, 3);
    Pow2Add(5, 3);
    Pow2Add(8, 3);
    Pow2Add(8, 8);
    Pow2Add(16, 5);
    Pow2Add(16, 8);
    Pow2Add(24, 2);
    Pow2Add(24, 8);
  }

  // ---------------------------------------------------------------------
  // Masks read as fields
  // ---------------------------------------------------------------------

  /** The `w`-bit field at bit `s` of `a & b` is the `&` of the fields. */
  lemma AndField(a: nat, b: nat, s: nat, w: nat)
    ensures BitAnd(a, b) / Pow2(s) % Pow2(w) == BitAnd(a / Pow2(s) % Pow2(w), b / Pow2(s) % Pow2(w))
  {
    AndShr(a, b, s);
    AndLow(Shr(a, s), Shr(b, s), w);
    ShrIsDiv(a, s);
    ShrIsDiv(b, s);
    ShrIsDiv(BitAnd(a, b), s);
    LowIsMod(Shr(BitAnd(a, b), s), w);
    LowIsMod(Shr(a, s), w);
    LowIsMod(Shr(b, s), w);
  }

  /** The `w`-bit field at bit `s` of `a | b` is the `|` of the fields. */
  lemma OrField(a: nat, b: nat, s: nat, w: nat)
    ensures BitOr(a, b) / Pow2(s) % Pow2(w) == BitOr(a / Pow2(s) % Pow2(w), b / Pow2(s) % Pow2(w))
  {
    OrShr(a, b, s);
    OrLow(Shr(a, s), Shr(b, s), w);
    ShrIsDiv(a, s);
    ShrIsDiv(b, s);
    ShrIsDiv(BitOr(a, b), s);
    LowIsMod(Shr(BitOr(a, b), s), w);
    LowIsMod(Shr(a, s), w);
    LowIsMod(Shr(b, s), w);
  }

  /** `a & (2^n - 1) == a % 2^n`. */
  lemma AndLowMask(a: nat, n: nat)
    ensures BitAnd(a, Pow2(n) - 1) == a % Pow2(n)
  {
    OnesIsPow2(n);
    AndOnes(a, n);
    LowIsMod(a, n);
  }

  /** `a & (m << n) == ((a >> n) & m) << n`, with `p` standing for `2^n`
      and `mp` for the shifted mask. */
  lemma AndShiftedMask(a: nat, m: nat, n: nat, p: nat, mp: nat)
    requires p == Pow2(n) && mp == m * p
    ensures BitAnd(a, mp) == BitAnd(a / p, m) * p
  {
    AndShl(a, m, n);
    ShlIsMul(m, n);
    ShrIsDiv(a, n);
    ShlIsMul(BitAnd(Shr(a, n), m), n);
  }

  lemma {:induction false} OnesIsPow2(n: nat)
    ensures Ones(n) == Pow2(n) - 1
  {
    if n > 0 {
      OnesIsPow2(n - 1);
    }
  }

  lemma {:induction false} ShrOfZero(n: nat)
    ensures Shr(0, n) == 0
  {
    if n > 0 {
      ShrOfZero(n - 1);
    }
  }

  /** `a & 0 == 0 & a == 0` and `a | 0 == 0 | a == a`. */
  lemma ZeroOperand(a: nat)
    ensures BitAnd(a, 0) == 0 && BitAnd(0, a) == 0
    ensures BitOr(a, 0) == a && BitOr(0, a) == a
  {
  }

  /** A byte-sized value and'ed with 255 is itself. */
  lemma AndAllOnesByte(x: nat)
    requires x < 0x100
    ensures BitAnd(x, 0xFF) == x
  {
    assert Ones(8) == 0xFF && Pow2(8) == 0x100;
    AndOnes(x, 8);
    LowOfSmall(x, 8);
  }
}
