/**
 * The byte helpers of the interpreter (src/mips_int.rs): reading byte `k`
 * of a big-endian word or half-word, clearing byte `k` of a word, and
 * "adding" a byte at the position a byte pointer names.  Byte 0 is the most
 * significant one.
 */
module LineBytes {
  import opened RustStd
  import opened Bits

  /** The weight of byte `k` of a big-endian word: `2^(24 - 8k)`. */
  function ByteWeight(k: nat): (w: nat)
    requires k < 4
  {
    match k
    case 0 => 0x100_0000
    case 1 => 0x1_0000
    case 2 => 0x100
    case _ => 1
  }

  /** Byte `k` (0 = most significant) of a word. */
  function ByteAt(x: nat, k: nat): (b: nat)
    requires k < 4
    ensures b < 0x100
  {
    x / ByteWeight(k) % 0x100
  }

  lemma WeightIsPow2(k: nat)
    requires k < 4
    ensures ByteWeight(k) == Pow2(24 - 8 * k)
  {
    Pow2Values();
  }

  /** Byte `k` in terms of the bit-level shift and low part. */
  lemma ByteAtBits(x: nat, k: nat)
    requires k < 4
    ensures ByteAt(x, k) == Low(Shr(x, 24 - 8 * k), 8)
  {
    Pow2Values();
    WeightIsPow2(k);
    ShrIsDiv(x, 24 - 8 * k);
    LowIsMod(Shr(x, 24 - 8 * k), 8);
  }

  /** A word below 2^32 is the sum of its weighted bytes. */
  lemma WordFromBytes(x: u32)
    ensures x == ByteAt(x, 0) * 0x100_0000 + ByteAt(x, 1) * 0x1_0000 + ByteAt(x, 2) * 0x100 + ByteAt(x, 3)
  {
    var y := x / 0x100;
    var z := y / 0x100;
    var b0, b1, b2, b3 := z / 0x100, z % 0x100, y % 0x100, x % 0x100;
    assert x == y * 0x100 + b3 && y == z * 0x100 + b2 && z == b0 * 0x100 + b1;
    DivModUnique(x, 0x1_0000, z, b2 * 0x100 + b3);
    DivModUnique(x, 0x100_0000, b0, b1 * 0x1_0000 + b2 * 0x100 + b3);
    DivModUnique(b0, 0x100, 0, b0);
  }

  /** A half-word is its high byte then its low byte. */
  lemma HalfWordFromBytes(x: u16)
    ensures ByteAt(x, 0) == 0 && ByteAt(x, 1) == 0
    ensures x == ByteAt(x, 2) * 0x100 + ByteAt(x, 3)
  {
  }

  /** Two words with the same four bytes are equal. */
  lemma BytesDetermineWord(x: u32, y: u32)
    requires forall k :: 0 <= k < 4 ==> ByteAt(x, k) == ByteAt(y, k)
    ensures x == y
  {
    WordFromBytes(x);
    WordFromBytes(y);
    assert ByteAt(x, 0) == ByteAt(y, 0) && ByteAt(x, 1) == ByteAt(y, 1);
    assert ByteAt(x, 2) == ByteAt(y, 2) && ByteAt(x, 3) == ByteAt(y, 3);
  }

  /** Byte `k` of `a & b` is the `&` of their bytes `k`. */
  lemma AndByte(a: nat, b: nat, k: nat)
    requires k < 4
    ensures ByteAt(BitAnd(a, b), k) == BitAnd(ByteAt(a, k), ByteAt(b, k))
  {
    Pow2Values();
    WeightIsPow2(k);
    AndField(a, b, 24 - 8 * k, 8);
  }

  /** Byte `k` of `a | b` is the `|` of their bytes `k`. */
  lemma OrByte(a: nat, b: nat, k: nat)
    requires k < 4
    ensures ByteAt(BitOr(a, b), k) == BitOr(ByteAt(a, k), ByteAt(b, k))
  {
    Pow2Values();
    WeightIsPow2(k);
    OrField(a, b, 24 - 8 * k, 8);
  }

  /** A mask whose bytes are each 0x00 or 0xFF clears the bytes where it is
      0x00 and keeps the others. */
  lemma ByteMask(line: nat, m: nat)
    requires forall k :: 0 <= k < 4 ==> ByteAt(m, k) == 0 || ByteAt(m, k) == 0xFF
    ensures forall k :: 0 <= k < 4 ==> ByteAt(BitAnd(line, m), k) == if ByteAt(m, k) == 0 then 0 else ByteAt(line, k)
  {
    forall k | 0 <= k < 4
      ensures ByteAt(BitAnd(line, m), k) == if ByteAt(m, k) == 0 then 0 else ByteAt(line, k)
    {
      AndByte(line, m, k);
      ZeroOperand(ByteAt(line, k));
      AndAllOnesByte(ByteAt(line, k));
    }
  }

  /** The clearing mask of `load_zero_into_line` for byte `k`. */
  function ClearMask(k: nat): (m: u32)
    requires k < 4
    ensures forall j :: 0 <= j < 4 ==> ByteAt(m, j) == if j == k then 0 else 0xFF
  {
    match k
    case 0 => 0x00FF_FFFF
    case 1 => 0xFF00_FFFF
    case 2 => 0xFFFF_00FF
    case _ => 0xFFFF_FF00
  }

  /** `load_zero_into_line(line, idx)`: `line` with byte `idx` cleared; an
      index past the last byte gives 0. */
  function LoadZeroIntoLine(line: u32, idx: nat): (r: u32)
    ensures idx < 4 ==> forall k :: 0 <= k < 4 ==> ByteAt(r, k) == if k == idx then 0 else ByteAt(line, k)
    ensures idx >= 4 ==> r == 0
  {
    if idx < 4 then
      ByteMask(line, ClearMask(idx));
      BitAnd(line, ClearMask(idx))
    else
      0
  }

  /** The byte selected by the mask `0xFF << n`, shifted down by `n`. */
  lemma ByteField(x: nat, n: nat, p: nat, mp: nat)
    requires p == Pow2(n) && mp == 0xFF * p
    ensures BitAnd(x, mp) / p == x / p % 0x100
  {
    AndShiftedMask(x, 0xFF, n, p, mp);
    DivModUnique(BitAnd(x / p, 0xFF) * p, p, BitAnd(x / p, 0xFF), 0);
    assert Pow2(8) == 0x100;
    AndLowMask(x / p, 8);
  }

  /** Masking byte `k` in place and shifting it down reads byte `k`. */
  lemma MaskedByte(x: nat, k: nat)
    requires k < 4
    ensures BitAnd(x, 0xFF * ByteWeight(k)) / ByteWeight(k) == ByteAt(x, k)
  {
    WeightIsPow2(k);
    ByteField(x, 24 - 8 * k, ByteWeight(k), 0xFF * ByteWeight(k));
  }

  /** `get_byte_segment_u32(line, idx)`: byte `idx` of the word, 0 for an
      index past the last byte. */
  function GetByteSegmentU32(line: u32, idx: nat): (r: u8)
    ensures idx < 4 ==> r == ByteAt(line, idx)
    ensures idx >= 4 ==> r == 0
  {
    match idx
    case 0 => MaskedByte(line, 0); AsU8OfByte(ByteAt(line, 0)); AsU8(BitAnd(line, 0xFF00_0000) / 0x100_0000)
    case 1 => MaskedByte(line, 1); AsU8OfByte(ByteAt(line, 1)); AsU8(BitAnd(line, 0x00FF_0000) / 0x1_0000)
    case 2 => MaskedByte(line, 2); AsU8OfByte(ByteAt(line, 2)); AsU8(BitAnd(line, 0x0000_FF00) / 0x100)
    case 3 => MaskedByte(line, 3); AsU8OfByte(ByteAt(line, 3)); AsU8(BitAnd(line, 0x0000_00FF))
    case _ => 0
  }

  /** `get_byte_segment_u16(line, idx)`: byte `idx` (0 = high) of the
      half-word, which sits in bytes 2 and 3 of a word; 0 for an index past
      the last byte. */
  function GetByteSegmentU16(line: u16, idx: nat): (r: u8)
    ensures idx < 2 ==> r == ByteAt(line, idx + 2)
    ensures idx >= 2 ==> r == 0
  {
    match idx
    case 0 => MaskedByte(line, 2); AsU8OfByte(ByteAt(line, 2)); AsU8(BitAnd(line, 0xFF00) / 0x100)
    case 1 => MaskedByte(line, 3); AsU8OfByte(ByteAt(line, 3)); AsU8(BitAnd(line, 0x00FF))
    case _ => 0
  }

  /** A byte placed in slot `k` (shifted left to its weight) shows in byte
      `k` and nowhere else. */
  lemma PlacedByte(b: u8, k: nat, j: nat)
    requires k < 4 && j < 4
    ensures ByteAt(b * ByteWeight(k), j) == if j == k then b else 0
  {
    var sk, sj := 24 - 8 * k, 24 - 8 * j;
    WeightIsPow2(k);
    ShlIsMul(b, sk);
    ByteAtBits(Shl(b, sk), j);
    assert Pow2(8) == 0x100;
    if sj <= sk {
      ShrShl(b, sk, sj);
      if sj == sk {
        LowOfSmall(b, 8);
      } else {
        LowShl(b, sk - sj, 8);
      }
    } else {
      ShrShl(b, sk, sk);
      ShrShr(Shl(b, sk), sk, sj - sk);
      ShrShr(b, 8, sj - sk - 8);
      ShrOfSmall(b, 8, 8);
      assert Shr(b, 8) == 0;
      ShrOfZero(sj - sk - 8);
    }
  }

  /** The mask `add_byte_to_line` ands the line with for byte slot `k`:
      the other bytes all ones, slot `k` holding the byte. */
  function InsertMask(k: nat, b: u8): (m: nat)
    requires k < 4
    ensures forall j :: 0 <= j < 4 ==> ByteAt(m, j) == if j == k then b else 0xFF
  {
    var m := BitOr(ClearMask(k), b * ByteWeight(k));
    forall j | 0 <= j < 4
      ensures ByteAt(m, j) == if j == k then b else 0xFF
    {
      OrByte(ClearMask(k), b * ByteWeight(k), j);
      PlacedByte(b, k, j);
      ZeroOperand(b);
      ZeroOperand(0xFF);
    }
    m
  }

  /** `add_byte_to_line(line, pointer, byte)`: the slot is `pointer % 4`;
      the line is and-ed with the byte placed in that slot and ones
      elsewhere, so that slot becomes `old & byte` and the rest is kept. */
  function AddByteToLine(line: u32, pointer: u32, b: u8): (r: u32)
    ensures forall k :: 0 <= k < 4 ==> ByteAt(r, k) == if k == pointer % 4 then BitAnd(ByteAt(line, k), b) else ByteAt(line, k)
  {
    var m := InsertMask(pointer % 4, b);
    forall k | 0 <= k < 4
      ensures ByteAt(BitAnd(line, m), k) == if k == pointer % 4 then BitAnd(ByteAt(line, k), b) else ByteAt(line, k)
    {
      AndByte(line, m, k);
      AndAllOnesByte(ByteAt(line, k));
    }
    BitAnd(line, m)
  }

  /** Since the slot is and-ed rather than or-ed, adding a byte to a zero
      line leaves it zero, whatever the byte. */
  lemma AddToZeroLine(pointer: u32, b: u8)
    ensures AddByteToLine(0, pointer, b) == 0
  {
  }

  /** Reading byte `k` back after adding it to a cleared slot gives 0, not
      the byte. */
  lemma AddedByteNotReadBack(line: u32, k: nat, b: u8)
    requires k < 4
    ensures GetByteSegmentU32(AddByteToLine(LoadZeroIntoLine(line, k), k, b), k) == 0
  {
    ZeroOperand(b);
  }

  /** Clearing a byte of a zero line leaves it zero. */
  lemma ClearZeroLine(idx: nat)
    ensures LoadZeroIntoLine(0, idx) == 0
  {
    if idx < 4 {
      BytesDetermineWord(LoadZeroIntoLine(0, idx), 0);
    }
  }
}
