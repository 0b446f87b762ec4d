/** The per-lane meaning of the execution unit's operations: byte operands, a 32-bit accumulator,
    everything wrapping unless an operation saturates. */
module SimdExec {
  import opened Arith
  import opened Bits
  import opened FixedPoint
  import opened Wrappers

  const WORD := 0x1_0000_0000

  /** The two's complement reading of a byte, and back. */
  function S8(x: int): int { if x >= 128 then x - 256 else x }

  function U8(x: int): (r: int)
    ensures 0 <= r < 256
  {
    x % 256
  }

  function S32(x: int): int { if x >= 0x8000_0000 then x - WORD else x }

  function U32(x: int): (r: int)
    ensures 0 <= r < WORD
  {
    x % WORD
  }

  predicate Byte(x: int) { 0 <= x < 256 }

  predicate Word(x: int) { 0 <= x < WORD }

  // Accumulator results.

  function MulU(a: int, b: int): int { U32(a * b) }

  function MulS(a: int, b: int): int { U32(S8(a) * S8(b)) }

  function MacU(a: int, b: int, acc: int): int { U32(acc + a * b) }

  function MacS(a: int, b: int, acc: int): int { U32(acc + U32(S8(a) * S8(b))) }

  function WaddS(a: int, b: int, acc: int, align: nat): int {
    U32(acc + U32(S8(a) * Pow2(align)) + U32(S8(b) * Pow2(align)))
  }

  function WsubU(a: int, b: int, acc: int, align: nat): int {
    U32(acc + U32(a * Pow2(align)) - U32(b * Pow2(align)))
  }

  // Byte results.

  /** Shift right, add the last bit shifted out, saturate. The rounding bit is taken from the
      unsigned accumulator word. */
  function RoundBit(acc: int, shift: nat): int {
    if shift == 0 then 0 else acc / Pow2(shift - 1) % 2
  }

  function NclipU(acc: int, shift: nat): int {
    var rounded := acc / Pow2(shift) + RoundBit(acc, shift);
    if rounded > 255 then 255 else U8(rounded)
  }

  function NclipS(acc: int, shift: nat): int {
    U8(Clip(-128, 127, S32(acc) / Pow2(shift) + RoundBit(acc, shift)))
  }

  function MinU(a: int, b: int): int { if a < b then a else b }

  function MaxU(a: int, b: int): int { if a > b then a else b }

  function AbsSatS(a: int): int { if S8(a) == -128 then 127 else U8(if S8(a) < 0 then -S8(a) else S8(a)) }

  function AddSatU(a: int, b: int): int { if a + b > 255 then 255 else a + b }

  // ----- wrapping arithmetic is exact while the true value fits

  lemma BytesRoundTrip(x: int)
    ensures -128 <= x < 128 ==> Byte(U8(x)) && S8(U8(x)) == x
    ensures Byte(x) ==> -128 <= S8(x) < 128 && U8(S8(x)) == x
  {
  }

  lemma WrapAdd(x: int, y: int)
    ensures U32(U32(x) + U32(y)) == U32(x + y) && U32(U32(x) - U32(y)) == U32(x - y)
    ensures U32(U32(x) + y) == U32(x + y)
  {
    var p, q := x / WORD, y / WORD;
    SameWord(U32(x) + U32(y), x + y, p + q);
    SameWord(U32(x) - U32(y), x - y, p - q);
    SameWord(U32(x) + y, x + y, p);
  }

  lemma SameWord(x: int, y: int, k: int)
    requires y == x + WORD * k
    ensures U32(x) == U32(y)
  {
  }

  lemma WrapExact(x: int)
    requires -0x8000_0000 <= x < 0x8000_0000
    ensures S32(U32(x)) == x
  {
  }

  /** Reading the rounding bit from the unsigned word or from the signed value is the same. */
  lemma RoundBitSigned(acc: int, shift: nat)
    requires Word(acc) && shift < 32
    ensures S32(acc) / Pow2(shift) + RoundBit(acc, shift) == RoundShift(S32(acc), shift)
  {
    if shift > 0 {
      Pow2Add(shift - 1, 33 - shift);
      Pow2Add(31, 1);
      Pow2Values();
      SameParity(acc, Pow2(shift - 1), Pow2(32 - shift), WORD);
    }
  }

  lemma SameParity(acc: int, d: nat, q: nat, word: int)
    requires d > 0 && d * (2 * q) == word
    ensures acc / d % 2 == (acc - word) / d % 2
  {
    var k := acc / d;
    assert acc == d * k + acc % d;
    MulMinus(d, k, 2 * q);
    DivModUnique(acc - word, d, k - 2 * q, acc % d);
  }

  lemma MulMinus(d: int, k: int, m: int)
    ensures d * (k - m) == d * k - d * m
  {
  }

  /** NCLIP_S is round-shift-clip of the signed accumulator: the quotient rounded to nearest, saturated
      to a signed byte. */
  lemma NclipIsRoundShiftClip(value: int, shift: nat)
    requires SignedFits(value, 32) && shift < 32
    ensures RoundShiftClip(value, shift, 8) == Some(S8(NclipS(U32(value), shift)))
    ensures NearestByte(OracleRound(value, shift), S8(NclipS(U32(value), shift)))
  {
    RoundShiftClipSaturates(value, shift, 8);
    Pow2Values();
    WrapExact(value);
    RoundBitSigned(U32(value), shift);
    BytesRoundTrip(Clip(-128, 127, RoundShift(value, shift)));
  }

  lemma QuotientNotNegative(acc: int, d: int)
    requires acc >= 0 && d > 0
    ensures acc / d >= 0
  {
  }

  /** NCLIP_U is the quotient of the unsigned accumulator rounded to nearest, saturated to a byte. */
  lemma NclipUSaturates(acc: int, shift: nat)
    requires Word(acc) && shift < 32
    ensures var q := OracleRound(acc, shift); NclipU(acc, shift) == if q >= 255 then 255 else q
  {
    QuotientNotNegative(acc, Pow2(shift));
    RoundsToNearestUp(acc, shift);
    assert RoundShift(acc, shift) == acc / Pow2(shift) + RoundBit(acc, shift);
  }

  /** The byte operations on every pair of bytes: a sum limited to 255, a size limited to 127, and the
      smaller and the larger of two. */
  lemma ByteOperations(a: int, b: int)
    requires Byte(a) && Byte(b)
    ensures AddSatU(a, b) <= 255 && (a + b <= 255 ==> AddSatU(a, b) == a + b) && (a + b >= 255 ==> AddSatU(a, b) == 255)
    ensures AbsSatS(a) == if a < 128 then a else if a == 128 then 127 else 256 - a
    ensures {MinU(a, b), MaxU(a, b)} == {a, b} && MinU(a, b) <= MaxU(a, b)
  {
  }
}
