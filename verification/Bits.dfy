/** Powers of two and the bit reversal that orders the transform's input. */
module Bits {
  import opened Arith

  function Pow2(n: nat): (p: nat)
    ensures p > 0
  {
    if n == 0 then 1 else 2 * Pow2(n - 1)
  }

  lemma {:induction false} Pow2Add(a: nat, b: nat)
    ensures Pow2(a + b) == Pow2(a) * Pow2(b)
  {
    if a > 0 {
      Pow2Add(a - 1, b);
      assert Pow2(a) * Pow2(b) == 2 * (Pow2(a - 1) * Pow2(b));
    }
  }

  /** The low `width` bits of `value`, mirrored. */
  function Reversed(width: nat, value: nat): (r: nat)
    ensures r < Pow2(width)
  {
    if width == 0 then 0 else value % 2 * Pow2(width - 1) + Reversed(width - 1, value / 2)
  }

  /** The same mirror image, peeled from the other end: the top bit becomes the bottom one. */
  lemma {:induction false} ReversedTopBit(width: nat, low: nat, top: nat)
    requires width > 0 && low < Pow2(width - 1) && top < 2
    ensures Reversed(width, top * Pow2(width - 1) + low) == 2 * Reversed(width - 1, low) + top
  {
    var value := top * Pow2(width - 1) + low;
    if width > 1 {
      var half := top * Pow2(width - 2) + low / 2;
      assert top * Pow2(width - 1) == 2 * (top * Pow2(width - 2));
      DivModUnique(value, 2, half, low % 2);
      ReversedTopBit(width - 1, low / 2, top);
      assert low % 2 * Pow2(width - 1) == 2 * (low % 2 * Pow2(width - 2));
    }
  }

  lemma {:induction false} ReversedIsInvolution(width: nat, value: nat)
    requires value < Pow2(width)
    ensures Reversed(width, Reversed(width, value)) == value
  {
    if width > 0 {
      ReversedIsInvolution(width - 1, value / 2);
      ReversedTopBit(width, Reversed(width - 1, value / 2), value % 2);
    }
  }

  /** Bit by bit, from the low end. The bit that an iteration ORs in is clear in `result`
      (the first invariant), so OR is addition. */
  method BitReverse(value: nat, width: nat) returns (result: nat)
    ensures result == Reversed(width, value)
  {
    result := 0;
    ghost var rest := value;
    var shifted := value;
    for bit := 0 to width
      invariant result % Pow2(width - bit) == 0
      invariant result + Reversed(width - bit, shifted) == Reversed(width, value)
    {
      var place := Pow2(width - 1 - bit);
      ghost var before := result;
      result := result + shifted % 2 * place;
      Multiples(before, place, shifted % 2);
      shifted := shifted / 2;
    }
  }

  lemma Multiples(x: nat, place: nat, b: nat)
    requires place > 0 && x % (2 * place) == 0
    ensures (x + b * place) % place == 0
  {
    var q := x / (2 * place);
    assert x == 2 * place * q;
    assert x + b * place == place * (2 * q + b);
    MulDivMod(place, 2 * q + b);
  }
}
