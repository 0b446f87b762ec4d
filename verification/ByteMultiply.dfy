/** Wide multiplication from byte products: one product at a time, or one diagonal at a time. */
module ByteMultiply {
  import opened Arith

  /** 256 to the power `k`. */
  function Base(k: nat): (r: int)
    ensures r > 0
  {
    if k == 0 then 1 else 256 * Base(k - 1)
  }

  /** Byte `i` of `v`, counted from the low end. */
  function Byte(v: nat, i: nat): (r: nat)
    ensures r < 256
  {
    if i == 0 then v % 256 else Byte(v / 256, i - 1)
  }

  /** Arithmetic in an `n`-byte register. */
  function Wrap(n: nat, x: int): (r: int)
    ensures 0 <= r < Base(n)
  {
    x % Base(n)
  }

  /** The first `k` products on diagonal `d`. */
  function Diagonal(a: nat, b: nat, d: nat, k: nat): nat
    requires k <= d + 1
  {
    if k == 0 then 0 else Diagonal(a, b, d, k - 1) + Byte(a, k - 1) * Byte(b, d - (k - 1))
  }

  /** The first `n` diagonals, each aligned to its byte position. */
  function Diagonals(a: nat, b: nat, n: nat): nat {
    if n == 0 then 0 else Diagonals(a, b, n - 1) + Diagonal(a, b, n - 1, n) * Base(n - 1)
  }

  function LowBytes(b: nat, n: nat): nat {
    if n == 0 then 0 else LowBytes(b, n - 1) + Byte(b, n - 1) * Base(n - 1)
  }

  // ----- arithmetic

  lemma WrapAdds(m: int, x: int, y: int)
    requires m > 0
    ensures (x % m + y) % m == (x + y) % m
  {
    var q := x / m;
    SameRemainder(m, x % m + y, x + y, q);
  }

  lemma WrapScales(m: int, x: int, c: int)
    requires m > 0
    ensures (x % m * c) % m == (x * c) % m
  {
    var q := x / m;
    assert x * c == x % m * c + m * (q * c) by {
      assert x == m * q + x % m;
      Distribute(m * q, x % m, c);
      assert m * q * c == m * (q * c);
    }
    SameRemainder(m, x % m * c, x * c, q * c);
  }

  lemma Distribute(x: int, y: int, c: int)
    ensures (x + y) * c == x * c + y * c
  {
  }

  lemma SameRemainder(m: int, x: int, y: int, q: int)
    requires m > 0 && y == x + m * q
    ensures x % m == y % m
  {
    var p := x / m;
    assert y == m * (p + q) + x % m;
    DivModUnique(y, m, p + q, x % m);
  }

  /** Reading a byte is shifting right and keeping the low eight bits. */
  lemma {:induction false} ByteIsShift(v: nat, i: nat)
    ensures Byte(v, i) == v / Base(i) % 256
  {
    if i > 0 {
      ByteIsShift(v / 256, i - 1);
      DivideTwice(v, Base(i - 1));
    }
  }

  lemma DivideTwice(v: nat, m: nat)
    requires m > 0
    ensures v / 256 / m == v / (256 * m)
  {
    var h := v / 256;
    var q, r := h / m, h % m;
    assert v == 256 * (m * q + r) + v % 256;
    assert v == (256 * m) * q + (256 * r + v % 256);
    assert 0 <= 256 * r + v % 256 < 256 * m;
    DivModUnique(v, 256 * m, q, 256 * r + v % 256);
  }

  // ----- diagonals are the product

  /** Peeling the lowest byte of `a` off a diagonal. */
  lemma {:induction false} DiagonalPeels(a: nat, b: nat, d: nat, k: nat)
    requires 1 <= k <= d + 1
    ensures d > 0 ==> Diagonal(a, b, d, k) == Byte(a, 0) * Byte(b, d) + Diagonal(a / 256, b, d - 1, k - 1)
    ensures d == 0 ==> Diagonal(a, b, d, k) == Byte(a, 0) * Byte(b, d)
  {
    if k > 1 {
      DiagonalPeels(a, b, d, k - 1);
    } else {
      assert Diagonal(a, b, d, 0) == 0;
    }
  }

  lemma Rearranged(tri: nat, low: nat, rest: nat, a0: nat, bn: nat, below: nat, p: nat, q: nat)
    requires tri == a0 * low + 256 * rest && q == 256 * p
    ensures tri + (a0 * bn + below) * q == a0 * (low + bn * q) + 256 * (rest + below * p)
  {
    assert (a0 * bn + below) * q == a0 * bn * q + below * q;
    assert a0 * (low + bn * q) == a0 * low + a0 * (bn * q);
    assert a0 * bn * q == a0 * (bn * q);
    assert below * (256 * p) == 256 * (below * p);
  }

  lemma {:induction false} DiagonalsPeel(a: nat, b: nat, n: nat)
    requires n > 0
    ensures Diagonals(a, b, n) == Byte(a, 0) * LowBytes(b, n) + 256 * Diagonals(a / 256, b, n - 1)
  {
    DiagonalPeels(a, b, n - 1, n);
    if n == 1 {
      assert Diagonals(a, b, 1) == Diagonals(a, b, 0) + Diagonal(a, b, 0, 1) * Base(0);
      assert LowBytes(b, 1) == LowBytes(b, 0) + Byte(b, 0) * Base(0);
    } else {
      DiagonalsPeel(a, b, n - 1);
      Rearranged(Diagonals(a, b, n - 1), LowBytes(b, n - 1), Diagonals(a / 256, b, n - 2), Byte(a, 0), Byte(b, n - 1),
                 Diagonal(a / 256, b, n - 2, n - 1), Base(n - 2), Base(n - 1));
    }
  }

  /** The low bytes and the shifted rest make up the whole. */
  lemma {:induction false} LowBytesAreRemainder(b: nat, n: nat)
    ensures b == LowBytes(b, n) + b / Base(n) * Base(n)
  {
    if n > 0 {
      LowBytesAreRemainder(b, n - 1);
      ByteIsShift(b, n - 1);
      SplitQuotient(b, Base(n - 1));
    }
  }

  lemma QuotientNonNegative(b: nat, m: nat)
    requires m > 0
    ensures b / m >= 0
  {
  }

  lemma HighBytes(b: nat, n: nat) returns (high: nat)
    ensures b == LowBytes(b, n) + high * Base(n)
  {
    LowBytesAreRemainder(b, n);
    QuotientNonNegative(b, Base(n));
    high := b / Base(n);
  }

  lemma LowByteFirst(a: nat) returns (low: nat, rest: nat)
    ensures low == Byte(a, 0) && rest == a / 256 && a == low + 256 * rest
  {
    low, rest := Byte(a, 0), a / 256;
  }

  lemma SplitQuotient(b: nat, m: nat)
    requires m > 0
    ensures b / m * m == b / m % 256 * m + b / (256 * m) * (256 * m)
  {
    var h := b / m;
    assert h == 256 * (h / 256) + h % 256;
    DivideOther(b, m);
    Distribute(256 * (h / 256), h % 256, m);
    assert 256 * (h / 256) * m == h / 256 * (256 * m);
  }

  lemma DivideOther(v: nat, m: nat)
    requires m > 0
    ensures v / m / 256 == v / (256 * m)
  {
    var h := v / m;
    var q, r := h / 256, h % 256;
    assert v == m * h + v % m && h == 256 * q + r;
    Distribute(256 * q, r, m);
    MulMono(m, r, 255);
    BlockOffset(v, m, h, q, r);
  }

  lemma BlockOffset(v: nat, m: nat, h: nat, q: nat, r: nat)
    requires m > 0 && v == m * h + v % m && h == 256 * q + r && m * r <= m * 255
    ensures v / (256 * m) == q
  {
    assert m * h == 256 * m * q + m * r;
    DivModUnique(v, 256 * m, q, m * r + v % m);
  }

  lemma OneRow(a: nat, b: nat, a0: nat, low: nat, high: nat, rest: nat, tri: nat, k: nat, p: nat, q: nat)
    requires a == a0 + 256 * rest && b == low + high * q && q == 256 * p
    requires rest * b == tri + k * p
    ensures a * b == a0 * low + 256 * tri + (a0 * high + k) * q
  {
    assert a * b == a0 * b + 256 * (rest * b);
    assert a0 * b == a0 * low + a0 * (high * q);
    assert a0 * (high * q) == a0 * high * q;
    assert 256 * (k * p) == k * q;
    Distribute(a0 * high, k, q);
  }

  function DroppedWithRow(low: nat, high: nat, k: nat): nat {
    MulNonNegative(low, high);
    low * high + k
  }

  /** What the first `n` diagonals leave out of the product is a multiple of `256^n`. */
  lemma {:induction false} DroppedDiagonals(a: nat, b: nat, n: nat) returns (dropped: nat)
    ensures a * b == Diagonals(a, b, n) + dropped * Base(n)
  {
    if n == 0 {
      dropped := a * b;
    } else {
      var low, rest := LowByteFirst(a);
      var k := DroppedDiagonals(rest, b, n - 1);
      var high := HighBytes(b, n);
      DiagonalsPeel(a, b, n);
      dropped := DroppedWithRow(low, high, k);
      OneRow(a, b, low, LowBytes(b, n), high, rest, Diagonals(rest, b, n - 1), k, Base(n - 1), Base(n));
    }
  }

  /** Keeping `n` diagonals is multiplying modulo `256^n`. */
  lemma DiagonalsAreProduct(a: nat, b: nat, n: nat)
    ensures Wrap(n, Diagonals(a, b, n)) == Wrap(n, a * b)
  {
    var dropped := DroppedDiagonals(a, b, n);
    assert dropped * Base(n) == Base(n) * dropped;
    SameRemainder(Base(n), Diagonals(a, b, n), a * b, dropped);
  }

  lemma {:induction false} BaseAdds(m: nat, n: nat)
    ensures Base(m + n) == Base(m) * Base(n)
  {
    if m > 0 {
      BaseAdds(m - 1, n);
      assert 256 * (Base(m - 1) * Base(n)) == 256 * Base(m - 1) * Base(n);
    }
  }

  /** With every diagonal kept, the convolution is the whole product of two `n`-byte numbers. */
  lemma WholeProduct(a: nat, b: nat, n: nat)
    requires a < Base(n) && b < Base(n)
    ensures a * b == Diagonals(a, b, n + n)
  {
    var dropped := DroppedDiagonals(a, b, n + n);
    BaseAdds(n, n);
    ProductBelow(a, b, Base(n));
    OnlyZeroFits(dropped, Base(n + n), a * b, Diagonals(a, b, n + n));
  }

  lemma OnlyZeroFits(k: nat, m: nat, x: nat, y: nat)
    requires x == y + k * m && x < m
    ensures k == 0
  {
    if k > 0 {
      MulMono(m, 1, k);
    }
  }

  lemma ProductBelow(a: nat, b: nat, m: nat)
    requires a < m && b < m
    ensures a * b < m * m
  {
    MulMono(a, b, m);
    MulStrict(a, m, m);
  }

  // ----- the two loops

  lemma Accumulates(n: nat, acc: int, total: int, term: int)
    requires acc == Wrap(n, total)
    ensures Wrap(n, acc + Wrap(n, term)) == Wrap(n, total + term)
  {
    WrapAdds(Base(n), total, Wrap(n, term));
    WrapAdds(Base(n), term, total);
  }

  lemma ScaledWrap(n: nat, x: int, c: int)
    ensures Wrap(n, Wrap(n, x) * c) == Wrap(n, x * c)
  {
    WrapScales(Base(n), x, c);
  }

  /** One byte product per step, added at its byte position to a wrapping accumulator. */
  method SerialProducts(n: nat, a: nat, b: nat) returns (acc: int, steps: nat)
    requires a < Base(n) && b < Base(n)
    ensures acc == a * b % Base(n)
    ensures 2 * steps == n * (n + 1)
  {
    acc, steps := 0, 0;
    for d := 0 to n
      invariant acc == Wrap(n, Diagonals(a, b, d))
      invariant 2 * steps == d * (d + 1)
    {
      for i := 0 to d + 1
        invariant acc == Wrap(n, Diagonals(a, b, d) + Diagonal(a, b, d, i) * Base(d))
        invariant 2 * steps == d * (d + 1) + 2 * i
      {
        var partial := Byte(a, i) * Byte(b, d - i);
        ghost var before := Diagonals(a, b, d) + Diagonal(a, b, d, i) * Base(d);
        Accumulates(n, acc, before, partial * Base(d));
        Distribute(Diagonal(a, b, d, i), partial, Base(d));
        acc := Wrap(n, acc + Wrap(n, partial * Base(d)));
        steps := steps + 1;
      }
    }
    DiagonalsAreProduct(a, b, n);
  }

  /** One diagonal per step: its products are summed first, in a register of the same width. */
  method DiagonalSums(n: nat, a: nat, b: nat) returns (acc: int, steps: nat)
    requires a < Base(n) && b < Base(n)
    ensures acc == a * b % Base(n)
    ensures steps == n
  {
    acc, steps := 0, 0;
    for d := 0 to n
      invariant acc == Wrap(n, Diagonals(a, b, d))
      invariant steps == d
    {
      var sum := 0;
      for i := 0 to d + 1
        invariant sum == Wrap(n, Diagonal(a, b, d, i))
      {
        WrapAdds(Base(n), Diagonal(a, b, d, i), Byte(a, i) * Byte(b, d - i));
        sum := Wrap(n, sum + Byte(a, i) * Byte(b, d - i));
      }
      ScaledWrap(n, Diagonal(a, b, d, d + 1), Base(d));
      Accumulates(n, acc, Diagonals(a, b, d), Diagonal(a, b, d, d + 1) * Base(d));
      acc := Wrap(n, acc + Wrap(n, sum * Base(d)));
      steps := steps + 1;
    }
    DiagonalsAreProduct(a, b, n);
  }
}
