/** Link numbers: exchanging one bit and rotating all bits. */
module Links {
  import opened Arith
  import opened Bits

  // ----- exchanging one bit

  /** `l` with the bit of weight `h` inverted. */
  function Flip(l: nat, h: nat): nat
    requires h > 0
  {
    if l / h % 2 == 0 then l + h else FlipDown(l, h); l - h
  }

  lemma FlipDown(l: nat, h: nat)
    requires h > 0 && l / h % 2 == 1
    ensures l >= h
  {
  }

  lemma DivTwice(l: nat, h: nat)
    requires h > 0
    ensures l / (2 * h) == l / h / 2
  {
    var q, r := l / h, l % h;
    assert l == h * q + r;
    assert h * q == 2 * h * (q / 2) + h * (q % 2);
    DivModUnique(l, 2 * h, q / 2, h * (q % 2) + r);
  }

  lemma FlipDigit(l: nat, h: nat)
    requires h > 0
    ensures Flip(l, h) / h == if l / h % 2 == 0 then l / h + 1 else l / h - 1
    ensures Flip(l, h) / (2 * h) == l / (2 * h)
    ensures Flip(Flip(l, h), h) == l
  {
    var q, r := l / h, l % h;
    if q % 2 == 0 {
      DivModUnique(Flip(l, h), h, q + 1, r);
    } else {
      DivModUnique(Flip(l, h), h, q - 1, r);
    }
    DivTwice(l, h);
    DivTwice(Flip(l, h), h);
  }

  lemma FlipInside(n: nat, l: nat, h: nat)
    requires h > 0 && n % (2 * h) == 0 && l < n
    ensures Flip(l, h) < n
  {
    FlipDigit(l, h);
    SameBlockInside(n, 2 * h, l, Flip(l, h));
  }

  lemma SameBlockInside(n: nat, size: nat, i: nat, j: nat)
    requires size > 0 && n % size == 0 && i < n && i / size == j / size
    ensures j < n
  {
    var q, c := n / size, i / size;
    assert n == size * q && i == size * c + i % size && j == size * c + j % size;
    if c >= q {
      MulMono(size, q, c);
    }
    MulMono(size, c + 1, q);
  }

  // ----- rotating

  /** The digits of `p` in base `a`, the low one moved to the front of `b` values. */
  function Turn(a: nat, b: nat, p: nat): nat
    requires a > 0
  {
    MulNonNegative(p % a, b);
    p / a + p % a * b
  }

  /** `p`, seen as `k` bits, rotated right by `j` places. */
  function Rotated(k: nat, j: nat, p: nat): nat
    requires j <= k
  {
    Turn(Pow2(j), Pow2(k - j), p)
  }

  lemma Decompose(p: nat, a: nat, b: nat, q: nat, u: nat, v: nat, w: nat)
    requires a > 0 && b > 0 && q == a * u + v && p == b * q + w && v < a && w < b
    ensures p / (a * b) == u && p % (a * b) == b * v + w
  {
    assert b * (a * u) == a * b * u;
    assert b * q == a * b * u + b * v;
    MulMono(b, v + 1, a);
    DivModUnique(p, a * b, u, b * v + w);
  }

  lemma RotateCore(a: nat, b: nat, c: nat, u: nat, v: nat, w: nat)
    requires a > 0 && b > 0 && v < a
    ensures Turn(a, b * c, a * u + v + w * (a * c)) == u + (b * v + w) * c
  {
    var q := a * u + v + w * (a * c);
    assert w * (a * c) == a * (w * c);
    assert q == a * (u + w * c) + v;
    DivModUnique(q, a, u + w * c, v);
    assert v * (b * c) == b * v * c;
  }

  lemma TurnTwice(a: nat, b: nat, c: nat, p: nat)
    requires a > 0 && b > 0
    ensures Turn(a, b * c, Turn(b, a * c, p)) == Turn(a * b, c, p)
  {
    var q, w := p / b, p % b;
    var u, v := q / a, q % a;
    Decompose(p, a, b, q, u, v, w);
    RotateCore(a, b, c, u, v, w);
  }

  lemma RotateTwice(k: nat, i: nat, j: nat, p: nat)
    requires i + j <= k
    ensures Rotated(k, i, Rotated(k, j, p)) == Rotated(k, i + j, p)
  {
    Pow2Add(i, j);
    Pow2Add(i, k - i - j);
    Pow2Add(j, k - i - j);
    TurnTwice(Pow2(i), Pow2(j), Pow2(k - i - j), p);
  }

  lemma RotatedInside(k: nat, j: nat, p: nat)
    requires j <= k && p < Pow2(k)
    ensures Rotated(k, j, p) < Pow2(k)
  {
    Pow2Add(j, k - j);
    Bounded(p, Pow2(j), Pow2(k - j));
  }

  lemma Bounded(p: nat, a: nat, b: nat)
    requires a > 0 && p < a * b
    ensures p / a < b && Turn(a, b, p) < a * b
  {
    var q, r := p / a, p % a;
    assert p == a * q + r;
    if q >= b {
      MulMono(a, b, q);
    }
    MulMono(b, r + 1, a);
    assert b * (r + 1) == r * b + b;
  }

  lemma FullTurn(a: nat, p: nat)
    requires p < a
    ensures Turn(a, 1, p) == p
  {
  }

  lemma RotateBack(k: nat, j: nat, p: nat)
    requires j <= k && p < Pow2(k)
    ensures Rotated(k, k - j, Rotated(k, j, p)) == p
  {
    RotateTwice(k, k - j, j, p);
    FullTurn(Pow2(k), p);
  }

  /** The other port of the switch at `p`. */
  function Partner(p: nat): nat {
    if p % 2 == 0 then p + 1 else p - 1
  }

  /** The two ports of a switch carry labels that differ in one bit. */
  lemma PartnerFlips(k: nat, j: nat, p: nat)
    requires 0 < j <= k && p < Pow2(k)
    ensures Rotated(k, j, Partner(p)) == Flip(Rotated(k, j, p), Pow2(k - j))
  {
    Pow2Add(j, k - j);
    Bounded(p, Pow2(j), Pow2(k - j));
    PartnerCore(p, Pow2(j - 1), Pow2(k - j));
  }

  lemma PartnerCore(p: nat, a: nat, b: nat)
    requires a > 0 && b > 0 && p / (2 * a) < b
    ensures Turn(2 * a, b, Partner(p)) == Flip(Turn(2 * a, b, p), b)
  {
    var q, r := p / (2 * a), p % (2 * a);
    EvenModulus(p, a);
    DivModUnique(Turn(2 * a, b, p), b, r, q);
    if r % 2 == 0 {
      DivModUnique(p + 1, 2 * a, q, r + 1);
      Distribute(r, 1, b);
    } else {
      DivModUnique(p - 1, 2 * a, q, r - 1);
      Distribute(r - 1, 1, b);
    }
  }

  lemma Distribute(x: nat, y: nat, b: nat)
    ensures (x + y) * b == x * b + y * b
  {
  }

  lemma EvenModulus(p: nat, a: nat)
    requires a > 0
    ensures p % (2 * a) % 2 == p % 2
  {
    var q, r := p / (2 * a), p % (2 * a);
    assert p == 2 * a * q + r;
    assert 2 * a * q == 2 * (a * q);
  }
}
