/** A symmetric stack of exchange stages on bit-labelled links, and the looping construction that
    sets it to any permutation. */
module Rearrange {
  import Arith
  import opened Bits
  import opened Links
  import opened Permutations

  /** What one stage of two-by-two exchanges does to the links, for the bit of weight `h`. */
  function Exchange(h: nat, c: seq<bool>): (p: seq<nat>)
    requires h > 0
    ensures |p| == |c|
  {
    seq(|c|, l requires 0 <= l < |c| => if c[l] then Flip(l, h) else l)
  }

  /** Both links of every exchange see the same control bit. */
  ghost predicate Symmetric(h: nat, c: seq<bool>)
    requires h > 0
  {
    |c| % (2 * h) == 0 && forall l: nat :: l < |c| ==> Flip(l, h) < |c| && c[Flip(l, h)] == c[l]
  }

  lemma ExchangePermutes(h: nat, c: seq<bool>)
    requires h > 0 && Symmetric(h, c)
    ensures Permutation(Exchange(h, c)) && forall l: nat :: l < |c| ==> Exchange(h, c)[Exchange(h, c)[l]] == l
  {
    var p := Exchange(h, c);
    forall l: nat | l < |c| ensures p[l] < |c| && p[p[l]] == l {
      FlipDigit(l, h);
      assert Flip(l, h) < |c| && c[Flip(l, h)] == c[l];
    }
    forall i, j | 0 <= i < j < |p| ensures p[i] != p[j] {
      assert p[p[i]] == i && p[p[j]] == j;
    }
  }

  /** The bit that stage `t` exchanges: the top one first, down to bit 0, and up again. */
  function Exponent(m: nat, t: nat): nat {
    if t < m then m - 1 - t else t - m + 1
  }

  function Weight(m: nat, t: nat): nat {
    Pow2(Exponent(m, t))
  }

  ghost predicate Settings(n: nat, m: nat, cs: seq<seq<bool>>) {
    |cs| == 2 * m - 1 && forall t: nat :: t < |cs| ==> |cs[t]| == n && Symmetric(Weight(m, t), cs[t])
  }

  /** The links after all the stages: outer exchanges around the stack for one bit less. */
  ghost function Stack<T>(x: seq<T>, m: nat, cs: seq<seq<bool>>): (r: seq<T>)
    requires m > 0 && Settings(|x|, m, cs)
    ensures |r| == |x|
    decreases m
  {
    var h := Pow2(m - 1);
    assert |cs[0]| == |x| && Symmetric(Weight(m, 0), cs[0]);
    ExchangePermutes(h, cs[0]);
    var entered := Carry(x, Exchange(h, cs[0]));
    if m == 1 then entered else
      Middle(|x|, m, cs);
      assert Symmetric(Weight(m, 2 * m - 2), cs[2 * m - 2]);
      ExchangePermutes(h, cs[2 * m - 2]);
      Carry(Stack(entered, m - 1, cs[1..2 * m - 2]), Exchange(h, cs[2 * m - 2]))
  }

  lemma Middle(n: nat, m: nat, cs: seq<seq<bool>>)
    requires m > 1 && Settings(n, m, cs)
    ensures Settings(n, m - 1, cs[1..2 * m - 2])
  {
    var mid := cs[1..2 * m - 2];
    forall t: nat | t < |mid| ensures |mid[t]| == n && Symmetric(Weight(m - 1, t), mid[t]) {
      assert mid[t] == cs[t + 1] && Weight(m, t + 1) == Weight(m - 1, t);
    }
  }

  /** No element leaves its block of `size` consecutive links. */
  ghost predicate KeepsBlocks(size: nat, p: seq<nat>)
    requires size > 0
  {
    forall l: nat :: l < |p| ==> p[l] / size == l / size
  }

  /** One stage that exchanges neighbours realises every permutation of pairs. */
  lemma PairSettings(sigma: seq<nat>) returns (c: seq<bool>)
    requires Permutation(sigma) && KeepsBlocks(2, sigma) && |sigma| % 2 == 0
    ensures |c| == |sigma| && Symmetric(1, c) && Exchange(1, c) == sigma
  {
    c := seq(|sigma|, l requires 0 <= l < |sigma| => sigma[l] != l);
    forall l: nat | l < |c| ensures Flip(l, 1) < |c| && c[Flip(l, 1)] == c[l] && Exchange(1, c)[l] == sigma[l] {
      FlipInside(|c|, l, 1);
      FlipDigit(l, 1);
      var f := Flip(l, 1);
      assert sigma[l] / 2 == l / 2 && sigma[f] / 2 == f / 2 == l / 2;
      assert sigma[l] != sigma[f];
    }
  }

  // ----- the looping step

  ghost predicate Bit(l: nat, h: nat)
    requires h > 0
  {
    l / h % 2 == 1
  }

  /** A colour for every output: outputs that share an exchange differ, and so do outputs whose
      elements share an exchange on the way in. */
  ghost predicate Coloured(h: nat, sigma: seq<nat>, c: seq<bool>)
    requires h > 0 && Permutation(sigma)
  {
    |c| == |sigma| && forall o: nat :: o < |c| ==> ColouredAt(h, sigma, c, o)
  }

  ghost predicate ColouredAt(h: nat, sigma: seq<nat>, c: seq<bool>, o: nat)
    requires h > 0 && Permutation(sigma) && |c| == |sigma| && o < |c|
  {
    && Flip(o, h) < |c| && c[Flip(o, h)] != c[o]
    && Flip(sigma[o], h) < |c| && c[Position(sigma, Flip(sigma[o], h))] != c[o]
  }

  ghost function ExitPairs(h: nat, n: nat): (f: map<nat, nat>)
    requires h > 0
  {
    map o | o in Below(n) :: Flip(o, h)
  }

  ghost function EntryPair(h: nat, sigma: seq<nat>, o: nat): nat
    requires h > 0 && Permutation(sigma) && |sigma| % (2 * h) == 0 && o < |sigma|
  {
    FlipInside(|sigma|, sigma[o], h);
    Position(sigma, Flip(sigma[o], h))
  }

  ghost function EntryPairs(h: nat, sigma: seq<nat>): (g: map<nat, nat>)
    requires h > 0 && Permutation(sigma) && |sigma| % (2 * h) == 0
  {
    map o | o in Below(|sigma|) :: EntryPair(h, sigma, o)
  }

  lemma ExitPairsPair(h: nat, n: nat)
    requires h > 0 && n % (2 * h) == 0
    ensures Pairing(ExitPairs(h, n), Below(n))
  {
    var f := ExitPairs(h, n);
    forall o: nat {:trigger Paired(f, o)} | o in Below(n) ensures Paired(f, o) {
      FlipInside(n, o, h);
      FlipDigit(o, h);
    }
  }

  lemma EntryPairsPair(h: nat, sigma: seq<nat>)
    requires h > 0 && Permutation(sigma) && |sigma| % (2 * h) == 0
    ensures Pairing(EntryPairs(h, sigma), Below(|sigma|))
  {
    var g := EntryPairs(h, sigma);
    forall o: nat {:trigger Paired(g, o)} | o in Below(|sigma|) ensures Paired(g, o) {
      FlipInside(|sigma|, sigma[o], h);
      FlipDigit(sigma[o], h);
      assert sigma[g[o]] == Flip(sigma[o], h);
      PositionIsInverse(sigma, o);
    }
  }

  lemma ColourOutputs(h: nat, sigma: seq<nat>) returns (c: seq<bool>)
    requires h > 0 && Permutation(sigma) && |sigma| % (2 * h) == 0
    ensures Coloured(h, sigma, c)
  {
    var n := |sigma|;
    var f, g := ExitPairs(h, n), EntryPairs(h, sigma);
    ExitPairsPair(h, n);
    EntryPairsPair(h, sigma);
    var colours := TwoColouring(Below(n), f, g);
    c := InOrder(colours, n);
    forall o: nat | o < n ensures ColouredAt(h, sigma, c, o) {
      assert Split(colours, f, o) && Split(colours, g, o);
      ColoursDiffer(h, sigma, colours, c, o);
    }
  }

  lemma InOrder(colours: map<nat, bool>, n: nat) returns (c: seq<bool>)
    requires colours.Keys == Below(n)
    ensures |c| == n && forall i: nat :: i < |c| ==> i in colours && c[i] == colours[i]
  {
    c := seq(n, i requires 0 <= i < n => colours[i]);
  }

  lemma ColoursDiffer(h: nat, sigma: seq<nat>, colours: map<nat, bool>, c: seq<bool>, o: nat)
    requires h > 0 && Permutation(sigma) && |sigma| % (2 * h) == 0 && o < |sigma| == |c|
    requires colours.Keys == Below(|sigma|) && forall i: nat :: i < |c| ==> i in colours && c[i] == colours[i]
    requires Split(colours, ExitPairs(h, |sigma|), o) && Split(colours, EntryPairs(h, sigma), o)
    ensures ColouredAt(h, sigma, c, o)
  {
    FlipInside(|sigma|, o, h);
    FlipInside(|sigma|, sigma[o], h);
  }

  /** Input exchanges: an element goes to the half that its output's colour names. */
  lemma EntrySettings(h: nat, sigma: seq<nat>, c: seq<bool>) returns (a: seq<bool>)
    requires h > 0 && Permutation(sigma) && |sigma| % (2 * h) == 0 && Coloured(h, sigma, c)
    ensures |a| == |sigma| && Symmetric(h, a)
    ensures forall o: nat :: o < |sigma| ==> sigma[o] < |a| && (Bit(Exchange(h, a)[sigma[o]], h) <==> c[o])
  {
    var n := |sigma|;
    a := seq(n, i requires 0 <= i < n => c[Position(sigma, i)] != Bit(i, h));
    forall i: nat | i < n
      ensures Flip(i, h) < n && a[Flip(i, h)] == a[i] && (Bit(Exchange(h, a)[i], h) <==> c[Position(sigma, i)])
    {
      FlipInside(n, i, h);
      FlipDigit(i, h);
      var o := Position(sigma, i);
      assert ColouredAt(h, sigma, c, o);
    }
    forall o: nat | o < n ensures sigma[o] < n && (Bit(Exchange(h, a)[sigma[o]], h) <==> c[o]) {
      PositionIsInverse(sigma, o);
    }
  }

  /** Output exchanges: an output takes its element from the half that its colour names. */
  lemma ExitSettings(h: nat, c: seq<bool>) returns (b: seq<bool>)
    requires h > 0 && |c| % (2 * h) == 0
    requires forall o: nat :: o < |c| ==> Flip(o, h) < |c| && c[Flip(o, h)] != c[o]
    ensures |b| == |c| && Symmetric(h, b)
    ensures forall l: nat :: l < |c| ==> Exchange(h, b)[l] < |c| && (c[Exchange(h, b)[l]] <==> Bit(l, h))
  {
    b := seq(|c|, l requires 0 <= l < |c| => Bit(l, h) != c[l]);
    forall l: nat | l < |c|
      ensures Flip(l, h) < |c| && b[Flip(l, h)] == b[l] && (c[Exchange(h, b)[l]] <==> Bit(l, h))
    {
      FlipDigit(l, h);
      assert Flip(l, h) < |c| && c[Flip(l, h)] != c[l];
    }
  }

  // ----- the construction

  /** With the outer exchanges taken off, every element stays in its half. */
  lemma InnerKeepsHalves(h: nat, sigma: seq<nat>, c: seq<bool>, a: seq<bool>, b: seq<bool>) returns (tau: seq<nat>)
    requires h > 0 && Permutation(sigma) && |sigma| == |a| == |b| == |c| && KeepsBlocks(2 * h, sigma)
    requires Symmetric(h, a) && Symmetric(h, b)
    requires forall o: nat :: o < |sigma| ==> sigma[o] < |a| && (Bit(Exchange(h, a)[sigma[o]], h) <==> c[o])
    requires forall l: nat :: l < |c| ==> Exchange(h, b)[l] < |c| && (c[Exchange(h, b)[l]] <==> Bit(l, h))
    ensures Permutation(tau) && |tau| == |sigma| && KeepsBlocks(h, tau)
    ensures Permutation(Exchange(h, a)) && Permutation(Exchange(h, b))
    ensures Carry(Carry(Exchange(h, a), tau), Exchange(h, b)) == sigma
  {
    var into, out := Exchange(h, a), Exchange(h, b);
    ExchangePermutes(h, a);
    ExchangePermutes(h, b);
    CarryTwice(into, sigma, out);
    var inner := Carry(into, sigma);
    tau := Carry(inner, out);
    CarryTwice(inner, out, out);
    forall l: nat | l < |tau| ensures tau[l] / h == l / h {
      var o := out[l];
      assert tau[l] == into[sigma[o]] && (Bit(tau[l], h) <==> Bit(l, h));
      BlockOfExchange(h, a, sigma[o]);
      BlockOfExchange(h, b, l);
      assert sigma[o] / (2 * h) == o / (2 * h);
      DivTwice(tau[l], h);
      DivTwice(l, h);
    }
    forall l: nat | l < |sigma| ensures Carry(Carry(into, tau), out)[l] == sigma[l] {
      assert out[out[l]] == l && into[into[sigma[l]]] == sigma[l];
    }
  }

  lemma BlockOfExchange(h: nat, c: seq<bool>, l: nat)
    requires h > 0 && l < |c|
    ensures Exchange(h, c)[l] / (2 * h) == l / (2 * h)
  {
    FlipDigit(l, h);
  }

  lemma CarryThrice(x: seq<nat>, into: seq<nat>, tau: seq<nat>, out: seq<nat>, sigma: seq<nat>)
    requires |x| == |into| == |tau| == |out| && Permutation(into) && Permutation(tau) && Permutation(out)
    requires Carry(Carry(into, tau), out) == sigma
    ensures Carry(Carry(Carry(x, into), tau), out) == Carry(x, sigma)
  {
    CarryTwice(x, into, tau);
    CarryTwice(x, Carry(into, tau), out);
  }

  /** Whatever data enter, the stack carries them by `sigma`. */
  ghost predicate Realises(m: nat, cs: seq<seq<bool>>, sigma: seq<nat>) {
    && m > 0 && Permutation(sigma) && Settings(|sigma|, m, cs)
    && forall x: seq<nat> :: |x| == |sigma| ==> Stack(x, m, cs) == Carry(x, sigma)
  }

  lemma OuterStages(m: nat, h: nat, a: seq<bool>, mid: seq<seq<bool>>, b: seq<bool>, cs: seq<seq<bool>>, x: seq<nat>,
                    tau: seq<nat>, sigma: seq<nat>)
    requires m > 1 && h == Pow2(m - 1) && |x| == |sigma| == |tau| == |a| == |b| && Symmetric(h, a) && Symmetric(h, b)
    requires Settings(|x|, m, cs) && cs[0] == a && cs[2 * m - 2] == b && cs[1..2 * m - 2] == mid
    requires Permutation(sigma) && Permutation(tau) && Permutation(Exchange(h, a)) && Permutation(Exchange(h, b))
    requires Carry(Carry(Exchange(h, a), tau), Exchange(h, b)) == sigma && Realises(m - 1, mid, tau)
    ensures Stack(x, m, cs) == Carry(x, sigma)
  {
    CarryThrice(x, Exchange(h, a), tau, Exchange(h, b), sigma);
    assert Stack(Carry(x, Exchange(h, a)), m - 1, mid) == Carry(Carry(x, Exchange(h, a)), tau);
  }

  /** The stack's settings for a permutation that keeps blocks of `Pow2(m)` links: whatever data
      enter, output `l` shows input `sigma[l]`. */
  lemma {:induction false} StackRealises(m: nat, sigma: seq<nat>) returns (cs: seq<seq<bool>>)
    requires m > 0 && Permutation(sigma) && |sigma| % Pow2(m) == 0 && KeepsBlocks(Pow2(m), sigma)
    ensures Realises(m, cs, sigma)
    decreases m
  {
    var h := Pow2(m - 1);
    if m == 1 {
      var c := PairSettings(sigma);
      cs := [c];
    } else {
      var c := ColourOutputs(h, sigma);
      var a := EntrySettings(h, sigma, c);
      forall o: nat | o < |c| ensures Flip(o, h) < |c| && c[Flip(o, h)] != c[o] {
        assert ColouredAt(h, sigma, c, o);
      }
      var b := ExitSettings(h, c);
      var tau := InnerKeepsHalves(h, sigma, c, a, b);
      HalfModulus(|sigma|, h);
      var mid := StackRealises(m - 1, tau);
      cs := Wrapped(|sigma|, m, a, mid, b);
      forall x: seq<nat> | |x| == |sigma| ensures Stack(x, m, cs) == Carry(x, sigma) {
        OuterStages(m, h, a, mid, b, cs, x, tau, sigma);
      }
    }
  }

  lemma TwiceProduct(h: int, q: int)
    ensures 2 * h * q == h * (2 * q)
  {
  }

  lemma HalfModulus(n: nat, h: nat)
    requires h > 0 && n % (2 * h) == 0
    ensures n % h == 0
  {
    var q := n / (2 * h);
    TwiceProduct(h, q);
    Arith.MulDivMod(h, 2 * q);
  }

  lemma Wrapped(n: nat, m: nat, a: seq<bool>, mid: seq<seq<bool>>, b: seq<bool>) returns (cs: seq<seq<bool>>)
    requires m > 1 && |a| == |b| == n && Symmetric(Pow2(m - 1), a) && Symmetric(Pow2(m - 1), b) && Settings(n, m - 1, mid)
    ensures Settings(n, m, cs) && cs[0] == a && cs[2 * m - 2] == b && cs[1..2 * m - 2] == mid
  {
    cs := [a] + mid + [b];
    forall t: nat | t < |cs| ensures |cs[t]| == n && Symmetric(Weight(m, t), cs[t]) {
      if 0 < t < |cs| - 1 {
        assert cs[t] == mid[t - 1] && Weight(m, t) == Weight(m - 1, t - 1);
      }
    }
  }
}
