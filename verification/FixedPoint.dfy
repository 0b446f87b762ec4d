/** Round-shift-clip narrowing, the fixed-point butterfly, and how far its stages drift
    from the exact network. */
module FixedPoint {
  import opened Arith
  import opened Bits
  import opened Rings
  import opened Fft
  import opened Wrappers

  /** A complex value: real and imaginary part. */
  type Sample = (int, int)

  function Clip(lo: int, hi: int, x: int): int {
    if x < lo then lo else if x > hi then hi else x
  }

  /** Arithmetic right shift plus the most significant discarded bit. */
  function RoundShift(value: int, shift: nat): int {
    value / Pow2(shift) + if shift == 0 then 0 else value / Pow2(shift - 1) % 2
  }

  predicate SignedFits(x: int, bits: nat)
    requires bits > 0
  {
    0 - Pow2(bits - 1) <= x < Pow2(bits - 1)
  }

  /** The checked helper: values outside a signed 32-bit accumulator, shifts outside 0..31 and widths
      outside 2..32 are refused. */
  function RoundShiftClip(value: int, shift: int, bits: int): Option<int> {
    if !SignedFits(value, 32) || !(0 <= shift < 32) || !(2 <= bits <= 32) then None
    else Some(Clip(0 - Pow2(bits - 1), Pow2(bits - 1) - 1, RoundShift(value, shift)))
  }

  /** Rounding by quotient and remainder, rounded up from one half on. */
  function OracleRound(value: int, shift: nat): int {
    value / Pow2(shift) + if 2 * (value % Pow2(shift)) >= Pow2(shift) then 1 else 0
  }

  /** Shift-and-add-the-lost-bit rounds to nearest with ties up, at every value and shift, exactly
      as rounding the quotient does. */
  lemma RoundsToNearestUp(value: int, shift: nat)
    ensures RoundShift(value, shift) == OracleRound(value, shift)
    ensures shift > 0 ==> RoundShift(value, shift) == (value + Pow2(shift - 1)) / Pow2(shift)
  {
    if shift > 0 {
      var h := Pow2(shift - 1);
      HalfSteps(value, h, value / h, value % h);
    } else {
      assert Pow2(0) == 1;
    }
  }

  lemma HalfSteps(value: int, h: nat, q: int, r: int)
    requires h > 0 && value == h * q + r && 0 <= r < h
    ensures value / (2 * h) == q / 2 && value % (2 * h) == (if q % 2 == 0 then r else h + r)
    ensures (value + h) / (2 * h) == q / 2 + q % 2
  {
    var k := q / 2;
    Doubled(h, k);
    if q % 2 == 0 {
      DivModUnique(value, 2 * h, k, r);
      DivModUnique(value + h, 2 * h, k, r + h);
    } else {
      DivModUnique(value, 2 * h, k, h + r);
      DivModUnique(value + h, 2 * h, k + 1, r);
    }
  }

  lemma Doubled(h: int, k: int)
    ensures h * (2 * k) == 2 * h * k && h * (2 * k + 1) == 2 * h * k + h && 2 * h * (k + 1) == 2 * h * k + 2 * h
  {
  }

  /** `r` is `q`, or the end of the signed byte range that `q` lies beyond. */
  predicate NearestByte(q: int, r: int) {
    (q >= 127 ==> r == 127) && (q <= -128 ==> r == -128) && (-128 <= q <= 127 ==> r == q)
  }

  /** Clipping gives the number of the range that is nearest. */
  lemma ClipIsNearest(lo: int, hi: int, x: int, y: int)
    requires lo <= y <= hi
    ensures lo <= Clip(lo, hi, x) <= hi
    ensures var c := Clip(lo, hi, x); (if c < x then x - c else c - x) <= if y < x then x - y else y - x
  {
  }

  /** The checked helper refuses exactly the arguments out of range; otherwise it gives the rounded
      quotient, or the end of the signed range that the quotient lies beyond. */
  lemma RoundShiftClipSaturates(value: int, shift: int, bits: int)
    ensures RoundShiftClip(value, shift, bits).Some? <==>
      -0x8000_0000 <= value <= 0x7FFF_FFFF && 0 <= shift <= 31 && 2 <= bits <= 32
    ensures RoundShiftClip(value, shift, bits).Some? ==>
      var q: int, top: int := OracleRound(value, shift), Pow2(bits - 1);
      && (q >= top ==> RoundShiftClip(value, shift, bits) == Some(top - 1))
      && (q < -top ==> RoundShiftClip(value, shift, bits) == Some(-top))
      && (-top <= q < top ==> RoundShiftClip(value, shift, bits) == Some(q))
    ensures bits == 8 && RoundShiftClip(value, shift, 8).Some? ==>
      NearestByte(OracleRound(value, shift), RoundShiftClip(value, shift, 8).value)
  {
    Pow2Values();
    if shift >= 0 {
      RoundsToNearestUp(value, shift);
    }
  }

  // ----- the butterfly

  /** The four sums of a butterfly, 128 times the halved outputs. */
  function Sums(a: Sample, b: Sample, w: Sample): (Sample, Sample) {
    var tr := b.0 * w.0 - b.1 * w.1;
    var ti := b.0 * w.1 + b.1 * w.0;
    ((tr + 64 * a.0, ti + 64 * a.1), (-tr + 64 * a.0, -ti + 64 * a.1))
  }

  function Narrow(value: int): int { Clip(-128, 127, RoundShift(value, 7)) }

  function RoundedButterfly(a: Sample, b: Sample, w: Sample): (Sample, Sample) {
    var (x, y) := Sums(a, b, w);
    ((Narrow(x.0), Narrow(x.1)), (Narrow(y.0), Narrow(y.1)))
  }

  predicate ByteSample(s: Sample) { -128 <= s.0 <= 127 && -128 <= s.1 <= 127 }

  predicate Twiddle(w: Sample) { -64 <= w.0 <= 64 && -64 <= w.1 <= 64 }

  lemma ProductBound(x: int, y: int, m: int, n: int)
    requires -m <= x <= m && -n <= y <= n
    ensures -(m * n) <= x * y <= m * n
  {
    NonNegative(m - x, n + y);
    NonNegative(m + x, n - y);
    NonNegative(m - x, n - y);
    NonNegative(m + x, n + y);
  }

  lemma NonNegative(x: int, y: int)
    requires x >= 0 && y >= 0
    ensures x * y >= 0
  {
  }

  lemma SumsBounded(a: Sample, b: Sample, w: Sample)
    requires ByteSample(a) && ByteSample(b) && Twiddle(w)
    ensures var (x, y) := Sums(a, b, w);
      && -24576 <= x.0 <= 24576 && -24576 <= x.1 <= 24576 && -24576 <= y.0 <= 24576 && -24576 <= y.1 <= 24576
  {
    ProductBound(b.0, w.0, 128, 64);
    ProductBound(b.1, w.1, 128, 64);
    ProductBound(b.0, w.1, 128, 64);
    ProductBound(b.1, w.0, 128, 64);
  }

  lemma Pow2Values()
    ensures Pow2(6) == 64 && Pow2(7) == 128 && Pow2(31) == 0x8000_0000
  {
    assert Pow2(4) == 16;
    Pow2Add(4, 2);
    assert Pow2(2) == 4 && Pow2(6) == 64 && Pow2(7) == 128;
    Pow2Add(7, 7);
    Pow2Add(14, 14);
    Pow2Add(28, 3);
    assert Pow2(3) == 8;
  }

  /** On byte samples and twiddle codes in [-64, 64] the checked helper never refuses, and the outputs are
      the four sums over 128, rounded to nearest and saturated. */
  lemma ButterflyNeverRefused(a: Sample, b: Sample, w: Sample)
    requires ByteSample(a) && ByteSample(b) && Twiddle(w)
    ensures var (x, y) := Sums(a, b, w); var (p, q) := RoundedButterfly(a, b, w);
      && RoundShiftClip(x.0, 7, 8) == Some(p.0) && RoundShiftClip(x.1, 7, 8) == Some(p.1)
      && RoundShiftClip(y.0, 7, 8) == Some(q.0) && RoundShiftClip(y.1, 7, 8) == Some(q.1)
      && NearestByte(OracleRound(x.0, 7), p.0) && NearestByte(OracleRound(x.1, 7), p.1)
      && NearestByte(OracleRound(y.0, 7), q.0) && NearestByte(OracleRound(y.1, 7), q.1)
      && ByteSample(p) && ByteSample(q)
  {
    SumsBounded(a, b, w);
    Pow2Values();
    var (x, y) := Sums(a, b, w);
    RoundsToNearestUp(x.0, 7);
    RoundsToNearestUp(x.1, 7);
    RoundsToNearestUp(y.0, 7);
    RoundsToNearestUp(y.1, 7);
  }

  // ----- rounding error

  /** The same butterfly without clipping. */
  function UnclippedButterfly(a: Sample, b: Sample, w: Sample): (Sample, Sample) {
    var (x, y) := Sums(a, b, w);
    ((RoundShift(x.0, 7), RoundShift(x.1, 7)), (RoundShift(y.0, 7), RoundShift(y.1, 7)))
  }

  function Power(b: nat, e: nat): (p: nat)
    ensures b > 0 ==> p > 0
  {
    if e == 0 then 1 else b * Power(b, e - 1)
  }

  /** Each stage of `Sums` multiplies by 128 what the halving network with twiddle codes in 64ths
      holds, so after `s` stages `x / 128^s` is the exact value; `r` is within `bound / 128^s` of it. */
  predicate Near(r: int, x: int, scale: nat, bound: int) { -bound <= scale * r - x <= bound }

  predicate Close(r: Sample, x: Sample, scale: nat, bound: int) {
    Near(r.0, x.0, scale, bound) && Near(r.1, x.1, scale, bound)
  }

  lemma RoundingError(value: int)
    ensures -64 < 128 * RoundShift(value, 7) - value <= 64
  {
    Pow2Values();
    RoundsToNearestUp(value, 7);
  }

  /** One component: an error of `e` in every input becomes at most `192 e + 64 scale`. */
  lemma ComponentError(a: int, b: int, c: int, wb: int, wc: int, xa: int, xb: int, xc: int, scale: nat, e: nat)
    requires Near(a, xa, scale, e) && Near(b, xb, scale, e) && Near(c, xc, scale, e)
    requires -64 <= wb <= 64 && -64 <= wc <= 64
    ensures Near(RoundShift(64 * a + b * wb + c * wc, 7), 64 * xa + xb * wb + xc * wc, 128 * scale, 192 * e + 64 * scale)
  {
    var v := 64 * a + b * wb + c * wc;
    var r := RoundShift(v, 7);
    RoundingError(v);
    ProductBound(scale, 128 * r - v, scale, 64);
    ProductBound(scale * b - xb, wb, e, 64);
    ProductBound(scale * c - xc, wc, e, 64);
    Regroup(scale, r, a, b, c, wb, wc, xb, xc);
  }

  lemma Regroup(p: int, r: int, a: int, b: int, c: int, wb: int, wc: int, xb: int, xc: int)
    ensures 128 * p * r == p * (128 * r - (64 * a + b * wb + c * wc)) + 64 * (p * a)
                           + (p * b - xb) * wb + (p * c - xc) * wc + xb * wb + xc * wc
  {
    Distribute(p, 128 * r, 64 * a, b * wb, c * wc);
    assert p * (128 * r) == 128 * p * r && p * (64 * a) == 64 * (p * a);
    assert p * (b * wb) == p * b * wb && p * (c * wc) == p * c * wc;
    assert (p * b - xb) * wb == p * b * wb - xb * wb && (p * c - xc) * wc == p * c * wc - xc * wc;
  }

  lemma Distribute(p: int, w: int, x: int, y: int, z: int)
    ensures p * (w - (x + y + z)) == p * w - p * x - p * y - p * z
  {
  }

  lemma UpperError(a: Sample, b: Sample, w: Sample, xa: Sample, xb: Sample, scale: nat, e: nat)
    requires Close(a, xa, scale, e) && Close(b, xb, scale, e) && Twiddle(w)
    ensures Close(UnclippedButterfly(a, b, w).0, Sums(xa, xb, w).0, 128 * scale, 192 * e + 64 * scale)
  {
    Signs(b, w);
    Signs(xb, w);
    ComponentError(a.0, b.0, b.1, w.0, -w.1, xa.0, xb.0, xb.1, scale, e);
    ComponentError(a.1, b.0, b.1, w.1, w.0, xa.1, xb.0, xb.1, scale, e);
  }

  lemma ButterflyError(a: Sample, b: Sample, w: Sample, xa: Sample, xb: Sample, scale: nat, e: nat)
    requires Close(a, xa, scale, e) && Close(b, xb, scale, e) && Twiddle(w)
    ensures Close(UnclippedButterfly(a, b, w).0, Sums(xa, xb, w).0, 128 * scale, 192 * e + 64 * scale)
    ensures Close(UnclippedButterfly(a, b, w).1, Sums(xa, xb, w).1, 128 * scale, 192 * e + 64 * scale)
  {
    UpperError(a, b, w, xa, xb, scale, e);
    UpperError(a, b, (-w.0, -w.1), xa, xb, scale, e);
    Mirrored(a, b, w);
    Mirrored(xa, xb, w);
  }

  /** The lower output is the upper one for the opposite twiddle. */
  lemma Mirrored(a: Sample, b: Sample, w: Sample)
    ensures Sums(a, b, (-w.0, -w.1)).0 == Sums(a, b, w).1
  {
    Signs(b, w);
  }

  lemma Signs(b: Sample, w: Sample)
    ensures b.0 * -w.0 == -(b.0 * w.0) && b.0 * -w.1 == -(b.0 * w.1)
    ensures b.1 * -w.0 == -(b.1 * w.0) && b.1 * -w.1 == -(b.1 * w.1)
  {
  }

  predicate AllTwiddles(tw: seq<Sample>) { forall j :: 0 <= j < |tw| ==> Twiddle(tw[j]) }

  predicate AllBytes(v: seq<Sample>) { forall i :: 0 <= i < |v| ==> ByteSample(v[i]) }

  function ErrorAfter(s: nat): (Sample, Sample) -> bool {
    (r: Sample, x: Sample) => Close(r, x, Power(128, s), Power(192, s) - Power(128, s))
  }

  lemma StageError(w: Sample, t: nat)
    requires Twiddle(w)
    ensures Preserves(UnclippedButterfly, Sums, w, w, ErrorAfter(t), ErrorAfter(t + 1))
  {
    PowersGrow(t);
    forall a, xa, b, xb | ErrorAfter(t)(a, xa) && ErrorAfter(t)(b, xb)
      ensures ErrorAfter(t + 1)(UnclippedButterfly(a, b, w).0, Sums(xa, xb, w).0)
      ensures ErrorAfter(t + 1)(UnclippedButterfly(a, b, w).1, Sums(xa, xb, w).1)
    {
      ButterflyError(a, b, w, xa, xb, Power(128, t), Power(192, t) - Power(128, t));
    }
  }

  /** After `s` stages without clipping every component is within `(3/2)^s - 1` of the exact halving
      network: `r` against `x / 128^s`, multiplied out. */
  lemma UnclippedError(v: seq<Sample>, s: nat, step: nat, tw: seq<Sample>)
    requires Shape(|v|, s, step, |tw|) && AllTwiddles(tw)
    ensures Related(Stages(v, s, step, tw, UnclippedButterfly), Stages(v, s, step, tw, Sums), ErrorAfter(s))
  {
    forall t: nat, j | t < s && 0 <= j < |tw|
      ensures Preserves(UnclippedButterfly, Sums, tw[j], tw[j], ErrorAfter(t), ErrorAfter(t + 1))
    {
      StageError(tw[j], t);
    }
    StagesRelated(v, v, s, step, tw, tw, UnclippedButterfly, Sums, ErrorAfter);
  }

  lemma {:induction false} PowersGrow(t: nat)
    ensures Power(192, t) >= Power(128, t)
  {
    if t > 0 {
      PowersGrow(t - 1);
    }
  }

  // ----- clipping

  /** The unclipped network stays in byte range after each of the `s` stages. */
  ghost predicate ClipFree(v: seq<Sample>, s: nat, step: nat, tw: seq<Sample>)
    requires Shape(|v|, s, step, |tw|)
  {
    s > 0 ==>
      && AllBytes(Stages(v, s, step, tw, UnclippedButterfly))
      && (ShapeDown(|v|, s, step, |tw|); ClipFree(v, s - 1, 2 * step, tw))
  }

  /** Clipping changes nothing in any of the `s` stages. */
  ghost predicate ClipIdle(v: seq<Sample>, s: nat, step: nat, tw: seq<Sample>)
    requires Shape(|v|, s, step, |tw|)
  {
    s > 0 ==>
      && Stages(v, s, step, tw, RoundedButterfly) == Stages(v, s, step, tw, UnclippedButterfly)
      && (ShapeDown(|v|, s, step, |tw|); ClipIdle(v, s - 1, 2 * step, tw))
  }

  lemma {:induction false} StageClips(v: seq<Sample>, half: nat, ws: seq<Sample>)
    requires 0 < half == |ws| && Whole(|v|, 2 * half)
    ensures AllBytes(StageResult(v, half, ws, RoundedButterfly))
    ensures AllBytes(StageResult(v, half, ws, UnclippedButterfly)) ==>
      StageResult(v, half, ws, RoundedButterfly) == StageResult(v, half, ws, UnclippedButterfly)
    decreases |v|
  {
    if v != [] {
      var base := |v| - 2 * half;
      var lo, hi := v[base..base + half], v[base + half..];
      StageClips(v[..base], half, ws);
      MergeClips(lo, hi, ws);
      JoinClips(StageResult(v[..base], half, ws, RoundedButterfly), StageResult(v[..base], half, ws, UnclippedButterfly),
                Merge(lo, hi, ws, RoundedButterfly), Merge(lo, hi, ws, UnclippedButterfly));
    }
  }

  lemma JoinClips(c: seq<Sample>, u: seq<Sample>, c': seq<Sample>, u': seq<Sample>)
    requires AllBytes(c) && (AllBytes(u) ==> c == u) && AllBytes(c') && (AllBytes(u') ==> c' == u')
    ensures AllBytes(c + c') && (AllBytes(u + u') ==> c + c' == u + u')
  {
    BytesConcat(c, c');
    BytesConcat(u, u');
  }

  lemma BytesConcat(u: seq<Sample>, v: seq<Sample>)
    ensures AllBytes(u + v) <==> AllBytes(u) && AllBytes(v)
  {
    assert u == (u + v)[..|u|] && v == (u + v)[|u|..];
  }

  lemma MergeClips(lo: seq<Sample>, hi: seq<Sample>, ws: seq<Sample>)
    requires |lo| == |hi| == |ws|
    ensures AllBytes(Merge(lo, hi, ws, RoundedButterfly))
    ensures AllBytes(Merge(lo, hi, ws, UnclippedButterfly)) ==>
      Merge(lo, hi, ws, RoundedButterfly) == Merge(lo, hi, ws, UnclippedButterfly)
  {
    var c, u := Merge(lo, hi, ws, RoundedButterfly), Merge(lo, hi, ws, UnclippedButterfly);
    forall i | 0 <= i < |c| ensures ByteSample(c[i]) && (ByteSample(u[i]) ==> c[i] == u[i]) {
      MergeAt(lo, hi, ws, RoundedButterfly, i);
      MergeAt(lo, hi, ws, UnclippedButterfly, i);
    }
  }

  /** Clipping is idle through `s` stages exactly when the unclipped values stay in byte range. */
  lemma {:induction false} ClipIdleIffClipFree(v: seq<Sample>, s: nat, step: nat, tw: seq<Sample>)
    requires Shape(|v|, s, step, |tw|)
    ensures ClipIdle(v, s, step, tw) <==> ClipFree(v, s, step, tw)
    ensures ClipFree(v, s, step, tw) ==>
      Stages(v, s, step, tw, RoundedButterfly) == Stages(v, s, step, tw, UnclippedButterfly)
  {
    if s > 0 {
      var half := Pow2(s - 1);
      ShapeDown(|v|, s, step, |tw|);
      ClipIdleIffClipFree(v, s - 1, 2 * step, tw);
      var c, u := Stages(v, s - 1, 2 * step, tw, RoundedButterfly), Stages(v, s - 1, 2 * step, tw, UnclippedButterfly);
      StageIsResult(c, half, step, tw, RoundedButterfly);
      StageIsResult(u, half, step, tw, UnclippedButterfly);
      StageClips(c, half, Strided(tw, half, step));
    }
  }

  /** The fixed-point stages stay within `(3/2)^s - 1` of the exact halving network whenever no
      butterfly clips. */
  lemma RoundingErrorBound(v: seq<Sample>, s: nat, step: nat, tw: seq<Sample>)
    requires Shape(|v|, s, step, |tw|) && AllTwiddles(tw) && ClipFree(v, s, step, tw)
    ensures Related(Stages(v, s, step, tw, RoundedButterfly), Stages(v, s, step, tw, Sums), ErrorAfter(s))
  {
    UnclippedError(v, s, step, tw);
    ClipIdleIffClipFree(v, s, step, tw);
  }

  // ----- the butterfly is complex arithmetic

  /** Complex numbers with integer parts. */
  const Gaussian: Ring<Sample> := Ring(
    (0, 0), (1, 0),
    (x: Sample, y: Sample) => (x.0 + y.0, x.1 + y.1),
    (x: Sample) => (-x.0, -x.1),
    (x: Sample, y: Sample) => (x.0 * y.0 - x.1 * y.1, x.0 * y.1 + x.1 * y.0))

  lemma Difference(p: int, q: int, r: int)
    ensures (p - q) * r == p * r - q * r && r * (p - q) == r * p - r * q
  {
  }

  lemma Sum(p: int, q: int, r: int)
    ensures (p + q) * r == p * r + q * r && r * (p + q) == r * p + r * q
  {
  }

  lemma Triple(p: int, q: int, r: int)
    ensures p * q * r == p * (q * r)
  {
  }

  /** (ac - bd) e - (ad + bc) f, multiplied out the other way. */
  lemma RealParts(a: int, b: int, c: int, d: int, e: int, f: int, p: int, q: int, r: int, t: int)
    requires p == a * c - b * d && q == a * d + b * c && r == c * e - d * f && t == c * f + d * e
    ensures p * e - q * f == a * r - b * t
  {
    Difference(a * c, b * d, e);
    Sum(a * d, b * c, f);
    Difference(c * e, d * f, a);
    Sum(c * f, d * e, b);
    Triple(a, c, e);
    Triple(b, d, e);
    Triple(a, d, f);
    Triple(b, c, f);
  }

  lemma ImaginaryParts(a: int, b: int, c: int, d: int, e: int, f: int, p: int, q: int, r: int, t: int)
    requires p == a * c - b * d && q == a * d + b * c && r == c * e - d * f && t == c * f + d * e
    ensures p * f + q * e == a * t + b * r
  {
    Difference(a * c, b * d, f);
    Sum(a * d, b * c, e);
    Sum(c * f, d * e, a);
    Difference(c * e, d * f, b);
    Triple(a, c, f);
    Triple(b, d, f);
    Triple(a, d, e);
    Triple(b, c, e);
  }

  lemma GaussianAssoc(x: Sample, y: Sample, z: Sample)
    ensures Gaussian.MulAssoc(x, y, z)
  {
    var xy, yz := Gaussian.mul(x, y), Gaussian.mul(y, z);
    RealParts(x.0, x.1, y.0, y.1, z.0, z.1, xy.0, xy.1, yz.0, yz.1);
    ImaginaryParts(x.0, x.1, y.0, y.1, z.0, z.1, xy.0, xy.1, yz.0, yz.1);
  }

  lemma GaussianDistributes(x: Sample, y: Sample, z: Sample)
    ensures Gaussian.Distributes(x, y, z)
  {
    Sum(y.0, z.0, x.0);
    Sum(y.1, z.1, x.1);
    Sum(y.1, z.1, x.0);
    Sum(y.0, z.0, x.1);
  }

  lemma GaussianLawful()
    ensures Gaussian.Lawful()
  {
    forall x, y, z ensures Gaussian.MulAssoc(x, y, z) && Gaussian.Distributes(x, y, z) {
      GaussianAssoc(x, y, z);
      GaussianDistributes(x, y, z);
    }
  }

  /** The transform theorem applies there: minus the imaginary unit is a root of unity for four points. */
  lemma FourPointRoot()
    ensures RootOfUnity(Gaussian, 2, (0, -1), [(1, 0), (0, -1)])
  {
    GaussianLawful();
    var w := (0, -1);
    assert Pow2(0) == 1 && Pow2(1) == 2;
    assert Gaussian.Pow(w, 0) == (1, 0);
    assert Gaussian.Pow(w, 1) == w;
    assert Gaussian.Pow(w, 2) == (-1, 0);
  }

  /** The real and imaginary sums of a butterfly are complex arithmetic: 64 times `a` plus or minus `b`
      times the twiddle code. */
  lemma SumsAreComplex(a: Sample, b: Sample, w: Sample)
    ensures var G := Gaussian; var t := G.mul(b, w);
      Sums(a, b, w) == (G.add(G.mul((64, 0), a), t), G.Sub(G.mul((64, 0), a), t))
  {
  }
}
