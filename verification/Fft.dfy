/** The in-place radix-2 decimation-in-time schedule, for any butterfly operation.

    A stage is a list of butterflies applied one after the other to one array, exactly in the order
    of the nested loops over blocks and lanes. It equals the textbook recursion on halves, and with the exact ring
    butterfly the recursion computes the discrete Fourier transform. */
module Fft {
  import opened Arith
  import opened Bits
  import opened Rings
  import opened Dft

  type Operation<!T, !W> = (T, T, W) -> (T, T)

  /** A butterfly on elements `a` and `b` with twiddle number `t`. */
  datatype Place = Place(a: nat, b: nat, t: nat) {
    predicate Fits(n: nat, twiddles: nat) { a < n && b < n && a != b && t < twiddles }
  }

  predicate AllFit(ps: seq<Place>, n: nat, twiddles: nat) {
    forall j :: 0 <= j < |ps| ==> ps[j].Fits(n, twiddles)
  }

  function Apply<T, W>(v: seq<T>, p: Place, tw: seq<W>, op: Operation<T, W>): (r: seq<T>)
    requires p.Fits(|v|, |tw|)
    ensures |r| == |v|
  {
    var (x, y) := op(v[p.a], v[p.b], tw[p.t]);
    v[p.a := x][p.b := y]
  }

  function ApplyAll<T, W>(v: seq<T>, ps: seq<Place>, tw: seq<W>, op: Operation<T, W>): (r: seq<T>)
    requires AllFit(ps, |v|, |tw|)
    ensures |r| == |v|
  {
    if ps == [] then v
    else Apply(ApplyAll(v, ps[..|ps| - 1], tw, op), ps[|ps| - 1], tw, op)
  }

  lemma {:induction false} ApplyAllConcat<T, W>(v: seq<T>, ps: seq<Place>, qs: seq<Place>, tw: seq<W>, op: Operation<T, W>)
    requires AllFit(ps, |v|, |tw|) && AllFit(qs, |v|, |tw|)
    ensures ApplyAll(v, ps + qs, tw, op) == ApplyAll(ApplyAll(v, ps, tw, op), qs, tw, op)
  {
    if qs == [] {
      assert ps + qs == ps;
    } else {
      var n := |qs| - 1;
      assert (ps + qs)[..|ps| + n] == ps + qs[..n];
      ApplyAllConcat(v, ps, qs[..n], tw, op);
    }
  }

  // ----- the places of a stage

  /** `n` is a whole number of blocks. */
  predicate Whole(n: nat, size: nat)
    requires size > 0
  {
    n == 0 || (n >= size && Whole(n - size, size))
  }

  /** The inner loop: one block of butterflies, `half` apart, with every `step`-th twiddle. */
  function Block(base: nat, half: nat, step: nat): (ps: seq<Place>)
    ensures |ps| == half
  {
    seq(half, lane requires 0 <= lane < half => MulNonNegative(lane, step); Place(base + lane, base + lane + half, lane * step))
  }

  /** Both loops: all blocks of a stage over `n` elements. */
  function StagePlaces(n: nat, half: nat, step: nat): seq<Place>
    requires half > 0 && Whole(n, 2 * half)
    decreases n
  {
    if n == 0 then [] else StagePlaces(n - 2 * half, half, step) + Block(n - 2 * half, half, step)
  }

  lemma {:induction false} BlockFits(base: nat, half: nat, step: nat, n: nat, twiddles: nat)
    requires step > 0 && half * step <= twiddles && base + 2 * half <= n
    ensures AllFit(Block(base, half, step), n, twiddles)
  {
    forall j | 0 <= j < half ensures Block(base, half, step)[j].Fits(n, twiddles) {
      MulStrict(j, half, step);
    }
  }

  lemma {:induction false} StageFits(m: nat, half: nat, step: nat, n: nat, twiddles: nat)
    requires half > 0 && step > 0 && half * step <= twiddles && Whole(m, 2 * half) && m <= n
    ensures AllFit(StagePlaces(m, half, step), n, twiddles)
    decreases m
  {
    if m > 0 {
      StageFits(m - 2 * half, half, step, n, twiddles);
      BlockFits(m - 2 * half, half, step, n, twiddles);
    }
  }

  // ----- a stage merges neighbouring half blocks

  function Strided<W>(tw: seq<W>, half: nat, step: nat): (r: seq<W>)
    requires step > 0 && half * step <= |tw|
    ensures |r| == half
  {
    seq(half, j requires 0 <= j < half => MulStrict(j, half, step); tw[j * step])
  }

  function Merge<T, W>(lo: seq<T>, hi: seq<T>, ws: seq<W>, op: Operation<T, W>): (r: seq<T>)
    requires |lo| == |hi| == |ws|
    ensures |r| == 2 * |lo|
  {
    seq(|lo|, j requires 0 <= j < |lo| => op(lo[j], hi[j], ws[j]).0)
    + seq(|lo|, j requires 0 <= j < |lo| => op(lo[j], hi[j], ws[j]).1)
  }

  /** The state of a block when its inner loop has run `lanes` iterations. */
  ghost predicate BlockProgress<T, W>(v: seq<T>, r: seq<T>, base: nat, half: nat, ws: seq<W>, op: Operation<T, W>, lanes: nat)
    requires |r| == |v| && base + 2 * half <= |v| && |ws| == half && lanes <= half
  {
    && (forall i :: 0 <= i < base + half && !(base <= i < base + lanes) ==> r[i] == v[i])
    && (forall i :: base + half <= i < |v| && !(base + half <= i < base + half + lanes) ==> r[i] == v[i])
    && (forall j :: 0 <= j < lanes ==>
          (r[base + j], r[base + half + j]) == op(v[base + j], v[base + half + j], ws[j]))
  }

  lemma {:induction false} BlockPrefix<T, W>(v: seq<T>, base: nat, half: nat, step: nat, tw: seq<W>, op: Operation<T, W>, lanes: nat)
    requires step > 0 && half * step <= |tw| && base + 2 * half <= |v| && lanes <= half
    requires AllFit(Block(base, half, step), |v|, |tw|)
    ensures BlockProgress(v, ApplyAll(v, Block(base, half, step)[..lanes], tw, op), base, half, Strided(tw, half, step), op, lanes)
  {
    if lanes > 0 {
      var ps := Block(base, half, step)[..lanes];
      assert ps[..lanes - 1] == Block(base, half, step)[..lanes - 1];
      BlockPrefix(v, base, half, step, tw, op, lanes - 1);
      LaneTwiddle(base, half, step, tw, lanes - 1);
      NextLane(v, ApplyAll(v, ps[..lanes - 1], tw, op), base, half, Strided(tw, half, step), op, lanes - 1, ps[lanes - 1], tw);
    }
  }

  lemma LaneTwiddle<W>(base: nat, half: nat, step: nat, tw: seq<W>, lane: nat)
    requires step > 0 && half * step <= |tw| && lane < half
    ensures var p := Block(base, half, step)[lane];
      p.a == base + lane && p.b == base + half + lane && p.t < |tw| && tw[p.t] == Strided(tw, half, step)[lane]
  {
    MulStrict(lane, half, step);
  }

  lemma NextLane<T, W>(v: seq<T>, r: seq<T>, base: nat, half: nat, ws: seq<W>, op: Operation<T, W>, lane: nat, p: Place, tw: seq<W>)
    requires |r| == |v| && base + 2 * half <= |v| && lane < half == |ws|
    requires BlockProgress(v, r, base, half, ws, op, lane)
    requires p.a == base + lane && p.b == base + half + lane && p.Fits(|v|, |tw|) && tw[p.t] == ws[lane]
    ensures BlockProgress(v, Apply(r, p, tw, op), base, half, ws, op, lane + 1)
  {
    assert r[p.a] == v[p.a] && r[p.b] == v[p.b];
  }

  /** A finished block, seen as three slices. */
  lemma BlockDone<T, W>(v: seq<T>, r: seq<T>, base: nat, half: nat, ws: seq<W>, op: Operation<T, W>, m: seq<T>)
    requires |r| == |v| && base + 2 * half <= |v| && |ws| == half
    requires BlockProgress(v, r, base, half, ws, op, half)
    requires m == Merge(v[base..base + half], v[base + half..base + 2 * half], ws, op)
    ensures r == v[..base] + m + v[base + 2 * half..]
  {
    assert r[..base] == v[..base];
    assert r[base + 2 * half..] == v[base + 2 * half..];
    assert |m| == 2 * half;
    forall j | 0 <= j < half
      ensures r[base..base + half][j] == m[..half][j] && r[base + half..base + 2 * half][j] == m[half..][j]
    {
      MergedAt(v, base, half, ws, op, j);
    }
    TwoHalves(r, base, half, m);
    Cut(r, base, base + 2 * half);
  }

  lemma MergeAt<T, W>(lo: seq<T>, hi: seq<T>, ws: seq<W>, op: Operation<T, W>, i: nat)
    requires |lo| == |hi| == |ws| && i < 2 * |lo|
    ensures i < |lo| ==> Merge(lo, hi, ws, op)[i] == op(lo[i], hi[i], ws[i]).0
    ensures i >= |lo| ==> Merge(lo, hi, ws, op)[i] == op(lo[i - |lo|], hi[i - |lo|], ws[i - |lo|]).1
  {
  }

  lemma MergedAt<T, W>(v: seq<T>, base: nat, half: nat, ws: seq<W>, op: Operation<T, W>, j: nat)
    requires base + 2 * half <= |v| && |ws| == half && j < half
    ensures var m := Merge(v[base..base + half], v[base + half..base + 2 * half], ws, op);
      (m[j], m[half + j]) == op(v[base + j], v[base + half + j], ws[j])
  {
  }

  lemma TwoHalves<T>(r: seq<T>, base: nat, half: nat, m: seq<T>)
    requires base + 2 * half <= |r| && |m| == 2 * half
    requires r[base..base + half] == m[..half] && r[base + half..base + 2 * half] == m[half..]
    ensures r[base..base + 2 * half] == m
  {
    assert r[base..base + 2 * half] == r[base..base + half] + r[base + half..base + 2 * half];
  }

  lemma Cut<T>(r: seq<T>, i: nat, j: nat)
    requires i <= j <= |r|
    ensures r == r[..i] + r[i..j] + r[j..]
  {
  }

  lemma {:induction false} BlockMerges<T, W>(v: seq<T>, base: nat, half: nat, step: nat, tw: seq<W>, op: Operation<T, W>)
    requires step > 0 && half * step <= |tw| && base + 2 * half <= |v|
    requires AllFit(Block(base, half, step), |v|, |tw|)
    ensures ApplyAll(v, Block(base, half, step), tw, op)
         == v[..base] + Merge(v[base..base + half], v[base + half..base + 2 * half], Strided(tw, half, step), op)
            + v[base + 2 * half..]
  {
    BlockPrefix(v, base, half, step, tw, op, half);
    assert Block(base, half, step)[..half] == Block(base, half, step);
    BlockDone(v, ApplyAll(v, Block(base, half, step), tw, op), base, half, Strided(tw, half, step), op,
              Merge(v[base..base + half], v[base + half..base + 2 * half], Strided(tw, half, step), op));
  }

  /** Block by block: what a whole stage computes. */
  function StageResult<T, W>(v: seq<T>, half: nat, ws: seq<W>, op: Operation<T, W>): (r: seq<T>)
    requires half > 0 && Whole(|v|, 2 * half) && |ws| == half
    ensures |r| == |v|
    decreases |v|
  {
    if v == [] then []
    else
      var base := |v| - 2 * half;
      StageResult(v[..base], half, ws, op) + Merge(v[base..base + half], v[base + half..], ws, op)
  }

  lemma {:induction false} LastBlockOf<T, W>(v: seq<T>, base: nat, half: nat, ws: seq<W>, op: Operation<T, W>)
    requires 0 < half == |ws| && |v| == base + 2 * half && Whole(base, 2 * half) && Whole(|v|, 2 * half)
    ensures StageResult(v, half, ws, op)
         == StageResult(v[..base], half, ws, op) + Merge(v[base..base + half], v[base + half..], ws, op)
  {
    var n := |v| - 2 * half;
    assert n == base;
  }

  lemma Parts<T>(u: seq<T>, lo: seq<T>, hi: seq<T>, v: seq<T>, base: nat, half: nat)
    requires v == u + lo + hi && |u| == base && |lo| == |hi| == half
    ensures |v| == base + 2 * half && v[..base] == u && v[base..base + half] == lo && v[base + half..] == hi
  {
  }

  lemma {:induction false} LastBlock<T, W>(u: seq<T>, lo: seq<T>, hi: seq<T>, half: nat, ws: seq<W>, op: Operation<T, W>)
    requires 0 < half == |ws| == |lo| == |hi| && Whole(|u|, 2 * half)
    ensures Whole(|u + lo + hi|, 2 * half)
    ensures StageResult(u + lo + hi, half, ws, op) == StageResult(u, half, ws, op) + Merge(lo, hi, ws, op)
  {
    var v := u + lo + hi;
    Parts(u, lo, hi, v, |u|, half);
    LastBlockOf(v, |u|, half, ws, op);
  }

  lemma {:induction false} OneMoreBlock<T, W>(v: seq<T>, base: nat, half: nat, n: nat, step: nat, tw: seq<W>, op: Operation<T, W>)
    requires half > 0 && Whole(base, 2 * half) && n > 0 && base == n - 2 * half
    requires AllFit(StagePlaces(base, half, step), |v|, |tw|) && AllFit(Block(base, half, step), |v|, |tw|)
    ensures Whole(n, 2 * half) && AllFit(StagePlaces(n, half, step), |v|, |tw|)
    ensures ApplyAll(v, StagePlaces(n, half, step), tw, op)
         == ApplyAll(ApplyAll(v, StagePlaces(base, half, step), tw, op), Block(base, half, step), tw, op)
  {
    ApplyAllConcat(v, StagePlaces(base, half, step), Block(base, half, step), tw, op);
    LastPlaces(n, base, half, step);
  }

  lemma {:induction false} LastPlaces(n: nat, base: nat, half: nat, step: nat)
    requires half > 0 && Whole(base, 2 * half) && n > 0 && base == n - 2 * half
    ensures Whole(n, 2 * half) && StagePlaces(n, half, step) == StagePlaces(base, half, step) + Block(base, half, step)
  {
  }

  lemma {:induction false} StageMerges<T, W>(v: seq<T>, n: nat, half: nat, step: nat, tw: seq<W>, op: Operation<T, W>)
    requires half > 0 && step > 0 && half * step <= |tw| && n <= |v| && Whole(n, 2 * half)
    requires AllFit(StagePlaces(n, half, step), |v|, |tw|)
    ensures ApplyAll(v, StagePlaces(n, half, step), tw, op)
         == StageResult(v[..n], half, Strided(tw, half, step), op) + v[n..]
    decreases n
  {
    if n == 0 {
      assert v[..0] == [];
    } else {
      var base, ws := n - 2 * half, Strided(tw, half, step);
      StageFits(base, half, step, |v|, |tw|);
      BlockFits(base, half, step, |v|, |tw|);
      StageMerges(v, base, half, step, tw, op);
      var r := ApplyAll(v, StagePlaces(base, half, step), tw, op);
      OneMoreBlock(v, base, half, n, step, tw, op);
      BlockMerges(r, base, half, step, tw, op);
      NextBlock(v, r, StageResult(v[..base], half, ws, op), base, half, n, ws, op);
    }
  }

  lemma {:induction false} NextBlock<T, W>(v: seq<T>, r: seq<T>, done: seq<T>, base: nat, half: nat, n: nat, ws: seq<W>, op: Operation<T, W>)
    requires 0 < half == |ws| && n == base + 2 * half <= |v| && Whole(base, 2 * half)
    requires done == StageResult(v[..base], half, ws, op) && r == done + v[base..]
    ensures Whole(n, 2 * half)
    ensures r[..base] + Merge(r[base..base + half], r[base + half..base + 2 * half], ws, op) + r[base + 2 * half..]
         == StageResult(v[..n], half, ws, op) + v[n..]
  {
    var lo, hi := v[base..base + half], v[base + half..base + 2 * half];
    TakeParts(v, base, half, n);
    LastBlock(v[..base], lo, hi, half, ws, op);
    assert r[..base] == done && r[base..base + half] == lo && r[base + half..base + 2 * half] == hi
        && r[base + 2 * half..] == v[base + 2 * half..] by {
      SliceAfter(done, v, base, base, base + half);
      SliceAfter(done, v, base, base + half, base + 2 * half);
      SliceAfter(done, v, base, base + 2 * half, |v|);
    }
  }

  lemma TakeParts<T>(v: seq<T>, base: nat, half: nat, n: nat)
    requires n == base + 2 * half <= |v|
    ensures v[..n] == v[..base] + v[base..base + half] + v[base + half..base + 2 * half]
  {
  }

  lemma SliceAfter<T>(done: seq<T>, v: seq<T>, base: nat, i: nat, j: nat)
    requires |done| == base <= i <= j <= |v|
    ensures (done + v[base..])[..base] == done && (done + v[base..])[i..j] == v[i..j]
    ensures j == |v| ==> (done + v[base..])[i..] == v[i..]
  {
  }

  lemma ConcatAssoc<T>(a: seq<T>, b: seq<T>, c: seq<T>)
    ensures a + b + c == a + (b + c)
  {
  }

  lemma {:induction false} StageConcat<T, W>(u: seq<T>, v: seq<T>, half: nat, ws: seq<W>, op: Operation<T, W>)
    requires 0 < half == |ws| && Whole(|u|, 2 * half) && Whole(|v|, 2 * half)
    ensures Whole(|u + v|, 2 * half)
    ensures StageResult(u + v, half, ws, op) == StageResult(u, half, ws, op) + StageResult(v, half, ws, op)
    decreases |v|
  {
    if v == [] {
      assert u + v == u;
    } else {
      var base := |v| - 2 * half;
      var v', lo, hi := v[..base], v[base..base + half], v[base + half..];
      StageConcat(u, v', half, ws, op);
      LastBlock(v', lo, hi, half, ws, op);
      LastBlock(u + v', lo, hi, half, ws, op);
      ConcatAssoc(StageResult(u, half, ws, op), StageResult(v', half, ws, op), Merge(lo, hi, ws, op));
      ThreeParts(u, v, base, half);
    }
  }

  lemma ThreeParts<T>(u: seq<T>, v: seq<T>, base: nat, half: nat)
    requires |v| == base + 2 * half
    ensures v == v[..base] + v[base..base + half] + v[base + half..]
    ensures u + v == u + v[..base] + v[base..base + half] + v[base + half..]
  {
  }

  // ----- all stages

  function Stage<T, W>(v: seq<T>, half: nat, step: nat, tw: seq<W>, op: Operation<T, W>): (r: seq<T>)
    requires half > 0 && step > 0 && half * step <= |tw| && Whole(|v|, 2 * half)
    ensures |r| == |v|
  {
    StageFits(|v|, half, step, |v|, |tw|);
    ApplyAll(v, StagePlaces(|v|, half, step), tw, op)
  }

  /** The first `s` stages, the last of them with twiddle step `step`, the one before with
      `2 * step`, and so on. */
  function Stages<T, W>(v: seq<T>, s: nat, step: nat, tw: seq<W>, op: Operation<T, W>): (r: seq<T>)
    requires Shape(|v|, s, step, |tw|)
    ensures |r| == |v|
  {
    if s == 0 then v
    else
      ShapeDown(|v|, s, step, |tw|);
      Stage(Stages(v, s - 1, 2 * step, tw, op), Pow2(s - 1), step, tw, op)
  }

  /** `s` stages fit `n` elements and the twiddle table. */
  predicate Shape(n: nat, s: nat, step: nat, twiddles: nat) {
    step > 0 && Whole(n, Pow2(s)) && (s > 0 ==> Pow2(s - 1) * step <= twiddles)
  }

  lemma ShapeDown(n: nat, s: nat, step: nat, twiddles: nat)
    requires s > 0 && Shape(n, s, step, twiddles)
    ensures Shape(n, s - 1, 2 * step, twiddles) && Whole(n, 2 * Pow2(s - 1))
  {
    WholeHalves(n, Pow2(s - 1));
    if s > 1 {
      assert Pow2(s - 2) * (2 * step) == Pow2(s - 1) * step;
    }
  }

  lemma {:induction false} WholeHalves(n: nat, size: nat)
    requires size > 0 && Whole(n, 2 * size)
    ensures Whole(n, size)
  {
    if n > 0 {
      WholeHalves(n - 2 * size, size);
      assert Whole(n - size, size);
    }
  }

  lemma {:induction false} WholeSum(m: nat, n: nat, size: nat)
    requires size > 0 && Whole(m, size) && Whole(n, size)
    ensures Whole(m + n, size)
  {
    if n > 0 {
      WholeSum(m, n - size, size);
    }
  }

  /** Stages act on disjoint parts of the array independently. */
  lemma {:induction false} StagesConcat<T, W>(u: seq<T>, v: seq<T>, s: nat, step: nat, tw: seq<W>, op: Operation<T, W>)
    requires Shape(|u|, s, step, |tw|) && Shape(|v|, s, step, |tw|) && Shape(|u + v|, s, step, |tw|)
    ensures Stages(u + v, s, step, tw, op) == Stages(u, s, step, tw, op) + Stages(v, s, step, tw, op)
  {
    if s > 0 {
      ShapeDown(|u|, s, step, |tw|);
      ShapeDown(|v|, s, step, |tw|);
      ShapeDown(|u + v|, s, step, |tw|);
      StagesConcat(u, v, s - 1, 2 * step, tw, op);
      var u', v' := Stages(u, s - 1, 2 * step, tw, op), Stages(v, s - 1, 2 * step, tw, op);
      StageIsResult(u', Pow2(s - 1), step, tw, op);
      StageIsResult(v', Pow2(s - 1), step, tw, op);
      StageIsResult(u' + v', Pow2(s - 1), step, tw, op);
      StageConcat(u', v', Pow2(s - 1), Strided(tw, Pow2(s - 1), step), op);
    }
  }

  lemma {:induction false} StageIsResult<T, W>(v: seq<T>, half: nat, step: nat, tw: seq<W>, op: Operation<T, W>)
    requires half > 0 && step > 0 && half * step <= |tw| && Whole(|v|, 2 * half)
    ensures Stage(v, half, step, tw, op) == StageResult(v, half, Strided(tw, half, step), op)
  {
    StageFits(|v|, half, step, |v|, |tw|);
    StageMerges(v, |v|, half, step, tw, op);
    assert v[..|v|] == v && v[|v|..] == [];
  }

  /** The textbook recursion: transform both halves, then merge them. */
  function Recursive<T, W>(v: seq<T>, s: nat, step: nat, tw: seq<W>, op: Operation<T, W>): (r: seq<T>)
    requires |v| == Pow2(s) && Shape(|v|, s, step, |tw|)
    ensures |r| == |v|
  {
    if s == 0 then v
    else
      HalfShape(s, step, |tw|);
      var half := Pow2(s - 1);
      Merge(Recursive(v[..half], s - 1, 2 * step, tw, op), Recursive(v[half..], s - 1, 2 * step, tw, op),
            Strided(tw, half, step), op)
  }

  lemma HalfShape(s: nat, step: nat, twiddles: nat)
    requires s > 0 && Shape(Pow2(s), s, step, twiddles)
    ensures Shape(Pow2(s - 1), s - 1, 2 * step, twiddles)
  {
    ShapeDown(Pow2(s), s, step, twiddles);
    assert Whole(0, Pow2(s - 1));
  }

  /** The in-place stages compute the recursion, for every butterfly operation. */
  lemma {:induction false} StagesAreRecursive<T, W>(v: seq<T>, s: nat, step: nat, tw: seq<W>, op: Operation<T, W>)
    requires |v| == Pow2(s) && Shape(|v|, s, step, |tw|)
    ensures Stages(v, s, step, tw, op) == Recursive(v, s, step, tw, op)
  {
    if s > 0 {
      var half := Pow2(s - 1);
      HalfShape(s, step, |tw|);
      ShapeDown(|v|, s, step, |tw|);
      assert v == v[..half] + v[half..];
      StagesAreRecursive(v[..half], s - 1, 2 * step, tw, op);
      StagesAreRecursive(v[half..], s - 1, 2 * step, tw, op);
      StagesConcat(v[..half], v[half..], s - 1, 2 * step, tw, op);
      var v' := Stages(v, s - 1, 2 * step, tw, op);
      StageIsResult(v', half, step, tw, op);
      assert v'[..0] == [] && StageResult(v'[..0], half, Strided(tw, half, step), op) == [];
      assert v'[0..half] == Recursive(v[..half], s - 1, 2 * step, tw, op);
      assert v'[half..] == Recursive(v[half..], s - 1, 2 * step, tw, op);
    }
  }

  // ----- two runs of the same stages, element by element

  /** With these twiddles, inputs related by `before` give outputs related by `after`. */
  ghost predicate Preserves<T1(!new), T2(!new), W1, W2>(op1: Operation<T1, W1>, op2: Operation<T2, W2>, w1: W1, w2: W2,
                                                        before: (T1, T2) -> bool, after: (T1, T2) -> bool) {
    forall a1, a2, b1, b2 :: before(a1, a2) && before(b1, b2) ==>
      && after(op1(a1, b1, w1).0, op2(a2, b2, w2).0)
      && after(op1(a1, b1, w1).1, op2(a2, b2, w2).1)
  }

  ghost predicate Related<T1, T2>(v1: seq<T1>, v2: seq<T2>, rel: (T1, T2) -> bool) {
    |v1| == |v2| && forall i :: 0 <= i < |v1| ==> rel(v1[i], v2[i])
  }

  lemma {:induction false} StageResultRelated<T1(!new), T2(!new), W1, W2>(v1: seq<T1>, v2: seq<T2>, half: nat, ws1: seq<W1>, ws2: seq<W2>,
      op1: Operation<T1, W1>, op2: Operation<T2, W2>, before: (T1, T2) -> bool, after: (T1, T2) -> bool)
    requires 0 < half == |ws1| == |ws2| && Whole(|v1|, 2 * half) && Related(v1, v2, before)
    requires forall j :: 0 <= j < half ==> Preserves(op1, op2, ws1[j], ws2[j], before, after)
    ensures Related(StageResult(v1, half, ws1, op1), StageResult(v2, half, ws2, op2), after)
    decreases |v1|
  {
    if v1 != [] {
      var base := |v1| - 2 * half;
      RelatedSlice(v1, v2, 0, base, before);
      RelatedSlice(v1, v2, base, base + half, before);
      RelatedSlice(v1, v2, base + half, |v1|, before);
      StageResultRelated(v1[..base], v2[..base], half, ws1, ws2, op1, op2, before, after);
      MergeRelated(v1[base..base + half], v1[base + half..], v2[base..base + half], v2[base + half..],
                   ws1, ws2, op1, op2, before, after);
      LastBlocksRelated(v1, v2, base, half, ws1, ws2, op1, op2, after);
    }
  }

  lemma {:induction false} LastBlocksRelated<T1, T2, W1, W2>(v1: seq<T1>, v2: seq<T2>, base: nat, half: nat, ws1: seq<W1>, ws2: seq<W2>,
      op1: Operation<T1, W1>, op2: Operation<T2, W2>, after: (T1, T2) -> bool)
    requires 0 < half == |ws1| == |ws2| && |v1| == |v2| == base + 2 * half && Whole(base, 2 * half) && Whole(|v1|, 2 * half)
    requires Related(StageResult(v1[..base], half, ws1, op1), StageResult(v2[..base], half, ws2, op2), after)
    requires Related(Merge(v1[base..base + half], v1[base + half..], ws1, op1),
                     Merge(v2[base..base + half], v2[base + half..], ws2, op2), after)
    ensures Related(StageResult(v1, half, ws1, op1), StageResult(v2, half, ws2, op2), after)
  {
    var r1, r2 := StageResult(v1[..base], half, ws1, op1), StageResult(v2[..base], half, ws2, op2);
    var m1 := Merge(v1[base..base + half], v1[base + half..], ws1, op1);
    var m2 := Merge(v2[base..base + half], v2[base + half..], ws2, op2);
    RelatedConcat(r1, r2, m1, m2, after);
    LastBlockOf(v1, base, half, ws1, op1);
    LastBlockOf(v2, base, half, ws2, op2);
  }

  lemma RelatedSlice<T1, T2>(v1: seq<T1>, v2: seq<T2>, i: nat, j: nat, rel: (T1, T2) -> bool)
    requires Related(v1, v2, rel) && i <= j <= |v1|
    ensures Related(v1[i..j], v2[i..j], rel)
  {
  }

  lemma RelatedConcat<T1, T2>(u1: seq<T1>, u2: seq<T2>, v1: seq<T1>, v2: seq<T2>, rel: (T1, T2) -> bool)
    requires Related(u1, u2, rel) && Related(v1, v2, rel)
    ensures Related(u1 + v1, u2 + v2, rel)
  {
  }

  lemma MergeRelated<T1(!new), T2(!new), W1, W2>(lo1: seq<T1>, hi1: seq<T1>, lo2: seq<T2>, hi2: seq<T2>, ws1: seq<W1>, ws2: seq<W2>,
      op1: Operation<T1, W1>, op2: Operation<T2, W2>, before: (T1, T2) -> bool, after: (T1, T2) -> bool)
    requires |lo1| == |hi1| == |ws1| == |ws2| && Related(lo1, lo2, before) && Related(hi1, hi2, before)
    requires forall j :: 0 <= j < |ws1| ==> Preserves(op1, op2, ws1[j], ws2[j], before, after)
    ensures Related(Merge(lo1, hi1, ws1, op1), Merge(lo2, hi2, ws2, op2), after)
  {
    forall j | 0 <= j < |ws1|
      ensures after(op1(lo1[j], hi1[j], ws1[j]).0, op2(lo2[j], hi2[j], ws2[j]).0)
      ensures after(op1(lo1[j], hi1[j], ws1[j]).1, op2(lo2[j], hi2[j], ws2[j]).1)
    {
      assert Preserves(op1, op2, ws1[j], ws2[j], before, after);
    }
  }

  /** A relation that every butterfly carries from one stage to the next holds after all stages. */
  lemma {:induction false} StagesRelated<T1(!new), T2(!new), W1, W2>(v1: seq<T1>, v2: seq<T2>, s: nat, step: nat, tw1: seq<W1>, tw2: seq<W2>,
      op1: Operation<T1, W1>, op2: Operation<T2, W2>, rel: nat -> (T1, T2) -> bool)
    requires Shape(|v1|, s, step, |tw1|) && |tw1| == |tw2| && Related(v1, v2, rel(0))
    requires forall t: nat, j :: t < s && 0 <= j < |tw1| ==> Preserves(op1, op2, tw1[j], tw2[j], rel(t), rel(t + 1))
    ensures Related(Stages(v1, s, step, tw1, op1), Stages(v2, s, step, tw2, op2), rel(s))
  {
    if s > 0 {
      ShapeDown(|v1|, s, step, |tw1|);
      var half := Pow2(s - 1);
      StagesRelated(v1, v2, s - 1, 2 * step, tw1, tw2, op1, op2, rel);
      var u1, u2 := Stages(v1, s - 1, 2 * step, tw1, op1), Stages(v2, s - 1, 2 * step, tw2, op2);
      StageIsResult(u1, half, step, tw1, op1);
      StageIsResult(u2, half, step, tw2, op2);
      forall j | 0 <= j < half
        ensures Preserves(op1, op2, Strided(tw1, half, step)[j], Strided(tw2, half, step)[j], rel(s - 1), rel(s))
      {
        MulStrict(j, half, step);
        assert Preserves(op1, op2, tw1[j * step], tw2[j * step], rel(s - 1), rel(s - 1 + 1));
      }
      StageResultRelated(u1, u2, half, Strided(tw1, half, step), Strided(tw2, half, step), op1, op2, rel(s - 1), rel(s));
    }
  }

  // ----- the exact butterfly computes the transform

  function BitReversed<T>(L: nat, x: seq<T>): (r: seq<T>)
    requires |x| == Pow2(L)
    ensures |r| == |x|
  {
    seq(|x|, i requires 0 <= i < |x| => x[Reversed(L, i)])
  }

  function Exact<T(!new)>(R: Ring<T>): Operation<T, T> {
    (a, b, w) => (R.add(a, R.mul(b, w)), R.Sub(a, R.mul(b, w)))
  }

  /** `w` is a root of unity for `2^L` points and `tw` holds its powers. */
  ghost predicate RootOfUnity<T(!new)>(R: Ring<T>, L: nat, w: T, tw: seq<T>) {
    && R.Lawful() && L > 0
    && R.Pow(w, Pow2(L - 1)) == R.neg(R.one)
    && |tw| == Pow2(L - 1)
    && forall k :: 0 <= k < |tw| ==> tw[k] == R.Pow(w, k)
  }

  /** Every `stride`-th sample from `offset` on, in the order the recursion wants: even ones first. */
  function Decimated<T>(x: seq<T>, offset: nat, stride: nat, s: nat, default: T): (r: seq<T>)
    ensures |r| == Pow2(s)
    decreases s
  {
    if s == 0 then [if offset < |x| then x[offset] else default]
    else Decimated(x, offset, 2 * stride, s - 1, default) + Decimated(x, offset + stride, 2 * stride, s - 1, default)
  }

  /** That order is bit reversal: place `i` holds sample `offset + stride * r`, with `r` the
      reversal of `i`. */
  lemma {:induction false} DecimatedIsReversal<T>(x: seq<T>, offset: nat, stride: nat, s: nat, default: T, i: nat, p: nat)
    requires i < Pow2(s) && p == offset + stride * Reversed(s, i) < |x|
    ensures Decimated(x, offset, stride, s, default)[i] == x[p]
    decreases s
  {
    if s > 0 {
      var top := if i < Pow2(s - 1) then 0 else 1;
      var low := i - top * Pow2(s - 1);
      ReversedTopBit(s, low, top);
      StrideDoubles(stride, Reversed(s - 1, low));
      if top == 0 {
        DecimatedIsReversal(x, offset, 2 * stride, s - 1, default, low, p);
      } else {
        DecimatedIsReversal(x, offset + stride, 2 * stride, s - 1, default, low, p);
      }
    }
  }

  lemma StrideDoubles(stride: nat, r: nat)
    ensures stride * (2 * r) == 2 * stride * r && stride * (2 * r + 1) == stride + 2 * stride * r
  {
  }

  lemma ReversalIsDecimated<T>(L: nat, x: seq<T>, default: T)
    requires |x| == Pow2(L)
    ensures BitReversed(L, x) == Decimated(x, 0, 1, L, default)
  {
    forall i | 0 <= i < |x| ensures BitReversed(L, x)[i] == Decimated(x, 0, 1, L, default)[i] {
      DecimatedIsReversal(x, 0, 1, L, default, i, Reversed(L, i));
    }
  }

  lemma Roots<T(!new)>(R: Ring<T>, w: T, e: nat, halfTurn: nat)
    requires R.Lawful() && R.Pow(w, halfTurn) == R.neg(R.one)
    ensures R.Pow(w, e + e) == R.mul(R.Pow(w, e), R.Pow(w, e))
    ensures R.Pow(w, halfTurn + e) == R.neg(R.Pow(w, e))
  {
    R.PowAdd(w, e, e);
    R.PowAdd(w, halfTurn, e);
    R.MulNeg(R.one, R.Pow(w, e));
    assert R.MulUnit(R.Pow(w, e));
  }

  lemma SingleSample<T(!new)>(R: Ring<T>, x: seq<T>, offset: nat, stride: nat, z: T)
    requires R.Lawful()
    ensures Horner(R, x, offset, stride, 1, z) == if offset < |x| then x[offset] else R.zero
  {
    R.MulZero(z);
    var x0 := if offset < |x| then x[offset] else R.zero;
    assert R.AddComm(x0, R.zero) && R.AddUnit(x0);
  }

  /** The exponents of one merge: with `d` the stride, output `j` goes with `w^e`, output
      `j + half` with `w^(halfTurn + e)`, and the halves with `w^(2e)`. */
  lemma MergeExponents(half: nat, d: nat, halfTurn: nat, j: nat)
    requires half * d == halfTurn && j < half && d > 0
    ensures 0 <= j * d < halfTurn && j * (2 * d) == j * d + j * d && (j + half) * d == halfTurn + j * d
  {
    MulStrict(j, half, d);
  }

  /** `d` times `2^s` is the full circle of the root of unity. */
  predicate Circle(L: nat, s: nat, d: nat) { d > 0 && Pow2(s) * d == Pow2(L) }

  lemma CircleShape(L: nat, s: nat, d: nat)
    requires L > 0 && Circle(L, s, d)
    ensures s > 0 ==> Circle(L, s - 1, 2 * d) && Pow2(s - 1) * d == Pow2(L - 1)
    ensures Shape(Pow2(s), s, d, Pow2(L - 1))
  {
    if s > 0 {
      assert Pow2(s - 1) * (2 * d) == Pow2(s) * d;
      assert 2 * (Pow2(s - 1) * d) == Pow2(s) * d;
    }
    assert Whole(0, Pow2(s));
  }

  lemma HalfCircle(L: nat, s: nat, d: nat, k: nat, e: nat) returns (j: nat, e0: nat, j': nat, e': nat)
    requires L > 0 && s > 0 && Circle(L, s, d) && k < Pow2(s) && e == k * d
    ensures Circle(L, s - 1, 2 * d) && Shape(Pow2(s - 1), s - 1, 2 * d, Pow2(L - 1)) && Pow2(s - 1) * d == Pow2(L - 1)
    ensures j < Pow2(s - 1) && e0 == j * d < Pow2(L - 1) && e0 + e0 == j * (2 * d)
    ensures j' == j + Pow2(s - 1) && e' == Pow2(L - 1) + e0
    ensures (k == j && e == e0) || (k == j' && e == e')
  {
    CircleShape(L, s, d);
    CircleShape(L, s - 1, 2 * d);
    j := if k < Pow2(s - 1) then k else k - Pow2(s - 1);
    MergeExponents(Pow2(s - 1), d, Pow2(L - 1), j);
    e0 := j * d;
    j', e' := j + Pow2(s - 1), Pow2(L - 1) + e0;
  }

  /** Place `k` of the recursion over the samples `offset, offset + d, ...` is their transform at `w^e`. */
  ghost predicate Holds<T(!new)>(R: Ring<T>, w: T, tw: seq<T>, x: seq<T>, offset: nat, d: nat, s: nat, k: nat, e: nat)
    requires Shape(Pow2(s), s, d, |tw|) && k < Pow2(s)
  {
    Recursive(Decimated(x, offset, d, s, R.zero), s, d, tw, Exact(R))[k] == Horner(R, x, offset, d, Pow2(s), R.Pow(w, e))
  }

  lemma {:induction false} RecursionIsTransform<T(!new)>(R: Ring<T>, L: nat, w: T, tw: seq<T>, x: seq<T>,
                                                         offset: nat, d: nat, s: nat, k: nat, e: nat)
    requires RootOfUnity(R, L, w, tw) && Circle(L, s, d) && k < Pow2(s) && e == k * d
    requires Shape(Pow2(s), s, d, |tw|)
    ensures Holds(R, w, tw, x, offset, d, s, k, e)
    decreases s
  {
    if s == 0 {
      SingleSample(R, x, offset, d, R.Pow(w, e));
    } else {
      var j, e0, j', e' := HalfCircle(L, s, d, k, e);
      RecursionIsTransform(R, L, w, tw, x, offset, 2 * d, s - 1, j, e0 + e0);
      RecursionIsTransform(R, L, w, tw, x, offset + d, 2 * d, s - 1, j, e0 + e0);
      HalvesGiveWhole(R, w, tw, x, offset, d, s, j, e0, j', e');
    }
  }

  lemma {:induction false} HalvesGiveWhole<T(!new)>(R: Ring<T>, w: T, tw: seq<T>, x: seq<T>, offset: nat, d: nat, s: nat,
                                                    j: nat, e: nat, k: nat, e': nat)
    requires R.Lawful() && s > 0 && k == j + Pow2(s - 1) && e' == |tw| + e && Shape(Pow2(s), s, d, |tw|) && Shape(Pow2(s - 1), s - 1, 2 * d, |tw|)
    requires j < Pow2(s - 1) && e == j * d < |tw| && tw[e] == R.Pow(w, e) && R.Pow(w, |tw|) == R.neg(R.one)
    requires Holds(R, w, tw, x, offset, 2 * d, s - 1, j, e + e)
    requires Holds(R, w, tw, x, offset + d, 2 * d, s - 1, j, e + e)
    ensures Holds(R, w, tw, x, offset, d, s, j, e)
    ensures k < Pow2(s) && Holds(R, w, tw, x, offset, d, s, k, e')
  {
    var half := Pow2(s - 1);
    var even := Recursive(Decimated(x, offset, 2 * d, s - 1, R.zero), s - 1, 2 * d, tw, Exact(R));
    var odd := Recursive(Decimated(x, offset + d, 2 * d, s - 1, R.zero), s - 1, 2 * d, tw, Exact(R));
    var ws := Strided(tw, half, d);
    var whole := Recursive(Decimated(x, offset, d, s, R.zero), s, d, tw, Exact(R));
    RecursionSplits(R, tw, x, offset, d, s, even, odd, whole);
    StridedAt(tw, half, d, j, e);
    HalvesMerge(R, w, x, even, odd, ws, whole, offset, d, half, Pow2(s), j, e, k, e', |tw|);
    HoldsAt(R, w, tw, x, offset, d, s, j, e, whole);
    HoldsAt(R, w, tw, x, offset, d, s, k, e', whole);
  }

  lemma {:induction false} HoldsAt<T(!new)>(R: Ring<T>, w: T, tw: seq<T>, x: seq<T>, offset: nat, d: nat, s: nat, k: nat, e: nat, whole: seq<T>)
    requires Shape(Pow2(s), s, d, |tw|) && k < Pow2(s) == |whole|
    requires whole == Recursive(Decimated(x, offset, d, s, R.zero), s, d, tw, Exact(R))
    requires whole[k] == Horner(R, x, offset, d, Pow2(s), R.Pow(w, e))
    ensures Holds(R, w, tw, x, offset, d, s, k, e)
  {
  }

  lemma StridedAt<W>(tw: seq<W>, half: nat, step: nat, j: nat, e: nat)
    requires step > 0 && half * step <= |tw| && j < half && e == j * step < |tw|
    ensures Strided(tw, half, step)[j] == tw[e]
  {
  }

  /** Merging the transforms of the even and the odd samples. */
  lemma HalvesMerge<T(!new)>(R: Ring<T>, w: T, x: seq<T>, even: seq<T>, odd: seq<T>, ws: seq<T>, whole: seq<T>,
                             offset: nat, d: nat, half: nat, n: nat, j: nat, e: nat, k: nat, e': nat, halfTurn: nat)
    requires R.Lawful() && R.Pow(w, halfTurn) == R.neg(R.one) && n == 2 * half && k == j + half && e' == halfTurn + e
    requires |even| == |odd| == |ws| == half && j < half && ws[j] == R.Pow(w, e) && whole == Merge(even, odd, ws, Exact(R))
    requires even[j] == Horner(R, x, offset, 2 * d, half, R.Pow(w, e + e))
    requires odd[j] == Horner(R, x, offset + d, 2 * d, half, R.Pow(w, e + e))
    ensures |whole| == n && j < n && k < n
    ensures whole[j] == Horner(R, x, offset, d, n, R.Pow(w, e))
    ensures whole[k] == Horner(R, x, offset, d, n, R.Pow(w, e'))
  {
    Roots(R, w, e, halfTurn);
    Butterfly(R, x, offset, d, half, R.Pow(w, e));
  }

  lemma {:induction false} RecursionSplits<T(!new)>(R: Ring<T>, tw: seq<T>, x: seq<T>, offset: nat, d: nat, s: nat,
                                                    even: seq<T>, odd: seq<T>, whole: seq<T>)
    requires s > 0 && Shape(Pow2(s), s, d, |tw|) && Shape(Pow2(s - 1), s - 1, 2 * d, |tw|)
    requires even == Recursive(Decimated(x, offset, 2 * d, s - 1, R.zero), s - 1, 2 * d, tw, Exact(R))
    requires odd == Recursive(Decimated(x, offset + d, 2 * d, s - 1, R.zero), s - 1, 2 * d, tw, Exact(R))
    requires whole == Recursive(Decimated(x, offset, d, s, R.zero), s, d, tw, Exact(R))
    ensures |even| == |odd| == Pow2(s - 1) && whole == Merge(even, odd, Strided(tw, Pow2(s - 1), d), Exact(R))
  {
    var v := Decimated(x, offset, d, s, R.zero);
    assert v[..Pow2(s - 1)] == Decimated(x, offset, 2 * d, s - 1, R.zero);
    assert v[Pow2(s - 1)..] == Decimated(x, offset + d, 2 * d, s - 1, R.zero);
  }

  /** The in-place stages on bit-reversed input compute the discrete Fourier transform: for every
      size, every commutative ring, every root of unity and every input. */
  lemma {:induction false} StagesComputeTransform<T(!new)>(R: Ring<T>, L: nat, w: T, tw: seq<T>, x: seq<T>, k: nat)
    requires RootOfUnity(R, L, w, tw) && |x| == Pow2(L) && k < |x|
    ensures Shape(|x|, L, 1, |tw|)
    ensures Stages(BitReversed(L, x), L, 1, tw, Exact(R))[k] == Transform(R, w, x, k)
  {
    CircleShape(L, L, 1);
    ReversalIsDecimated(L, x, R.zero);
    StagesAreRecursive(BitReversed(L, x), L, 1, tw, Exact(R));
    RecursionIsTransform(R, L, w, tw, x, 0, 1, L, k, k);
    TransformIsHorner(R, w, x, k);
  }

  // ----- scaling at every stage scales the transform

  function Scaling<T(!new)>(R: Ring<T>, h: T): Operation<T, T> {
    (a, b, w) => (R.mul(h, R.add(a, R.mul(b, w))), R.mul(h, R.Sub(a, R.mul(b, w))))
  }

  ghost function ScaledBy<T(!new)>(R: Ring<T>, h: T, s: nat): (T, T) -> bool {
    (x: T, y: T) => x == R.mul(R.Pow(h, s), y)
  }

  lemma ScalingSum<T(!new)>(R: Ring<T>, h: T, p: T, a: T, b: T, w: T)
    requires R.Lawful()
    ensures R.mul(h, R.add(R.mul(p, a), R.mul(R.mul(p, b), w))) == R.mul(R.mul(h, p), R.add(a, R.mul(b, w)))
  {
    assert R.MulAssoc(p, b, w) && R.Distributes(p, a, R.mul(b, w)) && R.MulAssoc(h, p, R.add(a, R.mul(b, w)));
  }

  lemma ScaledButterfly<T(!new)>(R: Ring<T>, h: T, p: T, a: T, b: T, w: T)
    requires R.Lawful()
    ensures var (x', y') := Scaling(R, h)(R.mul(p, a), R.mul(p, b), w); var (x, y) := Exact(R)(a, b, w);
      x' == R.mul(R.mul(h, p), x) && y' == R.mul(R.mul(h, p), y)
  {
    ScalingSum(R, h, p, a, b, w);
    ScalingSum(R, h, p, a, b, R.neg(w));
    R.MulNeg(R.mul(p, b), w);
    R.MulNeg(b, w);
  }

  lemma ScalingPreserves<T(!new)>(R: Ring<T>, h: T, s: nat, w: T)
    requires R.Lawful()
    ensures Preserves(Scaling(R, h), Exact(R), w, w, ScaledBy(R, h, s), ScaledBy(R, h, s + 1))
  {
    var p := R.Pow(h, s);
    assert R.Pow(h, s + 1) == R.mul(h, p);
    forall a', a, b', b | ScaledBy(R, h, s)(a', a) && ScaledBy(R, h, s)(b', b)
      ensures ScaledBy(R, h, s + 1)(Scaling(R, h)(a', b', w).0, Exact(R)(a, b, w).0)
      ensures ScaledBy(R, h, s + 1)(Scaling(R, h)(a', b', w).1, Exact(R)(a, b, w).1)
    {
      ScaledButterfly(R, h, p, a, b, w);
    }
  }

  /** Scaling every butterfly by `h` scales the array by `h` to the number of stages. */
  lemma StagesScale<T(!new)>(R: Ring<T>, h: T, v: seq<T>, s: nat, step: nat, tw: seq<T>)
    requires R.Lawful() && Shape(|v|, s, step, |tw|)
    ensures Related(Stages(v, s, step, tw, Scaling(R, h)), Stages(v, s, step, tw, Exact(R)), ScaledBy(R, h, s))
  {
    var rel := (t: nat) => ScaledBy(R, h, t);
    forall i | 0 <= i < |v| ensures rel(0)(v[i], v[i]) {
      assert R.MulUnit(v[i]) && R.Pow(h, 0) == R.one;
      assert ScaledBy(R, h, 0)(v[i], v[i]);
    }
    forall t: nat, j | t < s && 0 <= j < |tw|
      ensures Preserves(Scaling(R, h), Exact(R), tw[j], tw[j], rel(t), rel(t + 1))
    {
      ScalingPreserves(R, h, t, tw[j]);
    }
    StagesRelated(v, v, s, step, tw, tw, Scaling(R, h), Exact(R), rel);
  }

  /** With every stage multiplying by `h` (one half, in the fixed-point transform), the stages compute `h^L`
      times the transform. */
  lemma {:induction false} ScaledStagesComputeTransform<T(!new)>(R: Ring<T>, h: T, L: nat, w: T, tw: seq<T>, x: seq<T>, k: nat)
    requires RootOfUnity(R, L, w, tw) && |x| == Pow2(L) && k < |x|
    ensures Shape(|x|, L, 1, |tw|)
    ensures Stages(BitReversed(L, x), L, 1, tw, Scaling(R, h))[k] == R.mul(R.Pow(h, L), Transform(R, w, x, k))
  {
    StagesComputeTransform(R, L, w, tw, x, k);
    StagesScale(R, h, BitReversed(L, x), L, 1, tw);
  }
}
