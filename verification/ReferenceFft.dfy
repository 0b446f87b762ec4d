/** The sequential reference transform: nested in-place loops over a real and an imaginary
    array, with the butterfly operation as a parameter. `FixedPoint.RoundedButterfly` makes it the
    fixed-point arithmetic; the ring butterfly of `Fft.Exact` makes it exact. */
module ReferenceFft {
  import opened Arith
  import opened Bits
  import opened Fft
  import opened Rings
  import Dft

  function Zip<S>(a: seq<S>, b: seq<S>): (r: seq<(S, S)>)
    requires |a| == |b|
    ensures |r| == |a|
  {
    seq(|a|, i requires 0 <= i < |a| => (a[i], b[i]))
  }

  /** The body of the innermost loop. */
  method ButterflyInPlace<S>(re: array<S>, im: array<S>, p: Place, twiddleReal: seq<S>, twiddleImag: seq<S>,
                             op: Operation<(S, S), (S, S)>)
    requires re != im && re.Length == im.Length && |twiddleReal| == |twiddleImag|
    requires p.Fits(re.Length, |twiddleReal|)
    modifies re, im
    ensures Zip(re[..], im[..]) == Apply(old(Zip(re[..], im[..])), p, Zip(twiddleReal, twiddleImag), op)
  {
    var (x, y) := op((re[p.a], im[p.a]), (re[p.b], im[p.b]), (twiddleReal[p.t], twiddleImag[p.t]));
    re[p.a] := x.0;
    im[p.a] := x.1;
    re[p.b] := y.0;
    im[p.b] := y.1;
  }

  /** The loop over the lanes of one block. */
  method BlockInPlace<S>(re: array<S>, im: array<S>, base: nat, half: nat, step: nat, twiddleReal: seq<S>, twiddleImag: seq<S>,
                         op: Operation<(S, S), (S, S)>)
    requires re != im && re.Length == im.Length && |twiddleReal| == |twiddleImag|
    requires AllFit(Block(base, half, step), re.Length, |twiddleReal|)
    modifies re, im
    ensures Zip(re[..], im[..])
         == ApplyAll(old(Zip(re[..], im[..])), Block(base, half, step), Zip(twiddleReal, twiddleImag), op)
  {
    ghost var start, block := Zip(re[..], im[..]), Block(base, half, step);
    for lane := 0 to half
      invariant Zip(re[..], im[..]) == ApplyAll(start, block[..lane], Zip(twiddleReal, twiddleImag), op)
    {
      MulNonNegative(lane, step);
      var p := Place(base + lane, base + lane + half, lane * step);
      assert block[lane] == p && block[..lane + 1][..lane] == block[..lane];
      ButterflyInPlace(re, im, p, twiddleReal, twiddleImag, op);
    }
    assert block[..half] == block;
  }

  lemma {:induction false} NextBlock<T, W>(v: seq<T>, base: nat, half: nat, step: nat, tw: seq<W>, op: Operation<T, W>)
    requires half > 0 && step > 0 && half * step <= |tw|
    requires base < |v| && Whole(base, 2 * half) && Whole(|v| - base, 2 * half)
    requires AllFit(StagePlaces(base, half, step), |v|, |tw|)
    ensures Whole(base + 2 * half, 2 * half) && Whole(|v| - base - 2 * half, 2 * half)
    ensures AllFit(Block(base, half, step), |v|, |tw|) && AllFit(StagePlaces(base + 2 * half, half, step), |v|, |tw|)
    ensures ApplyAll(v, StagePlaces(base + 2 * half, half, step), tw, op)
         == ApplyAll(ApplyAll(v, StagePlaces(base, half, step), tw, op), Block(base, half, step), tw, op)
  {
    BlockFits(base, half, step, |v|, |tw|);
    ApplyAllConcat(v, StagePlaces(base, half, step), Block(base, half, step), tw, op);
    assert StagePlaces(base + 2 * half, half, step) == StagePlaces(base, half, step) + Block(base, half, step);
  }

  /** One stage: the loop over its blocks. */
  method StageInPlace<S>(re: array<S>, im: array<S>, half: nat, step: nat, twiddleReal: seq<S>, twiddleImag: seq<S>,
                         op: Operation<(S, S), (S, S)>)
    requires re != im && re.Length == im.Length && |twiddleReal| == |twiddleImag|
    requires half > 0 && step > 0 && half * step <= |twiddleReal| && Whole(re.Length, 2 * half)
    modifies re, im
    ensures Zip(re[..], im[..])
         == Stage(old(Zip(re[..], im[..])), half, step, Zip(twiddleReal, twiddleImag), op)
  {
    ghost var v, tw := Zip(re[..], im[..]), Zip(twiddleReal, twiddleImag);
    var base := 0;
    while base < re.Length
      invariant StageProgress(v, base, half, step, tw, op, Zip(re[..], im[..]))
    {
      BlockIsNext(v, base, half, step, tw, op, Zip(re[..], im[..]));
      BlockInPlace(re, im, base, half, step, twiddleReal, twiddleImag, op);
      base := base + 2 * half;
    }
    AllBlocksDone(v, base, half, step, tw, op, Zip(re[..], im[..]));
  }

  /** The blocks below `base` are done. */
  ghost predicate StageProgress<T, W>(v: seq<T>, base: nat, half: nat, step: nat, tw: seq<W>, op: Operation<T, W>, r: seq<T>)
    requires half > 0
  {
    && base <= |v| && Whole(base, 2 * half) && Whole(|v| - base, 2 * half)
    && AllFit(StagePlaces(base, half, step), |v|, |tw|)
    && r == ApplyAll(v, StagePlaces(base, half, step), tw, op)
  }

  lemma {:induction false} BlockIsNext<T, W>(v: seq<T>, base: nat, half: nat, step: nat, tw: seq<W>, op: Operation<T, W>, r: seq<T>)
    requires half > 0 && step > 0 && half * step <= |tw| && base < |v| && StageProgress(v, base, half, step, tw, op, r)
    ensures AllFit(Block(base, half, step), |r|, |tw|)
    ensures StageProgress(v, base + 2 * half, half, step, tw, op, ApplyAll(r, Block(base, half, step), tw, op))
  {
    NextBlock(v, base, half, step, tw, op);
  }

  lemma AllBlocksDone<T, W>(v: seq<T>, base: nat, half: nat, step: nat, tw: seq<W>, op: Operation<T, W>, r: seq<T>)
    requires half > 0 && step > 0 && half * step <= |tw| && Whole(|v|, 2 * half) && base >= |v| && StageProgress(v, base, half, step, tw, op, r)
    ensures r == Stage(v, half, step, tw, op)
  {
  }

  /** The input copied into fresh arrays in bit-reversed order. */
  method BitReversedCopy<S(0)>(L: nat, naturalReal: seq<S>, naturalImag: seq<S>) returns (re: array<S>, im: array<S>)
    requires |naturalReal| == |naturalImag| == Pow2(L)
    ensures fresh(re) && fresh(im) && re != im && re.Length == im.Length == Pow2(L)
    ensures Zip(re[..], im[..]) == BitReversed(L, Zip(naturalReal, naturalImag))
  {
    var n := Pow2(L);
    re := new S[n];
    im := new S[n];
    for index := 0 to n
      invariant forall i :: 0 <= i < index ==> re[i] == naturalReal[Reversed(L, i)] && im[i] == naturalImag[Reversed(L, i)]
    {
      var source := BitReverse(index, L);
      re[index] := naturalReal[source];
      im[index] := naturalImag[source];
    }
  }

  /** The transform with a record of the array after every stage. */
  method Transform<S(0)>(L: nat, naturalReal: seq<S>, naturalImag: seq<S>, twiddleReal: seq<S>, twiddleImag: seq<S>,
                         op: Operation<(S, S), (S, S)>)
    returns (outReal: seq<S>, outImag: seq<S>, stageStates: seq<(seq<S>, seq<S>)>)
    requires L > 0 && |naturalReal| == |naturalImag| == Pow2(L) && |twiddleReal| == |twiddleImag| == Pow2(L - 1)
    ensures |outReal| == |outImag| == Pow2(L) && |stageStates| == L && Shape(Pow2(L), L, 1, Pow2(L - 1))
    ensures Zip(outReal, outImag)
         == Stages(BitReversed(L, Zip(naturalReal, naturalImag)), L, 1, Zip(twiddleReal, twiddleImag), op)
    ensures forall s :: 0 <= s < L ==>
      StateAfter(L, Zip(naturalReal, naturalImag), Zip(twiddleReal, twiddleImag), op, s + 1, stageStates[s].0, stageStates[s].1)
  {
    var n := Pow2(L);
    var re, im := BitReversedCopy(L, naturalReal, naturalImag);
    ghost var x, tw := Zip(naturalReal, naturalImag), Zip(twiddleReal, twiddleImag);

    stageStates := [];
    var stageSize := 2;
    WholeOnes(n);
    for stage := 0 to L
      invariant stageSize == Pow2(stage + 1)
      invariant StateAfter(L, x, tw, op, stage, re[..], im[..])
      invariant |stageStates| == stage
      invariant forall s :: 0 <= s < stage ==> StateAfter(L, x, tw, op, s + 1, stageStates[s].0, stageStates[s].1)
    {
      StageStep(L, stage);
      ghost var before := Zip(re[..], im[..]);
      StageInPlace(re, im, stageSize / 2, n / stageSize, twiddleReal, twiddleImag, op);
      NextState(L, x, tw, op, stage, before, re[..], im[..]);
      stageStates := stageStates + [(re[..], im[..])];
      stageSize := stageSize * 2;
    }
    outReal, outImag := re[..], im[..];
  }

  /** With the exact butterfly the loops compute the discrete Fourier transform, over any ring of pairs. */
  method ExactTransform<S(0,!new)>(R: Ring<(S, S)>, L: nat, w: (S, S), naturalReal: seq<S>, naturalImag: seq<S>,
                                   twiddleReal: seq<S>, twiddleImag: seq<S>)
    returns (outReal: seq<S>, outImag: seq<S>)
    requires |naturalReal| == |naturalImag| == Pow2(L) && |twiddleReal| == |twiddleImag|
    requires RootOfUnity(R, L, w, Zip(twiddleReal, twiddleImag))
    ensures |outReal| == |outImag| == Pow2(L)
    ensures forall k :: 0 <= k < Pow2(L) ==> (outReal[k], outImag[k]) == Dft.Transform(R, w, Zip(naturalReal, naturalImag), k)
  {
    ghost var x, tw := Zip(naturalReal, naturalImag), Zip(twiddleReal, twiddleImag);
    var stages;
    outReal, outImag, stages := Transform(L, naturalReal, naturalImag, twiddleReal, twiddleImag, Exact(R));
    forall k | 0 <= k < Pow2(L) ensures (outReal[k], outImag[k]) == Dft.Transform(R, w, x, k) {
      StagesComputeTransform(R, L, w, tw, x, k);
      assert Zip(outReal, outImag)[k] == (outReal[k], outImag[k]);
    }
  }

  /** `re` and `im` are the arrays after the first `s` of `L` stages on input `x`. */
  ghost predicate StateAfter<S>(L: nat, x: seq<(S, S)>, tw: seq<(S, S)>, op: Operation<(S, S), (S, S)>, s: nat, re: seq<S>, im: seq<S>)
    requires |x| == Pow2(L) && s <= L
  {
    && |re| == |im| && Shape(Pow2(L), s, Pow2(L - s), |tw|)
    && Zip(re, im) == Stages(BitReversed(L, x), s, Pow2(L - s), tw, op)
  }

  lemma NextState<S>(L: nat, x: seq<(S, S)>, tw: seq<(S, S)>, op: Operation<(S, S), (S, S)>, s: nat,
                     before: seq<(S, S)>, re: seq<S>, im: seq<S>)
    requires |x| == Pow2(L) && s < L && Shape(Pow2(L), s + 1, Pow2(L - s - 1), |tw|)
    requires Shape(Pow2(L), s, Pow2(L - s), |tw|) && before == Stages(BitReversed(L, x), s, Pow2(L - s), tw, op)
    requires Whole(Pow2(L), 2 * Pow2(s)) && |re| == |im|
    requires Zip(re, im) == Stage(before, Pow2(s), Pow2(L - s - 1), tw, op)
    ensures StateAfter(L, x, tw, op, s + 1, re, im)
  {
  }

  lemma {:induction false} WholeOnes(n: nat)
    ensures Whole(n, 1)
  {
    if n > 0 {
      WholeOnes(n - 1);
    }
  }

  /** Stage `s` of `L`: `2^s` elements apart, with a twiddle step of `2^(L-1-s)`. */
  lemma {:induction false} StageStep(L: nat, s: nat)
    requires s < L
    ensures Pow2(s + 1) / 2 == Pow2(s) && Pow2(L) / Pow2(s + 1) == Pow2(L - s - 1)
    ensures Pow2(s) * Pow2(L - s - 1) == Pow2(L - 1)
    ensures Shape(Pow2(L), s + 1, Pow2(L - s - 1), Pow2(L - 1)) && Whole(Pow2(L), 2 * Pow2(s))
  {
    Pow2Add(s, L - s - 1);
    Pow2Add(s + 1, L - s - 1);
    MulDivMod(Pow2(s + 1), Pow2(L - s - 1));
    WholeMultiple(Pow2(L - s - 1), Pow2(s + 1));
  }

  lemma {:induction false} WholeMultiple(q: nat, size: nat)
    requires size > 0
    ensures size * q >= 0 && Whole(size * q, size)
  {
    if q == 0 {
      assert size * q == 0;
    } else {
      WholeMultiple(q - 1, size);
      assert size * q == size * (q - 1) + size;
    }
  }
}
