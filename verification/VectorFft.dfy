/** The FFT program: sixteen butterflies per pass of a loop, through gathers, wrapping accumulator
    arithmetic and scatters. It leaves in memory exactly what the sequential reference computes. */
module VectorFft {
  import opened Arith
  import opened Bits
  import opened ByteMemory
  import opened Fft
  import opened FixedPoint
  import opened SimdExec
  import opened VectorMachine
  import opened Batches

  // ----- the program

  /** Base addresses of the memory image. */
  datatype Layout = Layout(re: nat, im: nat, twRe: nat, twIm: nat, negRe: nat, negIm: nat, zero: nat,
                           aIndex: nat, bIndex: nat, wIndex: nat, expIn: nat, expOut: nat)

  const Fft64 := Layout(0x1000, 0x1040, 0x1080, 0x10A0, 0x10C0, 0x10E0, 0x1100, 0x1120, 0x11E0, 0x12A0, 0x1360, 0x1370)

  function Setup(y: Layout, total: nat): seq<Action> {
    [Li(1, y.re), Li(2, y.im), Li(3, y.twRe), Li(4, y.twIm)]
    + [Li(5, y.negRe), Li(6, y.negIm), Li(7, y.zero), Li(8, y.aIndex)]
    + [Li(9, y.bIndex), Li(10, y.wIndex), Li(11, 0), Li(12, total)]
    + [VLoad(7, 11)]
  }

  const Loads := [VLoad(8, 0), VLoad(9, 1), VLoad(10, 2)]
  const DataGathers := [VGather(1, 3, 0), VGather(2, 4, 0), VGather(1, 5, 1), VGather(2, 6, 1)]
  const TwiddleGathers := [VGather(3, 7, 2), VGather(4, 8, 2), VGather(5, 9, 2), VGather(6, 10, 2)]
  const RealProducts := [Mul(5, 7, 0), Mac(6, 10, 0, 0), Mul(5, 9, 1), Mac(6, 8, 1, 1)]
  const ImagProducts := [Mul(5, 8, 2), Mac(6, 7, 2, 2), Mul(5, 10, 3), Mac(6, 9, 3, 3)]
  const Additions := [Wadd(3, 11, 0, 0, 6), Wadd(3, 11, 1, 1, 6), Wadd(4, 11, 2, 2, 6), Wadd(4, 11, 3, 3, 6)]
  const Narrowings := [Nclip(0, 7, 12), Nclip(2, 7, 13), Nclip(1, 7, 14), Nclip(3, 7, 15)]
  const Scatters := [VScatter(1, 12, 0), VScatter(2, 13, 0), VScatter(1, 14, 1), VScatter(2, 15, 1)]
  const Increments := [Addi(8, 8, 16), Addi(9, 9, 16), Addi(10, 10, 16), Addi(11, 11, 1)]

  const Body := Loads + (DataGathers + (TwiddleGathers + (RealProducts + (ImagProducts
                + (Additions + (Narrowings + (Scatters + Increments)))))))

  const SETUP_ACTIONS := 13
  const ACTIONS_PER_BATCH := 36

  function Program(y: Layout, L: nat, total: nat): seq<Action> {
    Setup(y, total) + (Body + ([Bltu(11, 12, SETUP_ACTIONS)] + [VLoad(10, 11), AddByte(11, 1, L), VStore(10, 1, 16), End]))
  }

  // ----- one lane

  function Encode(x: int): int { U8(x) }

  function Opposite(w: Sample): Sample { (-w.0, -w.1) }

  /** The four byte results of one lane, in the order real a, imaginary a, real b, imaginary b. */
  function LaneButterfly(ar: int, ai: int, br: int, bi: int, wr: int, wi: int, nr: int, ni: int): (int, int, int, int) {
    (NclipS(WaddS(ar, 0, MacS(bi, ni, MulS(br, wr)), 6), 7),
     NclipS(WaddS(ai, 0, MacS(bi, wr, MulS(br, wi)), 6), 7),
     NclipS(WaddS(ar, 0, MacS(bi, wi, MulS(br, nr)), 6), 7),
     NclipS(WaddS(ai, 0, MacS(bi, nr, MulS(br, ni)), 6), 7))
  }

  /** Wrapping 32-bit accumulation is exact on byte samples and twiddle codes. */
  lemma {:induction false} AccumulatorExact(a: int, x: int, u: int, z: int, w: int)
    requires -128 <= a < 128 && -128 <= x < 128 && -128 <= z < 128 && -64 <= u <= 64 && -64 <= w <= 64
    ensures var v := x * u + z * w + 64 * a;
      && WaddS(Encode(a), 0, MacS(Encode(z), Encode(w), MulS(Encode(x), Encode(u))), 6) == U32(v)
      && -0x8000_0000 <= v < 0x8000_0000
  {
    ProductBound(x, u, 128, 64);
    ProductBound(z, w, 128, 64);
    BytesRoundTrip(x); BytesRoundTrip(u);
    MacExact(z, w, x * u);
    WaddExact(a, x * u + z * w);
  }

  lemma {:induction false} MacExact(z: int, w: int, acc: int)
    requires -128 <= z < 128 && -64 <= w <= 64
    ensures MacS(Encode(z), Encode(w), U32(acc)) == U32(acc + z * w)
  {
    BytesRoundTrip(z); BytesRoundTrip(w);
    WrapAdd(acc, z * w);
  }

  lemma {:induction false} WaddExact(a: int, acc: int)
    requires -128 <= a < 128
    ensures WaddS(Encode(a), 0, U32(acc), 6) == U32(acc + 64 * a)
  {
    Pow2Values();
    BytesRoundTrip(a);
    WrapAdd(acc, 64 * a);
  }

  /** NCLIP of an exact accumulator is the fixed-point butterfly's narrowing. */
  lemma {:induction false} NarrowExact(v: int)
    requires -0x8000_0000 <= v < 0x8000_0000
    ensures NclipS(U32(v), 7) == Encode(Narrow(v))
  {
    Pow2Values();
    WrapExact(v);
    RoundBitSigned(U32(v), 7);
  }

  /** One lane of the program computes the fixed-point butterfly. */
  lemma {:induction false} LaneIsButterfly(a: Sample, b: Sample, w: Sample, n: Sample)
    requires ByteSample(a) && ByteSample(b) && Twiddle(w) && n == Opposite(w)
    ensures LaneButterfly(Encode(a.0), Encode(a.1), Encode(b.0), Encode(b.1), Encode(w.0), Encode(w.1), Encode(n.0), Encode(n.1))
         == EncodeBoth(RoundedButterfly(a, b, w))
  {
    OutputsExact(a, b, w, n, Sums(a, b, w).0, Sums(a, b, w).1);
  }

  /** The four bytes of a butterfly's outputs. */
  function EncodeBoth(r: (Sample, Sample)): (int, int, int, int) {
    (Encode(r.0.0), Encode(r.0.1), Encode(r.1.0), Encode(r.1.1))
  }

  function LaneOutput(a: int, x: int, u: int, z: int, w: int): int {
    NclipS(WaddS(Encode(a), 0, MacS(Encode(z), Encode(w), MulS(Encode(x), Encode(u))), 6), 7)
  }

  /** The sums of a butterfly as four sums of two products, with the twiddle `w` or its opposite `n`. */
  ghost predicate ProductSums(a: Sample, b: Sample, w: Sample, n: Sample, s: Sample, t: Sample) {
    && s.0 == b.0 * w.0 + b.1 * n.1 + 64 * a.0 && s.1 == b.0 * w.1 + b.1 * w.0 + 64 * a.1
    && t.0 == b.0 * n.0 + b.1 * w.1 + 64 * a.0 && t.1 == b.0 * n.1 + b.1 * n.0 + 64 * a.1
  }

  lemma SumsOfProducts(a: Sample, b: Sample, w: Sample, n: Sample, s: Sample, t: Sample)
    requires n == Opposite(w) && (s, t) == Sums(a, b, w)
    ensures ProductSums(a, b, w, n, s, t)
  {
    Signs(b, w);
  }

  lemma {:induction false} OutputsExact(a: Sample, b: Sample, w: Sample, n: Sample, s: Sample, t: Sample)
    requires ByteSample(a) && ByteSample(b) && Twiddle(w) && n == Opposite(w) && (s, t) == Sums(a, b, w)
    ensures LaneButterfly(Encode(a.0), Encode(a.1), Encode(b.0), Encode(b.1), Encode(w.0), Encode(w.1), Encode(n.0), Encode(n.1))
         == EncodeBoth(RoundedButterfly(a, b, w))
  {
    SumsOfProducts(a, b, w, n, s, t);
    FourOutputs(a, b, w, n, s, t);
    assert RoundedButterfly(a, b, w) == ((Narrow(s.0), Narrow(s.1)), (Narrow(t.0), Narrow(t.1)));
  }

  lemma {:induction false} FourOutputs(a: Sample, b: Sample, w: Sample, n: Sample, s: Sample, t: Sample)
    requires ByteSample(a) && ByteSample(b) && Twiddle(w) && Twiddle(n) && ProductSums(a, b, w, n, s, t)
    ensures LaneButterfly(Encode(a.0), Encode(a.1), Encode(b.0), Encode(b.1), Encode(w.0), Encode(w.1), Encode(n.0), Encode(n.1))
         == EncodeBoth(((Narrow(s.0), Narrow(s.1)), (Narrow(t.0), Narrow(t.1))))
  {
    OutputExact(a.0, b.0, w.0, b.1, n.1, s.0);
    OutputExact(a.1, b.0, w.1, b.1, w.0, s.1);
    OutputExact(a.0, b.0, n.0, b.1, w.1, t.0);
    OutputExact(a.1, b.0, n.1, b.1, n.0, t.1);
  }

  lemma {:induction false} OutputExact(a: int, x: int, u: int, z: int, w: int, v: int)
    requires -128 <= a < 128 && -128 <= x < 128 && -128 <= z < 128 && -64 <= u <= 64 && -64 <= w <= 64
    requires v == x * u + z * w + 64 * a
    ensures LaneOutput(a, x, u, z, w) == Encode(Narrow(v))
  {
    AccumulatorExact(a, x, u, z, w);
    NarrowExact(v);
  }

  // ----- butterflies on distinct elements, taken all at once

  predicate Untouched(ps: seq<Place>, i: int) {
    forall j :: 0 <= j < |ps| ==> ps[j].a != i && ps[j].b != i
  }

  lemma {:induction false} UntouchedKept<T, W>(v: seq<T>, ps: seq<Place>, tw: seq<W>, op: Operation<T, W>, i: nat)
    requires AllFit(ps, |v|, |tw|) && i < |v| && Untouched(ps, i)
    ensures ApplyAll(v, ps, tw, op)[i] == v[i]
    decreases |ps|
  {
    if ps != [] {
      UntouchedKept(v, ps[..|ps| - 1], tw, op, i);
    }
  }

  lemma {:induction false} AppliedOnce<T, W>(v: seq<T>, ps: seq<Place>, tw: seq<W>, op: Operation<T, W>, j: nat)
    requires AllFit(ps, |v|, |tw|) && Distinct(ps) && j < |ps|
    ensures var r := ApplyAll(v, ps, tw, op);
      (r[ps[j].a], r[ps[j].b]) == op(v[ps[j].a], v[ps[j].b], tw[ps[j].t])
    decreases |ps|
  {
    var n := |ps| - 1;
    if j < n {
      assert Apart(ps[j], ps[n]) && ps[..n][j] == ps[j];
      AppliedOnce(v, ps[..n], tw, op, j);
    } else {
      forall i | 0 <= i < n ensures Apart(ps[i], ps[n]) {
      }
      UntouchedKept(v, ps[..n], tw, op, ps[n].a);
      UntouchedKept(v, ps[..n], tw, op, ps[n].b);
    }
  }

  /** Butterflies on distinct elements act as if they were applied all at once. */
  lemma {:induction false} DistinctApply<T, W>(v: seq<T>, ps: seq<Place>, tw: seq<W>, op: Operation<T, W>)
    requires AllFit(ps, |v|, |tw|) && Distinct(ps)
    ensures var r := ApplyAll(v, ps, tw, op);
      && (forall j :: 0 <= j < |ps| ==> (r[ps[j].a], r[ps[j].b]) == op(v[ps[j].a], v[ps[j].b], tw[ps[j].t]))
      && (forall i :: 0 <= i < |v| && Untouched(ps, i) ==> r[i] == v[i])
  {
    var r := ApplyAll(v, ps, tw, op);
    forall j | 0 <= j < |ps| ensures (r[ps[j].a], r[ps[j].b]) == op(v[ps[j].a], v[ps[j].b], tw[ps[j].t]) {
      AppliedOnce(v, ps, tw, op, j);
    }
    forall i | 0 <= i < |v| && Untouched(ps, i) ensures r[i] == v[i] {
      UntouchedKept(v, ps, tw, op, i);
    }
  }

  predicate Injective(index: Row) {
    forall i, j :: 0 <= i < j < |index| ==> index[i] != index[j]
  }

  lemma {:induction false} ScatterHit(mem: seq<int>, base: int, index: Row, data: Row, n: nat, j: nat)
    requires |index| == |data| == LANES && j < n <= LANES && Injective(index) && 0 <= base + index[j] < |mem|
    ensures Peek(Scatter(mem, base, index, data, n), base + index[j]) == data[j]
  {
    if j < n - 1 {
      ScatterHit(mem, base, index, data, n - 1, j);
    }
  }

  lemma {:induction false} ScatterMiss(mem: seq<int>, base: int, index: Row, data: Row, n: nat, address: int)
    requires |index| == |data| == LANES && n <= LANES
    requires forall j :: 0 <= j < n ==> base + index[j] != address
    ensures Peek(Scatter(mem, base, index, data, n), address) == Peek(mem, address)
  {
    if n > 0 {
      ScatterMiss(mem, base, index, data, n - 1, address);
    }
  }

  // ----- the memory image

  /** The regions follow one another in the image. */
  predicate Sound(y: Layout, L: nat, size: nat)
    requires 5 <= L
  {
    var n, h, t := Pow2(L), Pow2(L - 1), LANES * Before(L, L);
    && y.re + n <= y.im && y.im + n <= y.twRe && y.twRe + h <= y.twIm && y.twIm + h <= y.negRe
    && y.negRe + h <= y.negIm && y.negIm + h <= y.zero && y.zero + LANES <= y.aIndex
    && y.aIndex + t <= y.bIndex && y.bIndex + t <= y.wIndex && y.wIndex + t == y.expIn
    && y.expIn + LANES == y.expOut && y.expOut + LANES <= size
  }

  ghost predicate Twiddles(mem: seq<int>, y: Layout, tw: seq<Sample>) {
    forall k :: 0 <= k < |tw| ==>
      && Peek(mem, y.twRe + k) == Encode(tw[k].0) && Peek(mem, y.twIm + k) == Encode(tw[k].1)
      && Peek(mem, y.negRe + k) == Encode(-tw[k].0) && Peek(mem, y.negIm + k) == Encode(-tw[k].1)
  }

  ghost predicate Indices(mem: seq<int>, y: Layout, ps: seq<Place>) {
    forall p :: 0 <= p < |ps| ==>
      && Peek(mem, y.aIndex + p) == ps[p].a && Peek(mem, y.bIndex + p) == ps[p].b && Peek(mem, y.wIndex + p) == ps[p].t
  }

  ghost predicate Zeros(mem: seq<int>, y: Layout) {
    forall j :: 0 <= j < LANES ==> LoadRow(mem, y.zero)[j] == 0
  }

  /** Element `i` of the data regions is the sample `x`. */
  predicate Holds(mem: seq<int>, y: Layout, i: int, x: Sample) {
    Peek(mem, y.re + i) == Encode(x.0) && Peek(mem, y.im + i) == Encode(x.1)
  }

  ghost predicate Data(mem: seq<int>, y: Layout, v: seq<Sample>) {
    forall i :: 0 <= i < |v| ==> Holds(mem, y, i, v[i])
  }

  // ----- one pass of the loop

  ghost predicate IndexRows(s: State, ps: seq<Place>)
    requires s.Valid() && |ps| == LANES
  {
    forall j :: 0 <= j < LANES ==> s.vrf[0][j] == ps[j].a && s.vrf[1][j] == ps[j].b && s.vrf[2][j] == ps[j].t
  }

  ghost predicate DataRows(s: State, ps: seq<Place>, v: seq<Sample>)
    requires s.Valid() && |ps| == LANES && (forall j :: 0 <= j < LANES ==> ps[j].a < |v| && ps[j].b < |v|)
  {
    forall j :: 0 <= j < LANES ==>
      && s.vrf[3][j] == Encode(v[ps[j].a].0) && s.vrf[4][j] == Encode(v[ps[j].a].1)
      && s.vrf[5][j] == Encode(v[ps[j].b].0) && s.vrf[6][j] == Encode(v[ps[j].b].1)
  }

  ghost predicate TwiddleRows(s: State, ps: seq<Place>, tw: seq<Sample>)
    requires s.Valid() && |ps| == LANES && (forall j :: 0 <= j < LANES ==> ps[j].t < |tw|)
  {
    forall j :: 0 <= j < LANES ==>
      && s.vrf[7][j] == Encode(tw[ps[j].t].0) && s.vrf[8][j] == Encode(tw[ps[j].t].1)
      && s.vrf[9][j] == Encode(Opposite(tw[ps[j].t]).0) && s.vrf[10][j] == Encode(Opposite(tw[ps[j].t]).1)
  }

  ghost predicate ZeroRow(s: State)
    requires s.Valid()
  {
    forall j :: 0 <= j < LANES ==> s.vrf[11][j] == 0
  }

  /** Rows 12 to 15 hold the lane results computed from rows 3 to 10 of the state `o`. */
  ghost predicate ResultRows(s: State, o: State)
    requires s.Valid() && o.Valid()
  {
    forall j :: 0 <= j < LANES ==>
      (s.vrf[12][j], s.vrf[13][j], s.vrf[14][j], s.vrf[15][j])
      == LaneButterfly(o.vrf[3][j], o.vrf[4][j], o.vrf[5][j], o.vrf[6][j], o.vrf[7][j], o.vrf[8][j], o.vrf[9][j], o.vrf[10][j])
  }

  lemma {:induction false} LoadsEffect(s: State)
    requires s.Valid()
    ensures ExecAll(s, Loads)
         == SetRow(SetRow(SetRow(s, 0, LoadRow(s.mem, s.regs[8])), 1, LoadRow(s.mem, s.regs[9])), 2, LoadRow(s.mem, s.regs[10]))
  {
    Exec3(s, VLoad(8, 0), VLoad(9, 1), VLoad(10, 2));
  }

  lemma {:induction false} LoadsIndices(s: State, y: Layout, all: seq<Place>, ps: seq<Place>, k: nat)
    requires s.Valid() && Indices(s.mem, y, all) && LANES * k + LANES <= |all| && ps == all[LANES * k..LANES * k + LANES]
    requires s.regs[8] == y.aIndex + LANES * k && s.regs[9] == y.bIndex + LANES * k && s.regs[10] == y.wIndex + LANES * k
    ensures var r := ExecAll(s, Loads);
      r.mem == s.mem && r.regs == s.regs && r.vrf[11] == s.vrf[11] && IndexRows(r, ps)
  {
    LoadsEffect(s);
    LoadedRows(s.mem, y, all, ps, k);
    var r := ExecAll(s, Loads);
    assert r.vrf[0] == LoadRow(s.mem, s.regs[8]);
    assert r.vrf[1] == LoadRow(s.mem, s.regs[9]);
    assert r.vrf[2] == LoadRow(s.mem, s.regs[10]);
  }

  lemma LoadedRows(mem: seq<int>, y: Layout, all: seq<Place>, ps: seq<Place>, k: nat)
    requires Indices(mem, y, all) && LANES * k + LANES <= |all| && ps == all[LANES * k..LANES * k + LANES]
    ensures forall j :: 0 <= j < LANES ==>
      && LoadRow(mem, y.aIndex + LANES * k)[j] == ps[j].a
      && LoadRow(mem, y.bIndex + LANES * k)[j] == ps[j].b
      && LoadRow(mem, y.wIndex + LANES * k)[j] == ps[j].t
  {
    forall j | 0 <= j < LANES
      ensures LoadRow(mem, y.aIndex + LANES * k)[j] == ps[j].a
      ensures LoadRow(mem, y.bIndex + LANES * k)[j] == ps[j].b
      ensures LoadRow(mem, y.wIndex + LANES * k)[j] == ps[j].t
    {
      assert ps[j] == all[LANES * k + j];
      assert y.aIndex + LANES * k + j == y.aIndex + (LANES * k + j);
    }
  }

  /** Four row-producing actions in a row: their rows, and everything else as before. */
  lemma FourGathers(s: State, a: Action, b: Action, c: Action, d: Action)
    requires s.Valid() && a.VGather? && b.VGather? && c.VGather? && d.VGather?
    requires Advances(a) && Advances(b) && Advances(c) && Advances(d)
    requires a.vd < b.vd < c.vd < d.vd && a.vi < a.vd && b.vi < a.vd && c.vi < a.vd && d.vi < a.vd
    ensures var r := ExecAll(s, [a, b, c, d]);
      && r.mem == s.mem && r.regs == s.regs && r.pc == s.pc + 4 && r.arf == s.arf
      && r.vrf[a.vd] == GatherRow(s.mem, s.regs[a.base], s.vrf[a.vi])
      && r.vrf[b.vd] == GatherRow(s.mem, s.regs[b.base], s.vrf[b.vi])
      && r.vrf[c.vd] == GatherRow(s.mem, s.regs[c.base], s.vrf[c.vi])
      && r.vrf[d.vd] == GatherRow(s.mem, s.regs[d.base], s.vrf[d.vi])
      && forall i :: 0 <= i < 16 && i != a.vd && i != b.vd && i != c.vd && i != d.vd ==> r.vrf[i] == s.vrf[i]
  {
    Exec4(s, a, b, c, d);
    var s1 := Exec(s, a);
    assert s1 == SetRow(s, a.vd, GatherRow(s.mem, s.regs[a.base], s.vrf[a.vi]));
    var s2 := Exec(s1, b);
    assert s2 == SetRow(s1, b.vd, GatherRow(s.mem, s.regs[b.base], s.vrf[b.vi]));
    var s3 := Exec(s2, c);
    assert s3 == SetRow(s2, c.vd, GatherRow(s.mem, s.regs[c.base], s.vrf[c.vi]));
    var s4 := Exec(s3, d);
    assert s4 == SetRow(s3, d.vd, GatherRow(s.mem, s.regs[d.base], s.vrf[d.vi]));
  }

  lemma GatheredData(mem: seq<int>, y: Layout, v: seq<Sample>, aIndex: Row, bIndex: Row, j: nat)
    requires |aIndex| == |bIndex| == LANES && Data(mem, y, v) && j < LANES
    requires 0 <= aIndex[j] < |v| && 0 <= bIndex[j] < |v|
    ensures GatherRow(mem, y.re, aIndex)[j] == Encode(v[aIndex[j]].0) && GatherRow(mem, y.im, aIndex)[j] == Encode(v[aIndex[j]].1)
    ensures GatherRow(mem, y.re, bIndex)[j] == Encode(v[bIndex[j]].0) && GatherRow(mem, y.im, bIndex)[j] == Encode(v[bIndex[j]].1)
  {
    assert Holds(mem, y, aIndex[j], v[aIndex[j]]) && Holds(mem, y, bIndex[j], v[bIndex[j]]);
  }

  lemma {:induction false} GathersData(s: State, y: Layout, v: seq<Sample>, ps: seq<Place>)
    requires s.Valid() && |ps| == LANES && (forall j :: 0 <= j < LANES ==> ps[j].a < |v| && ps[j].b < |v|)
    requires IndexRows(s, ps) && Data(s.mem, y, v) && s.regs[1] == y.re && s.regs[2] == y.im
    ensures var r := ExecAll(s, DataGathers);
      && r.mem == s.mem && r.regs == s.regs && r.vrf[11] == s.vrf[11] && DataRows(r, ps, v)
      && r.vrf[0] == s.vrf[0] && r.vrf[1] == s.vrf[1] && r.vrf[2] == s.vrf[2]
  {
    FourGathers(s, VGather(1, 3, 0), VGather(2, 4, 0), VGather(1, 5, 1), VGather(2, 6, 1));
    var r := ExecAll(s, DataGathers);
    forall j | 0 <= j < LANES
      ensures r.vrf[3][j] == Encode(v[ps[j].a].0) && r.vrf[4][j] == Encode(v[ps[j].a].1)
      ensures r.vrf[5][j] == Encode(v[ps[j].b].0) && r.vrf[6][j] == Encode(v[ps[j].b].1)
    {
      GatheredData(s.mem, y, v, s.vrf[0], s.vrf[1], j);
    }
  }

  lemma GatheredTwiddles(mem: seq<int>, y: Layout, tw: seq<Sample>, index: Row, j: nat)
    requires |index| == LANES && Twiddles(mem, y, tw) && j < LANES && 0 <= index[j] < |tw|
    ensures GatherRow(mem, y.twRe, index)[j] == Encode(tw[index[j]].0) && GatherRow(mem, y.twIm, index)[j] == Encode(tw[index[j]].1)
    ensures GatherRow(mem, y.negRe, index)[j] == Encode(-tw[index[j]].0) && GatherRow(mem, y.negIm, index)[j] == Encode(-tw[index[j]].1)
  {
  }

  lemma {:induction false} GathersTwiddles(s: State, y: Layout, tw: seq<Sample>, ps: seq<Place>)
    requires s.Valid() && |ps| == LANES && (forall j :: 0 <= j < LANES ==> ps[j].t < |tw|)
    requires IndexRows(s, ps) && Twiddles(s.mem, y, tw)
    requires s.regs[3] == y.twRe && s.regs[4] == y.twIm && s.regs[5] == y.negRe && s.regs[6] == y.negIm
    ensures var r := ExecAll(s, TwiddleGathers);
      && r.mem == s.mem && r.regs == s.regs && r.vrf[11] == s.vrf[11] && TwiddleRows(r, ps, tw)
      && (forall i :: 0 <= i < 7 ==> r.vrf[i] == s.vrf[i])
  {
    FourGathers(s, VGather(3, 7, 2), VGather(4, 8, 2), VGather(5, 9, 2), VGather(6, 10, 2));
    TwiddleRowsGathered(s, ExecAll(s, TwiddleGathers), y, tw, ps);
  }

  lemma TwiddleRowsGathered(s: State, r: State, y: Layout, tw: seq<Sample>, ps: seq<Place>)
    requires s.Valid() && r.Valid() && |ps| == LANES && (forall j :: 0 <= j < LANES ==> ps[j].t < |tw|)
    requires Twiddles(s.mem, y, tw) && forall j :: 0 <= j < LANES ==> s.vrf[2][j] == ps[j].t
    requires r.vrf[7] == GatherRow(s.mem, y.twRe, s.vrf[2]) && r.vrf[8] == GatherRow(s.mem, y.twIm, s.vrf[2])
    requires r.vrf[9] == GatherRow(s.mem, y.negRe, s.vrf[2]) && r.vrf[10] == GatherRow(s.mem, y.negIm, s.vrf[2])
    ensures TwiddleRows(r, ps, tw)
  {
    forall j | 0 <= j < LANES
      ensures r.vrf[7][j] == Encode(tw[ps[j].t].0) && r.vrf[8][j] == Encode(tw[ps[j].t].1)
      ensures r.vrf[9][j] == Encode(-tw[ps[j].t].0) && r.vrf[10][j] == Encode(-tw[ps[j].t].1)
    {
      GatheredTwiddles(s.mem, y, tw, s.vrf[2], j);
    }
  }

  /** A product and an accumulation into one row, twice. */
  lemma TwoSums(s: State, a: Action, b: Action, c: Action, d: Action)
    requires s.Valid() && a.Mul? && b.Mac? && c.Mul? && d.Mac?
    requires Advances(a) && Advances(b) && Advances(c) && Advances(d)
    requires a.dst == b.src == b.dst && c.dst == d.src == d.dst && a.dst != c.dst
    ensures var r := ExecAll(s, [a, b, c, d]);
      && r.mem == s.mem && r.regs == s.regs && r.vrf == s.vrf
      && r.arf[a.dst] == MacRow(s.vrf[b.va], s.vrf[b.vb], MulRow(s.vrf[a.va], s.vrf[a.vb]))
      && r.arf[c.dst] == MacRow(s.vrf[d.va], s.vrf[d.vb], MulRow(s.vrf[c.va], s.vrf[c.vb]))
      && forall i :: 0 <= i < 4 && i != a.dst && i != c.dst ==> r.arf[i] == s.arf[i]
  {
    Exec4(s, a, b, c, d);
    var s1 := Exec(s, a);
    assert s1 == SetAcc(s, a.dst, MulRow(s.vrf[a.va], s.vrf[a.vb]));
    var s2 := Exec(s1, b);
    assert s2 == SetAcc(s1, b.dst, MacRow(s.vrf[b.va], s.vrf[b.vb], s1.arf[b.src]));
    var s3 := Exec(s2, c);
    assert s3 == SetAcc(s2, c.dst, MulRow(s.vrf[c.va], s.vrf[c.vb]));
    var s4 := Exec(s3, d);
    assert s4 == SetAcc(s3, d.dst, MacRow(s.vrf[d.va], s.vrf[d.vb], s3.arf[d.src]));
  }

  lemma TwoAdditions(s: State, a: Action, b: Action)
    requires s.Valid() && a.Wadd? && b.Wadd? && Advances(a) && Advances(b) && a.src == a.dst && b.src == b.dst && a.dst != b.dst
    ensures var r := ExecAll(s, [a, b]);
      && r.mem == s.mem && r.regs == s.regs && r.vrf == s.vrf
      && r.arf[a.dst] == WaddRow(s.vrf[a.va], s.vrf[a.vb], s.arf[a.src], a.align)
      && r.arf[b.dst] == WaddRow(s.vrf[b.va], s.vrf[b.vb], s.arf[b.src], b.align)
      && forall i :: 0 <= i < 4 && i != a.dst && i != b.dst ==> r.arf[i] == s.arf[i]
  {
    assert [a, b][1..] == [b] && [b][1..] == [];
    var s1 := Exec(s, a);
    assert s1 == SetAcc(s, a.dst, WaddRow(s.vrf[a.va], s.vrf[a.vb], s.arf[a.src], a.align));
    var s2 := Exec(s1, b);
    assert s2 == SetAcc(s1, b.dst, WaddRow(s.vrf[b.va], s.vrf[b.vb], s1.arf[b.src], b.align));
    assert ExecAll(s1, [b]) == s2;
  }

  lemma FourAdditions(s: State)
    requires s.Valid()
    ensures var r := ExecAll(s, Additions);
      && r.mem == s.mem && r.regs == s.regs && r.vrf == s.vrf
      && r.arf[0] == WaddRow(s.vrf[3], s.vrf[11], s.arf[0], 6) && r.arf[1] == WaddRow(s.vrf[3], s.vrf[11], s.arf[1], 6)
      && r.arf[2] == WaddRow(s.vrf[4], s.vrf[11], s.arf[2], 6) && r.arf[3] == WaddRow(s.vrf[4], s.vrf[11], s.arf[3], 6)
  {
    var ab, cd := [Wadd(3, 11, 0, 0, 6), Wadd(3, 11, 1, 1, 6)], [Wadd(4, 11, 2, 2, 6), Wadd(4, 11, 3, 3, 6)];
    assert Additions == ab + cd;
    ExecAllConcat(s, ab, cd);
    TwoAdditions(s, ab[0], ab[1]);
    TwoAdditions(ExecAll(s, ab), cd[0], cd[1]);
  }

  lemma {:induction false} FourNarrowings(s: State)
    requires s.Valid()
    ensures var r := ExecAll(s, Narrowings);
      && r.mem == s.mem && r.regs == s.regs
      && r.vrf[12] == NclipRow(s.arf[0], 7) && r.vrf[13] == NclipRow(s.arf[2], 7)
      && r.vrf[14] == NclipRow(s.arf[1], 7) && r.vrf[15] == NclipRow(s.arf[3], 7)
      && forall i :: 0 <= i < 12 ==> r.vrf[i] == s.vrf[i]
  {
    var a, b, c, d := Nclip(0, 7, 12), Nclip(2, 7, 13), Nclip(1, 7, 14), Nclip(3, 7, 15);
    Exec4(s, a, b, c, d);
    var s1 := Exec(s, a);
    assert s1 == SetRow(s, 12, NclipRow(s.arf[0], 7));
    var s2 := Exec(s1, b);
    assert s2 == SetRow(s1, 13, NclipRow(s.arf[2], 7));
    var s3 := Exec(s2, c);
    assert s3 == SetRow(s2, 14, NclipRow(s.arf[1], 7));
    var s4 := Exec(s3, d);
    assert s4 == SetRow(s3, 15, NclipRow(s.arf[3], 7));
  }

  const Arithmetic := RealProducts + (ImagProducts + (Additions + Narrowings))

  /** The arithmetic actions compute every lane from rows 3 to 10. */
  lemma ComputesLanes(s: State)
    requires s.Valid() && ZeroRow(s)
    ensures var r := ExecAll(s, Arithmetic);
      && r.mem == s.mem && r.regs == s.regs && (forall i :: 0 <= i < 12 ==> r.vrf[i] == s.vrf[i]) && ResultRows(r, s)
  {
    ExecAllConcat(s, RealProducts, ImagProducts + (Additions + Narrowings));
    TwoSums(s, Mul(5, 7, 0), Mac(6, 10, 0, 0), Mul(5, 9, 1), Mac(6, 8, 1, 1));
    var s1 := ExecAll(s, RealProducts);
    ExecAllConcat(s1, ImagProducts, Additions + Narrowings);
    TwoSums(s1, Mul(5, 8, 2), Mac(6, 7, 2, 2), Mul(5, 10, 3), Mac(6, 9, 3, 3));
    var s2 := ExecAll(s1, ImagProducts);
    ExecAllConcat(s2, Additions, Narrowings);
    FourAdditions(s2);
    var s3 := ExecAll(s2, Additions);
    FourNarrowings(s3);
    RowsToLanes(s, ExecAll(s3, Narrowings));
  }

  function AccRow(s: State, a: nat, x: nat, u: nat, z: nat, w: nat): (r: Row)
    requires s.Valid() && a < 16 && x < 16 && u < 16 && z < 16 && w < 16
    ensures |r| == LANES
  {
    NclipRow(WaddRow(s.vrf[a], s.vrf[11], MacRow(s.vrf[z], s.vrf[w], MulRow(s.vrf[x], s.vrf[u])), 6), 7)
  }

  lemma RowsToLanes(s: State, r: State)
    requires s.Valid() && r.Valid() && ZeroRow(s)
    requires r.vrf[12] == AccRow(s, 3, 5, 7, 6, 10) && r.vrf[13] == AccRow(s, 4, 5, 8, 6, 7)
    requires r.vrf[14] == AccRow(s, 3, 5, 9, 6, 8) && r.vrf[15] == AccRow(s, 4, 5, 10, 6, 9)
    ensures ResultRows(r, s)
  {
  }

  lemma {:induction false} FourScatters(s: State)
    requires s.Valid()
    ensures var r := ExecAll(s, Scatters);
      && r.regs == s.regs && r.vrf == s.vrf
      && r.mem == ScatterAll(s.mem, s.regs[1], s.regs[2], s.vrf[0], s.vrf[1], s.vrf[12], s.vrf[13], s.vrf[14], s.vrf[15])
  {
    var a, b, c, d := VScatter(1, 12, 0), VScatter(2, 13, 0), VScatter(1, 14, 1), VScatter(2, 15, 1);
    Exec4(s, a, b, c, d);
    var s1 := Exec(s, a);
    assert s1 == SetMem(s, Scatter(s.mem, s.regs[1], s.vrf[0], s.vrf[12], LANES));
    var s2 := Exec(s1, b);
    assert s2 == SetMem(s1, Scatter(s1.mem, s.regs[2], s.vrf[0], s.vrf[13], LANES));
    var s3 := Exec(s2, c);
    assert s3 == SetMem(s2, Scatter(s2.mem, s.regs[1], s.vrf[1], s.vrf[14], LANES));
    var s4 := Exec(s3, d);
    assert s4 == SetMem(s3, Scatter(s3.mem, s.regs[2], s.vrf[1], s.vrf[15], LANES));
  }

  function ScatterAll(mem: seq<int>, re: int, im: int, aIndex: Row, bIndex: Row, aRe: Row, aIm: Row, bRe: Row, bIm: Row): (r: seq<int>)
    requires |aIndex| == |bIndex| == |aRe| == |aIm| == |bRe| == |bIm| == LANES
    ensures |r| == |mem|
  {
    var m1 := Scatter(mem, re, aIndex, aRe, LANES);
    var m2 := Scatter(m1, im, aIndex, aIm, LANES);
    var m3 := Scatter(m2, re, bIndex, bRe, LANES);
    Scatter(m3, im, bIndex, bIm, LANES)
  }

  /** Four increments of different registers. */
  lemma FourIncrements(s: State, a: Action, b: Action, c: Action, d: Action)
    requires s.Valid() && a.Addi? && b.Addi? && c.Addi? && d.Addi?
    requires a.rd == a.rs && b.rd == b.rs && c.rd == c.rs && d.rd == d.rs && a.rd < b.rd < c.rd < d.rd < 16
    ensures var r := ExecAll(s, [a, b, c, d]);
      && r.mem == s.mem && r.vrf == s.vrf
      && r.regs[a.rd] == s.regs[a.rd] + a.imm && r.regs[b.rd] == s.regs[b.rd] + b.imm
      && r.regs[c.rd] == s.regs[c.rd] + c.imm && r.regs[d.rd] == s.regs[d.rd] + d.imm
      && forall i :: 0 <= i < 16 && i != a.rd && i != b.rd && i != c.rd && i != d.rd ==> r.regs[i] == s.regs[i]
  {
    Exec4(s, a, b, c, d);
    var s1 := Exec(s, a);
    assert s1 == SetReg(s, a.rd, s.regs[a.rd] + a.imm);
    var s2 := Exec(s1, b);
    assert s2 == SetReg(s1, b.rd, s.regs[b.rd] + b.imm);
    var s3 := Exec(s2, c);
    assert s3 == SetReg(s2, c.rd, s.regs[c.rd] + c.imm);
    var s4 := Exec(s3, d);
    assert s4 == SetReg(s3, d.rd, s.regs[d.rd] + d.imm);
  }

  // ----- a whole pass

  /** Registers, zero row and memory at the start of pass `k`, with the array `v` and the block
      exponents `e` in memory. */
  ghost predicate AtBatch(s: State, y: Layout, L: nat, tw: seq<Sample>, e: Row, v: seq<Sample>, k: nat) {
    && 5 <= L && |tw| == Pow2(L - 1) && |v| == Pow2(L) && s.Valid() && Sound(y, L, |s.mem|)
    && s.regs[1] == y.re && s.regs[2] == y.im && s.regs[3] == y.twRe && s.regs[4] == y.twIm
    && s.regs[5] == y.negRe && s.regs[6] == y.negIm
    && s.regs[8] == y.aIndex + LANES * k && s.regs[9] == y.bIndex + LANES * k && s.regs[10] == y.wIndex + LANES * k
    && s.regs[11] == k && s.regs[12] == Before(L, L)
    && ZeroRow(s) && Twiddles(s.mem, y, tw) && Indices(s.mem, y, AllPlaces(L, L)) && Data(s.mem, y, v)
    && LoadRow(s.mem, y.expIn) == e
  }

  /** Index rows of butterflies on distinct elements below `n`. */
  ghost predicate BatchRows(aIndex: Row, bIndex: Row, n: nat) {
    && |aIndex| == |bIndex| == LANES && Injective(aIndex) && Injective(bIndex)
    && (forall i :: 0 <= i < LANES ==> 0 <= aIndex[i] < n)
    && (forall i :: 0 <= i < LANES ==> 0 <= bIndex[i] < n)
    && forall i, j :: 0 <= i < LANES && 0 <= j < LANES ==> aIndex[i] != bIndex[j]
  }

  lemma RowsOfBatch(ps: seq<Place>, aIndex: Row, bIndex: Row, n: nat, twiddles: nat)
    requires |ps| == |aIndex| == |bIndex| == LANES && Distinct(ps) && AllFit(ps, n, twiddles)
    requires forall i :: 0 <= i < LANES ==> ps[i].a == aIndex[i] && ps[i].b == bIndex[i]
    ensures BatchRows(aIndex, bIndex, n)
  {
    forall i, j | 0 <= i < j < LANES ensures Apart(ps[i], ps[j]) {
    }
    forall i, j | 0 <= i < LANES && 0 <= j < LANES ensures aIndex[i] != bIndex[j] {
      if i < j {
        assert Apart(ps[i], ps[j]);
      } else if j < i {
        assert Apart(ps[j], ps[i]);
      } else {
        assert ps[i].Fits(n, twiddles);
      }
    }
  }

  /** The four scatters of a pass leave both outputs of every butterfly in memory. */
  lemma ScattersWrite(mem: seq<int>, re: nat, im: nat, n: nat, aIndex: Row, bIndex: Row, aRe: Row, aIm: Row, bRe: Row, bIm: Row, j: nat)
    requires BatchRows(aIndex, bIndex, n) && |aRe| == |aIm| == |bRe| == |bIm| == LANES && j < LANES
    requires re + n <= im && im + n <= |mem|
    ensures var r := ScatterAll(mem, re, im, aIndex, bIndex, aRe, aIm, bRe, bIm);
      && Peek(r, re + aIndex[j]) == aRe[j] && Peek(r, im + aIndex[j]) == aIm[j]
      && Peek(r, re + bIndex[j]) == bRe[j] && Peek(r, im + bIndex[j]) == bIm[j]
  {
    var m1 := Scatter(mem, re, aIndex, aRe, LANES);
    var m2 := Scatter(m1, im, aIndex, aIm, LANES);
    var m3 := Scatter(m2, re, bIndex, bRe, LANES);
    PairHit(mem, re, im, n, aIndex, aRe, aIm, j);
    PairMiss(m2, re, im, n, bIndex, bRe, bIm, aIndex[j]);
    PairHit(m2, re, im, n, bIndex, bRe, bIm, j);
  }

  lemma PairHit(mem: seq<int>, re: nat, im: nat, n: nat, index: Row, reals: Row, imags: Row, j: nat)
    requires |index| == |reals| == |imags| == LANES && Injective(index) && j < LANES
    requires re + n <= im && im + n <= |mem| && forall i :: 0 <= i < LANES ==> 0 <= index[i] < n
    ensures var r := Scatter(Scatter(mem, re, index, reals, LANES), im, index, imags, LANES);
      Peek(r, re + index[j]) == reals[j] && Peek(r, im + index[j]) == imags[j]
  {
    var m := Scatter(mem, re, index, reals, LANES);
    ScatterHit(mem, re, index, reals, LANES, j);
    ScatterMiss(m, im, index, imags, LANES, re + index[j]);
    ScatterHit(m, im, index, imags, LANES, j);
  }

  /** Writing to other elements leaves element `i` alone. */
  lemma {:induction false} PairMiss(mem: seq<int>, re: nat, im: nat, n: nat, index: Row, reals: Row, imags: Row, i: nat)
    requires |index| == |reals| == |imags| == LANES && i < n
    requires re + n <= im && (forall j :: 0 <= j < LANES ==> 0 <= index[j] < n && index[j] != i)
    ensures var r := Scatter(Scatter(mem, re, index, reals, LANES), im, index, imags, LANES);
      Peek(r, re + i) == Peek(mem, re + i) && Peek(r, im + i) == Peek(mem, im + i)
  {
    var m := Scatter(mem, re, index, reals, LANES);
    ScatterMiss(mem, re, index, reals, LANES, re + i);
    ScatterMiss(m, im, index, imags, LANES, re + i);
    ScatterMiss(mem, re, index, reals, LANES, im + i);
    ScatterMiss(m, im, index, imags, LANES, im + i);
  }

  lemma ScattersSpare(mem: seq<int>, re: int, im: int, aIndex: Row, bIndex: Row, aRe: Row, aIm: Row, bRe: Row, bIm: Row, address: int)
    requires |aIndex| == |bIndex| == |aRe| == |aIm| == |bRe| == |bIm| == LANES
    requires forall j :: 0 <= j < LANES ==> re + aIndex[j] != address && im + aIndex[j] != address
    requires forall j :: 0 <= j < LANES ==> re + bIndex[j] != address && im + bIndex[j] != address
    ensures Peek(ScatterAll(mem, re, im, aIndex, bIndex, aRe, aIm, bRe, bIm), address) == Peek(mem, address)
  {
    var m1 := Scatter(mem, re, aIndex, aRe, LANES);
    var m2 := Scatter(m1, im, aIndex, aIm, LANES);
    var m3 := Scatter(m2, re, bIndex, bRe, LANES);
    ScatterMiss(mem, re, aIndex, aRe, LANES, address);
    ScatterMiss(m1, im, aIndex, aIm, LANES, address);
    ScatterMiss(m2, re, bIndex, bRe, LANES, address);
    ScatterMiss(m3, im, bIndex, bIm, LANES, address);
  }

  /** Rows 12 to 15 hold the butterflies of a batch. */
  ghost predicate ButterflyRows(s: State, ps: seq<Place>, v: seq<Sample>, tw: seq<Sample>)
    requires s.Valid() && |ps| == LANES && AllFit(ps, |v|, |tw|)
  {
    forall j :: 0 <= j < LANES ==>
      (s.vrf[12][j], s.vrf[13][j], s.vrf[14][j], s.vrf[15][j]) == EncodeBoth(RoundedButterfly(v[ps[j].a], v[ps[j].b], tw[ps[j].t]))
  }

  lemma {:induction false} RowsAreButterflies(s: State, o: State, ps: seq<Place>, v: seq<Sample>, tw: seq<Sample>)
    requires s.Valid() && o.Valid() && |ps| == LANES && AllFit(ps, |v|, |tw|) && AllBytes(v) && AllTwiddles(tw)
    requires ResultRows(s, o) && DataRows(o, ps, v) && TwiddleRows(o, ps, tw)
    ensures ButterflyRows(s, ps, v, tw)
  {
    forall j | 0 <= j < LANES
      ensures (s.vrf[12][j], s.vrf[13][j], s.vrf[14][j], s.vrf[15][j]) == EncodeBoth(RoundedButterfly(v[ps[j].a], v[ps[j].b], tw[ps[j].t]))
    {
      assert ps[j].Fits(|v|, |tw|);
      RowIsButterfly(s, o, ps, v, tw, j, v[ps[j].a], v[ps[j].b], tw[ps[j].t]);
    }
  }

  lemma {:induction false} RowIsButterfly(s: State, o: State, ps: seq<Place>, v: seq<Sample>, tw: seq<Sample>, j: nat, a: Sample, b: Sample, w: Sample)
    requires s.Valid() && o.Valid() && |ps| == LANES && AllFit(ps, |v|, |tw|) && j < LANES && ps[j].Fits(|v|, |tw|)
    requires ResultRows(s, o) && DataRows(o, ps, v) && TwiddleRows(o, ps, tw)
    requires a == v[ps[j].a] && b == v[ps[j].b] && w == tw[ps[j].t] && ByteSample(a) && ByteSample(b) && Twiddle(w)
    ensures (s.vrf[12][j], s.vrf[13][j], s.vrf[14][j], s.vrf[15][j]) == EncodeBoth(RoundedButterfly(a, b, w))
  {
    LaneIsButterfly(a, b, w, Opposite(w));
  }

  /** After the scatters the memory holds the array with the whole batch applied. */
  lemma {:induction false} ScattersApply(s: State, y: Layout, ps: seq<Place>, v: seq<Sample>, tw: seq<Sample>)
    requires s.Valid() && |ps| == LANES && AllFit(ps, |v|, |tw|) && Distinct(ps) && ButterflyRows(s, ps, v, tw)
    requires forall j :: 0 <= j < LANES ==> s.vrf[0][j] == ps[j].a && s.vrf[1][j] == ps[j].b
    requires y.re + |v| <= y.im && y.im + |v| <= |s.mem| && Data(s.mem, y, v)
    ensures Data(Scattered(s, y), y, ApplyAll(v, ps, tw, RoundedButterfly))
  {
    var v' := ApplyAll(v, ps, tw, RoundedButterfly);
    RowsOfBatch(ps, s.vrf[0], s.vrf[1], |v|, |tw|);
    DistinctApply(v, ps, tw, RoundedButterfly);
    forall i | 0 <= i < |v| ensures Holds(Scattered(s, y), y, i, v'[i]) {
      ElementAfterScatters(s, y, ps, v, v', tw, i);
    }
  }

  lemma {:induction false} ElementAfterScatters(s: State, y: Layout, ps: seq<Place>, v: seq<Sample>, v': seq<Sample>, tw: seq<Sample>, i: nat)
    requires s.Valid() && |ps| == LANES && AllFit(ps, |v|, |tw|) && ButterflyRows(s, ps, v, tw) && |v'| == |v| && i < |v|
    requires forall j :: 0 <= j < LANES ==> s.vrf[0][j] == ps[j].a && s.vrf[1][j] == ps[j].b
    requires BatchRows(s.vrf[0], s.vrf[1], |v|) && y.re + |v| <= y.im && y.im + |v| <= |s.mem| && Data(s.mem, y, v)
    requires forall j :: 0 <= j < |ps| ==> (v'[ps[j].a], v'[ps[j].b]) == RoundedButterfly(v[ps[j].a], v[ps[j].b], tw[ps[j].t])
    requires Untouched(ps, i) ==> v'[i] == v[i]
    ensures Holds(Scattered(s, y), y, i, v'[i])
  {
    if Untouched(ps, i) {
      assert Holds(s.mem, y, i, v[i]);
      UntouchedSurvives(s, y, |v|, i);
    } else {
      var j :| 0 <= j < |ps| && (ps[j].a == i || ps[j].b == i);
      WrittenElement(s, y, ps, v, v', tw, j);
    }
  }

  /** Memory after the four scatters of a pass. */
  function Scattered(s: State, y: Layout): (r: seq<int>)
    requires s.Valid()
    ensures |r| == |s.mem|
  {
    ScatterAll(s.mem, y.re, y.im, s.vrf[0], s.vrf[1], s.vrf[12], s.vrf[13], s.vrf[14], s.vrf[15])
  }

  lemma {:induction false} WrittenElement(s: State, y: Layout, ps: seq<Place>, v: seq<Sample>, v': seq<Sample>, tw: seq<Sample>, j: nat)
    requires s.Valid() && |ps| == LANES && AllFit(ps, |v|, |tw|) && ButterflyRows(s, ps, v, tw) && |v'| == |v| && j < LANES
    requires s.vrf[0][j] == ps[j].a && s.vrf[1][j] == ps[j].b
    requires BatchRows(s.vrf[0], s.vrf[1], |v|) && y.re + |v| <= y.im && y.im + |v| <= |s.mem|
    requires ps[j].Fits(|v|, |tw|) && (v'[ps[j].a], v'[ps[j].b]) == RoundedButterfly(v[ps[j].a], v[ps[j].b], tw[ps[j].t])
    ensures Holds(Scattered(s, y), y, ps[j].a, v'[ps[j].a]) && Holds(Scattered(s, y), y, ps[j].b, v'[ps[j].b])
  {
    ScattersWrite(s.mem, y.re, y.im, |v|, s.vrf[0], s.vrf[1], s.vrf[12], s.vrf[13], s.vrf[14], s.vrf[15], j);
  }

  lemma UntouchedSurvives(s: State, y: Layout, n: nat, i: nat)
    requires s.Valid() && BatchRows(s.vrf[0], s.vrf[1], n) && i < n && y.re + n <= y.im
    requires forall j :: 0 <= j < LANES ==> s.vrf[0][j] != i && s.vrf[1][j] != i
    ensures Peek(Scattered(s, y), y.re + i) == Peek(s.mem, y.re + i) && Peek(Scattered(s, y), y.im + i) == Peek(s.mem, y.im + i)
  {
    var m := Scatter(Scatter(s.mem, y.re, s.vrf[0], s.vrf[12], LANES), y.im, s.vrf[0], s.vrf[13], LANES);
    PairMiss(s.mem, y.re, y.im, n, s.vrf[0], s.vrf[12], s.vrf[13], i);
    PairMiss(m, y.re, y.im, n, s.vrf[1], s.vrf[14], s.vrf[15], i);
  }

  /** Addresses outside the data regions are untouched, so the tables survive. */
  lemma {:induction false} TablesSurvive(mem: seq<int>, r: seq<int>, y: Layout, L: nat, tw: seq<Sample>, e: Row, all: seq<Place>)
    requires 5 <= L && Sound(y, L, |mem|) && Twiddles(mem, y, tw) && Indices(mem, y, all) && LoadRow(mem, y.expIn) == e
    requires forall address {:trigger Peek(r, address)} :: y.im + Pow2(L) <= address ==> Peek(r, address) == Peek(mem, address)
    ensures Twiddles(r, y, tw) && Indices(r, y, all) && LoadRow(r, y.expIn) == e
  {
    assert forall j :: 0 <= j < LANES ==> LoadRow(r, y.expIn)[j] == LoadRow(mem, y.expIn)[j];
  }

  lemma {:induction false} ApplyAllBytes(v: seq<Sample>, ps: seq<Place>, tw: seq<Sample>)
    requires AllFit(ps, |v|, |tw|) && AllBytes(v)
    ensures AllBytes(ApplyAll(v, ps, tw, RoundedButterfly))
  {
    if ps != [] {
      ApplyAllBytes(v, ps[..|ps| - 1], tw);
    }
  }

  /** Everything up to the scatters: the butterflies of batch `k` are in rows 12 to 15. */
  lemma {:induction false} PassComputes(s: State, y: Layout, L: nat, tw: seq<Sample>, e: Row, v: seq<Sample>, k: nat, ps: seq<Place>) returns (r: State)
    requires AtBatch(s, y, L, tw, e, v, k) && k < Before(L, L) && ps == BatchPlaces(L, L, k) && AllFit(ps, |v|, |tw|)
    requires AllBytes(v) && AllTwiddles(tw)
    ensures r.Valid() && r.mem == s.mem && r.regs == s.regs && r.vrf[11] == s.vrf[11] && ButterflyRows(r, ps, v, tw)
    ensures forall j :: 0 <= j < LANES ==> r.vrf[0][j] == ps[j].a && r.vrf[1][j] == ps[j].b
    ensures ExecAll(s, Body) == ExecAll(r, Scatters + Increments)
  {
    var tail := Scatters + Increments;
    AllPlacesLength(L, L);
    assert forall j :: 0 <= j < LANES ==> ps[j].Fits(|v|, |tw|);
    ExecAllConcat(s, Loads, DataGathers + (TwiddleGathers + (RealProducts + (ImagProducts + (Additions + (Narrowings + tail))))));
    LoadsIndices(s, y, AllPlaces(L, L), ps, k);
    var s1 := ExecAll(s, Loads);
    ExecAllConcat(s1, DataGathers, TwiddleGathers + (RealProducts + (ImagProducts + (Additions + (Narrowings + tail)))));
    GathersData(s1, y, v, ps);
    var s2 := ExecAll(s1, DataGathers);
    ExecAllConcat(s2, TwiddleGathers, RealProducts + (ImagProducts + (Additions + (Narrowings + tail))));
    GathersTwiddles(s2, y, tw, ps);
    var s3 := ExecAll(s2, TwiddleGathers);
    ArithmeticFirst(tail);
    ExecAllConcat(s3, Arithmetic, tail);
    ComputesLanes(s3);
    r := ExecAll(s3, Arithmetic);
    RowsAreButterflies(r, s3, ps, v, tw);
  }

  lemma ArithmeticFirst(tail: seq<Action>)
    ensures RealProducts + (ImagProducts + (Additions + (Narrowings + tail))) == Arithmetic + tail
  {
  }

  /** One pass of the loop applies one batch. */
  lemma {:induction false} PassAppliesBatch(s: State, y: Layout, L: nat, tw: seq<Sample>, e: Row, v: seq<Sample>, k: nat)
    requires AtBatch(s, y, L, tw, e, v, k) && k < Before(L, L) && AllFit(BatchPlaces(L, L, k), |v|, |tw|)
    requires AllBytes(v) && AllTwiddles(tw)
    ensures AtBatch(ExecAll(s, Body), y, L, tw, e, ApplyAll(v, BatchPlaces(L, L, k), tw, RoundedButterfly), k + 1)
  {
    var ps := BatchPlaces(L, L, k);
    var s1 := PassComputes(s, y, L, tw, e, v, k, ps);
    ExecAllConcat(s1, Scatters, Increments);
    FourScatters(s1);
    var s2 := ExecAll(s1, Scatters);
    BatchDistinct(L, L, k);
    ScattersApply(s1, y, ps, v, tw);
    RowsOfBatch(ps, s1.vrf[0], s1.vrf[1], |v|, |tw|);
    forall address {:trigger Peek(s2.mem, address)} | y.im + Pow2(L) <= address ensures Peek(s2.mem, address) == Peek(s.mem, address) {
      ScattersSpare(s1.mem, y.re, y.im, s1.vrf[0], s1.vrf[1], s1.vrf[12], s1.vrf[13], s1.vrf[14], s1.vrf[15], address);
    }
    TablesSurvive(s.mem, s2.mem, y, L, tw, e, AllPlaces(L, L));
    FourIncrements(s2, Addi(8, 8, 16), Addi(9, 9, 16), Addi(10, 10, 16), Addi(11, 11, 1));
  }

  // ----- the whole program

  /** The memory image before the program starts, with the array `v` in the data regions and the block
      exponents `e`. Cells hold integers: the index cells are bytes up to 256 points. */
  ghost predicate Image(mem: seq<int>, y: Layout, L: nat, tw: seq<Sample>, e: Row, v: seq<Sample>) {
    && 5 <= L && |tw| == Pow2(L - 1) && |v| == Pow2(L) && Sound(y, L, |mem|)
    && Twiddles(mem, y, tw) && Indices(mem, y, AllPlaces(L, L)) && Zeros(mem, y) && Data(mem, y, v)
    && LoadRow(mem, y.expIn) == e
  }

  ghost predicate AllAdvance(xs: seq<Action>) {
    forall i :: 0 <= i < |xs| ==> Advances(xs[i])
  }

  lemma AdvanceConcat(xs: seq<Action>, ys: seq<Action>)
    requires AllAdvance(xs) && AllAdvance(ys)
    ensures AllAdvance(xs + ys)
  {
  }

  lemma SetupAdvances(y: Layout, total: nat)
    ensures AllAdvance(Setup(y, total))
  {
    var first := [Li(1, y.re), Li(2, y.im), Li(3, y.twRe), Li(4, y.twIm)];
    var second := [Li(5, y.negRe), Li(6, y.negIm), Li(7, y.zero), Li(8, y.aIndex)];
    var third := [Li(9, y.bIndex), Li(10, y.wIndex), Li(11, 0), Li(12, total)];
    AdvanceConcat(first, second);
    AdvanceConcat(first + second, third);
    AdvanceConcat(first + second + third, [VLoad(7, 11)]);
  }

  lemma BodyAdvances()
    ensures AllAdvance(Body)
  {
    AdvanceConcat(Scatters, Increments);
    AdvanceConcat(Narrowings, Scatters + Increments);
    AdvanceConcat(Additions, Narrowings + (Scatters + Increments));
    var arithmetic := Additions + (Narrowings + (Scatters + Increments));
    AdvanceConcat(ImagProducts, arithmetic);
    AdvanceConcat(RealProducts, ImagProducts + arithmetic);
    AdvanceConcat(TwiddleGathers, RealProducts + (ImagProducts + arithmetic));
    AdvanceConcat(DataGathers, TwiddleGathers + (RealProducts + (ImagProducts + arithmetic)));
    AdvanceConcat(Loads, DataGathers + (TwiddleGathers + (RealProducts + (ImagProducts + arithmetic))));
  }

  lemma {:induction false} ProgramShape(y: Layout, L: nat, total: nat)
    ensures var p := Program(y, L, total);
      && |p| == 53 && p[..13] == Setup(y, total) && p[13..48] == Body && p[48] == Bltu(11, 12, 13)
      && p[49..52] == [VLoad(10, 11), AddByte(11, 1, L), VStore(10, 1, 16)] && p[52] == End
    ensures |Setup(y, total)| == SETUP_ACTIONS && |Body| + 1 == ACTIONS_PER_BATCH
    ensures AllAdvance(Setup(y, total)) && AllAdvance(Body)
  {
    SetupAdvances(y, total);
    BodyAdvances();
    var tail := [VLoad(10, 11), AddByte(11, 1, L), VStore(10, 1, 16), End];
    FourParts(Setup(y, total), Body, Bltu(11, 12, SETUP_ACTIONS), tail, Program(y, L, total));
    assert tail[..3] == [VLoad(10, 11), AddByte(11, 1, L), VStore(10, 1, 16)];
  }

  lemma FourParts(a: seq<Action>, b: seq<Action>, c: Action, d: seq<Action>, p: seq<Action>)
    requires |d| == 4 && p == a + (b + ([c] + d))
    ensures var m, n := |a|, |a| + |b|;
      p[..m] == a && p[m..n] == b && p[n] == c && p[n + 1..n + 4] == d[..3] && p[n + 4] == d[3] && |p| == n + 5
  {
    var m, n, q := |a|, |a| + |b|, b + ([c] + d);
    assert p[m..n] == q[..|b|] == b;
    assert p[n..] == q[|b|..] == [c] + d;
    assert p[n + 1..n + 4] == ([c] + d)[1..4] == d[..3];
  }

  lemma FourLoadsImmediate(s: State, a: Action, b: Action, c: Action, d: Action)
    requires s.Valid() && a.Li? && b.Li? && c.Li? && d.Li? && a.rd < b.rd < c.rd < d.rd < 16
    ensures var r := ExecAll(s, [a, b, c, d]);
      && r.mem == s.mem && r.vrf == s.vrf
      && r.regs[a.rd] == a.imm && r.regs[b.rd] == b.imm && r.regs[c.rd] == c.imm && r.regs[d.rd] == d.imm
      && forall i :: 0 <= i < a.rd || d.rd < i < 16 ==> r.regs[i] == s.regs[i]
  {
    Exec4(s, a, b, c, d);
    var s1 := Exec(s, a);
    assert s1 == SetReg(s, a.rd, a.imm);
    var s2 := Exec(s1, b);
    assert s2 == SetReg(s1, b.rd, b.imm);
    var s3 := Exec(s2, c);
    assert s3 == SetReg(s2, c.rd, c.imm);
    var s4 := Exec(s3, d);
    assert s4 == SetReg(s3, d.rd, d.imm);
  }

  lemma SetupPrepares(s: State, y: Layout, L: nat, tw: seq<Sample>, e: Row, v: seq<Sample>)
    requires s.Valid() && Image(s.mem, y, L, tw, e, v)
    ensures AtBatch(ExecAll(s, Setup(y, Before(L, L))), y, L, tw, e, v, 0)
    ensures ExecAll(s, Setup(y, Before(L, L))).mem == s.mem
  {
    var total := Before(L, L);
    var g1 := [Li(1, y.re), Li(2, y.im), Li(3, y.twRe), Li(4, y.twIm)];
    var g2 := [Li(5, y.negRe), Li(6, y.negIm), Li(7, y.zero), Li(8, y.aIndex)];
    var g3 := [Li(9, y.bIndex), Li(10, y.wIndex), Li(11, 0), Li(12, total)];
    var g4 := [VLoad(7, 11)];
    ExecAllConcat(s, g1 + g2 + g3, g4);
    ExecAllConcat(s, g1 + g2, g3);
    ExecAllConcat(s, g1, g2);
    FourLoadsImmediate(s, g1[0], g1[1], g1[2], g1[3]);
    var s1 := ExecAll(s, g1);
    FourLoadsImmediate(s1, g2[0], g2[1], g2[2], g2[3]);
    var s2 := ExecAll(s1, g2);
    FourLoadsImmediate(s2, g3[0], g3[1], g3[2], g3[3]);
    var s3 := ExecAll(s2, g3);
    assert g4[1..] == [] && ExecAll(s3, g4) == Exec(s3, VLoad(7, 11)) == SetRow(s3, 11, LoadRow(s3.mem, y.zero));
  }

  lemma {:induction false} PassRuns(s: State, y: Layout, L: nat, tw: seq<Sample>, e: Row, v: seq<Sample>, k: nat)
    requires AtBatch(s, y, L, tw, e, v, k) && k < Before(L, L) && AllFit(BatchPlaces(L, L, k), |v|, |tw|)
    requires AllBytes(v) && AllTwiddles(tw) && s.pc == SETUP_ACTIONS
    ensures var r := Run(Program(y, L, Before(L, L)), s, ACTIONS_PER_BATCH);
      && AtBatch(r, y, L, tw, e, ApplyAll(v, BatchPlaces(L, L, k), tw, RoundedButterfly), k + 1)
      && r.pc == if k + 1 < Before(L, L) then SETUP_ACTIONS else 49
  {
    var p := Program(y, L, Before(L, L));
    ProgramShape(y, L, Before(L, L));
    PassAppliesBatch(s, y, L, tw, e, v, k);
    RunStraight(p, s, Body);
    RunSplit(p, s, ACTIONS_PER_BATCH, 35, 1);
    var b := ExecAll(s, Body);
    assert b.pc == 48;
    assert Run(p, Exec(b, p[48]), 0) == Exec(b, p[48]);
  }

  /** `k` passes of the loop. */
  function Passes(p: seq<Action>, s: State, k: nat): (r: State)
    requires s.Valid()
    ensures r.Valid()
    decreases k
  {
    if k == 0 then s else Run(p, Passes(p, s, k - 1), ACTIONS_PER_BATCH)
  }

  lemma {:induction false} PassesAreRun(p: seq<Action>, s: State, k: nat, steps: nat)
    requires s.Valid() && steps == ACTIONS_PER_BATCH * k
    ensures Run(p, s, steps) == Passes(p, s, k)
    decreases k
  {
    if k > 0 {
      var m := steps - ACTIONS_PER_BATCH;
      PassesAreRun(p, s, k - 1, m);
      RunSplit(p, s, steps, m, ACTIONS_PER_BATCH);
    }
  }

  /** The array after the first `k` batches. */
  function AfterBatches(v: seq<Sample>, L: nat, tw: seq<Sample>, k: nat): seq<Sample>
    requires LANES * k <= |AllPlaces(L, L)| && AllFit(AllPlaces(L, L)[..LANES * k], |v|, |tw|)
  {
    ApplyAll(v, AllPlaces(L, L)[..LANES * k], tw, RoundedButterfly)
  }

  /** The loop is about to run pass `k`, or has just finished its last one. */
  ghost predicate LoopAt(s: State, y: Layout, L: nat, tw: seq<Sample>, e: Row, v: seq<Sample>, k: nat) {
    && LANES * k <= |AllPlaces(L, L)| && AllFit(AllPlaces(L, L)[..LANES * k], |v|, |tw|)
    && AtBatch(s, y, L, tw, e, AfterBatches(v, L, tw, k), k)
    && s.pc == if k < Before(L, L) then SETUP_ACTIONS else 49
  }

  lemma {:induction false} NextBatch(v: seq<Sample>, L: nat, tw: seq<Sample>, k: nat)
    requires 5 <= L && AllFit(AllPlaces(L, L), |v|, |tw|) && |AllPlaces(L, L)| == LANES * Before(L, L) && k < Before(L, L)
    requires AllBytes(v)
    ensures AllFit(AllPlaces(L, L)[..LANES * k], |v|, |tw|) && AllFit(AllPlaces(L, L)[..LANES * (k + 1)], |v|, |tw|)
    ensures AllFit(BatchPlaces(L, L, k), |v|, |tw|) && AllBytes(AfterBatches(v, L, tw, k))
    ensures AfterBatches(v, L, tw, k + 1) == ApplyAll(AfterBatches(v, L, tw, k), BatchPlaces(L, L, k), tw, RoundedButterfly)
  {
    var all, ps := AllPlaces(L, L), BatchPlaces(L, L, k);
    assert all[..LANES * (k + 1)] == all[..LANES * k] + ps;
    ApplyAllConcat(v, all[..LANES * k], ps, tw, RoundedButterfly);
    ApplyAllBytes(v, all[..LANES * k], tw);
  }

  lemma {:induction false} LoopSteps(p: seq<Action>, s: State, r: State, y: Layout, L: nat, tw: seq<Sample>, e: Row, v: seq<Sample>, k: nat, k': nat)
    requires LoopAt(s, y, L, tw, e, v, k) && k < Before(L, L) && k' == k + 1 && AllBytes(v) && AllTwiddles(tw)
    requires AllFit(AllPlaces(L, L), |v|, |tw|) && |AllPlaces(L, L)| == LANES * Before(L, L)
    requires p == Program(y, L, Before(L, L)) && r == Run(p, s, ACTIONS_PER_BATCH)
    ensures LoopAt(r, y, L, tw, e, v, k')
  {
    NextBatch(v, L, tw, k);
    PassRuns(s, y, L, tw, e, AfterBatches(v, L, tw, k), k);
  }

  /** `states` follows the loop of `p`, one pass at a time. */
  ghost predicate PassTrace(p: seq<Action>, states: seq<State>) {
    forall i :: 0 <= i < |states| - 1 ==> OnePass(p, states, i)
  }

  ghost predicate OnePass(p: seq<Action>, states: seq<State>, i: nat)
    requires i + 1 < |states|
  {
    states[i].Valid() && states[i + 1] == Run(p, states[i], ACTIONS_PER_BATCH)
  }

  lemma {:induction false} PassesTrace(p: seq<Action>, s: State, k: nat) returns (states: seq<State>)
    requires s.Valid()
    ensures |states| == k + 1 && states[0] == s && states[k] == Passes(p, s, k) && PassTrace(p, states)
    decreases k
  {
    if k == 0 {
      states := [s];
    } else {
      var before := PassesTrace(p, s, k - 1);
      states := before + [Passes(p, s, k)];
      forall i | 0 <= i < k ensures OnePass(p, states, i) {
        if i < k - 1 {
          assert OnePass(p, before, i);
        }
      }
    }
  }

  /** After `k` passes, memory holds the array with the first `k` batches applied. */
  lemma {:induction false} TraceAppliesBatches(p: seq<Action>, states: seq<State>, y: Layout, L: nat, tw: seq<Sample>, e: Row, v: seq<Sample>, k: nat)
    requires PassTrace(p, states) && k < |states| && LoopAt(states[0], y, L, tw, e, v, 0) && k <= Before(L, L)
    requires AllBytes(v) && AllTwiddles(tw) && p == Program(y, L, Before(L, L))
    requires AllFit(AllPlaces(L, L), |v|, |tw|) && |AllPlaces(L, L)| == LANES * Before(L, L)
    ensures LoopAt(states[k], y, L, tw, e, v, k)
    decreases k
  {
    if k > 0 {
      TraceAppliesBatches(p, states, y, L, tw, e, v, k - 1);
      assert OnePass(p, states, k - 1);
      LoopSteps(p, states[k - 1], states[k], y, L, tw, e, v, k - 1, k);
    }
  }

  lemma {:induction false} PassesApplyBatches(p: seq<Action>, s: State, y: Layout, L: nat, tw: seq<Sample>, e: Row, v: seq<Sample>, k: nat)
    requires s.Valid() && LoopAt(s, y, L, tw, e, v, 0) && k <= Before(L, L)
    requires AllBytes(v) && AllTwiddles(tw) && p == Program(y, L, Before(L, L))
    requires AllFit(AllPlaces(L, L), |v|, |tw|) && |AllPlaces(L, L)| == LANES * Before(L, L)
    ensures LoopAt(Passes(p, s, k), y, L, tw, e, v, k)
  {
    var states := PassesTrace(p, s, k);
    TraceAppliesBatches(p, states, y, L, tw, e, v, k);
  }

  lemma {:induction false} TailRuns(s: State, y: Layout, L: nat, tw: seq<Sample>, e: Row, v: seq<Sample>)
    requires 5 <= L && AtBatch(s, y, L, tw, e, v, Before(L, L)) && s.pc == 49
    ensures var r := Run(Program(y, L, Before(L, L)), s, 3);
      && r.pc == 52 && |r.mem| == |s.mem|
      && r.mem == Scatter(s.mem, y.expOut, Identity(), AddRow(e, L), LANES)
  {
    var p, xs := Program(y, L, Before(L, L)), [VLoad(10, 11), AddByte(11, 1, L), VStore(10, 1, 16)];
    ProgramShape(y, L, Before(L, L));
    assert p[s.pc..s.pc + |xs|] == xs;
    RunStraight(p, s, xs);
    TailEffect(s, L);
  }

  lemma {:induction false} TailEffect(s: State, L: nat)
    requires s.Valid()
    ensures var r := ExecAll(s, [VLoad(10, 11), AddByte(11, 1, L), VStore(10, 1, 16)]);
      |r.mem| == |s.mem| && r.mem == Scatter(s.mem, s.regs[10] + 16, Identity(), AddRow(LoadRow(s.mem, s.regs[10]), L), LANES)
  {
    var a, b, c := VLoad(10, 11), AddByte(11, 1, L), VStore(10, 1, 16);
    Exec3(s, a, b, c);
    var s1 := Exec(s, a);
    assert s1.mem == s.mem && s1.regs == s.regs && s1.vrf[11] == LoadRow(s.mem, s.regs[10]);
    var s2 := Exec(s1, b);
    assert s2.mem == s.mem && s2.regs == s.regs && s2.vrf[1] == AddRow(s1.vrf[11], L);
    assert Exec(s2, c).mem == Scatter(s2.mem, s2.regs[10] + 16, Identity(), s2.vrf[1], LANES);
  }

  /** The program has stopped at its END with the array `v` in the data regions and every block
      exponent raised by the number of stages. */
  ghost predicate Completed(p: seq<Action>, s: State, y: Layout, L: nat, e: Row, v: seq<Sample>) {
    && s.pc < |p| && p[s.pc] == End && Data(s.mem, y, v) && |e| == LANES
    && forall j :: 0 <= j < LANES ==> LoadRow(s.mem, y.expOut)[j] == U8(e[j] + L)
  }

  /** Run to completion, the program leaves in its data regions exactly the array that the sequential
      in-place stages compute, and stores the block exponent raised by the number of stages. */
  lemma {:induction false} ProgramComputesStages(s: State, y: Layout, L: nat, tw: seq<Sample>, e: Row, v: seq<Sample>, total: nat) returns (r: State)
    requires s.Valid() && s.pc == 0 && Image(s.mem, y, L, tw, e, v) && AllBytes(v) && AllTwiddles(tw) && total == Before(L, L)
    ensures Shape(|v|, L, 1, |tw|)
    ensures Completed(Program(y, L, total), r, y, L, e, Stages(v, L, 1, tw, RoundedButterfly))
    ensures r == Run(Program(y, L, total), s, SETUP_ACTIONS + ACTIONS_PER_BATCH * total + 3)
  {
    r := PhasesCompute(s, y, L, tw, e, v);
    ThreePhases(Program(y, L, total), s, SETUP_ACTIONS, total, 3);
  }

  lemma {:induction false} PhasesCompute(s: State, y: Layout, L: nat, tw: seq<Sample>, e: Row, v: seq<Sample>) returns (r: State)
    requires s.Valid() && s.pc == 0 && Image(s.mem, y, L, tw, e, v) && AllBytes(v) && AllTwiddles(tw)
    ensures Shape(|v|, L, 1, |tw|)
    ensures var p := Program(y, L, Before(L, L)); r == Run(p, Passes(p, Run(p, s, SETUP_ACTIONS), Before(L, L)), 3)
    ensures Completed(Program(y, L, Before(L, L)), r, y, L, e, Stages(v, L, 1, tw, RoundedButterfly))
  {
    var p, total := Program(y, L, Before(L, L)), Before(L, L);
    SetupRuns(s, y, L, tw, e, v);
    var s1 := Run(p, s, SETUP_ACTIONS);
    LoopComputesStages(s1, y, L, tw, e, v);
    r := Run(p, Passes(p, s1, total), 3);
    Finish(Passes(p, s1, total), y, L, tw, e, Stages(v, L, 1, tw, RoundedButterfly));
  }

  lemma ThreePhases(p: seq<Action>, s: State, before: nat, k: nat, after: nat)
    requires s.Valid()
    ensures Run(p, s, before + ACTIONS_PER_BATCH * k + after) == Run(p, Passes(p, Run(p, s, before), k), after)
  {
    var middle := ACTIONS_PER_BATCH * k;
    RunSplit(p, s, before + middle + after, before, middle + after);
    RunSplit(p, Run(p, s, before), middle + after, middle, after);
    PassesAreRun(p, Run(p, s, before), k, middle);
  }

  lemma Finish(s: State, y: Layout, L: nat, tw: seq<Sample>, e: Row, v: seq<Sample>)
    requires 5 <= L && AtBatch(s, y, L, tw, e, v, Before(L, L)) && s.pc == 49
    ensures var p := Program(y, L, Before(L, L)); Completed(p, Run(p, s, 3), y, L, e, v)
  {
    var p := Program(y, L, Before(L, L));
    TailRuns(s, y, L, tw, e, v);
    ProgramShape(y, L, Before(L, L));
    StoppedComplete(p, s, Run(p, s, 3), y, L, e, v);
  }

  lemma {:induction false} StoppedComplete(p: seq<Action>, s: State, r: State, y: Layout, L: nat, e: Row, v: seq<Sample>)
    requires 5 <= L && |v| == Pow2(L) && Sound(y, L, |s.mem|) && Data(s.mem, y, v) && |e| == LANES
    requires |p| == 53 && p[52] == End && r.pc == 52 && r.mem == Scatter(s.mem, y.expOut, Identity(), AddRow(e, L), LANES)
    ensures Completed(p, r, y, L, e, v)
  {
    ExponentStored(s.mem, y, L, v, AddRow(e, L));
  }

  lemma SetupRuns(s: State, y: Layout, L: nat, tw: seq<Sample>, e: Row, v: seq<Sample>)
    requires s.Valid() && s.pc == 0 && Image(s.mem, y, L, tw, e, v)
    ensures var r := Run(Program(y, L, Before(L, L)), s, SETUP_ACTIONS);
      r.pc == SETUP_ACTIONS && AtBatch(r, y, L, tw, e, v, 0)
  {
    ProgramShape(y, L, Before(L, L));
    SetupPrepares(s, y, L, tw, e, v);
    RunStraight(Program(y, L, Before(L, L)), s, Setup(y, Before(L, L)));
  }

  lemma {:induction false} LoopComputesStages(s: State, y: Layout, L: nat, tw: seq<Sample>, e: Row, v: seq<Sample>)
    requires AtBatch(s, y, L, tw, e, v, 0) && AllBytes(v) && AllTwiddles(tw) && s.pc == SETUP_ACTIONS
    ensures Shape(|v|, L, 1, |tw|)
    ensures var r := Passes(Program(y, L, Before(L, L)), s, Before(L, L));
      AtBatch(r, y, L, tw, e, Stages(v, L, 1, tw, RoundedButterfly), Before(L, L)) && r.pc == 49
  {
    StageWhole(L, L);
    AllPlacesLength(L, L);
    BeforePositive(L);
    AllBatches(v, L, tw);
    var p := Program(y, L, Before(L, L));
    PassesApplyBatches(p, s, y, L, tw, e, v, Before(L, L));
  }

  lemma AllBatches(v: seq<Sample>, L: nat, tw: seq<Sample>)
    requires 5 <= L && |v| == Pow2(L) && |tw| == Pow2(L - 1)
    ensures Shape(|v|, L, 1, |tw|) && |AllPlaces(L, L)| == LANES * Before(L, L) && AllFit(AllPlaces(L, L), |v|, |tw|)
    ensures AllPlaces(L, L)[..LANES * 0] == [] && AfterBatches(v, L, tw, 0) == v
    ensures AllPlaces(L, L)[..LANES * Before(L, L)] == AllPlaces(L, L)
    ensures AfterBatches(v, L, tw, Before(L, L)) == Stages(v, L, 1, tw, RoundedButterfly)
  {
    StageWhole(L, L);
    ScheduleIsStages(v, L, L, tw, RoundedButterfly);
    AllPlacesLength(L, L);
    assert AllPlaces(L, L)[..LANES * Before(L, L)] == AllPlaces(L, L);
  }

  lemma BeforePositive(L: nat)
    requires 5 <= L
    ensures Before(L, L) > 0
  {
  }

  lemma {:induction false} ExponentStored(mem: seq<int>, y: Layout, L: nat, v: seq<Sample>, row: Row)
    requires 5 <= L && |row| == LANES && |v| == Pow2(L) && Sound(y, L, |mem|) && Data(mem, y, v)
    ensures var r := Scatter(mem, y.expOut, Identity(), row, LANES);
      Data(r, y, v) && LoadRow(r, y.expOut) == row
  {
    var r := Scatter(mem, y.expOut, Identity(), row, LANES);
    forall i | 0 <= i < |v| ensures Holds(r, y, i, v[i]) {
      assert Holds(mem, y, i, v[i]);
      ScatterMiss(mem, y.expOut, Identity(), row, LANES, y.re + i);
      ScatterMiss(mem, y.expOut, Identity(), row, LANES, y.im + i);
    }
    forall j | 0 <= j < LANES ensures LoadRow(r, y.expOut)[j] == row[j] {
      ScatterHit(mem, y.expOut, Identity(), row, LANES, j);
    }
  }

  /** The memory map for 64 points is such an image layout, with twelve batches. */
  lemma Fft64Fits()
    ensures Sound(Fft64, 6, 0x1380) && Before(6, 6) == 12 && Pow2(6) == 64
  {
    Pow2Values();
    assert Pow2(1) == 2 && Pow2(5) == 32;
    assert Before(6, 1) == 2 && Before(6, 2) == 4 && Before(6, 3) == 6;
    assert Before(6, 4) == 8 && Before(6, 5) == 10 && Before(6, 6) == 12;
  }

  // ----- the tables of the image

  /** Storing the joined index lists of the batches makes the index tables that the program reads. */
  lemma StoredTablesAreIndices(mem: seq<int>, y: Layout, L: nat, tables: Tables)
    requires 5 <= L && TablesList(tables, AllPlaces(L, L))
    requires forall p :: 0 <= p < |tables.a| ==> Peek(mem, y.aIndex + p) == tables.a[p]
    requires forall p :: 0 <= p < |tables.b| ==> Peek(mem, y.bIndex + p) == tables.b[p]
    requires forall p :: 0 <= p < |tables.t| ==> Peek(mem, y.wIndex + p) == tables.t[p]
    ensures Indices(mem, y, AllPlaces(L, L))
  {
    var ps := AllPlaces(L, L);
    forall p | 0 <= p < |ps|
      ensures Peek(mem, y.aIndex + p) == ps[p].a && Peek(mem, y.bIndex + p) == ps[p].b && Peek(mem, y.wIndex + p) == ps[p].t
    {
      assert Place(tables.a[p], tables.b[p], tables.t[p]) == ps[p];
    }
  }

  /** Up to 256 points the index cells are bytes. */
  lemma IndexCellsAreBytes(mem: seq<int>, y: Layout, L: nat, p: nat)
    requires 5 <= L <= 8 && Indices(mem, y, AllPlaces(L, L)) && p < |AllPlaces(L, L)|
    ensures 0 <= Peek(mem, y.aIndex + p) < 256 && 0 <= Peek(mem, y.bIndex + p) < 256 && 0 <= Peek(mem, y.wIndex + p) < 256
  {
    var v, tw := seq(Pow2(L), _ => 0), seq(Pow2(L - 1), _ => 0);
    StageWhole(L, L);
    ScheduleIsStages(v, L, L, tw, (a: int, b: int, w: int) => (a, b));
    assert AllPlaces(L, L)[p].Fits(|v|, |tw|);
    PowersUpTo256(L);
  }

  lemma PowersUpTo256(L: nat)
    requires 0 < L <= 8
    ensures Pow2(L) <= 256 && Pow2(L - 1) <= 256
  {
    Pow2Add(L, 8 - L);
    Pow2Values();
    assert Pow2(8) == 2 * Pow2(7);
    MulMono(Pow2(L), 1, Pow2(8 - L));
  }

  // ----- the image that is stored

  /** The cell of a region that starts at `base`, or what is stored there otherwise. */
  function Region(a: int, base: nat, cells: seq<int>, otherwise: int): int {
    if base <= a < base + |cells| then cells[a - base] else otherwise
  }

  function Encoded(v: seq<int>): (r: seq<int>)
    ensures |r| == |v| && forall i :: 0 <= i < |v| ==> r[i] == Encode(v[i])
  {
    seq(|v|, i requires 0 <= i < |v| => Encode(v[i]))
  }

  function Reals(v: seq<Sample>): (r: seq<int>)
    ensures |r| == |v| && forall i :: 0 <= i < |v| ==> r[i] == v[i].0
  {
    seq(|v|, i requires 0 <= i < |v| => v[i].0)
  }

  function Imags(v: seq<Sample>): (r: seq<int>)
    ensures |r| == |v| && forall i :: 0 <= i < |v| ==> r[i] == v[i].1
  {
    seq(|v|, i requires 0 <= i < |v| => v[i].1)
  }

  function Opposites(v: seq<Sample>): (r: seq<Sample>)
    ensures |r| == |v| && forall i :: 0 <= i < |v| ==> r[i] == Opposite(v[i])
  {
    seq(|v|, i requires 0 <= i < |v| => Opposite(v[i]))
  }

  /** One list of the places. */
  function Column(ps: seq<Place>, which: nat): (r: seq<int>)
    ensures |r| == |ps| && forall p :: 0 <= p < |ps| ==> r[p] == if which == 0 then ps[p].a else if which == 1 then ps[p].b else ps[p].t
  {
    seq(|ps|, p requires 0 <= p < |ps| => if which == 0 then ps[p].a else if which == 1 then ps[p].b else ps[p].t)
  }

  /** The data and twiddle regions. */
  function SampleCell(y: Layout, tw: seq<Sample>, v: seq<Sample>, a: int): int {
    Region(a, y.re, Encoded(Reals(v)), Region(a, y.im, Encoded(Imags(v)),
      Region(a, y.twRe, Encoded(Reals(tw)), Region(a, y.twIm, Encoded(Imags(tw)),
        Region(a, y.negRe, Encoded(Reals(Opposites(tw))), Region(a, y.negIm, Encoded(Imags(Opposites(tw))), 0))))))
  }

  /** The index regions and the exponents. */
  function TableCell(y: Layout, ps: seq<Place>, e: Row, a: int): int {
    Region(a, y.aIndex, Column(ps, 0), Region(a, y.bIndex, Column(ps, 1), Region(a, y.wIndex, Column(ps, 2), Region(a, y.expIn, e, 0))))
  }

  function StoredImage(y: Layout, size: nat, tw: seq<Sample>, ps: seq<Place>, e: Row, v: seq<Sample>): (mem: seq<int>)
    ensures |mem| == size
  {
    seq(size, a => if a < y.zero then SampleCell(y, tw, v, a) else TableCell(y, ps, e, a))
  }

  /** The regions of `n` samples and `h` twiddle codes, in order, end before the zero row. */
  predicate SamplesApart(y: Layout, n: nat, h: nat) {
    && y.re + n <= y.im && y.im + n <= y.twRe && y.twRe + h <= y.twIm && y.twIm + h <= y.negRe
    && y.negRe + h <= y.negIm && y.negIm + h <= y.zero
  }

  lemma DataCell(y: Layout, tw: seq<Sample>, v: seq<Sample>, i: nat)
    requires SamplesApart(y, |v|, |tw|) && i < |v|
    ensures SampleCell(y, tw, v, y.re + i) == Encode(v[i].0) && SampleCell(y, tw, v, y.im + i) == Encode(v[i].1)
  {
  }

  lemma TwiddleCell(y: Layout, tw: seq<Sample>, v: seq<Sample>, k: nat)
    requires SamplesApart(y, |v|, |tw|) && k < |tw|
    ensures SampleCell(y, tw, v, y.twRe + k) == Encode(tw[k].0) && SampleCell(y, tw, v, y.twIm + k) == Encode(tw[k].1)
    ensures SampleCell(y, tw, v, y.negRe + k) == Encode(-tw[k].0) && SampleCell(y, tw, v, y.negIm + k) == Encode(-tw[k].1)
  {
  }

  lemma IndexCell(y: Layout, ps: seq<Place>, e: Row, p: nat)
    requires y.aIndex + |ps| <= y.bIndex && y.bIndex + |ps| <= y.wIndex && y.wIndex + |ps| == y.expIn && p < |ps|
    ensures TableCell(y, ps, e, y.aIndex + p) == ps[p].a && TableCell(y, ps, e, y.bIndex + p) == ps[p].b
    ensures TableCell(y, ps, e, y.wIndex + p) == ps[p].t
  {
  }

  lemma RowCells(y: Layout, ps: seq<Place>, e: Row, j: nat)
    requires y.aIndex + |ps| <= y.bIndex && y.bIndex + |ps| <= y.wIndex && y.wIndex + |ps| == y.expIn
    requires j < |e| && y.zero + |e| <= y.aIndex
    ensures TableCell(y, ps, e, y.expIn + j) == e[j] && TableCell(y, ps, e, y.zero + j) == 0
  {
  }

  lemma StoredAt(y: Layout, size: nat, tw: seq<Sample>, ps: seq<Place>, e: Row, v: seq<Sample>, a: nat)
    requires a < size
    ensures Peek(StoredImage(y, size, tw, ps, e, v), a) == if a < y.zero then SampleCell(y, tw, v, a) else TableCell(y, ps, e, a)
  {
  }

  lemma SampleStored(y: Layout, size: nat, tw: seq<Sample>, ps: seq<Place>, e: Row, v: seq<Sample>, mem: seq<int>, a: nat, x: int)
    requires a < y.zero <= size && mem == StoredImage(y, size, tw, ps, e, v) && SampleCell(y, tw, v, a) == x
    ensures Peek(mem, a) == x
  {
    StoredAt(y, size, tw, ps, e, v, a);
  }

  lemma DataStored(y: Layout, size: nat, tw: seq<Sample>, ps: seq<Place>, e: Row, v: seq<Sample>, mem: seq<int>)
    requires SamplesApart(y, |v|, |tw|) && y.zero <= size && mem == StoredImage(y, size, tw, ps, e, v)
    ensures Data(mem, y, v)
  {
    forall i: nat | i < |v| ensures Holds(mem, y, i, v[i]) {
      DataCell(y, tw, v, i);
      SampleStored(y, size, tw, ps, e, v, mem, y.re + i, Encode(v[i].0));
      SampleStored(y, size, tw, ps, e, v, mem, y.im + i, Encode(v[i].1));
    }
  }

  lemma TwiddlesStored(y: Layout, size: nat, tw: seq<Sample>, ps: seq<Place>, e: Row, v: seq<Sample>, mem: seq<int>)
    requires SamplesApart(y, |v|, |tw|) && y.zero <= size && mem == StoredImage(y, size, tw, ps, e, v)
    ensures Twiddles(mem, y, tw)
  {
    forall k: nat | k < |tw|
      ensures Peek(mem, y.twRe + k) == Encode(tw[k].0) && Peek(mem, y.twIm + k) == Encode(tw[k].1)
      ensures Peek(mem, y.negRe + k) == Encode(-tw[k].0) && Peek(mem, y.negIm + k) == Encode(-tw[k].1)
    {
      TwiddleCell(y, tw, v, k);
      SampleStored(y, size, tw, ps, e, v, mem, y.twRe + k, Encode(tw[k].0));
      SampleStored(y, size, tw, ps, e, v, mem, y.twIm + k, Encode(tw[k].1));
      SampleStored(y, size, tw, ps, e, v, mem, y.negRe + k, Encode(-tw[k].0));
      SampleStored(y, size, tw, ps, e, v, mem, y.negIm + k, Encode(-tw[k].1));
    }
  }

  lemma TablesStored(y: Layout, size: nat, tw: seq<Sample>, ps: seq<Place>, e: Row, v: seq<Sample>, mem: seq<int>)
    requires y.aIndex + |ps| <= y.bIndex && y.bIndex + |ps| <= y.wIndex && y.wIndex + |ps| == y.expIn
    requires |e| == LANES && y.zero + LANES <= y.aIndex && y.expIn + LANES <= size && mem == StoredImage(y, size, tw, ps, e, v)
    ensures Indices(mem, y, ps) && Zeros(mem, y) && LoadRow(mem, y.expIn) == e
  {
    forall p: nat | p < |ps|
      ensures Peek(mem, y.aIndex + p) == ps[p].a && Peek(mem, y.bIndex + p) == ps[p].b && Peek(mem, y.wIndex + p) == ps[p].t
    {
      IndexCell(y, ps, e, p);
      StoredAt(y, size, tw, ps, e, v, y.aIndex + p);
      StoredAt(y, size, tw, ps, e, v, y.bIndex + p);
      StoredAt(y, size, tw, ps, e, v, y.wIndex + p);
    }
    forall j: nat | j < LANES ensures LoadRow(mem, y.zero)[j] == 0 && LoadRow(mem, y.expIn)[j] == e[j] {
      RowCells(y, ps, e, j);
      StoredAt(y, size, tw, ps, e, v, y.zero + j);
      StoredAt(y, size, tw, ps, e, v, y.expIn + j);
    }
  }

  /** For every sound layout, array, twiddle codes and exponents the stored image is what the program
      expects. */
  lemma ImageIsStored(y: Layout, L: nat, size: nat, tw: seq<Sample>, e: Row, v: seq<Sample>)
    requires 5 <= L && |tw| == Pow2(L - 1) && |v| == Pow2(L) && |e| == LANES && Sound(y, L, size)
    ensures Image(StoredImage(y, size, tw, AllPlaces(L, L), e, v), y, L, tw, e, v)
  {
    var ps := AllPlaces(L, L);
    var mem := StoredImage(y, size, tw, ps, e, v);
    AllPlacesLength(L, L);
    DataStored(y, size, tw, ps, e, v, mem);
    TwiddlesStored(y, size, tw, ps, e, v, mem);
    TablesStored(y, size, tw, ps, e, v, mem);
  }
}
