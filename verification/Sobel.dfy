/** The Sobel edge filter: two gradients, each narrowed to a signed byte, and the sum of their magnitudes. */
module Sobel {
  import opened Arith
  import opened Bits
  import opened FixedPoint
  import opened SimdExec
  import opened Images

  // ----- reference pixel

  function GradientX(image: Image, x: int, y: int): (g: int)
    requires image.Valid()
    ensures -1020 <= g <= 1020
  {
    (image.At(x + 1, y - 1) - image.At(x - 1, y - 1)) + 2 * (image.At(x + 1, y) - image.At(x - 1, y))
    + (image.At(x + 1, y + 1) - image.At(x - 1, y + 1))
  }

  function GradientY(image: Image, x: int, y: int): (g: int)
    requires image.Valid()
    ensures -1020 <= g <= 1020
  {
    (image.At(x - 1, y - 1) - image.At(x - 1, y + 1)) + 2 * (image.At(x, y - 1) - image.At(x, y + 1))
    + (image.At(x + 1, y - 1) - image.At(x + 1, y + 1))
  }

  /** Floor division written out for negative values, plus the last bit shifted out, saturated. */
  function NarrowSigned(acc: int, shift: nat): int {
    var d := Pow2(shift);
    var floored := if acc >= 0 then acc / d else -((-acc + d - 1) / d);
    Clip(-128, 127, floored + RoundBit(U32(acc), shift))
  }

  function Magnitude(value: int): int {
    if value == -128 then 127 else if value < 0 then -value else value
  }

  function Pixel(image: Image, x: int, y: int, shift: nat): int
    requires image.Valid()
  {
    var m := Magnitude(NarrowSigned(GradientX(image, x, y), shift)) + Magnitude(NarrowSigned(GradientY(image, x, y), shift));
    if m > 255 then 255 else m
  }

  // ----- what the narrowing means

  lemma CeilingIsNegatedFloor(a: int, d: int)
    requires d > 0
    ensures -((-a + d - 1) / d) == a / d
  {
    var q, r := a / d, a % d;
    assert a == d * q + r;
    assert -a + d - 1 == d * (-q) + (d - 1 - r);
    DivModUnique(-a + d - 1, d, -q, d - 1 - r);
  }

  /** The reference narrowing is the nearest multiple, ties upward, clamped to a signed byte. */
  lemma NarrowRoundsToNearest(acc: int, shift: nat)
    requires -0x8000_0000 <= acc < 0x8000_0000 && shift < 31
    ensures NarrowSigned(acc, shift) == Clip(-128, 127, RoundShift(acc, shift))
    ensures NearestByte(OracleRound(acc, shift), NarrowSigned(acc, shift))
    ensures NclipS(U32(acc), shift) == U8(NarrowSigned(acc, shift))
    ensures -128 <= NarrowSigned(acc, shift) <= 127
  {
    CeilingIsNegatedFloor(acc, Pow2(shift));
    WrapExact(acc);
    RoundBitSigned(U32(acc), shift);
    RoundsToNearestUp(acc, shift);
  }

  lemma MagnitudeByte(value: int)
    requires -128 <= value <= 127
    ensures AbsSatS(U8(value)) == Magnitude(value) && 0 <= Magnitude(value) <= 127
  {
    BytesRoundTrip(value);
  }

  /** The final saturating addition never saturates. */
  lemma AdditionNeverSaturates(image: Image, x: int, y: int, shift: nat)
    requires image.Valid() && shift < 31
    ensures var mx, my := Magnitude(NarrowSigned(GradientX(image, x, y), shift)), Magnitude(NarrowSigned(GradientY(image, x, y), shift));
      Pixel(image, x, y, shift) == mx + my == AddSatU(mx, my) <= 254
  {
    NarrowRoundsToNearest(GradientX(image, x, y), shift);
    NarrowRoundsToNearest(GradientY(image, x, y), shift);
  }

  // ----- wrapping differences

  lemma DifferenceExact(a: int, b: int, v: int, align: nat)
    requires align <= 1
    ensures WsubU(a, b, U32(v), align) == U32(v + (if align == 0 then a - b else 2 * (a - b)))
  {
    assert Pow2(0) == 1 && Pow2(1) == 2;
    var p, q := a * Pow2(align), b * Pow2(align);
    WrapAdd(v, p);
    WrapAdd(v + p, q);
    assert U32(U32(v) + U32(p)) == U32(v + p);
    WrapTwice(U32(v) + U32(p), q);
  }

  lemma WrapTwice(x: int, q: int)
    ensures U32(x - U32(q)) == U32(U32(x) - U32(q))
  {
    SameWord(U32(x) - U32(q), x - U32(q), x / WORD);
  }

  // ----- the kernel

  const ABOVE := 0
  const CENTER := 1
  const BELOW := 2
  const ABOVE_LEFT := 3
  const CENTER_LEFT := 4
  const BELOW_LEFT := 5
  const BELOW_RIGHT := 6
  const GRADIENT_X := 7
  const GRADIENT_Y := 8
  const MAGNITUDE_X := 9
  const MAGNITUDE_Y := 10
  const OUTPUT := 11

  const ACC_ZERO := 0
  const ACC_X := 1
  const ACC_Y := 2

  ghost predicate ZeroAccumulator(d: Datapath)
    requires d.Valid()
    reads d
  {
    forall lane :: 0 <= lane < LANES ==> d.arf[ACC_ZERO][lane] == 0
  }

  /** In its active lanes, row `r` holds the pixels of image row `y` from column `x` on. */
  ghost predicate Holds(d: Datapath, r: nat, image: Image, x: int, y: int)
    requires d.Valid() && image.Valid() && r < 16
    reads d
  {
    forall lane :: 0 <= lane < LANES && d.mask[lane] ==> d.vrf[r][lane] == image.At(x + lane, y)
  }

  /** In its active lanes, accumulator `acc` holds the wrapped exact values. */
  ghost predicate Accumulates(d: Datapath, acc: nat, exact: Row)
    requires d.Valid() && acc < 8 && |exact| == LANES
    reads d
  {
    forall lane :: 0 <= lane < LANES && d.mask[lane] ==> d.arf[acc][lane] == U32(exact[lane])
  }

  /** A copy of row `source`, which holds image row `y` at column `x`, slid by one pixel. */
  method ShiftRow(d: Datapath, image: Image, x: int, y: int, source: nat, route: Route, destination: nat)
    requires d.Valid() && image.Valid() && source < 16 && destination < 16 && d.vrf[source] == Group(image, y, x)
    modifies d`vrf
    ensures d.Valid() && forall r :: 0 <= r < 16 && r != destination ==> d.vrf[r] == old(d.vrf[r])
    ensures Holds(d, destination, image, x + Offset(route), y)
  {
    RoutedReads(image, y, x, route);
    d.Shift(source, route, Group(image, y, x - LANES), Group(image, y, x + LANES), destination);
  }

  /** The three rows and the four shifted copies that the differences need. */
  method LoadRows(d: Datapath, image: Image, x: int, y: int)
    requires d.Valid() && image.Valid()
    modifies d`vrf
    ensures d.Valid()
    ensures d.vrf[ABOVE] == Group(image, y - 1, x) && d.vrf[CENTER] == Group(image, y, x) && d.vrf[BELOW] == Group(image, y + 1, x)
    ensures Holds(d, ABOVE_LEFT, image, x - 1, y - 1) && Holds(d, CENTER_LEFT, image, x - 1, y)
    ensures Holds(d, BELOW_LEFT, image, x - 1, y + 1) && Holds(d, BELOW_RIGHT, image, x + 1, y + 1)
  {
    d.Load(ABOVE, Group(image, y - 1, x));
    d.Load(CENTER, Group(image, y, x));
    d.Load(BELOW, Group(image, y + 1, x));
    ShiftRow(d, image, x, y - 1, ABOVE, Up, ABOVE_LEFT);
    ShiftRow(d, image, x, y, CENTER, Up, CENTER_LEFT);
    ShiftRow(d, image, x, y + 1, BELOW, Up, BELOW_LEFT);
    ShiftRow(d, image, x, y + 1, BELOW, Down, BELOW_RIGHT);
  }

  /** The difference of two pixels, weighted by the alignment. */
  function Weighted(image: Image, xa: int, ya: int, xb: int, yb: int, align: nat): int
    requires image.Valid()
  {
    if align == 0 then image.At(xa, ya) - image.At(xb, yb) else 2 * (image.At(xa, ya) - image.At(xb, yb))
  }

  lemma RoutedShows(d: Datapath, image: Image, x: int, a: nat, route: Route, y: int)
    requires d.Valid() && image.Valid() && a < 16
    requires if route == Direct then Holds(d, a, image, x, y) else d.vrf[a] == Group(image, y, x)
    ensures forall lane :: 0 <= lane < LANES && d.mask[lane] ==>
      Routed(route, d.vrf[a], Group(image, y, x - LANES), Group(image, y, x + LANES))[lane] == image.At(x + Offset(route) + lane, y)
  {
    RoutedReads(image, y, x, route);
  }

  /** acc + (A << align) - (B << align): routed row `a`, which holds image row `ya` at column `x`, against
      row `b`, which shows image row `yb` from column `xb` on. */
  method Difference(d: Datapath, image: Image, x: int, a: nat, b: nat, align: nat, source: nat, destination: nat, route: Route,
                    ya: int, xb: int, yb: int, ghost before: Row) returns (ghost after: Row)
    requires d.Valid() && image.Valid() && a < 16 && b < 16 && align <= 1 && source < 8 && destination < 8
    requires |before| == LANES && Accumulates(d, source, before) && Holds(d, b, image, xb, yb)
    requires if route == Direct then Holds(d, a, image, x, ya) else d.vrf[a] == Group(image, ya, x)
    modifies d`arf
    ensures d.Valid() && forall r :: 0 <= r < 8 && r != destination ==> d.arf[r] == old(d.arf[r])
    ensures |after| == LANES && Accumulates(d, destination, after)
    ensures forall lane :: 0 <= lane < LANES ==>
      after[lane] == before[lane] + Weighted(image, x + Offset(route) + lane, ya, xb + lane, yb, align)
  {
    after := Weights(image, x + Offset(route), ya, xb, yb, align, before);
    RoutedShows(d, image, x, a, route, ya);
    ghost var mask, sources, subtracted := d.mask, d.arf[source], d.vrf[b];
    ghost var routed := Routed(route, d.vrf[a], Group(image, ya, x - LANES), Group(image, ya, x + LANES));
    d.WideDifference(a, b, align, source, destination, route, Group(image, ya, x - LANES), Group(image, ya, x + LANES));
    DifferenceRow(image, mask, routed, subtracted, sources, d.arf[destination], x + Offset(route), ya, xb, yb, align, before);
  }

  function Weights(image: Image, xa: int, ya: int, xb: int, yb: int, align: nat, before: Row): (r: Row)
    requires image.Valid() && |before| == LANES
    ensures |r| == LANES && forall lane :: 0 <= lane < LANES ==> r[lane] == before[lane] + Weighted(image, xa + lane, ya, xb + lane, yb, align)
  {
    seq(LANES, lane requires 0 <= lane < LANES && image.Valid() => before[lane] + Weighted(image, xa + lane, ya, xb + lane, yb, align))
  }

  lemma DifferenceLane(image: Image, xa: int, ya: int, xb: int, yb: int, align: nat, before: int,
                       routed: int, subtracted: int, source: int, result: int)
    requires image.Valid() && align <= 1 && routed == image.At(xa, ya) && subtracted == image.At(xb, yb)
    requires source == U32(before) && result == WsubU(routed, subtracted, source, align)
    ensures result == U32(before + Weighted(image, xa, ya, xb, yb, align))
  {
    DifferenceExact(routed, subtracted, before, align);
  }

  lemma DifferenceRow(image: Image, mask: seq<bool>, routed: Row, subtracted: Row, sources: Row, results: Row,
                      xa: int, ya: int, xb: int, yb: int, align: nat, before: Row)
    requires image.Valid() && |mask| == |routed| == |subtracted| == |sources| == |results| == |before| == LANES && align <= 1
    requires forall lane :: 0 <= lane < LANES && mask[lane] ==> routed[lane] == image.At(xa + lane, ya)
    requires forall lane :: 0 <= lane < LANES && mask[lane] ==> subtracted[lane] == image.At(xb + lane, yb)
    requires forall lane :: 0 <= lane < LANES && mask[lane] ==> sources[lane] == U32(before[lane])
    requires forall lane :: 0 <= lane < LANES && mask[lane] ==> results[lane] == WsubU(routed[lane], subtracted[lane], sources[lane], align)
    ensures forall lane :: 0 <= lane < LANES && mask[lane] ==> results[lane] == U32(Weights(image, xa, ya, xb, yb, align, before)[lane])
  {
    forall lane | 0 <= lane < LANES && mask[lane] ensures results[lane] == U32(Weights(image, xa, ya, xb, yb, align, before)[lane]) {
      DifferenceLane(image, xa + lane, ya, xb + lane, yb, align, before[lane], routed[lane], subtracted[lane], sources[lane], results[lane]);
    }
  }

  ghost predicate RowsReady(d: Datapath, image: Image, x: int, y: int)
    requires d.Valid() && image.Valid()
    reads d
  {
    && d.vrf[ABOVE] == Group(image, y - 1, x) && d.vrf[CENTER] == Group(image, y, x) && d.vrf[BELOW] == Group(image, y + 1, x)
    && Holds(d, ABOVE_LEFT, image, x - 1, y - 1) && Holds(d, CENTER_LEFT, image, x - 1, y)
    && Holds(d, BELOW_LEFT, image, x - 1, y + 1) && Holds(d, BELOW_RIGHT, image, x + 1, y + 1)
  }

  lemma GroupHolds(d: Datapath, image: Image, x: int, y: int, r: nat)
    requires d.Valid() && image.Valid() && r < 16 && d.vrf[r] == Group(image, y, x)
    ensures Holds(d, r, image, x, y)
  {
  }

  const ZERO: Row := [0, 0, 0, 0]

  /** Right column minus left column. */
  method AccumulateX(d: Datapath, image: Image, x: int, y: int) returns (ghost exact: Row)
    requires d.Valid() && image.Valid() && ZeroAccumulator(d) && RowsReady(d, image, x, y)
    modifies d`arf
    ensures d.Valid() && ZeroAccumulator(d) && |exact| == LANES && Accumulates(d, ACC_X, exact)
    ensures forall lane :: 0 <= lane < LANES ==> exact[lane] == GradientX(image, x + lane, y)
  {
    exact := Difference(d, image, x, ABOVE, ABOVE_LEFT, 0, ACC_ZERO, ACC_X, Down, y - 1, x - 1, y - 1, ZERO);
    exact := Difference(d, image, x, CENTER, CENTER_LEFT, 1, ACC_X, ACC_X, Down, y, x - 1, y, exact);
    exact := Difference(d, image, x, BELOW, BELOW_LEFT, 0, ACC_X, ACC_X, Down, y + 1, x - 1, y + 1, exact);
  }

  /** Row above minus row below. */
  method AccumulateY(d: Datapath, image: Image, x: int, y: int) returns (ghost exact: Row)
    requires d.Valid() && image.Valid() && ZeroAccumulator(d) && RowsReady(d, image, x, y)
    modifies d`arf
    ensures d.Valid() && ZeroAccumulator(d) && |exact| == LANES && Accumulates(d, ACC_Y, exact) && d.arf[ACC_X] == old(d.arf[ACC_X])
    ensures forall lane :: 0 <= lane < LANES ==> exact[lane] == GradientY(image, x + lane, y)
  {
    GroupHolds(d, image, x, y - 1, ABOVE);
    GroupHolds(d, image, x, y + 1, BELOW);
    exact := Difference(d, image, x - 1, ABOVE_LEFT, BELOW_LEFT, 0, ACC_ZERO, ACC_Y, Direct, y - 1, x - 1, y + 1, ZERO);
    exact := Difference(d, image, x, ABOVE, BELOW, 1, ACC_Y, ACC_Y, Direct, y - 1, x, y + 1, exact);
    exact := Difference(d, image, x, ABOVE, BELOW_RIGHT, 0, ACC_Y, ACC_Y, Down, y - 1, x + 1, y + 1, exact);
  }

  /** Narrowing, magnitudes and their sum. */
  method Finish(d: Datapath, image: Image, x: int, y: int, shift: nat) returns (result: Row)
    requires d.Valid() && image.Valid() && shift < 31
    requires forall lane :: 0 <= lane < LANES && d.mask[lane] ==>
      d.arf[ACC_X][lane] == U32(GradientX(image, x + lane, y)) && d.arf[ACC_Y][lane] == U32(GradientY(image, x + lane, y))
    modifies d`vrf
    ensures d.Valid() && |result| == LANES
    ensures forall lane :: 0 <= lane < LANES && d.mask[lane] ==> result[lane] == Pixel(image, x + lane, y, shift)
  {
    d.Narrow(true, shift, ACC_X, GRADIENT_X);
    d.Narrow(true, shift, ACC_Y, GRADIENT_Y);
    d.Bytewise(AbsSat, GRADIENT_X, GRADIENT_X, MAGNITUDE_X);
    d.Bytewise(AbsSat, GRADIENT_Y, GRADIENT_Y, MAGNITUDE_Y);
    d.Bytewise(AddSat, MAGNITUDE_X, MAGNITUDE_Y, OUTPUT);
    result := d.vrf[OUTPUT];
    forall lane | 0 <= lane < LANES && d.mask[lane] ensures result[lane] == Pixel(image, x + lane, y, shift) {
      var gx, gy := GradientX(image, x + lane, y), GradientY(image, x + lane, y);
      NarrowRoundsToNearest(gx, shift);
      NarrowRoundsToNearest(gy, shift);
      MagnitudeByte(NarrowSigned(gx, shift));
      MagnitudeByte(NarrowSigned(gy, shift));
      AdditionNeverSaturates(image, x + lane, y, shift);
    }
  }

  /** One block of the Sobel kernel. */
  method Block(d: Datapath, image: Image, x: int, y: int, shift: nat) returns (result: Row)
    requires d.Valid() && image.Valid() && ZeroAccumulator(d) && shift < 31
    modifies d`vrf, d`arf
    ensures d.Valid() && ZeroAccumulator(d) && |result| == LANES
    ensures forall lane :: 0 <= lane < LANES && d.mask[lane] ==> result[lane] == Pixel(image, x + lane, y, shift)
  {
    LoadRows(d, image, x, y);
    ghost var gx := AccumulateX(d, image, x, y);
    ghost var gy := AccumulateY(d, image, x, y);
    result := Finish(d, image, x, y, shift);
  }
}
