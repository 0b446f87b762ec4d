/** The nine-tap Gaussian, and its separable form with two roundings. */
module Gaussian {
  import opened Bits
  import opened SimdExec
  import opened Images

  // ----- reference pixels

  /** The rounded 1-2-1 sum of three values. */
  function Smooth(a: int, b: int, c: int): int {
    (a + 2 * b + c + 2) / 4
  }

  function Sum9(image: Image, x: int, y: int): (s: int)
    requires image.Valid()
    ensures 0 <= s <= 16 * 255
  {
    image.At(x - 1, y - 1) + 2 * image.At(x, y - 1) + image.At(x + 1, y - 1)
    + 2 * image.At(x - 1, y) + 4 * image.At(x, y) + 2 * image.At(x + 1, y)
    + image.At(x - 1, y + 1) + 2 * image.At(x, y + 1) + image.At(x + 1, y + 1)
  }

  /** The weighted sum of one image row. */
  function Sum3(image: Image, x: int, y: int): (s: int)
    requires image.Valid()
    ensures 0 <= s <= 4 * 255
  {
    image.At(x - 1, y) + 2 * image.At(x, y) + image.At(x + 1, y)
  }

  /** Exact convolution, rounded once. */
  function ExactPixel(image: Image, x: int, y: int): int
    requires image.Valid()
  {
    (Sum9(image, x, y) + 8) / 16
  }

  function HorizontalPixel(image: Image, x: int, y: int): int
    requires image.Valid()
  {
    Smooth(image.At(x - 1, y), image.At(x, y), image.At(x + 1, y))
  }

  function VerticalPixel(image: Image, x: int, y: int): int
    requires image.Valid()
  {
    Smooth(image.At(x, y - 1), image.At(x, y), image.At(x, y + 1))
  }

  // ----- two roundings against one

  /** Each horizontal rounding is off by at most half a step; the vertical weights add to four. */
  lemma SmoothTwice(a: int, b: int, c: int, d: int, e: int, f: int, g: int, h: int, i: int)
    ensures var exact := (a + 2 * b + c + 2 * d + 4 * e + 2 * f + g + 2 * h + i + 8) / 16;
      var separable := Smooth(Smooth(a, b, c), Smooth(d, e, f), Smooth(g, h, i));
      -1 <= separable - exact <= 1
  {
    var p, q, r := a + 2 * b + c, d + 2 * e + f, g + 2 * h + i;
    assert p - 1 <= 4 * Smooth(a, b, c) <= p + 2;
    assert q - 1 <= 4 * Smooth(d, e, f) <= q + 2;
    assert r - 1 <= 4 * Smooth(g, h, i) <= r + 2;
  }

  // ----- narrowing and tap sums

  /** NCLIP_U of a sum in range is the rounded quotient, without saturating. */
  lemma NarrowBy2(sum: int)
    requires 0 <= sum <= 4 * 255
    ensures NclipU(sum, 2) == (sum + 2) / 4
  {
    assert Pow2(1) == 2 && Pow2(2) == 4;
    assert RoundBit(sum, 2) == sum / 2 % 2;
  }

  lemma NarrowBy4(sum: int)
    requires 0 <= sum <= 16 * 255
    ensures NclipU(sum, 4) == (sum + 8) / 16
  {
    assert Pow2(1) == 2 && Pow2(2) == 4 && Pow2(3) == 8 && Pow2(4) == 16;
    assert RoundBit(sum, 4) == sum / 8 % 2;
  }

  /** One tap of a kernel: coefficient times the neighbour, added without wrap-around. */
  lemma TapExact(x: int, coefficient: int, acc: int)
    requires Byte(x) && 0 <= coefficient <= 4 && 0 <= acc <= 0x10000
    ensures MulU(x, coefficient) == coefficient * x && MacU(x, coefficient, acc) == acc + coefficient * x
  {
    assert 0 <= coefficient * x <= 4 * 255 by {
      if coefficient == 0 {} else if coefficient == 1 {} else if coefficient == 2 {} else if coefficient == 3 {} else {}
    }
    assert x * coefficient == coefficient * x;
  }

  const ACC := 0
  const OUTPUT := 5

  /** A routed multiply(-accumulate) of the row `source`, which holds image row `y` at column `x`. */
  method Tap(d: Datapath, image: Image, x: int, y: int, first: bool, source: nat, coefficient: int, route: Route)
    requires d.Valid() && image.Valid() && source < 16 && d.vrf[source] == Group(image, y, x) && 0 <= coefficient <= 4
    requires !first ==> forall lane :: 0 <= lane < LANES && d.mask[lane] ==> 0 <= d.arf[ACC][lane] <= 0x10000
    modifies d`arf
    ensures d.Valid()
    ensures forall lane :: 0 <= lane < LANES && d.mask[lane] ==>
      d.arf[ACC][lane] == (if first then 0 else old(d.arf[ACC][lane])) + coefficient * image.At(x + lane + Offset(route), y)
  {
    ghost var before := d.arf[ACC];
    RoutedReads(image, y, x, route);
    d.Product(first, source, coefficient, route, Group(image, y, x - LANES), Group(image, y, x + LANES), ACC);
    forall lane | 0 <= lane < LANES && d.mask[lane]
      ensures d.arf[ACC][lane] == (if first then 0 else before[lane]) + coefficient * image.At(x + lane + Offset(route), y)
    {
      TapExact(image.At(x + lane + Offset(route), y), coefficient, if first then 0 else before[lane]);
    }
  }

  /** The three taps of one image row, with weights in the ratio 1, 2, 1. */
  method RowTaps(d: Datapath, image: Image, x: int, y: int, first: bool, source: nat, weight: int)
    requires d.Valid() && image.Valid() && source < 16 && d.vrf[source] == Group(image, y, x) && 1 <= weight <= 2
    requires !first ==> forall lane :: 0 <= lane < LANES && d.mask[lane] ==> 0 <= d.arf[ACC][lane] <= 0x1000
    modifies d`arf
    ensures d.Valid()
    ensures forall lane :: 0 <= lane < LANES && d.mask[lane] ==>
      d.arf[ACC][lane] == (if first then 0 else old(d.arf[ACC][lane])) + weight * Sum3(image, x + lane, y)
  {
    Tap(d, image, x, y, first, source, weight, Up);
    Tap(d, image, x, y, false, source, 2 * weight, Direct);
    Tap(d, image, x, y, false, source, weight, Down);
  }

  /** One block of the nine-tap kernel: nine routed products and a narrowing. */
  method Block(d: Datapath, image: Image, x: int, y: int) returns (result: Row)
    requires d.Valid() && image.Valid()
    modifies d`vrf, d`arf
    ensures d.Valid() && |result| == LANES
    ensures forall lane :: 0 <= lane < LANES && d.mask[lane] ==> result[lane] == ExactPixel(image, x + lane, y)
  {
    d.Load(0, Group(image, y - 1, x));
    d.Load(1, Group(image, y, x));
    d.Load(2, Group(image, y + 1, x));
    RowTaps(d, image, x, y - 1, true, 0, 1);
    RowTaps(d, image, x, y, false, 1, 2);
    RowTaps(d, image, x, y + 1, false, 2, 1);
    forall lane | 0 <= lane < LANES && d.mask[lane] ensures NclipU(d.arf[ACC][lane], 4) == ExactPixel(image, x + lane, y) {
      assert d.arf[ACC][lane] == Sum9(image, x + lane, y);
      NarrowBy4(d.arf[ACC][lane]);
    }
    d.Narrow(false, 4, ACC, OUTPUT);
    result := d.vrf[OUTPUT];
  }

  method HorizontalBlock(d: Datapath, image: Image, x: int, y: int) returns (result: Row)
    requires d.Valid() && image.Valid()
    modifies d`vrf, d`arf
    ensures d.Valid() && |result| == LANES
    ensures forall lane :: 0 <= lane < LANES && d.mask[lane] ==> result[lane] == HorizontalPixel(image, x + lane, y)
  {
    d.Load(0, Group(image, y, x));
    RowTaps(d, image, x, y, true, 0, 1);
    forall lane | 0 <= lane < LANES && d.mask[lane] ensures NclipU(d.arf[ACC][lane], 2) == HorizontalPixel(image, x + lane, y) {
      NarrowBy2(d.arf[ACC][lane]);
    }
    d.Narrow(false, 2, ACC, OUTPUT);
    result := d.vrf[OUTPUT];
  }

  method VerticalBlock(d: Datapath, image: Image, x: int, y: int) returns (result: Row)
    requires d.Valid() && image.Valid()
    modifies d`vrf, d`arf
    ensures d.Valid() && |result| == LANES
    ensures forall lane :: 0 <= lane < LANES && d.mask[lane] ==> result[lane] == VerticalPixel(image, x + lane, y)
  {
    d.Load(0, Group(image, y - 1, x));
    d.Load(1, Group(image, y, x));
    d.Load(2, Group(image, y + 1, x));
    Tap(d, image, x, y - 1, true, 0, 1, Direct);
    Tap(d, image, x, y, false, 1, 2, Direct);
    Tap(d, image, x, y + 1, false, 2, 1, Direct);
    forall lane | 0 <= lane < LANES && d.mask[lane] ensures NclipU(d.arf[ACC][lane], 2) == VerticalPixel(image, x + lane, y) {
      NarrowBy2(d.arf[ACC][lane]);
    }
    d.Narrow(false, 2, ACC, OUTPUT);
    result := d.vrf[OUTPUT];
  }
}
