/** Whole images, block by block under a tail mask. */
module Filters {
  import opened FixedPoint
  import opened Images
  import Gaussian
  import Sobel
  import Median

  datatype Kernel = NineTap | Horizontal | Vertical | Edges(shift: nat) | MedianOfNine

  /** `p` is what the kernel's reference computes for the pixel at (x, y). */
  predicate Reference(kernel: Kernel, image: Image, x: int, y: int, p: int)
    requires image.Valid()
  {
    match kernel
    case NineTap => p == Gaussian.ExactPixel(image, x, y)
    case Horizontal => p == Gaussian.HorizontalPixel(image, x, y)
    case Vertical => p == Gaussian.VerticalPixel(image, x, y)
    case Edges(shift) => p == Sobel.Pixel(image, x, y, shift)
    case MedianOfNine => Median.IsMedian(Median.Window(image, x, y), p)
  }

  /** The first `n` pixels of an output row are done. */
  ghost predicate RowDone(kernel: Kernel, image: Image, y: int, row: seq<int>, n: nat)
    requires image.Valid()
  {
    n <= |row| == image.width && forall x :: 0 <= x < n ==> Reference(kernel, image, x, y, row[x])
  }

  /** Every pixel of `out` is the reference pixel. */
  ghost predicate Filtered(kernel: Kernel, image: Image, out: Image)
    requires image.Valid()
  {
    && out.width == image.width && out.Height() == image.Height()
    && forall y :: 0 <= y < out.Height() ==> RowDone(kernel, image, y, out.rows[y], image.width)
  }

  // ----- the references, from pixel rows alone

  const SMOOTH := [1, 2, 1, 2, 4, 2, 1, 2, 1]
  const ALONG := [0, 0, 0, 1, 2, 1, 0, 0, 0]
  const ACROSS := [0, 1, 0, 0, 2, 0, 0, 1, 0]
  const RIGHTWARD := [-1, 0, 1, -2, 0, 2, -1, 0, 1]
  const UPWARD := [1, 2, 1, 0, 0, 0, -1, -2, -1]

  /** The size of a gradient: at most 127. */
  function Strength(q: int): int {
    if q > 127 || q < -127 then 127 else if q < 0 then -q else q
  }

  /** The neighbourhood of (x, y), zero outside the rows. */
  function Surroundings(rows: seq<seq<int>>, x: int, y: int): (v: seq<int>)
    ensures |v| == 9
  {
    seq(9, j requires 0 <= j => if Inside(rows, x, y, j) then rows[y + Dy(j)][x + Dx(j)] else 0)
  }

  /** `p` is the kernel's answer at (x, y): weighted sums over the neighbours inside the image, rounded to
      nearest; for edges the sizes of the two gradients, rounded, added; or the median of the
      neighbourhood. */
  predicate Answers(kernel: Kernel, rows: seq<seq<int>>, x: int, y: int, p: int) {
    match kernel
    case NineTap => p == (Convolved(rows, x, y, SMOOTH, 9) + 8) / 16
    case Horizontal => p == (Convolved(rows, x, y, ALONG, 9) + 2) / 4
    case Vertical => p == (Convolved(rows, x, y, ACROSS, 9) + 2) / 4
    case Edges(shift) => p == Strength(OracleRound(Convolved(rows, x, y, RIGHTWARD, 9), shift))
                              + Strength(OracleRound(Convolved(rows, x, y, UPWARD, 9), shift))
    case MedianOfNine => Median.IsMedian(Surroundings(rows, x, y), p)
  }

  lemma StrengthIsMagnitude(acc: int, shift: nat)
    requires -1020 <= acc <= 1020 && shift < 31
    ensures Sobel.Magnitude(Sobel.NarrowSigned(acc, shift)) == Strength(OracleRound(acc, shift))
  {
    Sobel.NarrowRoundsToNearest(acc, shift);
  }

  lemma WindowIsSurroundings(image: Image, x: int, y: int)
    requires image.Valid()
    ensures Median.Window(image, x, y) == Surroundings(image.rows, x, y)
  {
    forall j: nat | j < 9 ensures Median.Window(image, x, y)[j] == Surroundings(image.rows, x, y)[j] {
      if 0 <= y + Dy(j) < |image.rows| {
        assert |image.rows[y + Dy(j)]| == image.width;
      }
    }
  }

  lemma SmoothIsConvolved(image: Image, x: int, y: int)
    requires image.Valid()
    ensures Gaussian.Sum9(image, x, y) == Convolved(image.rows, x, y, SMOOTH, 9)
  {
    NineTaps(image, x, y, SMOOTH);
  }

  lemma AlongIsConvolved(image: Image, x: int, y: int)
    requires image.Valid()
    ensures Gaussian.HorizontalPixel(image, x, y) == (Convolved(image.rows, x, y, ALONG, 9) + 2) / 4
  {
    NineTaps(image, x, y, ALONG);
    assert Convolved(image.rows, x, y, ALONG, 9) == image.At(x - 1, y) + 2 * image.At(x, y) + image.At(x + 1, y);
  }

  lemma AcrossIsConvolved(image: Image, x: int, y: int)
    requires image.Valid()
    ensures Gaussian.VerticalPixel(image, x, y) == (Convolved(image.rows, x, y, ACROSS, 9) + 2) / 4
  {
    NineTaps(image, x, y, ACROSS);
    assert Convolved(image.rows, x, y, ACROSS, 9) == image.At(x, y - 1) + 2 * image.At(x, y) + image.At(x, y + 1);
  }

  lemma GradientXIsConvolved(image: Image, x: int, y: int)
    requires image.Valid()
    ensures Sobel.GradientX(image, x, y) == Convolved(image.rows, x, y, RIGHTWARD, 9)
  {
    NineTaps(image, x, y, RIGHTWARD);
  }

  lemma GradientYIsConvolved(image: Image, x: int, y: int)
    requires image.Valid()
    ensures Sobel.GradientY(image, x, y) == Convolved(image.rows, x, y, UPWARD, 9)
  {
    NineTaps(image, x, y, UPWARD);
  }

  /** The reference pixels are zero-padded convolutions and medians. */
  lemma ReferenceAnswers(kernel: Kernel, image: Image, x: int, y: int, p: int)
    requires image.Valid() && (kernel.Edges? ==> kernel.shift < 31)
    ensures Reference(kernel, image, x, y, p) <==> Answers(kernel, image.rows, x, y, p)
  {
    match kernel
    case NineTap => SmoothIsConvolved(image, x, y);
    case Horizontal => AlongIsConvolved(image, x, y);
    case Vertical => AcrossIsConvolved(image, x, y);
    case Edges(shift) =>
      GradientXIsConvolved(image, x, y);
      GradientYIsConvolved(image, x, y);
      Sobel.AdditionNeverSaturates(image, x, y, shift);
      StrengthIsMagnitude(Sobel.GradientX(image, x, y), shift);
      StrengthIsMagnitude(Sobel.GradientY(image, x, y), shift);
    case MedianOfNine => WindowIsSurroundings(image, x, y);
  }

  lemma FilteredAnswers(kernel: Kernel, image: Image, out: Image)
    requires image.Valid() && Filtered(kernel, image, out) && (kernel.Edges? ==> kernel.shift < 31)
    ensures forall x, y :: 0 <= y < |image.rows| && 0 <= x < image.width ==>
      |out.rows[y]| == image.width && Answers(kernel, image.rows, x, y, out.rows[y][x])
  {
    forall x, y | 0 <= y < |image.rows| && 0 <= x < image.width
      ensures |out.rows[y]| == image.width && Answers(kernel, image.rows, x, y, out.rows[y][x])
    {
      assert RowDone(kernel, image, y, out.rows[y], image.width);
      ReferenceAnswers(kernel, image, x, y, out.rows[y][x]);
    }
  }

  method Block(d: Datapath, kernel: Kernel, image: Image, x: int, y: int) returns (result: Row)
    requires d.Valid() && image.Valid() && (kernel.Edges? ==> kernel.shift < 31 && Sobel.ZeroAccumulator(d))
    modifies d`vrf, d`arf
    ensures d.Valid() && |result| == LANES
    ensures kernel.Edges? ==> Sobel.ZeroAccumulator(d)
    ensures forall lane :: 0 <= lane < LANES && d.mask[lane] ==> Reference(kernel, image, x + lane, y, result[lane])
  {
    match kernel {
      case NineTap => result := Gaussian.Block(d, image, x, y);
      case Horizontal => result := Gaussian.HorizontalBlock(d, image, x, y);
      case Vertical => result := Gaussian.VerticalBlock(d, image, x, y);
      case Edges(shift) => result := Sobel.Block(d, image, x, y, shift);
      case MedianOfNine => result := Median.Block(d, image, x, y);
    }
  }

  /** One output row: blocks of four, the last one shortened by the tail mask. */
  method FilterRow(d: Datapath, kernel: Kernel, image: Image, y: nat) returns (row: seq<int>)
    requires d.Valid() && image.Valid() && (kernel.Edges? ==> kernel.shift < 31 && Sobel.ZeroAccumulator(d))
    modifies d
    ensures d.Valid() && (kernel.Edges? ==> Sobel.ZeroAccumulator(d))
    ensures RowDone(kernel, image, y, row, image.width)
  {
    row := seq(image.width, x => 0);
    var firstX := 0;
    while firstX < image.width
      invariant d.Valid() && (kernel.Edges? ==> Sobel.ZeroAccumulator(d))
      invariant RowDone(kernel, image, y, row, if firstX < image.width then firstX else image.width)
    {
      var active := if image.width - firstX < LANES then image.width - firstX else LANES;
      d.SetMask(active);
      var result := Block(d, kernel, image, firstX, y);
      for lane := 0 to active
        invariant RowDone(kernel, image, y, row, firstX + lane)
      {
        row := row[firstX + lane := result[lane]];
      }
      firstX := firstX + LANES;
    }
  }

  /** A kernel over a whole image gives its answer at every pixel, for every width and height. */
  method Run(kernel: Kernel, image: Image) returns (out: Image)
    requires image.Valid() && (kernel.Edges? ==> kernel.shift < 31)
    ensures Filtered(kernel, image, out)
    ensures out.width == image.width && |out.rows| == |image.rows|
    ensures forall x, y :: 0 <= y < |image.rows| && 0 <= x < image.width ==>
      |out.rows[y]| == image.width && Answers(kernel, image.rows, x, y, out.rows[y][x])
  {
    var d := new Datapath();
    d.Clear(Sobel.ACC_ZERO);
    var rows: seq<seq<int>> := [];
    for y := 0 to image.Height()
      invariant d.Valid() && fresh(d) && (kernel.Edges? ==> Sobel.ZeroAccumulator(d)) && |rows| == y
      invariant forall j :: 0 <= j < y ==> RowDone(kernel, image, j, rows[j], image.width)
    {
      var row := FilterRow(d, kernel, image, y);
      rows := rows + [row];
    }
    out := Image(image.width, rows);
    FilteredAnswers(kernel, image, out);
  }

  // ----- the separable Gaussian

  lemma ReferenceIsByte(kernel: Kernel, image: Image, x: int, y: int, p: int)
    requires image.Valid() && Reference(kernel, image, x, y, p) && (kernel.Edges? ==> kernel.shift < 31)
    ensures 0 <= p < 256
  {
    if kernel.Edges? {
      Sobel.AdditionNeverSaturates(image, x, y, kernel.shift);
      Sobel.NarrowRoundsToNearest(Sobel.GradientX(image, x, y), kernel.shift);
      Sobel.NarrowRoundsToNearest(Sobel.GradientY(image, x, y), kernel.shift);
    }
  }

  lemma FilteredIsValid(kernel: Kernel, image: Image, out: Image)
    requires image.Valid() && Filtered(kernel, image, out) && (kernel.Edges? ==> kernel.shift < 31)
    ensures out.Valid()
  {
    forall x, y | 0 <= y < out.Height() && 0 <= x < image.width ensures |out.rows[y]| == image.width && 0 <= out.rows[y][x] < 256 {
      assert RowDone(kernel, image, y, out.rows[y], image.width);
      ReferenceIsByte(kernel, image, x, y, out.rows[y][x]);
    }
    assert forall y :: 0 <= y < out.Height() ==> RowDone(kernel, image, y, out.rows[y], image.width) && |out.rows[y]| == image.width;
  }

  /** Outside the image the padding is what smoothing the padding would give. */
  lemma MiddleAt(image: Image, middle: Image, x: int, y: int)
    requires image.Valid() && middle.Valid() && Filtered(Horizontal, image, middle) && 0 <= x < image.width
    ensures middle.At(x, y) == Gaussian.HorizontalPixel(image, x, y)
  {
    if 0 <= y < image.Height() {
      assert RowDone(Horizontal, image, y, middle.rows[y], image.width);
    }
  }

  lemma DeviationOf(a: int, b: int, c: int, d: int, e: int, f: int, g: int, h: int, i: int,
                    top: int, middle: int, bottom: int, p: int, sum: int)
    requires top == Gaussian.Smooth(a, b, c) && middle == Gaussian.Smooth(d, e, f) && bottom == Gaussian.Smooth(g, h, i)
    requires p == Gaussian.Smooth(top, middle, bottom) && sum == a + 2 * b + c + 2 * d + 4 * e + 2 * f + g + 2 * h + i
    ensures -1 <= p - (sum + 8) / 16 <= 1
  {
    Gaussian.SmoothTwice(a, b, c, d, e, f, g, h, i);
  }

  /** The two-rounding filter differs from the exact one by at most one, at every pixel of every image. */
  lemma SeparableDeviation(image: Image, middle: Image, out: Image, x: int, y: int)
    requires image.Valid() && middle.Valid() && Filtered(Horizontal, image, middle) && Filtered(Vertical, middle, out)
    requires 0 <= x < image.width && 0 <= y < image.Height()
    ensures |out.rows[y]| == image.width && -1 <= out.rows[y][x] - Gaussian.ExactPixel(image, x, y) <= 1
  {
    MiddleAt(image, middle, x, y - 1);
    MiddleAt(image, middle, x, y);
    MiddleAt(image, middle, x, y + 1);
    assert RowDone(Vertical, middle, y, out.rows[y], middle.width);
    DeviationOf(image.At(x - 1, y - 1), image.At(x, y - 1), image.At(x + 1, y - 1),
                image.At(x - 1, y), image.At(x, y), image.At(x + 1, y),
                image.At(x - 1, y + 1), image.At(x, y + 1), image.At(x + 1, y + 1),
                middle.At(x, y - 1), middle.At(x, y), middle.At(x, y + 1), out.rows[y][x], Gaussian.Sum9(image, x, y));
  }

  /** The horizontal pass, then the vertical one. */
  method RunSeparable(image: Image) returns (out: Image)
    requires image.Valid()
    ensures out.width == image.width && out.Height() == image.Height()
    ensures forall x, y :: 0 <= x < image.width && 0 <= y < image.Height() ==>
      |out.rows[y]| == image.width && -1 <= out.rows[y][x] - Gaussian.ExactPixel(image, x, y) <= 1
  {
    var middle := Run(Horizontal, image);
    FilteredIsValid(Horizontal, image, middle);
    out := Run(Vertical, middle);
    forall x, y | 0 <= x < image.width && 0 <= y < image.Height()
      ensures |out.rows[y]| == image.width && -1 <= out.rows[y][x] - Gaussian.ExactPixel(image, x, y) <= 1
    {
      SeparableDeviation(image, middle, out, x, y);
    }
  }

  const TwoDark := Image(3, [[2, 0, 0], [0, 0, 0], [2, 0, 0]])

  /** The bound of one is attained: two dark pixels left of the centre round up twice. */
  lemma DeviationAttained(middle: Image, out: Image)
    requires TwoDark.Valid() && middle.Valid() && Filtered(Horizontal, TwoDark, middle) && Filtered(Vertical, middle, out)
    ensures |out.rows[1]| == 3 && out.rows[1][1] == Gaussian.ExactPixel(TwoDark, 1, 1) + 1
  {
    assert Gaussian.Sum9(TwoDark, 1, 1) == 4;
    MiddleAt(TwoDark, middle, 1, 0);
    MiddleAt(TwoDark, middle, 1, 1);
    MiddleAt(TwoDark, middle, 1, 2);
    assert middle.At(1, 0) == 1 && middle.At(1, 1) == 0 && middle.At(1, 2) == 1;
    assert RowDone(Vertical, middle, 1, out.rows[1], 3);
  }
}
