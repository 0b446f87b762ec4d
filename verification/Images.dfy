/** Byte images with zero padding, and the four-lane datapath that filters them block by block. */
module Images {
  import opened Bits
  import opened SimdExec

  const LANES := 4

  type Row = seq<int>

  /** Pixel rows of equal width. */
  datatype Image = Image(width: nat, rows: seq<seq<int>>) {
    predicate Valid() {
      forall y :: 0 <= y < |rows| ==> |rows[y]| == width && forall x :: 0 <= x < width ==> Byte(rows[y][x])
    }

    function Height(): nat {
      |rows|
    }

    function At(x: int, y: int): (p: int)
      requires Valid()
      ensures Byte(p)
      ensures 0 <= y < |rows| && 0 <= x < |rows[y]| ==> p == rows[y][x]
      ensures x < 0 || y < 0 || x >= width || y >= |rows| ==> p == 0
    {
      if 0 <= x < width && 0 <= y < |rows| then rows[y][x] else 0
    }
  }

  /** Four horizontally adjacent pixels. */
  function Group(image: Image, y: int, x: int): (r: Row)
    requires image.Valid()
    ensures |r| == LANES
  {
    seq(LANES, lane => image.At(x + lane, y))
  }

  // ----- kernels written on the pixel rows alone

  /** Place `j` of a three by three neighbourhood, row by row from the upper left. */
  function Dx(j: nat): int { j % 3 - 1 }

  function Dy(j: nat): int { j / 3 - 1 }

  /** The neighbour of (x, y) at place `j` lies inside the rows. */
  predicate Inside(rows: seq<seq<int>>, x: int, y: int, j: nat) {
    0 <= y + Dy(j) < |rows| && 0 <= x + Dx(j) < |rows[y + Dy(j)]|
  }

  /** The sum, over the first `n` places of the neighbourhood that lie inside the rows, of coefficient times
      pixel. */
  function Convolved(rows: seq<seq<int>>, x: int, y: int, kernel: seq<int>, n: nat): int
    requires n <= |kernel|
  {
    if n == 0 then 0
    else Convolved(rows, x, y, kernel, n - 1)
         + if Inside(rows, x, y, n - 1) then kernel[n - 1] * rows[y + Dy(n - 1)][x + Dx(n - 1)] else 0
  }

  lemma OneMoreTap(image: Image, x: int, y: int, kernel: seq<int>, n: nat, dx: int, dy: int)
    requires image.Valid() && n < |kernel| && dx == Dx(n) && dy == Dy(n)
    ensures Convolved(image.rows, x, y, kernel, n + 1) == Convolved(image.rows, x, y, kernel, n) + kernel[n] * image.At(x + dx, y + dy)
  {
    if Inside(image.rows, x, y, n) {
      assert |image.rows[y + dy]| == image.width;
    }
  }

  lemma ThreeTaps(image: Image, x: int, y: int, kernel: seq<int>, n: nat, dy: int)
    requires image.Valid() && n + 3 <= |kernel| && n % 3 == 0 && dy == Dy(n)
    ensures Convolved(image.rows, x, y, kernel, n + 3)
         == Convolved(image.rows, x, y, kernel, n)
          + kernel[n] * image.At(x - 1, y + dy) + kernel[n + 1] * image.At(x, y + dy) + kernel[n + 2] * image.At(x + 1, y + dy)
  {
    OneMoreTap(image, x, y, kernel, n, -1, dy);
    OneMoreTap(image, x, y, kernel, n + 1, 0, dy);
    OneMoreTap(image, x, y, kernel, n + 2, 1, dy);
  }

  /** Leaving the outside places away is reading zeros there. */
  lemma NineTaps(image: Image, x: int, y: int, kernel: seq<int>)
    requires image.Valid() && |kernel| == 9
    ensures Convolved(image.rows, x, y, kernel, 9)
         == kernel[0] * image.At(x - 1, y - 1) + kernel[1] * image.At(x, y - 1) + kernel[2] * image.At(x + 1, y - 1)
          + kernel[3] * image.At(x - 1, y) + kernel[4] * image.At(x, y) + kernel[5] * image.At(x + 1, y)
          + kernel[6] * image.At(x - 1, y + 1) + kernel[7] * image.At(x, y + 1) + kernel[8] * image.At(x + 1, y + 1)
  {
    ThreeTaps(image, x, y, kernel, 0, -1);
    ThreeTaps(image, x, y, kernel, 3, 0);
    ThreeTaps(image, x, y, kernel, 6, 1);
  }

  // ----- slides across adjacent groups

  /** Toward higher lanes; missing low lanes come from the end of the lower group. */
  function SlideUp(data: Row, lower: Row, amount: nat): (r: Row)
    requires |data| == |lower| && amount <= |data|
    ensures |r| == |data|
  {
    seq(|data|, lane requires 0 <= lane < |data| => if lane >= amount then data[lane - amount] else lower[|data| - amount + lane])
  }

  function SlideDown(data: Row, upper: Row, amount: nat): (r: Row)
    requires |data| == |upper| && amount <= |data|
    ensures |r| == |data|
  {
    seq(|data|, lane requires 0 <= lane < |data| => if lane + amount < |data| then data[lane + amount] else upper[lane + amount - |data|])
  }

  /** Sliding in the adjacent group's pixels is reading the image further left or right. */
  lemma SlideReadsNeighbours(image: Image, y: int, x: int, amount: nat)
    requires image.Valid() && amount <= LANES
    ensures SlideUp(Group(image, y, x), Group(image, y, x - LANES), amount) == Group(image, y, x - amount)
    ensures SlideDown(Group(image, y, x), Group(image, y, x + LANES), amount) == Group(image, y, x + amount)
  {
  }

  // ----- the datapath

  datatype Route = Direct | Up | Down

  function Routed(route: Route, data: Row, lower: Row, upper: Row): (r: Row)
    requires |data| == |lower| == |upper| == LANES
    ensures |r| == LANES
  {
    match route case Direct => data case Up => SlideUp(data, lower, 1) case Down => SlideDown(data, upper, 1)
  }

  function Offset(route: Route): int {
    match route case Direct => 0 case Up => -1 case Down => 1
  }

  lemma RoutedReads(image: Image, y: int, x: int, route: Route)
    requires image.Valid()
    ensures Routed(route, Group(image, y, x), Group(image, y, x - LANES), Group(image, y, x + LANES)) == Group(image, y, x + Offset(route))
  {
    SlideReadsNeighbours(image, y, x, 1);
  }

  datatype ByteOp = PassA | MaxOp | MinOp | AbsSat | AddSat

  function ByteResult(op: ByteOp, a: int, b: int): int {
    match op
    case PassA => a
    case MaxOp => MaxU(a, b)
    case MinOp => MinU(a, b)
    case AbsSat => AbsSatS(a)
    case AddSat => AddSatU(a, b)
  }

  /** Sixteen vector rows, eight accumulator rows and the tail mask. A masked-off lane keeps its value. */
  class Datapath {
    var vrf: seq<Row>
    var arf: seq<Row>
    var mask: seq<bool>

    ghost predicate Valid()
      reads this
    {
      && |vrf| == 16 && |arf| == 8 && |mask| == LANES
      && (forall r :: 0 <= r < 16 ==> |vrf[r]| == LANES)
      && (forall r :: 0 <= r < 8 ==> |arf[r]| == LANES)
    }

    constructor ()
      ensures Valid()
    {
      vrf, arf, mask := seq(16, r => seq(LANES, lane => 0)), seq(8, r => seq(LANES, lane => 0)), seq(LANES, lane => false);
    }

    method Load(row: nat, data: Row)
      requires Valid() && row < 16 && |data| == LANES
      modifies `vrf
      ensures Valid() && vrf == old(vrf)[row := data]
    {
      vrf := vrf[row := data];
    }

    method Clear(acc: nat)
      requires Valid() && acc < 8
      modifies `arf
      ensures Valid() && arf == old(arf)[acc := seq(LANES, lane => 0)]
    {
      arf := arf[acc := seq(LANES, lane => 0)];
    }

    method SetMask(active: nat)
      requires Valid()
      modifies `mask
      ensures Valid() && forall lane :: 0 <= lane < LANES ==> mask[lane] == (lane < active)
    {
      mask := seq(LANES, lane => lane < active);
    }

    method Bytewise(op: ByteOp, a: nat, b: nat, destination: nat)
      requires Valid() && a < 16 && b < 16 && destination < 16
      modifies `vrf
      ensures Valid() && forall r :: 0 <= r < 16 && r != destination ==> vrf[r] == old(vrf[r])
      ensures forall lane :: 0 <= lane < LANES ==>
        vrf[destination][lane] == if mask[lane] then ByteResult(op, old(vrf[a][lane]), old(vrf[b][lane])) else old(vrf[destination][lane])
    {
      vrf := vrf[destination := seq(LANES, lane requires 0 <= lane < LANES && Valid() reads this =>
        if mask[lane] then ByteResult(op, vrf[a][lane], vrf[b][lane]) else vrf[destination][lane])];
    }

    /** PASS_A with source A routed. */
    method Shift(a: nat, route: Route, lower: Row, upper: Row, destination: nat)
      requires Valid() && a < 16 && destination < 16 && |lower| == |upper| == LANES
      modifies `vrf
      ensures Valid() && forall r :: 0 <= r < 16 && r != destination ==> vrf[r] == old(vrf[r])
      ensures forall lane :: 0 <= lane < LANES ==>
        vrf[destination][lane] == if mask[lane] then Routed(route, old(vrf[a]), lower, upper)[lane] else old(vrf[destination][lane])
    {
      var source := Routed(route, vrf[a], lower, upper);
      vrf := vrf[destination := seq(LANES, lane requires 0 <= lane < LANES && Valid() && |source| == LANES reads this =>
        if mask[lane] then source[lane] else vrf[destination][lane])];
    }

    /** MUL_U or MAC_U by an immediate, source A routed, into one accumulator row. */
    method Product(first: bool, a: nat, coefficient: int, route: Route, lower: Row, upper: Row, acc: nat)
      requires Valid() && a < 16 && acc < 8 && |lower| == |upper| == LANES
      modifies `arf
      ensures Valid() && forall r :: 0 <= r < 8 && r != acc ==> arf[r] == old(arf[r])
      ensures forall lane :: 0 <= lane < LANES ==>
        var x := Routed(route, vrf[a], lower, upper)[lane];
        arf[acc][lane] == if !mask[lane] then old(arf[acc][lane])
                          else if first then MulU(x, coefficient) else MacU(x, coefficient, old(arf[acc][lane]))
    {
      var source := Routed(route, vrf[a], lower, upper);
      arf := arf[acc := seq(LANES, lane requires 0 <= lane < LANES && Valid() && |source| == LANES reads this =>
        if !mask[lane] then arf[acc][lane]
        else if first then MulU(source[lane], coefficient) else MacU(source[lane], coefficient, arf[acc][lane]))];
    }

    /** WSUB_U with source A routed. */
    method WideDifference(a: nat, b: nat, align: nat, source: nat, destination: nat, route: Route, lower: Row, upper: Row)
      requires Valid() && a < 16 && b < 16 && source < 8 && destination < 8 && |lower| == |upper| == LANES
      modifies `arf
      ensures Valid() && forall r :: 0 <= r < 8 && r != destination ==> arf[r] == old(arf[r])
      ensures forall lane :: 0 <= lane < LANES ==>
        var x := Routed(route, vrf[a], lower, upper)[lane];
        arf[destination][lane] == if mask[lane] then WsubU(x, vrf[b][lane], old(arf[source][lane]), align)
                                  else old(arf[destination][lane])
    {
      var routed := Routed(route, vrf[a], lower, upper);
      arf := arf[destination := seq(LANES, lane requires 0 <= lane < LANES && Valid() && |routed| == LANES reads this =>
        if mask[lane] then WsubU(routed[lane], vrf[b][lane], arf[source][lane], align) else arf[destination][lane])];
    }

    /** NCLIP_U or NCLIP_S of an accumulator row. */
    method Narrow(signed: bool, shift: nat, acc: nat, destination: nat)
      requires Valid() && acc < 8 && destination < 16
      modifies `vrf
      ensures Valid() && forall r :: 0 <= r < 16 && r != destination ==> vrf[r] == old(vrf[r])
      ensures forall lane :: 0 <= lane < LANES ==>
        vrf[destination][lane] == if !mask[lane] then old(vrf[destination][lane])
                                  else if signed then NclipS(arf[acc][lane], shift) else NclipU(arf[acc][lane], shift)
    {
      vrf := vrf[destination := seq(LANES, lane requires 0 <= lane < LANES && Valid() reads this =>
        if !mask[lane] then vrf[destination][lane]
        else if signed then NclipS(arf[acc][lane], shift) else NclipU(arf[acc][lane], shift))];
    }
  }
}
