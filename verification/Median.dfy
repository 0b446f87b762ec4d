/** Median of nine by nineteen compare-exchanges, on values and on masked vector rows. */
module Median {
  import opened SimdExec
  import opened Images

  // ----- the network on values

  /** The smaller value goes to `a`, the larger to `b`. */
  function Exchange(v: seq<int>, a: nat, b: nat): (r: seq<int>)
    requires a < |v| && b < |v|
    ensures |r| == |v|
  {
    v[a := MinU(v[a], v[b])][b := MaxU(v[a], v[b])]
  }

  const COMPARATORS := 19

  /** The wires that comparator `k` joins: where its smaller and its larger value go. */
  function Pair(k: nat): (p: (nat, nat))
    requires k < COMPARATORS
    ensures p.0 < 9 && p.1 < 9 && p.0 != p.1
  {
    match k
    case 0 => (1, 2)
    case 1 => (4, 5)
    case 2 => (7, 8)
    case 3 => (0, 1)
    case 4 => (3, 4)
    case 5 => (6, 7)
    case 6 => (1, 2)
    case 7 => (4, 5)
    case 8 => (7, 8)
    case 9 => (0, 3)
    case 10 => (5, 8)
    case 11 => (4, 7)
    case 12 => (3, 6)
    case 13 => (1, 4)
    case 14 => (2, 5)
    case 15 => (4, 7)
    case 16 => (4, 2)
    case 17 => (6, 4)
    case _ => (4, 2)
  }

  /** The values after the first `k` compare-exchanges. */
  function Network(v: seq<int>, k: nat): (r: seq<int>)
    requires |v| == 9 && k <= COMPARATORS
    ensures |r| == 9
    decreases k, v
  {
    if k == 0 then v else Exchange(Network(v, k - 1), Pair(k - 1).0, Pair(k - 1).1)
  }

  // ----- thresholds

  /** Which values exceed `t`. */
  function Over(v: seq<int>, t: int): (r: seq<bool>)
    ensures |r| == |v|
  {
    seq(|v|, i requires 0 <= i < |v| => v[i] > t)
  }

  function ExchangeBits(v: seq<bool>, a: nat, b: nat): (r: seq<bool>)
    requires a < |v| && b < |v|
    ensures |r| == |v|
  {
    v[a := v[a] && v[b]][b := v[a] || v[b]]
  }

  function NetworkBits(v: seq<bool>, k: nat): (r: seq<bool>)
    requires |v| == 9 && k <= COMPARATORS
    ensures |r| == 9
    decreases k, v
  {
    if k == 0 then v else ExchangeBits(NetworkBits(v, k - 1), Pair(k - 1).0, Pair(k - 1).1)
  }

  /** Comparing with a threshold commutes with every compare-exchange. */
  lemma {:induction false} ThresholdCommutes(v: seq<int>, t: int, k: nat)
    requires |v| == 9 && k <= COMPARATORS
    ensures Over(Network(v, k), t) == NetworkBits(Over(v, t), k)
  {
    if k > 0 {
      ThresholdCommutes(v, t, k - 1);
      var w, a, b := Network(v, k - 1), Pair(k - 1).0, Pair(k - 1).1;
      assert Over(Exchange(w, a, b), t) == ExchangeBits(Over(w, t), a, b);
    }
  }

  lemma ExchangeKeepsValues(v: seq<int>, a: nat, b: nat)
    requires a < |v| && b < |v| && a != b
    ensures multiset(Exchange(v, a, b)) == multiset(v)
  {
  }

  ghost predicate Exchanges(v: seq<int>, r: seq<int>) {
    |v| == |r| == 9 && exists a: nat, b: nat :: a < 9 && b < 9 && a != b && r == Exchange(v, a, b)
  }

  lemma NetworkStep(v: seq<int>, k: nat)
    requires |v| == 9 && k < COMPARATORS
    ensures Exchanges(Network(v, k), Network(v, k + 1))
  {
    ExchangesBy(Network(v, k), Network(v, k + 1), Pair(k).0, Pair(k).1);
  }

  lemma ExchangesBy(v: seq<int>, r: seq<int>, a: nat, b: nat)
    requires |v| == |r| == 9 && a < 9 && b < 9 && a != b && r == Exchange(v, a, b)
    ensures Exchanges(v, r)
  {
  }

  lemma ExchangesKeepValues(v: seq<int>, r: seq<int>)
    requires Exchanges(v, r)
    ensures multiset(r) == multiset(v)
  {
    var a: nat, b: nat :| a < 9 && b < 9 && a != b && r == Exchange(v, a, b);
    ExchangeKeepsValues(v, a, b);
  }

  lemma {:induction false} StepsKeepValues(w: seq<seq<int>>, k: nat)
    requires k < |w| && forall j :: 0 <= j < k ==> Exchanges(w[j], w[j + 1])
    ensures multiset(w[k]) == multiset(w[0])
  {
    if k > 0 {
      StepsKeepValues(w, k - 1);
      assert Exchanges(w[k - 1], w[k - 1 + 1]);
      ExchangesKeepValues(w[k - 1], w[k]);
    }
  }

  lemma {:induction false} NetworkKeepsValues(v: seq<int>, last: nat)
    requires |v| == 9 && last == COMPARATORS
    ensures multiset(Network(v, last)) == multiset(v)
  {
    var w := seq(last + 1, k requires 0 <= k <= last => Network(v, k));
    forall j | 0 <= j < last ensures Exchanges(w[j], w[j + 1]) {
      NetworkStep(v, j);
    }
    StepsKeepValues(w, last);
  }

  function Bit(b: bool): nat {
    if b then 1 else 0
  }

  /** `w[k]` are the bits of the nine wires after `k` comparators. */
  ghost predicate Trace(w: seq<seq<bool>>) {
    |w| == COMPARATORS + 1 && (forall k :: 0 <= k <= COMPARATORS ==> |w[k]| == 9)
  }

  /** Comparator `k` joins wires `x` and `y`. */
  ghost predicate Joins(w: seq<seq<bool>>, k: nat, x: nat, y: nat)
    requires Trace(w) && k < COMPARATORS && x < 9 && y < 9
  {
    Exchanged(w[k], w[k + 1], x, y)
  }

  predicate Exchanged(v: seq<bool>, r: seq<bool>, x: nat, y: nat)
    requires |v| == |r| == 9 && x < 9 && y < 9
  {
    && r[0] == Joined(v[0], v[x], v[y], 0, x, y) && r[1] == Joined(v[1], v[x], v[y], 1, x, y)
    && r[2] == Joined(v[2], v[x], v[y], 2, x, y) && r[3] == Joined(v[3], v[x], v[y], 3, x, y)
    && r[4] == Joined(v[4], v[x], v[y], 4, x, y) && r[5] == Joined(v[5], v[x], v[y], 5, x, y)
    && r[6] == Joined(v[6], v[x], v[y], 6, x, y) && r[7] == Joined(v[7], v[x], v[y], 7, x, y)
    && r[8] == Joined(v[8], v[x], v[y], 8, x, y)
  }

  function Joined(own: bool, low: bool, high: bool, j: nat, x: nat, y: nat): bool {
    if j == y then low || high else if j == x then low && high else own
  }

  function Votes(v: seq<bool>): nat
    requires |v| == 9
  {
    Bit(v[0]) + Bit(v[1]) + Bit(v[2]) + Bit(v[3]) + Bit(v[4]) + Bit(v[5]) + Bit(v[6]) + Bit(v[7]) + Bit(v[8])
  }

  /** A triple of wires in ascending order. */
  predicate Ascending(a: bool, b: bool, c: bool) {
    (a ==> b) && (b ==> c)
  }

  ghost predicate JoinsPair(w: seq<seq<bool>>, k: nat)
    requires Trace(w) && k < COMPARATORS
  {
    Joins(w, k, Pair(k).0, Pair(k).1)
  }

  lemma JoinAt(w: seq<seq<bool>>, k: nat, x: nat, y: nat)
    requires Trace(w) && k < COMPARATORS && JoinsPair(w, k) && x == Pair(k).0 && y == Pair(k).1
    ensures Joins(w, k, x, y)
  {
  }

  /** Three comparators sort three bits. */
  lemma SortThree(a: bool, b: bool, c: bool)
    ensures
      var b1, c1 := b && c, b || c;
      var a1, b2 := a && b1, a || b1;
      var b3, c2 := b2 && c1, b2 || c1;
      Ascending(a1, b3, c2) && Bit(a1) + Bit(b3) + Bit(c2) == Bit(a) + Bit(b) + Bit(c)
  {
  }

  ghost predicate SortingJoins(w: seq<seq<bool>>)
    requires Trace(w)
  {
    && Joins(w, 0, 1, 2) && Joins(w, 1, 4, 5) && Joins(w, 2, 7, 8)
    && Joins(w, 3, 0, 1) && Joins(w, 4, 3, 4) && Joins(w, 5, 6, 7)
    && Joins(w, 6, 1, 2) && Joins(w, 7, 4, 5) && Joins(w, 8, 7, 8)
  }

  ghost predicate SelectingJoins(w: seq<seq<bool>>)
    requires Trace(w)
  {
    && Joins(w, 9, 0, 3) && Joins(w, 10, 5, 8) && Joins(w, 11, 4, 7)
    && Joins(w, 12, 3, 6) && Joins(w, 13, 1, 4) && Joins(w, 14, 2, 5)
    && Joins(w, 15, 4, 7) && Joins(w, 16, 4, 2) && Joins(w, 17, 6, 4)
    && Joins(w, 18, 4, 2)
  }

  /** The triple at `i` of `r` is that of `v`, sorted. */
  predicate SortedFrom(v: seq<bool>, r: seq<bool>, i: nat)
    requires |v| == |r| == 9 && i + 2 < 9
  {
    Ascending(r[i], r[i + 1], r[i + 2]) && Bit(r[i]) + Bit(r[i + 1]) + Bit(r[i + 2]) == Bit(v[i]) + Bit(v[i + 1]) + Bit(v[i + 2])
  }

  lemma {:induction false} FirstTriple(w: seq<seq<bool>>)
    requires Trace(w) && SortingJoins(w)
    ensures SortedFrom(w[0], w[9], 0)
  {
    SortThree(w[0][0], w[0][1], w[0][2]);
  }

  lemma {:induction false} SecondTriple(w: seq<seq<bool>>)
    requires Trace(w) && SortingJoins(w)
    ensures SortedFrom(w[0], w[9], 3)
  {
    SortThree(w[0][3], w[0][4], w[0][5]);
  }

  lemma {:induction false} ThirdTriple(w: seq<seq<bool>>)
    requires Trace(w) && SortingJoins(w)
    ensures SortedFrom(w[0], w[9], 6)
  {
    SortThree(w[0][6], w[0][7], w[0][8]);
  }

  /** The last ten comparators pick the majority out of sorted triples. */
  lemma {:induction false} TriplesSelectMajority(w: seq<seq<bool>>)
    requires Trace(w) && SelectingJoins(w)
    requires SortedFrom(w[0], w[9], 0) && SortedFrom(w[0], w[9], 3) && SortedFrom(w[0], w[9], 6)
    ensures w[COMPARATORS][4] <==> Votes(w[0]) >= 5
  {
  }

  lemma {:induction false} AllJoins(w: seq<seq<bool>>)
    requires Trace(w) && forall k: nat :: k < COMPARATORS ==> JoinsPair(w, k)
    ensures SortingJoins(w) && SelectingJoins(w)
  {
    JoinAt(w, 0, 1, 2);
    JoinAt(w, 1, 4, 5);
    JoinAt(w, 2, 7, 8);
    JoinAt(w, 3, 0, 1);
    JoinAt(w, 4, 3, 4);
    JoinAt(w, 5, 6, 7);
    JoinAt(w, 6, 1, 2);
    JoinAt(w, 7, 4, 5);
    JoinAt(w, 8, 7, 8);
    JoinAt(w, 9, 0, 3);
    JoinAt(w, 10, 5, 8);
    JoinAt(w, 11, 4, 7);
    JoinAt(w, 12, 3, 6);
    JoinAt(w, 13, 1, 4);
    JoinAt(w, 14, 2, 5);
    JoinAt(w, 15, 4, 7);
    JoinAt(w, 16, 4, 2);
    JoinAt(w, 17, 6, 4);
    JoinAt(w, 18, 4, 2);
  }

  lemma ExchangeIsJoin(v: seq<bool>, x: nat, y: nat)
    requires |v| == 9 && x < 9 && y < 9
    ensures Exchanged(v, ExchangeBits(v, x, y), x, y)
  {
  }

  /** The bits of the network, step by step. */
  lemma NetworkTrace(v: seq<bool>, last: nat) returns (w: seq<seq<bool>>)
    requires |v| == 9 && last == COMPARATORS
    ensures Trace(w) && w[0] == v && w[last] == NetworkBits(v, last)
    ensures forall k: nat :: k < COMPARATORS ==> JoinsPair(w, k)
  {
    w := seq(last + 1, k requires 0 <= k <= last => NetworkBits(v, k));
    forall k: nat | k < last ensures JoinsPair(w, k) {
      ExchangeIsJoin(w[k], Pair(k).0, Pair(k).1);
    }
  }

  /** Wire 4 ends up with the majority of the nine bits. */
  lemma {:induction false} WireFourIsMajority(v: seq<bool>, last: nat)
    requires |v| == 9 && last == COMPARATORS
    ensures NetworkBits(v, last)[4] <==> Votes(v) >= 5
  {
    var w := NetworkTrace(v, last);
    AllJoins(w);
    FirstTriple(w);
    SecondTriple(w);
    ThirdTriple(w);
    TriplesSelectMajority(w);
  }

  // ----- the median

  /** Which values are below `t`. */
  function Under(v: seq<int>, t: int): (r: seq<bool>)
    ensures |r| == |v|
  {
    seq(|v|, i requires 0 <= i < |v| => v[i] < t)
  }

  /** The fifth order statistic of nine values: at most four are smaller and at most four larger. */
  predicate IsMedian(v: seq<int>, m: int)
    requires |v| == 9
  {
    m in v && Votes(Under(v, m)) <= 4 && Votes(Over(v, m)) <= 4
  }

  lemma UnderAndOver(v: seq<int>, s: int, t: int)
    requires |v| == 9 && s < t
    ensures Votes(Over(v, s)) + Votes(Under(v, t)) >= 9
  {
    assert forall i :: 0 <= i < 9 ==> Bit(Over(v, s)[i]) + Bit(Under(v, t)[i]) >= 1;
  }

  /** Nine values have one median. */
  lemma MedianIsUnique(v: seq<int>, m: int, m': int)
    requires |v| == 9 && IsMedian(v, m) && IsMedian(v, m')
    ensures m == m'
  {
    if m < m' {
      UnderAndOver(v, m, m');
    } else if m' < m {
      UnderAndOver(v, m', m);
    }
  }

  lemma OverOrUnder(v: seq<int>, m: int)
    requires |v| == 9
    ensures Votes(Over(v, m - 1)) + Votes(Under(v, m)) == 9
  {
    assert forall i :: 0 <= i < 9 ==> Bit(Over(v, m - 1)[i]) + Bit(Under(v, m)[i]) == 1;
  }

  /** For any nine values, duplicates included, nineteen compare-exchanges keep the values and leave
      their median on wire 4. */
  lemma NetworkSelectsMedian(v: seq<int>, last: nat)
    requires |v| == 9 && last == COMPARATORS
    ensures multiset(Network(v, last)) == multiset(v) && IsMedian(v, Network(v, last)[4])
  {
    var m := Network(v, last)[4];
    NetworkKeepsValues(v, last);
    assert m in multiset(Network(v, last));
    ThresholdCommutes(v, m, last);
    WireFourIsMajority(Over(v, m), last);
    ThresholdCommutes(v, m - 1, last);
    WireFourIsMajority(Over(v, m - 1), last);
    OverOrUnder(v, m);
    assert Over(Network(v, last), m)[4] == false && Over(Network(v, last), m - 1)[4] == true;
  }

  // ----- the kernel

  const P4 := 4
  const TMP := 9

  /** What the nine window rows hold in one lane. */
  function Column(vrf: seq<Row>, lane: nat): (v: seq<int>)
    requires |vrf| == 16 && lane < LANES && forall r :: 0 <= r < 16 ==> |vrf[r]| == LANES
    ensures |v| == 9
  {
    seq(9, r requires 0 <= r < 9 => vrf[r][lane])
  }

  /** MAX to the spare row, MIN in place, and the spare row back: a compare-exchange in the active lanes. */
  method SortPair(d: Datapath, a: nat, b: nat)
    requires d.Valid() && a < 9 && b < 9 && a != b
    modifies d`vrf
    ensures d.Valid()
    ensures forall lane :: 0 <= lane < LANES ==>
      Column(d.vrf, lane) == if d.mask[lane] then Exchange(old(Column(d.vrf, lane)), a, b) else old(Column(d.vrf, lane))
  {
    d.Bytewise(MaxOp, a, b, TMP);
    d.Bytewise(MinOp, a, b, a);
    d.Bytewise(PassA, TMP, 0, b);
  }

  method MedianNetwork(d: Datapath)
    requires d.Valid()
    modifies d`vrf
    ensures d.Valid()
    ensures forall lane :: 0 <= lane < LANES ==>
      Column(d.vrf, lane) == if d.mask[lane] then Network(old(Column(d.vrf, lane)), COMPARATORS) else old(Column(d.vrf, lane))
  {
    for k := 0 to COMPARATORS
      invariant d.Valid()
      invariant forall lane :: 0 <= lane < LANES ==>
        Column(d.vrf, lane) == if d.mask[lane] then Network(old(Column(d.vrf, lane)), k) else old(Column(d.vrf, lane))
    {
      SortPair(d, Pair(k).0, Pair(k).1);
    }
  }

  /** The 3x3 neighbourhood, row by row. */
  function Window(image: Image, x: int, y: int): (v: seq<int>)
    requires image.Valid()
    ensures |v| == 9
  {
    seq(9, i => image.At(x + i % 3 - 1, y + i / 3 - 1))
  }

  /** One block: each active lane ends with the median of its own neighbourhood. */
  method Block(d: Datapath, image: Image, x: int, y: int) returns (result: Row)
    requires d.Valid() && image.Valid()
    modifies d`vrf
    ensures d.Valid() && |result| == LANES
    ensures forall lane :: 0 <= lane < LANES && d.mask[lane] ==> IsMedian(Window(image, x + lane, y), result[lane])
  {
    for i := 0 to 9
      invariant d.Valid() && forall r :: 0 <= r < i ==> d.vrf[r] == Group(image, y + r / 3 - 1, x + r % 3 - 1)
    {
      d.Load(i, Group(image, y + i / 3 - 1, x + i % 3 - 1));
    }
    forall lane | 0 <= lane < LANES ensures Column(d.vrf, lane) == Window(image, x + lane, y) {
    }
    MedianNetwork(d);
    result := d.vrf[P4];
    forall lane | 0 <= lane < LANES && d.mask[lane] ensures IsMedian(Window(image, x + lane, y), result[lane]) {
      NetworkSelectsMedian(Window(image, x + lane, y), COMPARATORS);
      assert result[lane] == Column(d.vrf, lane)[P4];
    }
  }
}
