/** The Benes network of the interconnect: `2k - 1` stages of neighbour switches on `Pow2(k)` ports,
    joined by links that rotate the port number left before the middle stage and right after it. */
module Benes {
  import opened Arith
  import opened Bits
  import opened Links
  import opened Permutations
  import opened Rearrange

  // ----- the network as it is wired

  function Stages(k: nat): int {
    2 * k - 1
  }

  function Ports(k: nat): (n: nat)
    requires k > 0
    ensures n > 0 && n % 2 == 0 && n / 2 == Pow2(k - 1)
  {
    Pow2(k)
  }

  /** One control bit per switch, stage after stage. */
  ghost predicate ControlWord(k: nat, control: seq<bool>) {
    k > 0 && |control| == Stages(k) * (Ports(k) / 2)
  }

  function Switch(k: nat, t: nat, p: nat): int
    requires k > 0
  {
    t * (Ports(k) / 2) + p / 2
  }

  lemma {:induction false} SwitchInside(k: nat, t: nat, p: nat)
    requires k > 0 && t < Stages(k) && p < Ports(k)
    ensures 0 <= Switch(k, t, p) < Stages(k) * (Ports(k) / 2)
  {
    var h := Ports(k) / 2;
    MulStrict(t, Stages(k), h);
    MulMono(h, t + 1, Stages(k));
    assert h * (t + 1) == t * h + h;
  }

  function Left(k: nat, link: nat): nat
    requires k > 0
  {
    2 * link % Ports(k) + link / (Ports(k) / 2)
  }

  function Right(k: nat, link: nat): nat
    requires k > 0
  {
    MulNonNegative(link % 2, Ports(k) / 2);
    link / 2 + link % 2 * (Ports(k) / 2)
  }

  /** Where the link after stage `t` leads. The parts have disjoint bits, so a bitwise OR of them is this sum. */
  function NextLink(k: nat, t: nat, link: nat): nat
    requires k > 0
  {
    if t < k - 1 then Left(k, link) else Right(k, link)
  }

  function LinkBefore(k: nat, t: nat, link: nat): nat
    requires k > 0
  {
    if t < k - 1 then Right(k, link) else Left(k, link)
  }

  lemma {:induction false} LinksAreRotations(k: nat, link: nat)
    requires k > 0 && link < Ports(k)
    ensures Left(k, link) == Rotated(k, k - 1, link) && Right(k, link) == Rotated(k, 1, link)
    ensures Left(k, link) < Ports(k) && Right(k, link) < Ports(k)
    ensures Left(k, Right(k, link)) == link && Right(k, Left(k, link)) == link
  {
    LeftRotates(k, link);
    RightRotates(k, link);
    RotatedInside(k, k - 1, link);
    RotatedInside(k, 1, link);
    RotateBack(k, 1, link);
    RotateBack(k, k - 1, link);
    LeftRotates(k, Right(k, link));
    RightRotates(k, Left(k, link));
  }

  lemma {:induction false} LeftRotates(k: nat, link: nat)
    requires k > 0 && link < Ports(k)
    ensures Left(k, link) == Rotated(k, k - 1, link)
  {
    var h := Pow2(k - 1);
    assert link == h * (link / h) + link % h;
    assert 2 * link == 2 * h * (link / h) + 2 * (link % h);
    DivModUnique(2 * link, 2 * h, link / h, 2 * (link % h));
    assert Pow2(1) == 2;
  }

  lemma RightRotates(k: nat, link: nat)
    requires k > 0 && link < Ports(k)
    ensures Right(k, link) == Rotated(k, 1, link)
  {
    assert Pow2(1) == 2;
  }

  function Switched<T>(w: seq<T>, k: nat, control: seq<bool>, t: nat): (r: seq<T>)
    requires ControlWord(k, control) && |w| == Ports(k) && t < Stages(k)
    ensures |r| == |w|
  {
    seq(|w|, p requires 0 <= p < |w| =>
      SwitchInside(k, t, p);
      if control[Switch(k, t, p)] then w[Partner(p)] else w[p])
  }

  function Linked<T>(w: seq<T>, k: nat, t: nat): (r: seq<T>)
    requires k > 0 && |w| == Ports(k)
    ensures |r| == |w|
  {
    seq(|w|, p requires 0 <= p < |w| =>
      LinksAreRotations(k, p);
      w[LinkBefore(k, t, p)])
  }

  /** The wires that enter stage `t`. */
  function Wires<T>(data: seq<T>, k: nat, control: seq<bool>, t: nat): (r: seq<T>)
    requires ControlWord(k, control) && |data| == Ports(k) && t < Stages(k)
    ensures |r| == |data|
    decreases t
  {
    if t == 0 then data else Linked(Switched(Wires(data, k, control, t - 1), k, control, t - 1), k, t - 1)
  }

  /** The wires that leave the last stage. */
  function Network<T>(data: seq<T>, k: nat, control: seq<bool>): (r: seq<T>)
    requires ControlWord(k, control) && |data| == Ports(k)
    ensures |r| == |data|
  {
    Switched(Wires(data, k, control, Stages(k) - 1), k, control, Stages(k) - 1)
  }

  // ----- the stage loop

  /** Switch `sw` of a stage joins ports `2 sw` and `2 sw + 1`. */
  lemma {:induction false} SwitchOfPair<T>(k: nat, control: seq<bool>, t: nat, w: seq<T>, sw: nat)
    requires ControlWord(k, control) && |w| == Ports(k) && t < Stages(k) && sw < Ports(k) / 2
    ensures 2 * sw + 1 < |w| && 0 <= t * (Ports(k) / 2) + sw < |control|
    ensures Switched(w, k, control, t)[2 * sw] == if control[t * (Ports(k) / 2) + sw] then w[2 * sw + 1] else w[2 * sw]
    ensures Switched(w, k, control, t)[2 * sw + 1] == if control[t * (Ports(k) / 2) + sw] then w[2 * sw] else w[2 * sw + 1]
  {
    SwitchInside(k, t, 2 * sw);
    SwitchInside(k, t, 2 * sw + 1);
  }

  method SwitchStage<T>(k: nat, control: seq<bool>, t: nat, wires: array<T>, switched: array<T>)
    requires ControlWord(k, control) && wires.Length == switched.Length == Ports(k) && t < Stages(k) && wires != switched
    modifies switched
    ensures switched[..] == Switched(wires[..], k, control, t)
  {
    var half := Ports(k) / 2;
    for sw := 0 to half
      invariant wires[..] == old(wires[..])
      invariant forall p :: 0 <= p < 2 * sw ==> switched[p] == Switched(wires[..], k, control, t)[p]
    {
      var even := 2 * sw;
      var odd := even + 1;
      SwitchOfPair(k, control, t, wires[..], sw);
      var cross := control[t * half + sw];
      switched[even] := if cross then wires[odd] else wires[even];
      switched[odd] := if cross then wires[even] else wires[odd];
    }
  }

  method LinkStage<T>(k: nat, t: nat, switched: array<T>, next: array<T>)
    requires k > 0 && switched.Length == next.Length == Ports(k) && switched != next
    modifies next
    ensures next[..] == Linked(switched[..], k, t)
  {
    LinksPair(k, t);
    for link := 0 to Ports(k)
      invariant switched[..] == old(switched[..])
      invariant forall l: nat :: l < link ==> next[NextLink(k, t, l)] == switched[l]
    {
      next[NextLink(k, t, link)] := switched[link];
    }
    forall p: nat | p < Ports(k) ensures next[p] == Linked(switched[..], k, t)[p] {
      assert NextLink(k, t, LinkBefore(k, t, p)) == p;
    }
  }

  /** The links of a stage pair its outputs with the inputs of the next. */
  lemma {:induction false} LinksPair(k: nat, t: nat)
    requires k > 0
    ensures forall l: nat {:trigger NextLink(k, t, l)} :: l < Ports(k) ==> NextLink(k, t, l) < Ports(k) && LinkBefore(k, t, NextLink(k, t, l)) == l
    ensures forall l: nat {:trigger LinkBefore(k, t, l)} :: l < Ports(k) ==> LinkBefore(k, t, l) < Ports(k) && NextLink(k, t, LinkBefore(k, t, l)) == l
  {
    forall l: nat | l < Ports(k)
      ensures NextLink(k, t, l) < Ports(k) && LinkBefore(k, t, NextLink(k, t, l)) == l
      ensures LinkBefore(k, t, l) < Ports(k) && NextLink(k, t, LinkBefore(k, t, l)) == l
    {
      LinksAreRotations(k, l);
    }
  }

  /** Stage by stage through two buffers; the last stage has no links. */
  method Route<T(0)>(k: nat, control: seq<bool>, data: seq<T>) returns (r: array<T>)
    requires ControlWord(k, control) && |data| == Ports(k)
    ensures fresh(r) && r[..] == Network(data, k, control)
  {
    var n := Ports(k);
    var wires := new T[n](i requires 0 <= i < n => data[i]);
    var stage := 0;
    while true
      invariant stage < Stages(k) && wires.Length == n && fresh(wires)
      invariant wires[..] == Wires(data, k, control, stage)
      decreases Stages(k) - stage
    {
      var switched := new T[n];
      SwitchStage(k, control, stage, wires, switched);
      if stage == Stages(k) - 1 {
        return switched;
      }
      var next := new T[n];
      LinkStage(k, stage, switched, next);
      wires := next;
      stage := stage + 1;
    }
  }

  // ----- every control word realises a permutation

  lemma PartnerInside(k: nat, p: nat)
    requires k > 0 && p < Ports(k)
    ensures Partner(p) < Ports(k) && Partner(p) / 2 == p / 2 && Partner(Partner(p)) == p && Partner(p) != p
  {
  }

  lemma SwitchedPermutes(k: nat, control: seq<bool>, t: nat, p: seq<nat>)
    requires ControlWord(k, control) && |p| == Ports(k) && t < Stages(k) && Permutation(p)
    ensures Permutation(Switched(p, k, control, t))
  {
    var s := Switched(Identity(Ports(k)), k, control, t);
    forall i: nat | i < |s| ensures s[i] < |s| && s[s[i]] == i && Switched(p, k, control, t)[i] == p[s[i]] {
      PartnerInside(k, i);
    }
    InvolutionPermutes(s);
    CarryTwice(p, p, s);
    assert Switched(p, k, control, t) == Carry(p, s);
  }

  lemma {:induction false} LinkedPermutes(k: nat, t: nat, p: seq<nat>)
    requires k > 0 && |p| == Ports(k) && Permutation(p)
    ensures Permutation(Linked(p, k, t))
  {
    var s := Linked(Identity(Ports(k)), k, t);
    forall i: nat | i < |s| ensures s[i] < |s| && Linked(p, k, t)[i] == p[s[i]] && NextLink(k, t, s[i]) == i {
      LinksAreRotations(k, i);
    }
    CarryTwice(p, p, s);
    assert Linked(p, k, t) == Carry(p, s);
  }

  lemma {:induction false} WiresAreCarried<T>(data: seq<T>, k: nat, control: seq<bool>, t: nat)
    requires ControlWord(k, control) && |data| == Ports(k) && t < Stages(k)
    ensures var p := Wires(Identity(Ports(k)), k, control, t); Permutation(p) && Wires(data, k, control, t) == Carry(data, p)
    decreases t
  {
    if t > 0 {
      WiresAreCarried(data, k, control, t - 1);
      StageCarries(data, k, control, t - 1, Wires(Identity(Ports(k)), k, control, t - 1));
    }
  }

  lemma {:induction false} StageCarries<T>(data: seq<T>, k: nat, control: seq<bool>, t: nat, p: seq<nat>)
    requires ControlWord(k, control) && |data| == |p| == Ports(k) && t < Stages(k) && Permutation(p)
    ensures var q := Linked(Switched(p, k, control, t), k, t);
      Permutation(q) && Linked(Switched(Carry(data, p), k, control, t), k, t) == Carry(data, q)
  {
    SwitchedCarries(data, k, control, t, p);
    LinkedCarries(data, k, t, Switched(p, k, control, t));
  }

  lemma {:induction false} SwitchedCarries<T>(data: seq<T>, k: nat, control: seq<bool>, t: nat, p: seq<nat>)
    requires ControlWord(k, control) && |data| == |p| == Ports(k) && t < Stages(k) && Permutation(p)
    ensures Permutation(Switched(p, k, control, t))
    ensures Switched(Carry(data, p), k, control, t) == Carry(data, Switched(p, k, control, t))
  {
    SwitchedPermutes(k, control, t, p);
  }

  lemma {:induction false} LinkedCarries<T>(data: seq<T>, k: nat, t: nat, p: seq<nat>)
    requires k > 0 && |data| == |p| == Ports(k) && Permutation(p)
    ensures Permutation(Linked(p, k, t)) && Linked(Carry(data, p), k, t) == Carry(data, Linked(p, k, t))
  {
    LinkedPermutes(k, t, p);
    forall i: nat | i < |p| ensures Linked(Carry(data, p), k, t)[i] == Carry(data, Linked(p, k, t))[i] {
      LinksAreRotations(k, i);
    }
  }

  /** What a control word does to the port numbers is a permutation, and it does the same to any data. */
  lemma {:induction false} EveryControlPermutes<T>(data: seq<T>, k: nat, control: seq<bool>)
    requires ControlWord(k, control) && |data| == Ports(k)
    ensures var p := Network(Identity(Ports(k)), k, control);
      Permutation(p) && Network(data, k, control) == Carry(data, p)
  {
    var t := Stages(k) - 1;
    WiresAreCarried(data, k, control, t);
    SwitchedCarries(data, k, control, t, Wires(Identity(Ports(k)), k, control, t));
  }

  // ----- every permutation is realised

  /** How far the port numbers have turned when stage `t` exchanges their lowest bit. */
  function Turned(k: nat, t: nat): (j: nat)
    requires k > 0 && t < Stages(k)
    ensures 0 < j <= k && k - j == Exponent(k, t)
  {
    if t < k then t + 1 else 2 * k - 1 - t
  }

  function Turns(k: nat, j: nat): (p: seq<nat>)
    requires j <= k
    ensures |p| == Pow2(k) && forall i :: 0 <= i < |p| ==> p[i] < |p|
  {
    seq(Pow2(k), i requires 0 <= i < Pow2(k) => TurnedPort(k, j, i))
  }

  function TurnedPort(k: nat, j: nat, p: nat): (r: nat)
    requires j <= k && p < Pow2(k)
    ensures r < Pow2(k)
  {
    RotatedInside(k, j, p);
    Rotated(k, j, p)
  }

  /** The control bits of stage `t`, indexed by label instead of port. */
  function Setting(k: nat, control: seq<bool>, t: nat): (c: seq<bool>)
    requires ControlWord(k, control) && t < Stages(k)
    ensures |c| == Ports(k)
  {
    var back := Turns(k, k - Turned(k, t));
    seq(Ports(k), l requires 0 <= l < Ports(k) => SwitchInside(k, t, back[l]); control[Switch(k, t, back[l])])
  }

  /** `t` stages of exchanges, on labels. */
  ghost function Exchanges<T>(x: seq<T>, k: nat, cs: seq<seq<bool>>, t: nat): (r: seq<T>)
    requires k > 0 && Settings(|x|, k, cs) && t <= |cs|
    ensures |r| == |x|
    decreases t
  {
    if t == 0 then x else
      assert |cs[t - 1]| == |x| && Symmetric(Weight(k, t - 1), cs[t - 1]);
      ExchangePermutes(Weight(k, t - 1), cs[t - 1]);
      Carry(Exchanges(x, k, cs, t - 1), Exchange(Weight(k, t - 1), cs[t - 1]))
  }

  lemma {:induction false} SwitchedOnLabels<T>(x: seq<T>, k: nat, control: seq<bool>, t: nat, c: seq<bool>)
    requires ControlWord(k, control) && |x| == |c| == Ports(k) && t < Stages(k)
    requires Symmetric(Weight(k, t), c) && c == Setting(k, control, t) && Permutation(Exchange(Weight(k, t), c))
    ensures var turns := Turns(k, Turned(k, t));
      Switched(Carry(x, turns), k, control, t) == Carry(Carry(x, Exchange(Weight(k, t), c)), turns)
  {
    var j := Turned(k, t);
    var turns := Turns(k, j);
    forall p: nat | p < Ports(k)
      ensures Switched(Carry(x, turns), k, control, t)[p] == Carry(Carry(x, Exchange(Weight(k, t), c)), turns)[p]
    {
      PartnerInside(k, p);
      PartnerFlips(k, j, p);
      RotateBack(k, j, p);
      SwitchInside(k, t, p);
      assert c[turns[p]] == control[Switch(k, t, p)];
    }
  }

  lemma {:induction false} LinkedOnLabels<T>(y: seq<T>, k: nat, t: nat)
    requires k > 0 && |y| == Ports(k) && t + 1 < Stages(k)
    ensures Linked(Carry(y, Turns(k, Turned(k, t))), k, t) == Carry(y, Turns(k, Turned(k, t + 1)))
  {
    var j := Turned(k, t);
    forall p: nat | p < Ports(k)
      ensures Linked(Carry(y, Turns(k, j)), k, t)[p] == Carry(y, Turns(k, Turned(k, t + 1)))[p]
    {
      LinksAreRotations(k, p);
      if t < k - 1 {
        RotateTwice(k, j, 1, p);
      } else {
        RotateTwice(k, j - 1, 1, Left(k, p));
        LinksAreRotations(k, Left(k, p));
      }
    }
  }

  /** `ws` are the wires entering one stage after the other. */
  ghost predicate WireTrace<T>(ws: seq<seq<T>>, k: nat, control: seq<bool>)
    requires ControlWord(k, control) && |ws| <= Stages(k)
  {
    forall i: nat :: i + 1 < |ws| ==> NextWires(ws, k, control, i)
  }

  ghost predicate NextWires<T>(ws: seq<seq<T>>, k: nat, control: seq<bool>, i: nat)
    requires ControlWord(k, control) && i + 1 < |ws| <= Stages(k)
  {
    |ws[i]| == Ports(k) && ws[i + 1] == Linked(Switched(ws[i], k, control, i), k, i)
  }

  lemma {:induction false} WiresTrace<T>(z: seq<T>, k: nat, control: seq<bool>, t: nat) returns (ws: seq<seq<T>>)
    requires ControlWord(k, control) && |z| == Ports(k) && t < Stages(k)
    ensures |ws| == t + 1 && ws[0] == z && ws[t] == Wires(z, k, control, t) && WireTrace(ws, k, control)
    decreases t
  {
    if t == 0 {
      ws := [z];
    } else {
      var before := WiresTrace(z, k, control, t - 1);
      ws := before + [Wires(z, k, control, t)];
      forall i: nat | i < t ensures NextWires(ws, k, control, i) {
        if i < t - 1 {
          assert NextWires(before, k, control, i);
        }
      }
    }
  }

  lemma {:induction false} TracesAgree<T>(ws: seq<seq<T>>, ys: seq<seq<T>>, k: nat, control: seq<bool>, cs: seq<seq<bool>>, t: nat)
    requires ControlWord(k, control) && t < |ws| <= Stages(k) && |ys| == |ws| && WireTrace(ws, k, control)
    requires Settings(Ports(k), k, cs) && forall i: nat :: i < Stages(k) ==> cs[i] == Setting(k, control, i)
    requires forall i: nat :: i + 1 < |ys| ==> Exchanged(ys[i], ys[i + 1], Weight(k, i), cs[i])
    requires |ys[0]| == Ports(k) && ws[0] == Carry(ys[0], Turns(k, 1))
    ensures |ys[t]| == Ports(k) && ws[t] == Carry(ys[t], Turns(k, Turned(k, t)))
    decreases t
  {
    if t > 0 {
      TracesAgree(ws, ys, k, control, cs, t - 1);
      assert NextWires(ws, k, control, t - 1) && Exchanged(ys[t - 1], ys[t - 1 + 1], Weight(k, t - 1), cs[t - 1]);
      NextOnLabels(ws[t - 1], ws[t], ys[t - 1], ys[t], k, control, cs, t - 1, t);
    }
  }

  /** The wires `w` entering stage `t` are the labels `y` after `t` exchanges, turned. */
  lemma {:induction false} WiresAreLabels<T>(x: seq<T>, z: seq<T>, k: nat, control: seq<bool>, cs: seq<seq<bool>>, t: nat, w: seq<T>, y: seq<T>)
    requires ControlWord(k, control) && |x| == Ports(k) && Settings(|x|, k, cs) && t < Stages(k)
    requires forall i: nat :: i < Stages(k) ==> cs[i] == Setting(k, control, i)
    requires z == Carry(x, Turns(k, 1)) && w == Wires(z, k, control, t) && y == Exchanges(x, k, cs, t)
    ensures w == Carry(y, Turns(k, Turned(k, t)))
  {
    var ws := WiresTrace(z, k, control, t);
    var ys := ExchangesTrace(x, k, cs, t);
    TracesAgree(ws, ys, k, control, cs, t);
  }

  /** A stage and its links, on wires `w` that carry the labels `y`. */
  lemma {:induction false} NextOnLabels<T>(w: seq<T>, w': seq<T>, y: seq<T>, y': seq<T>, k: nat, control: seq<bool>, cs: seq<seq<bool>>, t: nat, t': nat)
    requires ControlWord(k, control) && |w| == |y| == Ports(k) && Settings(|y|, k, cs) && t' == t + 1 < Stages(k)
    requires cs[t] == Setting(k, control, t) && w == Carry(y, Turns(k, Turned(k, t)))
    requires Exchanged(y, y', Weight(k, t), cs[t]) && w' == Linked(Switched(w, k, control, t), k, t)
    ensures w' == Carry(y', Turns(k, Turned(k, t')))
  {
    StageOnLabels(y, k, control, cs, t);
    LinkedOnLabels(y', k, t);
  }

  lemma {:induction false} StageOnLabels<T>(y: seq<T>, k: nat, control: seq<bool>, cs: seq<seq<bool>>, t: nat)
    requires ControlWord(k, control) && |y| == Ports(k) && Settings(|y|, k, cs) && t < Stages(k)
    requires cs[t] == Setting(k, control, t)
    ensures |cs[t]| == |y| && Permutation(Exchange(Weight(k, t), cs[t]))
    ensures Switched(Carry(y, Turns(k, Turned(k, t))), k, control, t)
         == Carry(Carry(y, Exchange(Weight(k, t), cs[t])), Turns(k, Turned(k, t)))
  {
    assert |cs[t]| == |y| && Symmetric(Weight(k, t), cs[t]);
    ExchangePermutes(Weight(k, t), cs[t]);
    SwitchedOnLabels(y, k, control, t, cs[t]);
  }

  lemma {:induction false} NetworkOnLabels<T>(x: seq<T>, z: seq<T>, k: nat, control: seq<bool>, cs: seq<seq<bool>>, last: nat, w: seq<T>, y: seq<T>, y': seq<T>)
    requires ControlWord(k, control) && |x| == Ports(k) && Settings(|x|, k, cs) && last == Stages(k) - 1
    requires forall i: nat :: i < Stages(k) ==> cs[i] == Setting(k, control, i)
    requires z == Carry(x, Turns(k, 1)) && w == Wires(z, k, control, last)
    requires y == Exchanges(x, k, cs, last) && y' == Exchanges(x, k, cs, last + 1)
    ensures Network(z, k, control) == Carry(y', Turns(k, 1))
  {
    WiresAreLabels(x, z, k, control, cs, last, w, y);
    ExchangesStep(x, k, cs, last, y, y');
    LastOnLabels(w, y, y', k, control, cs, last);
    LastWires(z, k, control, last, w);
  }

  lemma {:induction false} LastWires<T>(z: seq<T>, k: nat, control: seq<bool>, last: nat, w: seq<T>)
    requires ControlWord(k, control) && |z| == Ports(k) && last == Stages(k) - 1 && w == Wires(z, k, control, last)
    ensures Network(z, k, control) == Switched(w, k, control, last)
  {
  }

  lemma {:induction false} LastOnLabels<T>(w: seq<T>, y: seq<T>, y': seq<T>, k: nat, control: seq<bool>, cs: seq<seq<bool>>, last: nat)
    requires ControlWord(k, control) && |w| == |y| == Ports(k) && Settings(|y|, k, cs) && last + 1 == Stages(k)
    requires cs[last] == Setting(k, control, last) && w == Carry(y, Turns(k, Turned(k, last)))
    requires Exchanged(y, y', Weight(k, last), cs[last])
    ensures Switched(w, k, control, last) == Carry(y', Turns(k, 1))
  {
    StageOnLabels(y, k, control, cs, last);
  }

  ghost predicate Exchanged<T>(x: seq<T>, y: seq<T>, h: nat, c: seq<bool>)
    requires h > 0
  {
    |c| == |x| == |y| && Permutation(Exchange(h, c)) && y == Carry(x, Exchange(h, c))
  }

  /** A stack wrapped in one more pair of exchanges. */
  lemma StackGrows<T>(y: seq<T>, m: nat, mid: seq<seq<bool>>, y': seq<T>, z': seq<T>, z: seq<T>)
    requires m > 1 && Settings(|y|, m, mid) && Settings(|y'|, m - 1, mid[1..2 * m - 2])
    requires Exchanged(y, y', Pow2(m - 1), mid[0]) && Exchanged(z', z, Pow2(m - 1), mid[2 * m - 2])
    requires z' == Stack(y', m - 1, mid[1..2 * m - 2])
    ensures Stack(y, m, mid) == z
  {
  }

  ghost predicate Trace<T>(states: seq<seq<T>>, k: nat, cs: seq<seq<bool>>) {
    |states| == |cs| + 1 && forall t: nat :: t < |cs| ==> Exchanged(states[t], states[t + 1], Weight(k, t), cs[t])
  }

  /** The inner `2m - 1` exchanges, from stage `first` on, form the recursive stack. */
  lemma {:induction false} InnerStack<T>(states: seq<seq<T>>, n: nat, k: nat, cs: seq<seq<bool>>, m: nat, first: nat, last: nat)
    requires 0 < m <= k && Settings(n, k, cs) && first + m == k && last + 1 == k + m && Trace(states, k, cs)
    ensures |states[first]| == n && Settings(n, m, cs[first..last])
    ensures Stack(states[first], m, cs[first..last]) == states[last]
    decreases m
  {
    var mid := cs[first..last];
    var second, before := first + 1, last - 1;
    InnerSettings(n, k, cs, m, first, last);
    OuterExchanges(states, k, cs, m, first, last, second, before, mid);
    if m > 1 {
      InnerStack(states, n, k, cs, m - 1, second, before);
      InnerSlice(cs, first, last, second, before, 2 * m - 2);
      StackGrows(states[first], m, mid, states[second], states[before], states[last]);
    }
  }

  lemma OuterExchanges<T>(states: seq<seq<T>>, k: nat, cs: seq<seq<bool>>, m: nat, first: nat, last: nat, second: nat, before: nat, mid: seq<seq<bool>>)
    requires 0 < m <= k && first + m == k && last + 1 == k + m && |cs| == Stages(k) && Trace(states, k, cs)
    requires second == first + 1 && before == last - 1 && mid == cs[first..last]
    ensures |mid| == 2 * m - 1 && mid[0] == cs[first] && mid[2 * m - 2] == cs[before]
    ensures Exchanged(states[first], states[second], Pow2(m - 1), mid[0]) && Exchanged(states[before], states[last], Pow2(m - 1), mid[2 * m - 2])
  {
    assert Exchanged(states[first], states[second], Weight(k, first), cs[first]);
    assert Exchanged(states[before], states[before + 1], Weight(k, before), cs[before]);
    assert Exponent(k, first) == m - 1 && Exponent(k, before) == m - 1;
  }

  lemma {:induction false} ExchangesStep<T>(x: seq<T>, k: nat, cs: seq<seq<bool>>, t: nat, y: seq<T>, y': seq<T>)
    requires k > 0 && Settings(|x|, k, cs) && t < |cs| && y == Exchanges(x, k, cs, t) && y' == Exchanges(x, k, cs, t + 1)
    ensures Exchanged(y, y', Weight(k, t), cs[t])
  {
    assert |cs[t]| == |x| && Symmetric(Weight(k, t), cs[t]);
    ExchangePermutes(Weight(k, t), cs[t]);
  }

  lemma {:induction false} ExchangesTrace<T>(x: seq<T>, k: nat, cs: seq<seq<bool>>, t: nat) returns (states: seq<seq<T>>)
    requires k > 0 && Settings(|x|, k, cs) && t <= |cs|
    ensures |states| == t + 1 && states[0] == x && states[t] == Exchanges(x, k, cs, t)
    ensures forall i: nat :: i < t ==> Exchanged(states[i], states[i + 1], Weight(k, i), cs[i])
  {
    if t == 0 {
      states := [x];
    } else {
      var before := ExchangesTrace(x, k, cs, t - 1);
      var last := Exchanges(x, k, cs, t);
      ExchangesStep(x, k, cs, t - 1, before[t - 1], last);
      states := before + [last];
      forall i: nat | i < t ensures Exchanged(states[i], states[i + 1], Weight(k, i), cs[i]) {
        if i < t - 1 {
          assert Exchanged(before[i], before[i + 1], Weight(k, i), cs[i]);
        } else {
          assert states[i] == before[t - 1] && states[i + 1] == last;
        }
      }
    }
  }

  lemma {:induction false} ExchangesAreStack<T>(x: seq<T>, k: nat, cs: seq<seq<bool>>, stages: nat)
    requires k > 0 && Settings(|x|, k, cs) && stages == |cs|
    ensures Stack(x, k, cs) == Exchanges(x, k, cs, stages)
  {
    var states := ExchangesTrace(x, k, cs, stages);
    InnerStack(states, |x|, k, cs, k, 0, stages);
    assert cs[0..stages] == cs;
  }

  lemma InnerSlice<T>(s: seq<T>, first: nat, last: nat, second: nat, before: nat, end: nat)
    requires second == first + 1 && before == last - 1 && second <= before < last <= |s| && end == before - first
    ensures s[first..last][1..end] == s[second..before]
  {
  }

  lemma InnerSettings(n: nat, k: nat, cs: seq<seq<bool>>, m: nat, first: nat, last: nat)
    requires 0 < m <= k && Settings(n, k, cs) && first + m == k && last + 1 == k + m
    ensures Settings(n, m, cs[first..last])
  {
    var mid := cs[first..last];
    forall t: nat | t < |mid| ensures |mid[t]| == n && Symmetric(Weight(m, t), mid[t]) {
      assert mid[t] == cs[first + t] && Weight(k, first + t) == Weight(m, t);
    }
  }

  /** The control word that gives each stage its settings. */
  function Control(k: nat, cs: seq<seq<bool>>): (control: seq<bool>)
    requires k > 0 && |cs| == Stages(k) && forall t: nat :: t < |cs| ==> |cs[t]| == Ports(k)
    ensures ControlWord(k, control)
  {
    var half := Ports(k) / 2;
    MulNonNegative(Stages(k), half);
    seq(Stages(k) * half, i requires 0 <= i < Stages(k) * half =>
      var t := StageOf(k, i);
      cs[t][Turns(k, Turned(k, t))[2 * (i % half)]])
  }

  function StageOf(k: nat, i: nat): (t: nat)
    requires k > 0 && i < Stages(k) * (Ports(k) / 2)
    ensures t < Stages(k)
  {
    var half := Ports(k) / 2;
    MulCommutes(Stages(k), half);
    Bounded(i, half, Stages(k));
    i / half
  }

  lemma {:induction false} ControlSets(k: nat, cs: seq<seq<bool>>, t: nat)
    requires k > 0 && Settings(Ports(k), k, cs) && t < Stages(k)
    ensures Setting(k, Control(k, cs), t) == cs[t]
  {
    var half, j := Ports(k) / 2, Turned(k, t);
    assert |cs[t]| == Ports(k) && Symmetric(Weight(k, t), cs[t]);
    forall l: nat | l < Ports(k) ensures Setting(k, Control(k, cs), t)[l] == cs[t][l] {
      var p := Turns(k, k - j)[l];
      SwitchInside(k, t, p);
      DivModUnique(Switch(k, t, p), half, t, p / 2);
      RotateBack(k, k - j, l);
      if p % 2 == 1 {
        PartnerFlips(k, j, p);
        PartnerInside(k, p);
      }
    }
  }

  /** Each permutation of the ports has a control word that realises it. */
  lemma Rearrangeable(k: nat, sigma: seq<nat>) returns (control: seq<bool>)
    requires k > 0 && |sigma| == Ports(k) && Permutation(sigma)
    ensures ControlWord(k, control) && Network(Identity(Ports(k)), k, control) == sigma
  {
    var target := LabelTarget(k, sigma);
    var cs := StackRealises(k, target);
    var x := Turns(k, k - 1);
    control := SettingsRun(x, k, cs, 2 * k - 2);
    PortsAsLabels(k, sigma, target);
  }

  /** A control word makes the network perform the given settings. */
  lemma {:induction false} SettingsRun<T>(x: seq<T>, k: nat, cs: seq<seq<bool>>, last: nat) returns (control: seq<bool>)
    requires k > 0 && |x| == Ports(k) && Settings(|x|, k, cs) && last + 1 == Stages(k)
    ensures ControlWord(k, control)
    ensures Network(Carry(x, Turns(k, 1)), k, control) == Carry(Stack(x, k, cs), Turns(k, 1))
  {
    control := Control(k, cs);
    forall t: nat | t < Stages(k) ensures cs[t] == Setting(k, control, t) {
      ControlSets(k, cs, t);
    }
    var z := Carry(x, Turns(k, 1));
    NetworkOnLabels(x, z, k, control, cs, last, Wires(z, k, control, last), Exchanges(x, k, cs, last), Exchanges(x, k, cs, last + 1));
    ExchangesAreStack(x, k, cs, last + 1);
  }

  ghost predicate Corresponds(k: nat, sigma: seq<nat>, target: seq<nat>)
    requires k > 0 && |sigma| == |target| == Ports(k)
  {
    forall l: nat :: l < Ports(k) ==> sigma[Turns(k, k - 1)[l]] < Ports(k) && target[l] == Turns(k, 1)[sigma[Turns(k, k - 1)[l]]]
  }

  lemma {:induction false} PortsAsLabels(k: nat, sigma: seq<nat>, target: seq<nat>)
    requires k > 0 && |sigma| == |target| == Ports(k) && Permutation(sigma) && Permutation(target) && Corresponds(k, sigma, target)
    ensures var x := Turns(k, k - 1);
      Carry(x, Turns(k, 1)) == Identity(Ports(k)) && Carry(Carry(x, target), Turns(k, 1)) == sigma
  {
    var x, y := Turns(k, k - 1), Turns(k, 1);
    forall p: nat | p < Ports(k) ensures x[y[p]] == p {
      RotateBack(k, 1, p);
    }
    forall p: nat | p < Ports(k) ensures Carry(Carry(x, target), y)[p] == sigma[p] {
      assert x[y[p]] == p && target[y[p]] == y[sigma[p]] && x[y[sigma[p]]] == sigma[p];
    }
  }

  /** The permutation of labels that corresponds to the permutation `sigma` of ports. */
  lemma LabelTarget(k: nat, sigma: seq<nat>) returns (target: seq<nat>)
    requires k > 0 && |sigma| == Ports(k) && Permutation(sigma)
    ensures |target| == Ports(k) && Permutation(target) && Corresponds(k, sigma, target)
    ensures |target| % Pow2(k) == 0 && KeepsBlocks(Pow2(k), target)
  {
    var x, y := Turns(k, k - 1), Turns(k, 1);
    TurnsPermute(k, 1);
    TurnsPermute(k, k - 1);
    var turned := Carry(sigma, x);
    CarryTwice(sigma, sigma, x);
    CarryTwice(y, y, turned);
    target := Carry(y, turned);
    OneBlock(Pow2(k), target);
  }

  lemma {:induction false} OneBlock(n: nat, p: seq<nat>)
    requires |p| == n > 0 && Permutation(p)
    ensures n % n == 0 && KeepsBlocks(n, p)
  {
    forall i: nat | i < n ensures p[i] / n == i / n {
      DivModUnique(p[i], n, 0, p[i]);
      DivModUnique(i, n, 0, i);
    }
    DivModUnique(n, n, 1, 0);
  }

  lemma {:induction false} TurnsPermute(k: nat, j: nat)
    requires j <= k
    ensures Permutation(Turns(k, j))
  {
    var p := Turns(k, j);
    forall i, i' | 0 <= i < i' < |p| ensures p[i] != p[i'] {
      RotateBack(k, j, i);
      RotateBack(k, j, i');
    }
  }
}
