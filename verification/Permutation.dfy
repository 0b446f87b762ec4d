/** Permutations as sequences of indices, and colourings of two pairings. */
module Permutations {

  ghost predicate Permutation(p: seq<nat>) {
    && (forall i :: 0 <= i < |p| ==> p[i] < |p|)
    && forall i, j :: 0 <= i < j < |p| ==> p[i] != p[j]
  }

  /** The data carried along: output `i` shows input `p[i]`. */
  function Carry<T>(data: seq<T>, p: seq<nat>): (r: seq<T>)
    requires forall i :: 0 <= i < |p| ==> p[i] < |data|
    ensures |r| == |p|
  {
    seq(|p|, i requires 0 <= i < |p| => data[p[i]])
  }

  function Identity(n: nat): (p: seq<nat>)
    ensures |p| == n
  {
    seq(n, i => i)
  }

  lemma CarryTwice<T>(data: seq<T>, p: seq<nat>, q: seq<nat>)
    requires |data| == |p| == |q| && Permutation(p) && Permutation(q)
    ensures Permutation(Carry(p, q)) && Carry(Carry(data, p), q) == Carry(data, Carry(p, q))
  {
    var r := Carry(p, q);
    forall i, j | 0 <= i < j < |r| ensures r[i] != r[j] {
      assert q[i] != q[j];
      if q[i] < q[j] {
        assert p[q[i]] != p[q[j]];
      } else {
        assert p[q[j]] != p[q[i]];
      }
    }
  }

  lemma InvolutionPermutes(p: seq<nat>)
    requires forall i: nat :: i < |p| ==> p[i] < |p| && p[p[i]] == i
    ensures Permutation(p)
  {
    forall i, j | 0 <= i < j < |p| ensures p[i] != p[j] {
      assert p[p[i]] == i && p[p[j]] == j;
    }
  }

  // ----- every index occurs in a permutation

  ghost function Values(p: seq<nat>): (r: set<nat>)
    ensures forall x :: x in r <==> x in p
  {
    set x | x in p
  }

  ghost function Below(n: nat): (r: set<nat>)
    ensures forall x: nat :: x in r <==> x < n
    ensures |r| == n
  {
    if n == 0 then {} else
      var r := Below(n - 1);
      assert n - 1 !in r;
      r + {n - 1}
  }

  lemma {:induction false} DistinctCount(p: seq<nat>)
    requires forall i, j :: 0 <= i < j < |p| ==> p[i] != p[j]
    ensures |Values(p)| == |p|
  {
    if p != [] {
      var q, last := p[..|p| - 1], p[|p| - 1];
      DistinctCount(q);
      assert p == q + [last];
      assert Values(p) == Values(q) + {last};
      assert last !in q;
    }
  }

  lemma SubsetOfSameSize(a: set<nat>, b: set<nat>)
    requires a <= b && |a| == |b|
    ensures a == b
  {
    assert b == a + (b - a);
    assert |b| == |a| + |b - a|;
  }

  lemma Occurs(p: seq<nat>, x: nat)
    requires Permutation(p) && x < |p|
    ensures x in p
  {
    DistinctCount(p);
    assert Values(p) <= Below(|p|);
    SubsetOfSameSize(Values(p), Below(|p|));
    assert x in Below(|p|);
  }

  /** The place where `x` occurs. */
  ghost function Position(p: seq<nat>, x: nat): (i: nat)
    requires Permutation(p) && x < |p|
    ensures i < |p| && p[i] == x
  {
    Occurs(p, x);
    var i :| 0 <= i < |p| && p[i] == x;
    i
  }

  lemma PositionIsInverse(p: seq<nat>, i: nat)
    requires Permutation(p) && i < |p|
    ensures Position(p, p[i]) == i
  {
    var j := Position(p, p[i]);
    assert !(j < i) && !(i < j);
  }

  // ----- two pairings of one set

  ghost predicate Paired(f: map<nat, nat>, x: nat) {
    x in f && f[x] in f && f[x] != x && f[f[x]] == x
  }

  /** `f` pairs off the elements of `s`. */
  ghost predicate Pairing(f: map<nat, nat>, s: set<nat>) {
    f.Keys == s && forall x {:trigger Paired(f, x)} :: x in s ==> Paired(f, x)
  }

  ghost predicate Split(c: map<nat, bool>, f: map<nat, nat>, x: nat) {
    x in f && f[x] in c && x in c && c[f[x]] != c[x]
  }

  ghost predicate Separates(c: map<nat, bool>, f: map<nat, nat>) {
    forall x {:trigger Split(c, f, x)} :: x in f ==> Split(c, f, x)
  }

  /** `g` without `x` and `y`, their partners paired instead. */
  ghost function Bypass(g: map<nat, nat>, x: nat, y: nat): map<nat, nat>
    requires Paired(g, x) && Paired(g, y)
  {
    map z | z in g.Keys - {x, y} :: if z == g[x] then g[y] else if z == g[y] then g[x] else g[z]
  }

  lemma BypassPairs(g: map<nat, nat>, s: set<nat>, x: nat, y: nat)
    requires Pairing(g, s) && Paired(g, x) && Paired(g, y) && x != y
    ensures Pairing(Bypass(g, x, y), s - {x, y})
  {
    var r := Bypass(g, x, y);
    forall z {:trigger Paired(r, z)} | z in s - {x, y} ensures Paired(r, z) {
      assert Paired(g, z);
      if z != g[x] && z != g[y] {
        assert Paired(g, g[z]);
      }
    }
  }

  /** The looping argument: two pairings of a set have a common two-colouring that separates every
      pair of either. A pair of `f` is removed, and its two partners in `g` become a pair of `g`. */
  lemma {:induction false} TwoColouring(s: set<nat>, f: map<nat, nat>, g: map<nat, nat>) returns (c: map<nat, bool>)
    requires Pairing(f, s) && Pairing(g, s)
    ensures c.Keys == s && Separates(c, f) && Separates(c, g)
    decreases |s|
  {
    if s == {} {
      c := map[];
    } else {
      var x :| x in s;
      assert Paired(f, x) && Paired(g, x);
      var y := f[x];
      assert Paired(f, y) && Paired(g, y);
      BypassPairs(f, s, x, y);
      BypassPairs(g, s, x, y);
      c := TwoColouring(s - {x, y}, Bypass(f, x, y), Bypass(g, x, y));
      c := Extended(s, f, g, x, c);
    }
  }

  lemma Extended(s: set<nat>, f: map<nat, nat>, g: map<nat, nat>, x: nat, c: map<nat, bool>) returns (r: map<nat, bool>)
    requires Pairing(f, s) && Pairing(g, s) && Paired(f, x) && Paired(g, x) && Paired(g, f[x]) && c.Keys == s - {x, f[x]}
    requires Paired(f, f[x]) && Separates(c, Bypass(f, x, f[x])) && Separates(c, Bypass(g, x, f[x]))
    ensures r.Keys == s && Separates(r, f) && Separates(r, g)
  {
    var y := f[x];
    var f', g' := Bypass(f, x, y), Bypass(g, x, y);
    r := if g[x] == y then c[x := true][y := false] else c[x := !c[g[x]]][y := !c[g[y]]];
    if g[x] != y {
      assert Split(c, g', g[x]);
    }
    forall z {:trigger Split(r, f, z)} {:trigger Split(r, g, z)} | z in s ensures Split(r, f, z) && Split(r, g, z) {
      assert Paired(f, z) && Paired(g, z);
      if z != x && z != y {
        assert Split(c, f', z) && Split(c, g', z);
      }
    }
  }
}
