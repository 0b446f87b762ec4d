/** The discrete Fourier transform over any commutative ring, and the even/odd split behind the
    butterfly. */
module Dft {
  import opened Rings

  /** Output `k` of the transform is the sum over j of `x[j] w^(jk)`; `Prefix` adds up j < count. */
  function Prefix<T(!new)>(R: Ring<T>, w: T, x: seq<T>, k: nat, count: nat): T
    requires count <= |x|
  {
    if count == 0 then R.zero
    else R.add(Prefix(R, w, x, k, count - 1), R.mul(x[count - 1], R.Pow(w, (count - 1) * k)))
  }

  function Transform<T(!new)>(R: Ring<T>, w: T, x: seq<T>, k: nat): T {
    Prefix(R, w, x, k, |x|)
  }

  /** The polynomial with coefficients `x[offset], x[offset+stride], ...` (`count` of them) at `z`,
      by Horner's rule. Coefficients past the end of `x` are zero. */
  function Horner<T(!new)>(R: Ring<T>, x: seq<T>, offset: nat, stride: nat, count: nat, z: T): T
    decreases count
  {
    if count == 0 then R.zero
    else R.add(if offset < |x| then x[offset] else R.zero,
               R.mul(z, Horner(R, x, offset + stride, stride, count - 1, z)))
  }

  /** Even coefficients at `z^2` plus `z` times the odd ones at `z^2`. */
  lemma {:induction false} EvenOdd<T(!new)>(R: Ring<T>, x: seq<T>, offset: nat, stride: nat, m: nat, z: T)
    requires R.Lawful()
    ensures Horner(R, x, offset, stride, 2 * m, z)
         == R.add(Horner(R, x, offset, 2 * stride, m, R.mul(z, z)),
                  R.mul(z, Horner(R, x, offset + stride, 2 * stride, m, R.mul(z, z))))
    decreases m
  {
    if m == 0 {
      R.MulZero(z);
      assert R.AddUnit(R.zero);
    } else {
      var zz := R.mul(z, z);
      var x0 := if offset < |x| then x[offset] else R.zero;
      var x1 := if offset + stride < |x| then x[offset + stride] else R.zero;
      var rest := Horner(R, x, offset + 2 * stride, stride, 2 * (m - 1), z);
      var e := Horner(R, x, offset + 2 * stride, 2 * stride, m - 1, zz);
      var o := Horner(R, x, offset + 3 * stride, 2 * stride, m - 1, zz);
      EvenOdd(R, x, offset + 2 * stride, stride, m - 1, z);
      assert rest == R.add(e, R.mul(z, o));
      assert Horner(R, x, offset, stride, 2 * m, z) == R.add(x0, R.mul(z, R.add(x1, R.mul(z, rest)))) by {
        assert Horner(R, x, offset + stride, stride, 2 * m - 1, z) == R.add(x1, R.mul(z, rest));
      }
      Regroup(R, z, x0, x1, e, o);
    }
  }

  lemma Regroup<T(!new)>(R: Ring<T>, z: T, x0: T, x1: T, e: T, o: T)
    requires R.Lawful()
    ensures var zz := R.mul(z, z);
      R.add(x0, R.mul(z, R.add(x1, R.mul(z, R.add(e, R.mul(z, o))))))
      == R.add(R.add(x0, R.mul(zz, e)), R.mul(z, R.add(x1, R.mul(zz, o))))
  {
    var zz, zo := R.mul(z, z), R.mul(z, o);
    assert R.Distributes(z, x1, R.mul(z, R.add(e, zo)));
    assert R.Distributes(z, e, zo) && R.Distributes(z, R.mul(z, e), R.mul(z, zo));
    assert R.MulAssoc(z, z, e) && R.MulAssoc(z, z, o);
    assert R.Distributes(z, x1, R.mul(zz, o));
    var a, b, c := R.mul(z, x1), R.mul(zz, e), R.mul(z, R.mul(zz, o));
    assert R.add(x0, R.add(a, R.add(b, c))) == R.add(R.add(x0, b), R.add(a, c)) by {
      assert R.AddAssoc(a, b, c) && R.AddComm(a, b) && R.AddAssoc(b, a, c) && R.AddAssoc(x0, b, R.add(a, c));
    }
  }

  /** Both outputs of a butterfly: the polynomial at `z` and at minus `z`. */
  lemma Butterfly<T(!new)>(R: Ring<T>, x: seq<T>, offset: nat, stride: nat, m: nat, z: T)
    requires R.Lawful()
    ensures var a := Horner(R, x, offset, 2 * stride, m, R.mul(z, z));
      var t := R.mul(Horner(R, x, offset + stride, 2 * stride, m, R.mul(z, z)), z);
      && Horner(R, x, offset, stride, 2 * m, z) == R.add(a, t)
      && Horner(R, x, offset, stride, 2 * m, R.neg(z)) == R.Sub(a, t)
  {
    var b := Horner(R, x, offset + stride, 2 * stride, m, R.mul(z, z));
    EvenOdd(R, x, offset, stride, m, z);
    EvenOdd(R, x, offset, stride, m, R.neg(z));
    NegSquare(R, z);
    R.MulNeg(z, b);
    assert R.MulComm(z, b);
  }

  lemma NegSquare<T(!new)>(R: Ring<T>, z: T)
    requires R.Lawful()
    ensures R.mul(R.neg(z), R.neg(z)) == R.mul(z, z)
  {
    var p := R.mul(z, z);
    R.MulNeg(z, R.neg(z));
    R.MulNeg(z, z);
    assert R.AddInverse(p) && R.AddInverse(R.neg(p)) && R.AddComm(p, R.neg(p));
    R.CancelLeft(R.neg(p), R.neg(R.neg(p)), p);
  }

  /** The defining sum is the polynomial with coefficients `x` at `w^k`. */
  lemma {:induction false} TransformIsHorner<T(!new)>(R: Ring<T>, w: T, x: seq<T>, k: nat)
    requires R.Lawful()
    ensures Transform(R, w, x, k) == Horner(R, x, 0, 1, |x|, R.Pow(w, k))
  {
    PrefixAndHorner(R, w, x, k, |x|);
    R.MulZero(R.Pow(w, |x| * k));
    assert R.AddComm(R.zero, Transform(R, w, x, k)) && R.AddUnit(Transform(R, w, x, k));
    PrefixAndHorner(R, w, x, k, 0);
    assert R.MulUnit(Horner(R, x, 0, 1, |x|, R.Pow(w, k)));
    assert R.AddUnit(Horner(R, x, 0, 1, |x|, R.Pow(w, k)));
  }

  lemma {:induction false} PrefixAndHorner<T(!new)>(R: Ring<T>, w: T, x: seq<T>, k: nat, n: nat)
    requires R.Lawful() && n <= |x|
    ensures Transform(R, w, x, k)
         == R.add(Prefix(R, w, x, k, n), R.mul(R.Pow(w, n * k), Horner(R, x, n, 1, |x| - n, R.Pow(w, k))))
    decreases |x| - n
  {
    var p, z := R.Pow(w, n * k), R.Pow(w, k);
    if n == |x| {
      R.MulZero(p);
      assert R.AddComm(R.zero, Transform(R, w, x, k)) && R.AddUnit(Transform(R, w, x, k));
    } else {
      PrefixAndHorner(R, w, x, k, n + 1);
      var h := Horner(R, x, n + 1, 1, |x| - n - 1, z);
      assert R.Pow(w, (n + 1) * k) == R.mul(p, z) by {
        assert (n + 1) * k == n * k + k;
        R.PowAdd(w, n * k, k);
      }
      assert R.Distributes(p, x[n], R.mul(z, h)) && R.MulAssoc(p, z, h) && R.MulComm(p, x[n]);
      assert R.AddAssoc(Prefix(R, w, x, k, n), R.mul(x[n], p), R.mul(R.mul(p, z), h));
    }
  }
}
