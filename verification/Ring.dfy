/** Commutative rings given by their operations.

    Each law is a predicate over its operands, and `Lawful` quantifies over those predicates, so
    that a law is only ever instantiated where a proof names it. */
module Rings {

  datatype Ring<!T(!new)> = Ring(zero: T, one: T, add: (T, T) -> T, neg: T -> T, mul: (T, T) -> T) {
    ghost predicate AddAssoc(x: T, y: T, z: T) { add(add(x, y), z) == add(x, add(y, z)) }

    ghost predicate AddComm(x: T, y: T) { add(x, y) == add(y, x) }

    ghost predicate AddUnit(x: T) { add(zero, x) == x }

    ghost predicate AddInverse(x: T) { add(x, neg(x)) == zero }

    ghost predicate MulAssoc(x: T, y: T, z: T) { mul(mul(x, y), z) == mul(x, mul(y, z)) }

    ghost predicate MulComm(x: T, y: T) { mul(x, y) == mul(y, x) }

    ghost predicate MulUnit(x: T) { mul(one, x) == x }

    ghost predicate Distributes(x: T, y: T, z: T) { mul(x, add(y, z)) == add(mul(x, y), mul(x, z)) }

    ghost predicate Lawful() {
      && (forall x, y, z :: AddAssoc(x, y, z))
      && (forall x, y :: AddComm(x, y))
      && (forall x :: AddUnit(x))
      && (forall x :: AddInverse(x))
      && (forall x, y, z :: MulAssoc(x, y, z))
      && (forall x, y :: MulComm(x, y))
      && (forall x :: MulUnit(x))
      && (forall x, y, z :: Distributes(x, y, z))
    }

    function Sub(x: T, y: T): T { add(x, neg(y)) }

    function Pow(w: T, e: nat): T {
      if e == 0 then one else mul(w, Pow(w, e - 1))
    }

    lemma MulZero(x: T)
      requires Lawful()
      ensures mul(x, zero) == zero
    {
      var p := mul(x, zero);
      assert AddUnit(zero) && Distributes(x, zero, zero);
      assert add(p, p) == p;
      assert AddAssoc(p, p, neg(p)) && AddInverse(p) && AddComm(p, zero) && AddUnit(p);
    }

    lemma CancelLeft(x: T, y: T, z: T)
      requires Lawful() && add(x, y) == add(x, z)
      ensures y == z
    {
      assert AddAssoc(neg(x), x, y) && AddAssoc(neg(x), x, z);
      assert AddComm(x, neg(x)) && AddInverse(x) && AddUnit(y) && AddUnit(z);
    }

    lemma MulNeg(x: T, y: T)
      requires Lawful()
      ensures mul(x, neg(y)) == neg(mul(x, y)) && mul(neg(x), y) == neg(mul(x, y))
    {
      MulZero(x);
      assert Distributes(x, y, neg(y)) && AddInverse(y) && AddInverse(mul(x, y));
      CancelLeft(mul(x, y), mul(x, neg(y)), neg(mul(x, y)));
      MulZero(y);
      assert MulComm(x, y) && MulComm(neg(x), y);
      assert Distributes(y, x, neg(x)) && AddInverse(x) && AddInverse(mul(y, x));
      CancelLeft(mul(y, x), mul(y, neg(x)), neg(mul(y, x)));
    }

    lemma {:induction false} PowAdd(w: T, a: nat, b: nat)
      requires Lawful()
      ensures Pow(w, a + b) == mul(Pow(w, a), Pow(w, b))
    {
      if a == 0 {
        assert MulUnit(Pow(w, b));
      } else {
        PowAdd(w, a - 1, b);
        assert MulAssoc(w, Pow(w, a - 1), Pow(w, b));
      }
    }

    /** If `w^n` is one then so is `w` to every multiple of `n`. */
    lemma {:induction false} PowOne(w: T, n: nat, q: nat)
      requires Lawful() && Pow(w, n) == one
      ensures Pow(w, n * q) == one
    {
      if q == 0 {
        assert n * q == 0;
      } else {
        PowOne(w, n, q - 1);
        assert n * q == n + n * (q - 1);
        PowAdd(w, n, n * (q - 1));
        assert MulUnit(one);
      }
    }
  }
}
