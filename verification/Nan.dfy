/** Numbers that may be undefined: what unwritten memory holds, and what arithmetic on it gives. */
module Nan {
  import opened RealArith
  import opened Sums

  /** NaN stands for every value that is not a finite number; a product with zero does not hide it. */
  datatype Number = NaN | Real(v: real)

  function Add(a: Number, b: Number): Number { if a.NaN? || b.NaN? then NaN else Real(a.v + b.v) }
  function Sub(a: Number, b: Number): Number { if a.NaN? || b.NaN? then NaN else Real(a.v - b.v) }
  function Mul(a: Number, b: Number): Number { if a.NaN? || b.NaN? then NaN else Real(Times(a.v, b.v)) }

  /** A quotient by zero is infinite or undefined. */
  function Quotient(a: real, b: real): Number { if b == 0.0 then NaN else Real(a / b) }

  function NSum(lo: int, hi: int, f: int -> Number): Number
    decreases hi - lo
  {
    if lo >= hi then Real(0.0) else Add(NSum(lo, hi - 1, f), f(hi - 1))
  }

  lemma {:induction false} NSumSplit(lo: int, mid: int, hi: int, f: int -> Number)
    requires lo <= mid <= hi
    ensures NSum(lo, hi, f) == Add(NSum(lo, mid, f), NSum(mid, hi, f))
    decreases hi - mid
  {
    hide Add;
    AddUnit(NSum(lo, mid, f));
    if mid < hi {
      NSumSplit(lo, mid, hi - 1, f);
      AddAssoc(NSum(lo, mid, f), NSum(mid, hi - 1, f), f(hi - 1));
    }
  }

  lemma AddUnit(x: Number)
    ensures Add(x, Real(0.0)) == x
  {
  }

  lemma AddAssoc(x: Number, y: Number, z: Number)
    ensures Add(Add(x, y), z) == Add(x, Add(y, z))
  {
  }

  /** A sum of numbers is the number it is over the reals ... */
  lemma {:induction false} NSumIs(lo: int, hi: int, f: int -> Number, g: int -> real)
    requires forall i :: lo <= i < hi ==> f(i) == Real(g(i))
    ensures NSum(lo, hi, f) == Real(Sum(lo, hi, g))
    decreases hi - lo
  {
    if lo < hi { NSumIs(lo, hi - 1, f, g); }
  }

  /** ... and one undefined term makes it undefined. */
  lemma {:induction false} NSumUndefined(lo: int, hi: int, f: int -> Number, k: int)
    requires lo <= k < hi && f(k).NaN?
    ensures NSum(lo, hi, f).NaN?
    decreases hi - lo
  {
    if k < hi - 1 { NSumUndefined(lo, hi - 1, f, k); }
  }

  function ValueOf(x: Number): real { if x.Real? then x.v else 0.0 }

  /** A sum is a number exactly when all its terms are. */
  lemma NSumIff(lo: int, hi: int, f: int -> Number)
    ensures NSum(lo, hi, f).Real? <==> forall i :: lo <= i < hi ==> f(i).Real?
    ensures NSum(lo, hi, f).Real? ==> NSum(lo, hi, f).v == Sum(lo, hi, i => ValueOf(f(i)))
  {
    if forall i :: lo <= i < hi ==> f(i).Real? {
      NSumIs(lo, hi, f, i => ValueOf(f(i)));
    } else {
      var k :| lo <= k < hi && f(k).NaN?;
      NSumUndefined(lo, hi, f, k);
    }
  }
}
