/** Softmax weights over a range of keys, relative to an arbitrary reference value. */
module Softmax {
  import opened RealArith
  import opened Sums

  // ---------------------------------------------------------------- exponentials

  function Plus(a: real, b: real): real { a + b }

  /** All that is used of exp2. */
  ghost predicate ExpLaw(e: real -> real) {
    && (forall a :: e(a) > 0.0)
    && (forall a, b {:trigger Plus(a, b)} :: e(Plus(a, b)) == Times(e(a), e(b)))
  }

  /** All that is used of log2. */
  ghost predicate LogLaw(e: real -> real, lg: real -> real) {
    forall x :: x > 0.0 ==> e(lg(x)) == x
  }

  lemma ExpSum(e: real -> real, a: real, b: real)
    requires ExpLaw(e)
    ensures e(a + b) == Times(e(a), e(b))
  {
    assert Plus(a, b) == a + b;
  }

  lemma ExpZero(e: real -> real)
    requires ExpLaw(e)
    ensures e(0.0) == 1.0
  {
    hide Times;
    var x := e(0.0);
    ExpSum(e, 0.0, 0.0);
    TimesUnit(x);
    TimesCancel(x, 1.0, x);
    TimesCancel(1.0, x, x);
  }

  // ---------------------------------------------------------------- values that may be -inf

  datatype Ext = NegInf | Fin(v: real)

  function MaxExt(a: Ext, b: Ext): Ext {
    match (a, b)
    case (NegInf, _) => b
    case (_, NegInf) => a
    case (Fin(x), Fin(y)) => if x >= y then a else b
  }

  /** exp2(a * scale - m * scale) for a finite reference m; -inf minus -inf is ruled out by the requires. */
  function ExpDiff(e: real -> real, a: Ext, m: Ext, scale: real): real
    requires m.Fin?
  {
    match a
    case NegInf => 0.0
    case Fin(v) => e(Times(v, scale) - Times(m.v, scale))
  }

  // ---------------------------------------------------------------- weighted sums

  /** The keys one query looks at: which of them are unmasked, their scaled scores and their values. */
  datatype Keys = Keys(on: int -> bool, score: int -> real, value: (int, int) -> real)

  function Weight(e: real -> real, ks: Keys, m: real): int -> real {
    k => if ks.on(k) then e(ks.score(k) - m) else 0.0
  }

  function Weighted(e: real -> real, ks: Keys, m: real, d: int): int -> real {
    k => Times(Weight(e, ks, m)(k), ks.value(k, d))
  }

  function Den(e: real -> real, ks: Keys, m: real, lo: int, hi: int): real { Sum(lo, hi, Weight(e, ks, m)) }

  function Num(e: real -> real, ks: Keys, m: real, d: int, lo: int, hi: int): real {
    Sum(lo, hi, Weighted(e, ks, m, d))
  }

  /** Attention over the unmasked keys in [lo, hi) with a sink logit z that has weight but no value. */
  function Attend(e: real -> real, ks: Keys, z: real, d: int, lo: int, hi: int): real
    requires ExpLaw(e)
  {
    TotalPositive(e, ks, 0.0, lo, hi, z);
    Num(e, ks, 0.0, d, lo, hi) / (Den(e, ks, 0.0, lo, hi) + e(z))
  }

  lemma DenNonNegative(e: real -> real, ks: Keys, m: real, lo: int, hi: int)
    requires ExpLaw(e)
    ensures Den(e, ks, m, lo, hi) >= 0.0
  {
    SumNonNegative(lo, hi, Weight(e, ks, m));
  }

  lemma DenPositive(e: real -> real, ks: Keys, m: real, lo: int, hi: int, k: int)
    requires ExpLaw(e) && lo <= k < hi && ks.on(k)
    ensures Den(e, ks, m, lo, hi) > 0.0
  {
    SumPositive(lo, hi, Weight(e, ks, m), k);
  }

  lemma TotalPositive(e: real -> real, ks: Keys, m: real, lo: int, hi: int, z: real)
    requires ExpLaw(e)
    ensures Den(e, ks, m, lo, hi) + e(z) > 0.0
  {
    DenNonNegative(e, ks, m, lo, hi);
  }

  /** Changing the reference from m to m' multiplies every sum by e(m - m'). */
  lemma Rebase(e: real -> real, ks: Keys, m: real, m': real, lo: int, hi: int)
    requires ExpLaw(e)
    ensures Den(e, ks, m', lo, hi) == Times(e(m - m'), Den(e, ks, m, lo, hi))
    ensures forall d :: Num(e, ks, m', d, lo, hi) == Times(e(m - m'), Num(e, ks, m, d, lo, hi))
  {
    hide Sum, Times;
    var c := e(m - m');
    forall k ensures Weight(e, ks, m')(k) == Times(c, Weight(e, ks, m)(k)) {
      ExpSum(e, m - m', ks.score(k) - m);
      assert m - m' + (ks.score(k) - m) == ks.score(k) - m';
      TimesUnit(c);
    }
    SumTimes(lo, hi, c, Weight(e, ks, m), Weight(e, ks, m'));
    forall d ensures Num(e, ks, m', d, lo, hi) == Times(c, Num(e, ks, m, d, lo, hi)) {
      forall k ensures Weighted(e, ks, m', d)(k) == Times(c, Weighted(e, ks, m, d)(k)) {
        TimesAssoc(c, Weight(e, ks, m)(k), ks.value(k, d));
      }
      SumTimes(lo, hi, c, Weighted(e, ks, m, d), Weighted(e, ks, m', d));
    }
  }

  /** Appending the keys [mid, hi) to sums kept relative to m, moving the reference to m'. */
  lemma Append(e: real -> real, ks: Keys, m: real, m': real, lo: int, mid: int, hi: int)
    requires ExpLaw(e) && lo <= mid <= hi
    ensures Den(e, ks, m', lo, hi) == Times(Den(e, ks, m, lo, mid), e(m - m')) + Den(e, ks, m', mid, hi)
    ensures forall d ::
              Num(e, ks, m', d, lo, hi) == Times(Num(e, ks, m, d, lo, mid), e(m - m')) + Num(e, ks, m', d, mid, hi)
  {
    hide Sum, Times, Weight, Weighted;
    Rebase(e, ks, m, m', lo, mid);
    SumSplit(lo, mid, hi, Weight(e, ks, m'));
    TimesAssoc(e(m - m'), Den(e, ks, m, lo, mid), 1.0);
    forall d ensures Num(e, ks, m', d, lo, hi)
        == Times(Num(e, ks, m, d, lo, mid), e(m - m')) + Num(e, ks, m', d, mid, hi) {
      SumSplit(lo, mid, hi, Weighted(e, ks, m', d));
      TimesAssoc(e(m - m'), Num(e, ks, m, d, lo, mid), 1.0);
    }
  }

  lemma RatioCancel(c: real, a: real, b: real)
    requires c > 0.0 && b > 0.0
    ensures Times(c, b) > 0.0 && Times(c, a) / Times(c, b) == a / b
  {
    MulPositive(c, b);
    var q := a / b;
    assert q * b == a;
    assert q * (c * b) == c * a by { assert q * (c * b) == c * (q * b); }
    assert (c * a) / (c * b) == q by { QuotientIs(c * a, c * b, q); }
  }

  lemma QuotientIs(a: real, b: real, q: real)
    requires b != 0.0 && q * b == a
    ensures a / b == q
  {
  }

  /** Sums kept relative to any reference give the same attention. */
  lemma AnyReference(e: real -> real, ks: Keys, z: real, m: real, lo: int, hi: int)
    requires ExpLaw(e)
    ensures Den(e, ks, m, lo, hi) + e(z - m) > 0.0
    ensures forall d :: Num(e, ks, m, d, lo, hi) / (Den(e, ks, m, lo, hi) + e(z - m)) == Attend(e, ks, z, d, lo, hi)
  {
    hide Sum, Times, Weight, Weighted;
    TotalPositive(e, ks, m, lo, hi, z - m);
    TotalPositive(e, ks, 0.0, lo, hi, z);
    var c, total := e(0.0 - m), Den(e, ks, 0.0, lo, hi) + e(z);
    Rebase(e, ks, 0.0, m, lo, hi);
    ExpSum(e, 0.0 - m, z);
    assert 0.0 - m + z == z - m;
    TimesSum(Den(e, ks, 0.0, lo, hi), e(z), c);
    forall d ensures Num(e, ks, m, d, lo, hi) / (Den(e, ks, m, lo, hi) + e(z - m)) == Attend(e, ks, z, d, lo, hi) {
      RatioCancel(c, Num(e, ks, 0.0, d, lo, hi), total);
    }
  }

  /** log2(logsum) + m is the logarithm of the whole unshifted normaliser. */
  lemma LogOfTotal(e: real -> real, lg: real -> real, ks: Keys, z: real, m: real, lo: int, hi: int)
    requires ExpLaw(e) && LogLaw(e, lg)
    ensures Den(e, ks, m, lo, hi) + e(z - m) > 0.0
    ensures e(lg(Den(e, ks, m, lo, hi) + e(z - m)) + m) == Den(e, ks, 0.0, lo, hi) + e(z)
  {
    hide Sum, Times, Weight, Weighted;
    var t := Den(e, ks, m, lo, hi) + e(z - m);
    TotalPositive(e, ks, m, lo, hi, z - m);
    ExpSum(e, lg(t), m);
    Rebase(e, ks, m, 0.0, lo, hi);
    ExpSum(e, z - m, m);
    assert z - m + m == z;
    TimesSum(Den(e, ks, m, lo, hi), e(z - m), e(m));
    TimesAssoc(e(m), Den(e, ks, m, lo, hi), 1.0);
  }

  /** Masked keys may be added to or dropped from the range. */
  lemma RangeIrrelevant(e: real -> real, ks: Keys, m: real, lo: int, hi: int, lo': int, hi': int)
    requires lo' <= lo <= hi <= hi'
    requires forall k :: lo' <= k < hi' && ks.on(k) ==> lo <= k < hi
    ensures Den(e, ks, m, lo', hi') == Den(e, ks, m, lo, hi)
    ensures forall d :: Num(e, ks, m, d, lo', hi') == Num(e, ks, m, d, lo, hi)
  {
    hide Sum, Times;
    forall k | lo' <= k < hi' && !(lo <= k < hi) ensures Weight(e, ks, m)(k) == 0.0 {}
    SumWiden(lo, hi, lo', hi', Weight(e, ks, m));
    forall d ensures Num(e, ks, m, d, lo', hi') == Num(e, ks, m, d, lo, hi) {
      forall k | lo' <= k < hi' && !(lo <= k < hi)
        ensures Weighted(e, ks, m, d)(k) == 0.0 { TimesUnit(ks.value(k, d)); }
      SumWiden(lo, hi, lo', hi', Weighted(e, ks, m, d));
    }
  }

  /** Two ranges that both hold every unmasked key give the same sums. */
  lemma SameRange(e: real -> real, ks: Keys, m: real, lo: int, hi: int, lo': int, hi': int)
    requires lo <= hi && lo' <= hi'
    requires forall k :: lo <= k < hi || lo' <= k < hi' ==> ks.on(k) ==> lo <= k < hi && lo' <= k < hi'
    requires lo <= hi' && lo' <= hi
    ensures Den(e, ks, m, lo', hi') == Den(e, ks, m, lo, hi)
    ensures forall d :: Num(e, ks, m, d, lo', hi') == Num(e, ks, m, d, lo, hi)
  {
    var a, b := if lo < lo' then lo else lo', if hi > hi' then hi else hi';
    RangeIrrelevant(e, ks, m, lo, hi, a, b);
    RangeIrrelevant(e, ks, m, lo', hi', a, b);
  }
}
