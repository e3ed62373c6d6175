/** Finite sums of reals over integer ranges. */
module Sums {
  import opened RealArith

  function Sum(lo: int, hi: int, f: int -> real): real
    decreases hi - lo
  {
    if lo >= hi then 0.0 else Sum(lo, hi - 1, f) + f(hi - 1)
  }

  lemma {:induction false} SumEq(lo: int, hi: int, f: int -> real, g: int -> real)
    requires forall i :: lo <= i < hi ==> f(i) == g(i)
    ensures Sum(lo, hi, f) == Sum(lo, hi, g)
    decreases hi - lo
  {
    if lo < hi { SumEq(lo, hi - 1, f, g); }
  }

  lemma {:induction false} SumSplit(lo: int, mid: int, hi: int, f: int -> real)
    requires lo <= mid <= hi
    ensures Sum(lo, hi, f) == Sum(lo, mid, f) + Sum(mid, hi, f)
    decreases hi - mid
  {
    if mid < hi { SumSplit(lo, mid, hi - 1, f); }
  }

  /** A range outside of which the terms vanish can be widened. */
  lemma {:induction false} SumWiden(lo: int, hi: int, lo': int, hi': int, f: int -> real)
    requires lo' <= lo <= hi <= hi'
    requires forall i :: lo' <= i < hi' && !(lo <= i < hi) ==> f(i) == 0.0
    ensures Sum(lo', hi', f) == Sum(lo, hi, f)
  {
    SumSplit(lo', lo, hi', f);
    SumSplit(lo, hi, hi', f);
    SumZero(lo', lo, f);
    SumZero(hi, hi', f);
  }

  lemma {:induction false} SumZero(lo: int, hi: int, f: int -> real)
    requires forall i :: lo <= i < hi ==> f(i) == 0.0
    ensures Sum(lo, hi, f) == 0.0
    decreases hi - lo
  {
    if lo < hi { SumZero(lo, hi - 1, f); }
  }

  /** h = a*f + b*g pointwise implies the same for the sums. */
  lemma {:induction false} SumLinear(lo: int, hi: int, a: real, f: int -> real, b: real, g: int -> real, h: int -> real)
    requires forall i :: lo <= i < hi ==> h(i) == a * f(i) + b * g(i)
    ensures Sum(lo, hi, h) == a * Sum(lo, hi, f) + b * Sum(lo, hi, g)
    decreases hi - lo
  {
    if lo < hi {
      SumLinear(lo, hi - 1, a, f, b, g, h);
      Distribute(a, Sum(lo, hi - 1, f), f(hi - 1));
      Distribute(b, Sum(lo, hi - 1, g), g(hi - 1));
    }
  }

  lemma Distribute(a: real, x: real, y: real)
    ensures a * (x + y) == a * x + a * y
  {
  }

  lemma SumTimes(lo: int, hi: int, c: real, f: int -> real, g: int -> real)
    requires forall i :: lo <= i < hi ==> g(i) == Times(c, f(i))
    ensures Sum(lo, hi, g) == Times(c, Sum(lo, hi, f))
  {
    SumLinear(lo, hi, c, f, 0.0, f, g);
  }

  lemma {:induction false} SumNonNegative(lo: int, hi: int, f: int -> real)
    requires forall i :: lo <= i < hi ==> f(i) >= 0.0
    ensures Sum(lo, hi, f) >= 0.0
    decreases hi - lo
  {
    if lo < hi { SumNonNegative(lo, hi - 1, f); }
  }

  /** A positive term makes a non-negative sum positive. */
  lemma SumPositive(lo: int, hi: int, f: int -> real, k: int)
    requires lo <= k < hi && f(k) > 0.0
    requires forall i :: lo <= i < hi ==> f(i) >= 0.0
    ensures Sum(lo, hi, f) > 0.0
  {
    SumSplit(lo, k + 1, hi, f);
    SumNonNegative(lo, k, f);
    SumNonNegative(k + 1, hi, f);
  }

  lemma {:induction false} SumAtMost(n: nat, f: int -> real, b: real)
    requires forall i :: 0 <= i < n ==> f(i) <= b
    ensures Sum(0, n, f) <= n as real * b
  {
    if n > 0 { SumAtMost(n - 1, f, b); }
  }

  lemma {:induction false} SumOfOnes(n: nat, f: int -> real)
    requires forall i :: 0 <= i < n ==> f(i) == 1.0
    ensures Sum(0, n, f) == n as real
  {
    if n > 0 { SumOfOnes(n - 1, f); }
  }

  /** Exchange of a double sum, with the two orders given by their row and column sums. */
  lemma {:induction false} SumExchange(n: nat, m: nat, f: (int, int) -> real, rows: int -> real, cols: int -> real)
    requires forall i :: 0 <= i < n ==> rows(i) == Sum(0, m, j => f(i, j))
    requires forall j :: 0 <= j < m ==> cols(j) == Sum(0, n, i => f(i, j))
    ensures Sum(0, n, rows) == Sum(0, m, cols)
    decreases n
  {
    if n == 0 {
      forall j | 0 <= j < m ensures cols(j) == 0.0 {
        assert cols(j) == Sum(0, 0, i => f(i, j));
      }
      SumZero(0, m, cols);
    } else {
      var cols' := j => Sum(0, n - 1, i => f(i, j));
      var last := j => f(n - 1, j);
      SumExchange(n - 1, m, f, rows, cols');
      forall j | 0 <= j < m ensures cols(j) == 1.0 * cols'(j) + 1.0 * last(j) {
        assert cols(j) == Sum(0, n, i => f(i, j));
      }
      SumLinear(0, m, 1.0, cols', 1.0, last, cols);
      SumEq(0, m, last, j => f(n - 1, j));
    }
  }

  /** Summing block by block is summing the range the blocks cover. */
  lemma {:induction false} SumBlocks(st: int, ed: int, n: nat, f: int -> real, block: int -> real)
    requires st <= ed && n >= 1
    requires forall b :: st <= b < ed ==> block(b) == Sum(b * n, b * n + n, f)
    ensures Sum(st, ed, block) == Sum(st * n, ed * n, f)
    decreases ed - st
  {
    if st < ed {
      SumBlocks(st, ed - 1, n, f, block);
      NextBlock(st, ed, n);
      assert block(ed - 1) == Sum((ed - 1) * n, (ed - 1) * n + n, f);
      SumSplit(st * n, (ed - 1) * n, ed * n, f);
    }
  }

  lemma NextBlock(st: int, ed: int, n: nat)
    requires st < ed
    ensures ed * n == (ed - 1) * n + n && st * n <= (ed - 1) * n
  {
    assert (ed - 1 - st) * n >= 0;
    assert (ed - 1) * n == (ed - 1 - st) * n + st * n;
  }

  lemma {:induction false} SumShift(lo: int, hi: int, d: int, f: int -> real, g: int -> real)
    requires forall i :: lo <= i < hi ==> g(i) == f(i + d)
    ensures Sum(lo, hi, g) == Sum(lo + d, hi + d, f)
    decreases hi - lo
  {
    if lo < hi { SumShift(lo, hi - 1, d, f, g); }
  }
}
