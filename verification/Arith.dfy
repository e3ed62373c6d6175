/** Division facts the schedules and the ring buffer need. */
module Arith {

  lemma Multiple(d: int, n: int)
    requires n >= 1
    ensures d >= 1 ==> d * n >= n
    ensures d <= -1 ==> d * n <= -n
  {
    if d >= 1 { assert (d - 1) * n >= 0; }
    if d <= -1 { assert (d + 1) * n <= 0; }
  }

  /** Quotient and remainder are determined by their defining equation. */
  lemma DivModUnique(x: int, n: int, q: int, r: int)
    requires n >= 1 && x == q * n + r && 0 <= r < n
    ensures x / n == q && x % n == r
  {
    assert (q - x / n) * n == x % n - r;
    Multiple(q - x / n, n);
  }

  function CeilDiv(x: int, n: int): int
    requires n >= 1
  {
    (x + n - 1) / n
  }

  lemma CeilDivBounds(x: int, n: int)
    requires n >= 1
    ensures (CeilDiv(x, n) - 1) * n < x <= CeilDiv(x, n) * n
  {
    var q := CeilDiv(x, n);
    assert x + n - 1 == q * n + (x + n - 1) % n;
    assert (q - 1) * n == q * n - n;
  }

  /** `c < a/b` against `c*b`: the form every tile guard has. */
  lemma BelowCeilDiv(c: int, x: int, n: int)
    requires n >= 1
    ensures c < CeilDiv(x, n) <==> c * n < x
  {
    CeilDivBounds(x, n);
    var d := CeilDiv(x, n) - 1 - c;
    assert (CeilDiv(x, n) - 1) * n == c * n + d * n;
    Multiple(d, n);
    Multiple(d + 1, n);
    assert (d + 1) * n == d * n + n;
  }

  function SumInts(s: seq<int>): int {
    if s == [] then 0 else SumInts(s[..|s| - 1]) + s[|s| - 1]
  }

  lemma {:induction false} SumUpdate(s: seq<int>, i: nat, v: int)
    requires i < |s|
    ensures SumInts(s[i := v]) == SumInts(s) - s[i] + v
  {
    var n := |s| - 1;
    if i == n {
      assert s[i := v][..n] == s[..n];
    } else {
      assert s[i := v][..n] == s[..n][i := v];
      SumUpdate(s[..n], i, v);
    }
  }

  lemma {:induction false} SumNonNegative(s: seq<int>)
    requires forall i :: 0 <= i < |s| ==> s[i] >= 0
    ensures SumInts(s) >= 0
  {
    if s != [] { SumNonNegative(s[..|s| - 1]); }
  }

  lemma CeilDivExact(k: int, n: int)
    requires n >= 1 && k % n == 0
    ensures CeilDiv(k, n) == k / n
  {
    DivModUnique(k + n - 1, n, k / n, n - 1);
  }

  lemma DivBelow(x: int, n: int, h: int)
    requires n >= 1
    ensures x / n < h <==> x < h * n
  {
    var q := x / n;
    assert x == q * n + x % n;
    Multiple(h - q, n);
    Multiple(h - q - 1, n);
    assert (h - q) * n == h * n - q * n;
    assert (h - q - 1) * n == h * n - q * n - n;
  }

  lemma MulOrder(a: int, b: int, n: int)
    requires a <= b && n >= 0
    ensures a * n <= b * n
  {
    assert (b - a) * n >= 0;
  }

  lemma Quotients(x: int, n: int)
    requires n >= 1 && x >= 0
    ensures x == x / n * n + x % n && 0 <= x % n < n && x / n >= 0 && x / n * n <= x
  {
  }
}
