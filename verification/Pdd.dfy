/** Probabilistic delta debugging: which labels the next task selects, and why that is the best choice. */
module Pdd {
  import opened RealArith

  type Probas = map<int, real>

  /** Probability of a label; a label without one is never selected. */
  function P(pr: Probas, x: int): real {
    if x in pr then pr[x] else 0.0
  }

  // ---------------------------------------------------------------- sorting the labels

  predicate Distinct(s: seq<int>) {
    forall i, j :: 0 <= i < j < |s| ==> s[i] != s[j]
  }

  predicate Below(s: seq<int>, pr: Probas, v: real) {
    forall i :: 0 <= i < |s| ==> P(pr, s[i]) <= v
  }

  predicate Descending(s: seq<int>, pr: Probas) {
    s == [] || (Below(s[1..], pr, P(pr, s[0])) && Descending(s[1..], pr))
  }

  /** Decreasing (probability, label), as `sorted(..., reverse=True)` orders the items. */
  predicate Before(x: int, y: int, pr: Probas) {
    P(pr, x) > P(pr, y) || (P(pr, x) == P(pr, y) && x >= y)
  }

  function Insert(x: int, s: seq<int>, pr: Probas): (r: seq<int>)
    ensures multiset(r) == multiset(s) + multiset{x} && |r| == |s| + 1
  {
    if s == [] then [x]
    else if Before(x, s[0], pr) then [x] + s
    else
      assert s == [s[0]] + s[1..];
      [s[0]] + Insert(x, s[1..], pr)
  }

  lemma {:induction false} InsertBelow(x: int, s: seq<int>, pr: Probas, v: real)
    requires Below(s, pr, v) && P(pr, x) <= v
    ensures Below(Insert(x, s, pr), pr, v)
  {
    if s != [] && !Before(x, s[0], pr) { InsertBelow(x, s[1..], pr, v); }
  }

  lemma {:induction false} InsertDescending(x: int, s: seq<int>, pr: Probas)
    requires Descending(s, pr)
    ensures Descending(Insert(x, s, pr), pr)
  {
    if s != [] {
      if Before(x, s[0], pr) {
        assert ([x] + s)[1..] == s;
        forall i | 0 <= i < |s| ensures P(pr, s[i]) <= P(pr, x) {
          if i > 0 { assert s[i] == s[1..][i - 1]; }
        }
      } else {
        var t := Insert(x, s[1..], pr);
        assert ([s[0]] + t)[1..] == t;
        InsertDescending(x, s[1..], pr);
        InsertBelow(x, s[1..], pr, P(pr, s[0]));
      }
    }
  }

  function Sorted(labels: seq<int>, pr: Probas): (r: seq<int>)
    ensures multiset(r) == multiset(labels) && |r| == |labels|
  {
    if labels == [] then []
    else
      assert labels == [labels[0]] + labels[1..];
      Insert(labels[0], Sorted(labels[1..], pr), pr)
  }

  lemma {:induction false} SortedDescending(labels: seq<int>, pr: Probas)
    ensures Descending(Sorted(labels, pr), pr)
  {
    if labels != [] {
      SortedDescending(labels[1..], pr);
      InsertDescending(labels[0], Sorted(labels[1..], pr), pr);
    }
  }

  lemma {:induction false} DescendingPairs(s: seq<int>, pr: Probas, i: nat, j: nat)
    requires Descending(s, pr) && i <= j < |s|
    ensures P(pr, s[i]) >= P(pr, s[j])
  {
    if i == j {
    } else if i == 0 {
      assert s[j] == s[1..][j - 1];
    } else {
      DescendingPairs(s[1..], pr, i - 1, j - 1);
    }
  }

  /** Falling over all pairs of positions. */
  predicate Falling(s: seq<int>, pr: Probas) {
    forall i, j :: 0 <= i <= j < |s| ==> P(pr, s[i]) >= P(pr, s[j])
  }

  lemma SortedFacts(labels: seq<int>, pr: Probas)
    ensures Falling(Sorted(labels, pr), pr)
    ensures forall x :: x in Sorted(labels, pr) <==> x in labels
  {
    var r := Sorted(labels, pr);
    SortedDescending(labels, pr);
    forall i, j | 0 <= i <= j < |r| ensures P(pr, r[i]) >= P(pr, r[j]) { DescendingPairs(r, pr, i, j); }
    forall x ensures x in r <==> x in labels { assert x in multiset(r) <==> x in multiset(labels); }
  }

  lemma SortedDistinct(labels: seq<int>, pr: Probas)
    requires Distinct(labels)
    ensures Distinct(Sorted(labels, pr))
  {
    var r := Sorted(labels, pr);
    forall i, j | 0 <= i < j < |r| ensures r[i] != r[j] {
      CountOnce(labels, r[i]);
      if r[i] == r[j] { CountTwice(r, i, j); }
    }
  }

  lemma CountTwice(s: seq<int>, i: nat, j: nat)
    requires i < j < |s| && s[i] == s[j]
    ensures multiset(s)[s[i]] >= 2
  {
    assert s == s[..j] + s[j..];
    assert s[i] in s[..j] && s[j] in s[j..];
  }

  lemma {:induction false} CountOnce(s: seq<int>, x: int)
    requires Distinct(s)
    ensures multiset(s)[x] <= 1
  {
    if s != [] {
      CountOnce(s[1..], x);
      assert s == [s[0]] + s[1..];
      if x == s[0] { assert x !in s[1..]; }
    }
  }

  // ---------------------------------------------------------------- the greedy prefix

  /** How many labels of a sorted list are taken, with the number and the probability product
      of the uncertain ones. */
  datatype Pick = Pick(taken: nat, count: real, prod: real)

  /** Would the loop take the label after `count` uncertain ones? */
  predicate Takes(count: real, prod: real, p: real) {
    p >= 1.0 || (count + 1.0) * prod * p > count * prod
  }

  /** The score |S| * product of a selection. */
  function Score(r: Pick): real { Times(r.count, r.prod) }

  function Greedy(s: seq<int>, pr: Probas, i: nat, count: real, prod: real): (r: Pick)
    requires i <= |s|
    ensures i <= r.taken <= |s|
    decreases |s| - i
  {
    if i == |s| || !Takes(count, prod, P(pr, s[i])) then Pick(i, count, prod)
    else if P(pr, s[i]) >= 1.0 then Greedy(s, pr, i + 1, count, prod)
    else Greedy(s, pr, i + 1, count + 1.0, Times(prod, P(pr, s[i])))
  }

  /** The selection loop: certain labels are taken, uncertain ones while the score grows. */
  method Select(choices: seq<int>, pr: Probas) returns (selected: seq<int>, count: real, prod: real)
    ensures var r := Greedy(choices, pr, 0, 0.0, 1.0);
            selected == choices[..r.taken] && count == r.count && prod == r.prod
  {
    selected := [];
    count, prod := 0.0, 1.0;
    var i := 0;
    while i < |choices|
      invariant 0 <= i <= |choices| && selected == choices[..i]
      invariant Greedy(choices, pr, 0, 0.0, 1.0) == Greedy(choices, pr, i, count, prod)
    {
      var p := P(pr, choices[i]);
      if p >= 1.0 {
        selected := selected + [choices[i]];
      } else if (count + 1.0) * prod * p > count * prod {
        selected := selected + [choices[i]];
        count, prod := count + 1.0, Times(prod, p);
      } else {
        break;
      }
      i := i + 1;
    }
  }

  // ---------------------------------------------------------------- greedy optimality

  /** Product of n probabilities from position lo on. */
  function Prod(s: seq<int>, pr: Probas, lo: nat, n: nat): real
    requires lo + n <= |s|
    decreases n
  {
    if n == 0 then 1.0 else Times(P(pr, s[lo]), Prod(s, pr, lo + 1, n - 1))
  }

  /** The labels of `s` from position lo on that lie in `keep`, and the product of their probabilities. */
  function Kept(s: seq<int>, lo: nat, keep: set<int>): (n: nat)
    requires lo <= |s|
    ensures lo + n <= |s|
    decreases |s| - lo
  {
    if lo == |s| then 0 else Kept(s, lo + 1, keep) + if s[lo] in keep then 1 else 0
  }

  function KeptProd(s: seq<int>, pr: Probas, lo: nat, keep: set<int>): real
    requires lo <= |s|
    decreases |s| - lo
  {
    if lo == |s| then 1.0
    else if s[lo] in keep then P(pr, s[lo]) * KeptProd(s, pr, lo + 1, keep)
    else KeptProd(s, pr, lo + 1, keep)
  }

  predicate Unit(s: seq<int>, pr: Probas) {
    forall i :: 0 <= i < |s| ==> 0.0 <= P(pr, s[i]) <= 1.0
  }

  lemma {:induction false} ProdUnit(s: seq<int>, pr: Probas, lo: nat, n: nat)
    requires Unit(s, pr) && lo + n <= |s|
    ensures 0.0 <= Prod(s, pr, lo, n) <= 1.0
    decreases n
  {
    if n > 0 {
      ProdUnit(s, pr, lo + 1, n - 1);
      UnitTimes(P(pr, s[lo]), Prod(s, pr, lo + 1, n - 1));
    }
  }

  lemma ProductOrder(a: real, b: real, x: real, y: real)
    requires a <= b && 0.0 <= b && 0.0 <= x <= y
    ensures a * x <= b * y
  {
    TimesMonotone(a, b, x);
    TimesMonotone(x, y, b);
  }

  /** Moving a window of a falling list to the right cannot enlarge its product. */
  lemma {:induction false} ShiftProd(s: seq<int>, pr: Probas, lo: nat, n: nat)
    requires Unit(s, pr) && Falling(s, pr) && lo + 1 + n <= |s|
    ensures Prod(s, pr, lo + 1, n) <= Prod(s, pr, lo, n)
    decreases n
  {
    if n > 0 {
      ShiftProd(s, pr, lo + 1, n - 1);
      ProdUnit(s, pr, lo + 2, n - 1);
      ProductOrder(P(pr, s[lo + 1]), P(pr, s[lo]), Prod(s, pr, lo + 2, n - 1), Prod(s, pr, lo + 1, n - 1));
    }
  }

  /** Any n labels of a falling list multiply to at most the first n. */
  lemma {:induction false} PrefixProdLargest(s: seq<int>, pr: Probas, lo: nat, keep: set<int>)
    requires Unit(s, pr) && Falling(s, pr) && lo <= |s|
    ensures KeptProd(s, pr, lo, keep) <= Prod(s, pr, lo, Kept(s, lo, keep))
    decreases |s| - lo
  {
    if lo < |s| {
      PrefixProdLargest(s, pr, lo + 1, keep);
      var n := Kept(s, lo + 1, keep);
      if s[lo] in keep {
        TimesMonotone(KeptProd(s, pr, lo + 1, keep), Prod(s, pr, lo + 1, n), P(pr, s[lo]));
      } else {
        ShiftProd(s, pr, lo, n);
      }
    }
  }

  /** One more factor p with (c+1)p <= c cannot raise the score above c. */
  lemma GainStep(c: real, m: real, p: real, q: real)
    requires c >= 0.0 && m >= 1.0 && 0.0 <= p <= 1.0 && q >= 0.0
    requires (c + 1.0) * p <= c && (c + (m - 1.0)) * q <= c
    ensures (c + m) * (p * q) <= c
  {
    TimesMonotone(p, 1.0, m - 1.0);
    assert (c + m) * p == (c + 1.0) * p + (m - 1.0) * p;
    TimesMonotone((c + m) * p, c + (m - 1.0), q);
    assert (c + m) * (p * q) == ((c + m) * p) * q;
  }

  lemma StepGain(c: real, n: real, p: real, q: real, pq: real, b: real)
    requires c >= 0.0 && n >= c + 1.0 && 0.0 <= p <= b <= 1.0 && q >= 0.0 && pq == p * q
    requires (c + 1.0) * b <= c && (n - 1.0) * q <= c
    ensures n * pq <= c
  {
    TimesMonotone(p, b, c + 1.0);
    GainStep(c, n - c, p, q);
  }

  predicate Capped(s: seq<int>, pr: Probas, lo: nat, b: real) {
    forall i :: lo <= i < |s| ==> 0.0 <= P(pr, s[i]) <= b
  }

  lemma {:induction false} CappedProd(s: seq<int>, pr: Probas, lo: nat, n: nat, b: real)
    requires Capped(s, pr, lo, b) && b <= 1.0 && lo + n <= |s|
    ensures 0.0 <= Prod(s, pr, lo, n) <= 1.0
    decreases n
  {
    if n > 0 {
      CappedProd(s, pr, lo + 1, n - 1, b);
      UnitTimes(P(pr, s[lo]), Prod(s, pr, lo + 1, n - 1));
    }
  }

  /** Once probabilities are capped by a refused b, no longer prefix pays off. */
  lemma {:induction false} NoLaterGain(s: seq<int>, pr: Probas, lo: nat, c: real, m: nat, n: real, b: real)
    requires Capped(s, pr, lo, b) && lo + m <= |s| && c >= 0.0 && n == c + m as real && b <= 1.0
    requires (c + 1.0) * b <= c
    ensures n * Prod(s, pr, lo, m) <= c
    decreases m
  {
    if m > 0 {
      NoLaterGain(s, pr, lo + 1, c, m - 1, n - 1.0, b);
      CappedProd(s, pr, lo + 1, m - 1, b);
      StepGain(c, n, P(pr, s[lo]), Prod(s, pr, lo + 1, m - 1), Prod(s, pr, lo, m), b);
    }
  }

  lemma Accepted(c: real, prod: real, p: real)
    requires prod > 0.0 && c >= 0.0 && 0.0 <= p && Takes(c, prod, p)
    ensures p > 0.0 && Times(prod, p) > 0.0
  {
    MulNonNegative(c, prod);
    assert p != 0.0;
    MulPositive(prod, p);
  }

  lemma Refused(c: real, prod: real, p: real)
    requires prod > 0.0 && (c + 1.0) * prod * p <= c * prod
    ensures (c + 1.0) * p <= c
  {
    assert (c + 1.0) * prod * p == ((c + 1.0) * p) * prod;
    CancelPositive((c + 1.0) * p, c, prod);
  }

  /** Score of n uncertain labels whose probabilities multiply to prod * q. */
  function Worth(n: real, prod: real, q: real): real { n * (prod * q) }

  lemma MoveFactor(n: real, prod: real, p: real, q: real, pq: real, best: real)
    requires Worth(n, Times(prod, p), q) <= best && pq == Times(p, q)
    ensures Worth(n, prod, pq) <= best
  {
    assert prod * pq == (prod * p) * q;
  }

  lemma TakenPays(c: real, prod: real, p: real, best: real)
    requires p < 1.0 && Takes(c, prod, p) && Worth(c + 1.0, Times(prod, p), 1.0) <= best
    ensures Worth(c, prod, 1.0) <= best
  {
    assert (c + 1.0) * prod * p == (c + 1.0) * (prod * p);
  }

  lemma Rescale(c: real, n: real, prod: real, q: real, i: nat)
    requires prod > 0.0 && n * q <= c
    ensures Worth(n, prod, q) <= Score(Pick(i, c, prod))
  {
    TimesMonotone(n * q, c, prod);
    assert n * (prod * q) == (n * q) * prod;
  }

  /** Probabilities in [0, 1] and falling, from position i on. */
  predicate Falls(s: seq<int>, pr: Probas, i: nat)
    decreases |s| - i
  {
    i >= |s| ||
    (&& 0.0 <= P(pr, s[i]) <= 1.0
     && (i + 1 < |s| ==> P(pr, s[i + 1]) <= P(pr, s[i]))
     && Falls(s, pr, i + 1))
  }

  lemma {:induction false} FallsFrom(s: seq<int>, pr: Probas, i: nat)
    requires Unit(s, pr) && Falling(s, pr)
    ensures Falls(s, pr, i)
    decreases |s| - i
  {
    if i < |s| { FallsFrom(s, pr, i + 1); }
  }

  lemma {:induction false} FallsCapped(s: seq<int>, pr: Probas, i: nat, b: real)
    requires Falls(s, pr, i) && (i < |s| ==> P(pr, s[i]) <= b)
    ensures Capped(s, pr, i, b)
    decreases |s| - i
  {
    if i < |s| { FallsCapped(s, pr, i + 1, b); }
  }

  /** The count after m more labels. */
  function Advanced(c: real, m: nat): real
    decreases m
  {
    if m == 0 then c else Advanced(c + 1.0, m - 1)
  }

  lemma {:induction false} AdvancedIs(c: real, m: nat)
    ensures Advanced(c, m) == c + m as real
    decreases m
  {
    if m > 0 { AdvancedIs(c + 1.0, m - 1); }
  }

  lemma AtEnd(c: real, prod: real, i: nat)
    ensures Worth(c, prod, 1.0) == Score(Pick(i, c, prod))
  {
  }

  /** From position i on, the loop's final score is at least that of every prefix of uncertain labels. */
  lemma {:induction false} GreedyBeatsPrefixes(s: seq<int>, pr: Probas, i: nat, c: real, prod: real,
                                               m: nat, n: real)
    requires Falls(s, pr, i) && i + m <= |s| && prod > 0.0
    requires i < |s| ==> P(pr, s[i]) < 1.0
    requires c >= 0.0 && n == Advanced(c, m)
    ensures var r := Greedy(s, pr, i, c, prod);
            Worth(n, prod, Prod(s, pr, i, m)) <= Score(r)
    decreases |s| - i
  {
    hide Takes, P, Falls, Score, Worth, Times;
    if i == |s| {
      assert Worth(n, prod, 1.0) == Score(Pick(i, c, prod)) by { AtEnd(n, prod, i); }
    } else if Takes(c, prod, P(pr, s[i])) {
      TakenPrefixes(s, pr, i, c, prod, m, n);
    } else {
      RefusedPrefixes(s, pr, i, c, prod, m, n);
    }
  }

  lemma TakenPrefixes(s: seq<int>, pr: Probas, i: nat, c: real, prod: real, m: nat, n: real)
    requires Falls(s, pr, i) && i + m <= |s| && i < |s| && prod > 0.0
    requires P(pr, s[i]) < 1.0 && Takes(c, prod, P(pr, s[i]))
    requires c >= 0.0 && n == Advanced(c, m)
    ensures var r := Greedy(s, pr, i + 1, c + 1.0, Times(prod, P(pr, s[i])));
            Worth(n, prod, Prod(s, pr, i, m)) <= Score(r)
    decreases |s| - i, 0
  {
    hide Greedy, Worth, Takes, P, Score, Times;
    var p := P(pr, s[i]);
    var r := Greedy(s, pr, i + 1, c + 1.0, Times(prod, p));
    assert Times(prod, p) > 0.0 by { Accepted(c, prod, p); }
    if m == 0 {
      GreedyBeatsPrefixes(s, pr, i + 1, c + 1.0, Times(prod, p), 0, c + 1.0);
      TakenPays(c, prod, p, Score(r));
    } else {
      GreedyBeatsPrefixes(s, pr, i + 1, c + 1.0, Times(prod, p), m - 1, n);
      MoveFactor(n, prod, p, Prod(s, pr, i + 1, m - 1), Prod(s, pr, i, m), Score(r));
    }
  }

  lemma RefusedPrefixes(s: seq<int>, pr: Probas, i: nat, c: real, prod: real, m: nat, n: real)
    requires Falls(s, pr, i) && i + m <= |s| && i < |s| && prod > 0.0
    requires c >= 0.0 && n == Advanced(c, m) && !Takes(c, prod, P(pr, s[i]))
    ensures Worth(n, prod, Prod(s, pr, i, m)) <= Score(Pick(i, c, prod))
  {
    hide Worth, Score, Prod, P;
    var b := P(pr, s[i]);
    Refused(c, prod, b);
    FallsCapped(s, pr, i, b);
    AdvancedIs(c, m);
    NoLaterGain(s, pr, i, c, m, n, b);
    Rescale(c, n, prod, Prod(s, pr, i, m), i);
  }

  /** Certain labels are taken without changing the score. */
  lemma {:induction false} GreedySkipsCertain(s: seq<int>, pr: Probas, i: nat, k: nat)
    requires i <= k <= |s| && forall j :: i <= j < k ==> P(pr, s[j]) >= 1.0
    ensures Greedy(s, pr, i, 0.0, 1.0) == Greedy(s, pr, k, 0.0, 1.0)
    decreases k - i
  {
    if i < k { GreedySkipsCertain(s, pr, i + 1, k); }
  }

  lemma {:induction false} KeptSkips(s: seq<int>, pr: Probas, i: nat, k: nat, keep: set<int>)
    requires i <= k <= |s| && forall j :: i <= j < k ==> s[j] !in keep
    ensures Kept(s, i, keep) == Kept(s, k, keep) && KeptProd(s, pr, i, keep) == KeptProd(s, pr, k, keep)
    decreases k - i
  {
    if i < k { KeptSkips(s, pr, i + 1, k, keep); }
  }

  lemma FirstUncertain(s: seq<int>, pr: Probas) returns (k: nat)
    requires Falling(s, pr)
    ensures k <= |s| && forall i :: 0 <= i < |s| ==> (P(pr, s[i]) >= 1.0 <==> i < k)
  {
    k := 0;
    while k < |s| && P(pr, s[k]) >= 1.0
      invariant k <= |s| && forall i :: 0 <= i < k ==> P(pr, s[i]) >= 1.0
    {
      k := k + 1;
    }
  }

  /** Greedy selection is globally optimal: no set of uncertain labels has a larger
      |S| * product of probabilities than the labels the sorted-prefix loop picked. */
  lemma GreedyOptimal(labels: seq<int>, pr: Probas, keep: set<int>)
    requires forall x :: x in labels ==> 0.0 <= P(pr, x) <= 1.0
    requires forall x :: x in keep ==> P(pr, x) < 1.0
    ensures var s := Sorted(labels, pr);
            var r := Greedy(s, pr, 0, 0.0, 1.0);
            Kept(s, 0, keep) as real * KeptProd(s, pr, 0, keep) <= Score(r)
  {
    hide Greedy, KeptProd, Kept, Sorted, Takes, Score;
    var s := Sorted(labels, pr);
    SortedFacts(labels, pr);
    assert Unit(s, pr);
    var k := FirstUncertain(s, pr);
    KeptSkips(s, pr, 0, k, keep);
    GreedySkipsCertain(s, pr, 0, k);
    BestSuffix(s, pr, k, keep);
  }

  lemma BestSuffix(s: seq<int>, pr: Probas, k: nat, keep: set<int>)
    requires Unit(s, pr) && Falling(s, pr) && k <= |s| && (k < |s| ==> P(pr, s[k]) < 1.0)
    ensures var r := Greedy(s, pr, k, 0.0, 1.0);
            Kept(s, k, keep) as real * KeptProd(s, pr, k, keep) <= Score(r)
  {
    hide Greedy, KeptProd, Prod, Takes, Worth, Score;
    var n, r := Kept(s, k, keep), Greedy(s, pr, k, 0.0, 1.0);
    PrefixProdLargest(s, pr, k, keep);
    FallsFrom(s, pr, k);
    AdvancedIs(0.0, n);
    GreedyBeatsPrefixes(s, pr, k, 0.0, 1.0, n, n as real);
    Compare(n as real, KeptProd(s, pr, k, keep), Prod(s, pr, k, n), Score(r));
  }

  lemma Compare(n: real, x: real, y: real, best: real)
    requires x <= y && n >= 0.0 && Worth(n, 1.0, y) <= best
    ensures n * x <= best
  {
    TimesMonotone(x, y, n);
  }
}
