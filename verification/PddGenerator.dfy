/** The task generator of the probabilistic delta debugger always halts. */
module PddGenerator {
  import opened Arith
  import opened RealArith
  import opened Pdd

  datatype Task = Task(applied: seq<int>, masked: seq<int>)

  // ---------------------------------------------------------------- tasks and updates

  /** The members of a list that lie in a set, in list order. */
  function Members(s: seq<int>, keep: set<int>): (r: seq<int>)
    ensures forall x :: x in r <==> x in s && x in keep
    ensures |r| <= |s|
  {
    if s == [] then [] else (if s[0] in keep then [s[0]] else []) + Members(s[1..], keep)
  }

  function Labels(s: seq<int>): set<int> { set x | x in s }

  function Chosen(labels: seq<int>, pr: Probas): seq<int> {
    Sorted(labels, pr)[..Best(labels, pr).taken]
  }

  function Best(labels: seq<int>, pr: Probas): (r: Pick)
    ensures r.taken <= |Sorted(labels, pr)|
  {
    Greedy(Sorted(labels, pr), pr, 0, 0.0, 1.0)
  }

  function NextTask(labels: seq<int>, pr: Probas, apply: set<int> -> set<int>): Task {
    var chosen := Chosen(labels, pr);
    var applied := apply(Labels(chosen));
    Task(Members(chosen, applied), Members(chosen, Labels(chosen) - applied))
  }

  predicate Stops(labels: seq<int>, pr: Probas, apply: set<int> -> set<int>) {
    Score(Best(labels, pr)) == 0.0 || forall x :: x in NextTask(labels, pr, apply).applied ==> P(pr, x) >= 1.0
  }

  /** Product of the positive probabilities of a list. */
  function PositiveProd(s: seq<int>, pr: Probas): real {
    if s == [] then 1.0
    else Times(if P(pr, s[0]) > 0.0 then P(pr, s[0]) else 1.0, PositiveProd(s[1..], pr))
  }

  /** Posterior of an uncertain label after a failed task whose probabilities multiply to `prod`. */
  function Lowered(p: real, prod: real): real {
    if 1.0 - prod > 0.0 then 1.0 - (1.0 - p) / (1.0 - prod) else 0.0
  }

  function Updated(pr: Probas, task: Task, interesting: bool): Probas {
    if interesting then
      map x | x in pr :: if x in task.masked then 0.0 else if x in task.applied then 1.0 else pr[x]
    else
      var prod := PositiveProd(task.applied, pr);
      map x | x in pr :: if x in task.applied && pr[x] < 1.0 then Lowered(pr[x], prod) else pr[x]
  }

  // ---------------------------------------------------------------- the selection, whatever the probabilities

  /** Number and product of the uncertain labels of a list. */
  function UncertainCount(s: seq<int>, pr: Probas): real {
    if s == [] then 0.0 else UncertainCount(s[1..], pr) + if P(pr, s[0]) < 1.0 then 1.0 else 0.0
  }

  function UncertainProd(s: seq<int>, pr: Probas): real {
    if s == [] then 1.0
    else if P(pr, s[0]) < 1.0 then Times(P(pr, s[0]), UncertainProd(s[1..], pr))
    else UncertainProd(s[1..], pr)
  }

  predicate AllPositive(s: seq<int>, pr: Probas) {
    forall i :: 0 <= i < |s| ==> P(pr, s[i]) > 0.0
  }

  lemma TakesPositive(c: real, prod: real, p: real)
    requires Takes(c, prod, p) && prod > 0.0 && c >= 0.0
    ensures p > 0.0 && (p < 1.0 ==> Times(prod, p) > 0.0)
  {
    hide Times, Takes;
    if p < 1.0 {
      TakesGain(c, prod, p);
      TimesSign(c, prod);
      TimesSign(prod, p);
      TimesSign(c + 1.0, Times(prod, p));
      TimesUnit(prod);
      TimesUnit(c + 1.0);
    }
  }

  /** Count and product of the loop are those of the labels it selected, all of positive probability. */
  lemma {:induction false} GreedyCounts(s: seq<int>, pr: Probas, i: nat, c: real, prod: real)
    requires i <= |s| && c >= 0.0 && prod > 0.0
    ensures var r := Greedy(s, pr, i, c, prod);
            && r.prod > 0.0
            && AllPositive(s[i..r.taken], pr)
            && r.count == c + UncertainCount(s[i..r.taken], pr)
            && r.prod == Times(prod, UncertainProd(s[i..r.taken], pr))
    decreases |s| - i
  {
    hide Takes, P, Times;
    var r := Greedy(s, pr, i, c, prod);
    var u := s[i..r.taken];
    if i == |s| || !Takes(c, prod, P(pr, s[i])) {
      TimesUnit(prod);
    } else {
      var p := P(pr, s[i]);
      TakesPositive(c, prod, p);
      if p >= 1.0 {
        GreedyCounts(s, pr, i + 1, c, prod);
      } else {
        GreedyCounts(s, pr, i + 1, c + 1.0, Times(prod, p));
        TimesAssoc(prod, p, UncertainProd(s[i + 1..r.taken], pr));
      }
      assert u[0] == s[i] && u[1..] == s[i + 1..r.taken];
    }
  }

  /** Where the loop stands: nothing uncertain taken, one label at least as likely as all later
      ones, or at least two and a score above one half. */
  predicate Standing(s: seq<int>, pr: Probas, i: nat, c: real, prod: real) {
    && prod > 0.0
    && ((c == 0.0 && prod == 1.0)
        || (c == 1.0 && AtMost(s, pr, i, prod))
        || (c >= 2.0 && Times(c, prod) > 0.5))
  }

  predicate AtMost(s: seq<int>, pr: Probas, lo: nat, b: real) {
    forall i :: lo <= i < |s| ==> P(pr, s[i]) <= b
  }

  lemma StandingStep(s: seq<int>, pr: Probas, i: nat, c: real, prod: real)
    requires Falling(s, pr) && i < |s| && Standing(s, pr, i, c, prod)
    requires Takes(c, prod, P(pr, s[i])) && P(pr, s[i]) < 1.0
    ensures Standing(s, pr, i + 1, c + 1.0, Times(prod, P(pr, s[i])))
  {
    var p := P(pr, s[i]);
    TakesPositive(c, prod, p);
    if c == 0.0 {
      assert Times(prod, p) == p;
    } else {
      TwoOrMore(c, prod, p);
    }
  }

  lemma TwoOrMore(c: real, prod: real, p: real)
    requires prod > 0.0 && p < 1.0 && Takes(c, prod, p)
    requires (c == 1.0 && p <= prod) || (c >= 2.0 && Times(c, prod) > 0.5)
    ensures c + 1.0 >= 2.0 && Times(c + 1.0, Times(prod, p)) > 0.5
  {
    hide Times, Takes;
    TakesGain(c, prod, p);
    if c == 1.0 {
      TimesUnit(prod);
      TimesAssoc(2.0, p, prod);
      TimesAssoc(2.0, prod, p);
      TimesAssoc(p, prod, 1.0);
      TimesCancel(Times(2.0, p), 1.0, prod);
      TimesSum(1.0, 1.0, p);
      TimesUnit(p);
      assert p > 0.5;
    }
  }

  /** Taking an uncertain label raises the score. */
  lemma TakesGain(c: real, prod: real, p: real)
    requires p < 1.0 && Takes(c, prod, p)
    ensures Times(c + 1.0, Times(prod, p)) > Times(c, prod)
  {
    assert (c + 1.0) * prod * p == (c + 1.0) * (prod * p);
  }

  lemma {:induction false} GreedyStanding(s: seq<int>, pr: Probas, i: nat, c: real, prod: real)
    requires Falling(s, pr) && i <= |s| && Standing(s, pr, i, c, prod)
    ensures var r := Greedy(s, pr, i, c, prod);
            (r.count == 0.0 && r.prod == 1.0) || r.count == 1.0 || (r.count >= 2.0 && Score(r) > 0.5)
    decreases |s| - i
  {
    hide Takes, P, Times;
    if i < |s| && Takes(c, prod, P(pr, s[i])) {
      if P(pr, s[i]) >= 1.0 {
        GreedyStanding(s, pr, i + 1, c, prod);
      } else {
        StandingStep(s, pr, i, c, prod);
        GreedyStanding(s, pr, i + 1, c + 1.0, Times(prod, P(pr, s[i])));
      }
    }
  }

  /** Leaving labels out of a task cannot lower the product below that of the uncertain labels selected. */
  lemma {:induction false} SubsetProd(s: seq<int>, pr: Probas, keep: set<int>)
    requires AllPositive(s, pr)
    ensures 0.0 < UncertainProd(s, pr) <= PositiveProd(Members(s, keep), pr)
  {
    if s != [] {
      var t, p := s[1..], P(pr, s[0]);
      assert AllPositive(t, pr) by { assert forall i :: 0 <= i < |t| ==> t[i] == s[i + 1]; }
      SubsetProd(t, pr, keep);
      assert p > 0.0;
      var m := Members(t, keep);
      if s[0] in keep {
        assert Members(s, keep)[1..] == m && Members(s, keep)[0] == s[0];
      } else {
        assert Members(s, keep) == m;
      }
      FactorStep(p, UncertainProd(t, pr), PositiveProd(m, pr));
    }
  }

  lemma FactorStep(p: real, u: real, m: real)
    requires p > 0.0 && 0.0 < u <= m
    ensures 0.0 < Times(p, u) <= Times(p, m)
    ensures p < 1.0 ==> Times(p, u) <= m
    ensures p >= 1.0 ==> u <= Times(p, m)
  {
    hide Times;
    TimesSign(p, u);
    TimesOrder(u, m, p);
    if p < 1.0 { TimesOrder(p, 1.0, u); TimesUnit(u); } else { TimesOrder(1.0, p, m); TimesUnit(m); }
  }

  lemma {:induction false} CountBound(s: seq<int>, pr: Probas)
    ensures 0.0 <= UncertainCount(s, pr) <= |s| as real
  {
    if s != [] { CountBound(s[1..], pr); }
  }

  lemma {:induction false} NoneUncertain(s: seq<int>, pr: Probas, x: int)
    requires UncertainCount(s, pr) == 0.0 && x in s
    ensures P(pr, x) >= 1.0
  {
    CountBound(s[1..], pr);
    if x != s[0] { NoneUncertain(s[1..], pr, x); }
  }

  lemma {:induction false} NoUncertainProd(s: seq<int>, pr: Probas)
    requires UncertainCount(s, pr) == 0.0
    ensures UncertainProd(s, pr) == 1.0
  {
    if s != [] {
      CountBound(s[1..], pr);
      NoUncertainProd(s[1..], pr);
    }
  }

  /** With one uncertain label selected, the product is its probability. */
  lemma {:induction false} OneUncertain(s: seq<int>, pr: Probas, x: int)
    requires UncertainCount(s, pr) == 1.0 && x in s && P(pr, x) < 1.0
    ensures UncertainProd(s, pr) == P(pr, x)
  {
    var t := s[1..];
    if P(pr, s[0]) < 1.0 {
      NoUncertainProd(t, pr);
      if x != s[0] { NoneUncertain(t, pr, x); }
    } else {
      OneUncertain(t, pr, x);
    }
  }

  // ---------------------------------------------------------------- the measure

  /** Bound on how often a label of probability p can still be applied without success. */
  function Rank(n: nat, p: real): nat {
    if 0.0 < p < 1.0 then
      var q := (2 * n) as real / (1.0 - p);
      if q >= 0.0 then q.Floor else 0
    else 0
  }

  function Ranks(labels: seq<int>, pr: Probas): seq<int> {
    seq(|labels|, i requires 0 <= i < |labels| => Rank(|labels|, P(pr, labels[i])))
  }

  function TotalRank(labels: seq<int>, pr: Probas): (r: nat) {
    SumNonNegative(Ranks(labels, pr));
    SumInts(Ranks(labels, pr))
  }

  lemma DivMonotone(a: real, b: real, d: real)
    requires d > 0.0 && Times(a, d) <= b
    ensures a <= b / d
  {
    hide Times;
    TimesQuotient(b, d);
    TimesCancel(a, b / d, d);
  }

  lemma RankPositive(n: nat, p: real)
    requires n >= 1 && 0.0 < p < 1.0
    ensures Rank(n, p) >= 1
  {
    hide Times;
    var m := (2 * n) as real;
    TimesOrder(1.0 - p, 1.0, m);
    TimesUnit(m);
    DivMonotone(m, m, 1.0 - p);
  }

  /** A failed task lowers the rank of every uncertain label it applied. */
  lemma RankFalls(n: nat, p: real, prod: real, u: real, count: real)
    requires n >= 1 && 0.0 < p < 1.0 && 0.0 < u <= prod && count <= n as real
    requires (count == 1.0 && u == p) || (count >= 2.0 && Times(count, u) > 0.5)
    ensures Rank(n, Lowered(p, prod)) < Rank(n, p)
  {
    RankPositive(n, p);
    if count == 1.0 {
      LoneLabelFalls(p, prod);
    } else if 0.0 < Lowered(p, prod) < 1.0 {
      var d, e := 1.0 - prod, 1.0 - p;
      TimesQuotient(e, d);
      TwiceCount(n as real, count, u);
      QuotientFalls((2 * n) as real, u, d, e, e / d);
    }
  }

  /** A task with one uncertain label rules that label out. */
  lemma LoneLabelFalls(p: real, prod: real)
    requires 0.0 < p < 1.0 && p <= prod
    ensures Lowered(p, prod) <= 0.0
  {
    if prod < 1.0 {
      TimesUnit(1.0 - prod);
      DivMonotone(1.0, 1.0 - p, 1.0 - prod);
    }
  }

  lemma TwiceCount(n: real, count: real, u: real)
    requires count <= n && u > 0.0 && Times(count, u) > 0.5
    ensures Times(n + n, u) > 1.0
  {
    hide Times;
    TimesOrder(count, n, u);
    TimesSum(n, n, u);
  }

  lemma QuotientFalls(m: real, u: real, d: real, e: real, e': real)
    requires 0.0 < e < 1.0 && 0.0 < e' < 1.0 && Times(e', d) == e && 0.0 < d <= 1.0 - u
    requires Times(m, u) > 1.0 && m >= 0.0
    ensures m / e' <= m / e - 1.0
  {
    hide Times;
    // m/e' == m*d/e <= (m - m*u)/e < (m - 1)/e <= m/e - 1
    var x, y := m / e', m / e;
    TimesQuotient(m, e');
    TimesQuotient(m, e);
    TimesAssoc(x, e', d);
    assert Times(x, e) == Times(m, d);
    TimesOrder(d, 1.0 - u, m);
    TimesSum(1.0, u, m);
    TimesUnit(m);
    TimesSum(y, 1.0, e);
    TimesUnit(e);
    TimesCancel(x, y - 1.0, e);
  }

  lemma {:induction false} SumLess(a: seq<int>, b: seq<int>, k: nat)
    requires |a| == |b| && k < |a| && a[k] < b[k]
    requires forall i :: 0 <= i < |a| ==> a[i] <= b[i]
    ensures SumInts(a) < SumInts(b)
  {
    var n := |a| - 1;
    if k == n {
      SumAtMost(a[..n], b[..n]);
    } else {
      SumLess(a[..n], b[..n], k);
    }
  }

  lemma {:induction false} SumAtMost(a: seq<int>, b: seq<int>)
    requires |a| == |b| && forall i :: 0 <= i < |a| ==> a[i] <= b[i]
    ensures SumInts(a) <= SumInts(b)
  {
    if a != [] { SumAtMost(a[..|a| - 1], b[..|a| - 1]); }
  }

  /** Facts about one selection, for arbitrary probabilities. */
  lemma ChosenFacts(labels: seq<int>, pr: Probas)
    ensures var ch, r := Chosen(labels, pr), Best(labels, pr);
            && AllPositive(ch, pr) && r.count == UncertainCount(ch, pr) && r.prod == UncertainProd(ch, pr)
            && r.prod > 0.0 && r.count <= |labels| as real
            && (r.count == 0.0 || r.count == 1.0 || (r.count >= 2.0 && Times(r.count, r.prod) > 0.5))
    ensures forall x :: x in Chosen(labels, pr) ==> x in labels
  {
    hide Times;
    var s, r := Sorted(labels, pr), Best(labels, pr);
    SortedFacts(labels, pr);
    TimesUnit(UncertainProd(s[0..r.taken], pr));
    GreedyCounts(s, pr, 0, 0.0, 1.0);
    GreedyStanding(s, pr, 0, 0.0, 1.0);
    assert Chosen(labels, pr) == s[0..r.taken];
    CountBound(Chosen(labels, pr), pr);
  }

  /** An uncertain label that a failed task applied loses rank. */
  lemma AppliedFalls(labels: seq<int>, pr: Probas, apply: set<int> -> set<int>, x: int)
    requires !Stops(labels, pr, apply)
    requires x in NextTask(labels, pr, apply).applied && P(pr, x) < 1.0
    ensures var task := NextTask(labels, pr, apply);
            Rank(|labels|, P(Updated(pr, task, false), x)) < Rank(|labels|, P(pr, x))
  {
    hide Times, Greedy, Sorted, Rank, Lowered, PositiveProd, UncertainCount, UncertainProd;
    var ch, r, task := Chosen(labels, pr), Best(labels, pr), NextTask(labels, pr, apply);
    ChosenFacts(labels, pr);
    assert P(pr, x) > 0.0 && x in pr;
    SubsetProd(ch, pr, apply(Labels(ch)));
    if r.count == 1.0 { OneUncertain(ch, pr, x); }
    TimesUnit(r.prod);
    RankFalls(|labels|, P(pr, x), PositiveProd(task.applied, pr), r.prod, r.count);
  }

  /** Every task the generator yields uses up rank, so the number of tasks is bounded. */
  lemma TaskFalls(labels: seq<int>, pr: Probas, apply: set<int> -> set<int>)
    requires !Stops(labels, pr, apply)
    ensures TotalRank(labels, Updated(pr, NextTask(labels, pr, apply), false)) < TotalRank(labels, pr)
  {
    hide Rank, Lowered, PositiveProd, NextTask;
    var task := NextTask(labels, pr, apply);
    var pr' := Updated(pr, task, false);
    var x :| x in task.applied && P(pr, x) < 1.0;
    assert x in labels by { AppliedChosen(labels, pr, apply, x); }
    var k :| 0 <= k < |labels| && labels[k] == x;
    AppliedFalls(labels, pr, apply, x);
    forall i | 0 <= i < |labels| ensures Ranks(labels, pr')[i] <= Ranks(labels, pr)[i] {
      var y := labels[i];
      if y in task.applied && P(pr, y) < 1.0 {
        AppliedFalls(labels, pr, apply, y);
      } else {
        assert P(pr', y) == P(pr, y);
      }
    }
    SumLess(Ranks(labels, pr'), Ranks(labels, pr), k);
  }

  lemma AppliedChosen(labels: seq<int>, pr: Probas, apply: set<int> -> set<int>, x: int)
    requires x in NextTask(labels, pr, apply).applied
    ensures x in labels
  {
    ChosenFacts(labels, pr);
  }

  /** All tasks of a generator run to exhaustion: a total function, for any starting
      probabilities and any `apply`. */
  function Generate(labels: seq<int>, pr: Probas, apply: set<int> -> set<int>): (tasks: seq<Task>)
    ensures |tasks| <= TotalRank(labels, pr)
    decreases TotalRank(labels, pr)
  {
    if Stops(labels, pr, apply) then []
    else
      TaskFalls(labels, pr, apply);
      var task := NextTask(labels, pr, apply);
      [task] + Generate(labels, Updated(pr, task, false), apply)
  }

  /** `apply` may only drop labels. */
  ghost predicate Shrinks(apply: set<int> -> set<int>) {
    forall s :: apply(s) <= s
  }

  // ---------------------------------------------------------------- the class

  /** PDD: the labels, their probabilities, the update and the generator. */
  class ProbabilisticDd {
    const labels: seq<int>
    var probas: Probas

    constructor (labels: seq<int>, init: real)
      ensures this.labels == labels
      ensures probas == map x | x in labels :: init
    {
      this.labels := labels;
      probas := map x | x in labels :: init;
    }

    static predicate Fits(pr: Probas, task: Task) {
      && Distinct(task.applied)
      && (forall i :: 0 <= i < |task.applied| ==> task.applied[i] in pr)
      && (forall i :: 0 <= i < |task.masked| ==> task.masked[i] in pr)
    }

    /** `probas[label] = value` for every label of a list. */
    static method SetAll(pr: Probas, s: seq<int>, value: real) returns (r: Probas)
      requires forall i :: 0 <= i < |s| ==> s[i] in pr
      ensures r == map x | x in pr :: if x in s then value else pr[x]
    {
      r := pr;
      for i := 0 to |s|
        invariant r == map x | x in pr :: if x in s[..i] then value else pr[x]
      {
        var y := s[i];
        assert y in pr;
        assert forall x :: x in s[..i + 1] <==> x in s[..i] || x == y;
        r := r[y := value];
      }
      assert s[..|s|] == s;
    }

    /** The posterior of every uncertain label of a failed task. */
    static method LowerAll(pr: Probas, s: seq<int>, prod: real) returns (r: Probas)
      requires Distinct(s) && forall i :: 0 <= i < |s| ==> s[i] in pr
      ensures r == map x | x in pr :: if x in s && pr[x] < 1.0 then Lowered(pr[x], prod) else pr[x]
    {
      var denorm := 1.0 - prod;
      r := pr;
      for i := 0 to |s|
        invariant r == map x | x in pr :: if x in s[..i] && pr[x] < 1.0 then Lowered(pr[x], prod) else pr[x]
      {
        var y := s[i];
        assert y in pr && y !in s[..i];
        assert forall x :: x in s[..i + 1] <==> x in s[..i] || x == y;
        var p := r[y];
        if p < 1.0 {
          r := r[y := if denorm > 0.0 then 1.0 - (1.0 - p) / denorm else 0.0];
        }
      }
      assert s[..|s|] == s;
    }

    /** The product a failed task divides by, over the applied labels of positive probability. */
    static method PositiveProduct(pr: Probas, s: seq<int>) returns (prod: real)
      ensures prod == PositiveProd(s, pr)
    {
      prod := 1.0;
      TimesUnit(PositiveProd(s, pr));
      assert s[0..] == s;
      for i := 0 to |s|
        invariant Times(prod, PositiveProd(s[i..], pr)) == PositiveProd(s, pr)
      {
        var p := P(pr, s[i]);
        var factor := if p > 0.0 then p else 1.0;
        assert s[i..][1..] == s[i + 1..];
        TimesAssoc(prod, factor, PositiveProd(s[i + 1..], pr));
        prod := Times(prod, factor);
      }
      assert s[|s|..] == [];
      TimesUnit(prod);
    }

    /** `_update_probas`: marks the labels of an interesting task, or lowers those of a failed one. */
    static method UpdateProbas(pr: Probas, task: Task, interesting: bool) returns (r: Probas)
      requires Fits(pr, task)
      ensures r == Updated(pr, task, interesting) && r.Keys == pr.Keys
      ensures interesting ==> forall x :: x in pr ==>
                r[x] == if x in task.masked then 0.0 else if x in task.applied then 1.0 else pr[x]
      ensures !interesting ==> forall x :: x in pr && (x !in task.applied || pr[x] >= 1.0) ==> r[x] == pr[x]
    {
      if interesting {
        r := SetAll(pr, task.applied, 1.0);
        r := SetAll(r, task.masked, 0.0);
      } else {
        var prod := PositiveProduct(pr, task.applied);
        r := LowerAll(pr, task.applied, prod);
      }
    }

    method Update(task: Task, interesting: bool)
      requires Fits(probas, task)
      modifies this
      ensures probas == Updated(old(probas), task, interesting) && probas.Keys == old(probas.Keys)
      ensures interesting ==> forall x :: x in probas ==>
                probas[x] == if x in task.masked then 0.0 else if x in task.applied then 1.0 else old(probas)[x]
    {
      probas := UpdateProbas(probas, task, interesting);
    }

    /** One round of the loop: select, apply, build the task, and test for the end. */
    static method Propose(labels: seq<int>, pr: Probas, apply: set<int> -> set<int>) returns (task: Task, last: bool)
      ensures task == NextTask(labels, pr, apply) && (last <==> Stops(labels, pr, apply))
    {
      var selected, count, prod := Select(Sorted(labels, pr), pr);
      var applied := apply(Labels(selected));
      task := Task(Members(selected, applied), Members(selected, Labels(selected) - applied));
      last := Times(count, prod) == 0.0 || forall x :: x in task.applied ==> P(pr, x) >= 1.0;
    }

    /** `generator`, run to exhaustion on a private copy of the probabilities. */
    method Generator(apply: set<int> -> set<int>) returns (tasks: seq<Task>)
      requires Distinct(labels) && probas.Keys == Labels(labels) && Shrinks(apply)
      ensures tasks == Generate(labels, probas, apply)
      ensures |tasks| <= TotalRank(labels, probas)
    {
      hide NextTask, Stops, TotalRank, Updated, ProbabilisticDd.Fits, Shrinks, Labels;
      tasks := [];
      var pr := probas;
      while true
        invariant pr.Keys == Labels(labels)
        invariant tasks + Generate(labels, pr, apply) == Generate(labels, probas, apply)
        decreases TotalRank(labels, pr)
      {
        var task, last := Propose(labels, pr, apply);
        if last {
          break;
        }
        TaskFalls(labels, pr, apply);
        TaskFits(labels, pr, apply);
        UpdatedKeys(pr, task);
        tasks := tasks + [task];
        pr := UpdateProbas(pr, task, false);
      }
    }
  }

  lemma UpdatedKeys(pr: Probas, task: Task)
    ensures Updated(pr, task, false).Keys == pr.Keys
  {
  }

  lemma {:induction false} MembersDistinct(s: seq<int>, keep: set<int>)
    requires Distinct(s)
    ensures Distinct(Members(s, keep))
  {
    if s != [] {
      MembersDistinct(s[1..], keep);
      assert s[0] !in Members(s[1..], keep);
    }
  }

  lemma TaskFits(labels: seq<int>, pr: Probas, apply: set<int> -> set<int>)
    requires Distinct(labels) && pr.Keys == Labels(labels)
    ensures ProbabilisticDd.Fits(pr, NextTask(labels, pr, apply))
  {
    var ch := Chosen(labels, pr);
    SortedDistinct(labels, pr);
    ChosenFacts(labels, pr);
    MembersDistinct(ch, apply(Labels(ch)));
    forall x | x in ch ensures x in pr { assert x in labels; }
    var task := NextTask(labels, pr, apply);
    forall i | 0 <= i < |task.applied| ensures task.applied[i] in pr { assert task.applied[i] in task.applied; }
    forall i | 0 <= i < |task.masked| ensures task.masked[i] in pr { assert task.masked[i] in task.masked; }
  }
}
