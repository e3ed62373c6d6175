/** For which R the guarded conjugate-gradient step goes forward: exactly the doubly stochastic ones, among those
    whose rows sum to one, as the forward pass leaves them. */
module SinkhornGuard {
  import opened RealArith
  import opened Sums
  import opened Sinkhorn
  import opened SinkhornCg

  /** What the forward pass ends with: non-negative entries and rows that sum to one. */
  ghost predicate RowStochastic(m: Matrix, n: nat) {
    NonNegative(m, n) && forall i :: 0 <= i < n ==> RowSum(m, n, i) == 1.0
  }

  // ---------------------------------------------------------------- a direction of negative curvature

  /** Minus one for every row, and the sum of every column. */
  function Ones(n: nat, v: real): seq<real> { seq(n, _ => v) }
  function ColSums(m: Matrix, n: nat): seq<real> { seq(n, j => ColSum(m, n, j)) }

  function Excess(m: Matrix, n: nat): int -> real {
    j => Times(ColSum(m, n, j) - 1.0, ColSum(m, n, j) - 1.0)
  }

  /** R' applied to minus ones gives minus the column sums, so the lower half of A p vanishes. */
  lemma LowerVanishes(m: Matrix, n: nat)
    ensures Lower(m, n, Ones(n, -1.0), ColSums(m, n)) == Ones(n, 0.0)
  {
    hide Sum, Times;
    var x := Ones(n, -1.0);
    forall j | 0 <= j < n ensures Sum(0, n, ColTerm(m, x, j)) == -ColSum(m, n, j) {
      forall i | 0 <= i < n ensures ColTerm(m, x, j)(i) == Times(-1.0, m(i, j)) { TimesAssoc(m(i, j), -1.0, 1.0); }
      SumTimes(0, n, -1.0, i => m(i, j), ColTerm(m, x, j));
      TimesNegate(1.0, ColSum(m, n, j));
      TimesUnit(ColSum(m, n, j));
    }
  }

  function Square(m: Matrix, n: nat): int -> real { j => Times(ColSum(m, n, j), ColSum(m, n, j)) }

  /** The sum of R c over the rows is the sum of the squares of the column sums. */
  lemma UpperTotal(m: Matrix, n: nat)
    ensures Sum(0, n, i => Sum(0, n, RowTerm(m, ColSums(m, n), i))) == Sum(0, n, Square(m, n))
  {
    hide Sum, Times;
    var c := ColSums(m, n);
    var f: Matrix := (i, j) => Times(m(i, j), At(c, j));
    var rows: int -> real := i => Sum(0, n, RowTerm(m, c, i));
    forall i | 0 <= i < n ensures rows(i) == Sum(0, n, j => f(i, j)) { SumEq(0, n, RowTerm(m, c, i), j => f(i, j)); }
    forall j | 0 <= j < n ensures Square(m, n)(j) == Sum(0, n, i => f(i, j)) {
      var s := ColSum(m, n, j);
      forall i | 0 <= i < n ensures f(i, j) == Times(s, m(i, j)) { TimesAssoc(m(i, j), s, 1.0); }
      SumTimes(0, n, s, i => m(i, j), i => f(i, j));
    }
    SumExchange(n, n, f, rows, Square(m, n));
    SumEq(0, n, rows, i => Sum(0, n, RowTerm(m, c, i)));
  }

  /** The column sums of a row-stochastic matrix add up to n. */
  lemma ColSumsTotal(m: Matrix, n: nat)
    requires RowStochastic(m, n)
    ensures Sum(0, n, j => ColSum(m, n, j)) == n as real
  {
    hide Sum;
    var rows: int -> real := i => RowSum(m, n, i);
    var cols: int -> real := j => ColSum(m, n, j);
    SumExchange(n, n, m, rows, cols);
    SumEq(0, n, rows, _ => 1.0);
    SumOfOnes(n, _ => 1.0);
    SumEq(0, n, cols, j => ColSum(m, n, j));
  }

  /** Along (-1, c) the curvature is minus the squared distance of the column sums from one. */
  lemma WitnessCurvature(m: Matrix, n: nat)
    requires RowStochastic(m, n)
    ensures Curvature(m, n, Ones(n, -1.0), ColSums(m, n)) == -Sum(0, n, Excess(m, n))
  {
    hide Sum, Times, Upper, Lower, RowStochastic;
    var x, c := Ones(n, -1.0), ColSums(m, n);
    LowerVanishes(m, n);
    UpperTotal(m, n);
    ColSumsTotal(m, n);
    var rows: int -> real := i => Sum(0, n, RowTerm(m, c, i));
    var one: int -> real := _ => 1.0;
    var d := DotTerm(x, c, Upper(m, n, x, c), Lower(m, n, x, c));
    forall i | 0 <= i < n ensures d(i) == 1.0 * one(i) + -1.0 * rows(i) { WitnessTerm(m, n, i); }
    SumLinear(0, n, 1.0, one, -1.0, rows, d);
    SumOfOnes(n, one);
    SumEq(0, n, rows, i => Sum(0, n, RowTerm(m, c, i)));
    ExcessTotal(m, n, n);
  }

  lemma WitnessTerm(m: Matrix, n: nat, i: int)
    requires 0 <= i < n
    ensures var x, c := Ones(n, -1.0), ColSums(m, n);
            DotTerm(x, c, Upper(m, n, x, c), Lower(m, n, x, c))(i) == 1.0 - Sum(0, n, RowTerm(m, c, i))
  {
    hide Sum, Times, Lower;
    var x, c := Ones(n, -1.0), ColSums(m, n);
    LowerVanishes(m, n);
    var s := Sum(0, n, RowTerm(m, c, i));
    assert At(Upper(m, n, x, c), i) == -1.0 + s;
    TimesNegate(1.0, -1.0 + s);
    TimesUnit(-1.0 + s);
    TimesUnit(c[i]);
  }

  /** (c - 1)^2 = c^2 - 2c + 1, added up. */
  lemma {:induction false} ExcessTotal(m: Matrix, n: nat, k: nat)
    ensures Sum(0, k, Excess(m, n)) == Sum(0, k, Square(m, n)) - 2.0 * Sum(0, k, j => ColSum(m, n, j)) + k as real
    decreases k
  {
    var cols: int -> real := j => ColSum(m, n, j);
    if k > 0 {
      ExcessTotal(m, n, k - 1);
      ExcessAt(m, n, k - 1);
      SumEq(0, k - 1, cols, j => ColSum(m, n, j));
      assert Sum(0, k, cols) == Sum(0, k - 1, cols) + cols(k - 1);
      SumEq(0, k, cols, j => ColSum(m, n, j));
    }
  }

  lemma ExcessAt(m: Matrix, n: nat, j: int)
    ensures Excess(m, n)(j) == Square(m, n)(j) - 2.0 * ColSum(m, n, j) + 1.0
  {
    var c := ColSum(m, n, j);
    assert (c - 1.0) * (c - 1.0) == c * c - 2.0 * c + 1.0;
  }

  /** It is negative unless R is doubly stochastic. */
  lemma ExcessPositive(m: Matrix, n: nat)
    requires RowStochastic(m, n) && !DoublyStochastic(m, n)
    ensures Sum(0, n, Excess(m, n)) > 0.0
  {
    hide Sum;
    var k :| 0 <= k < n && ColSum(m, n, k) != 1.0;
    forall j ensures Excess(m, n)(j) >= 0.0 { SquareNonNegative(ColSum(m, n, j) - 1.0); }
    SquarePositive(ColSum(m, n, k) - 1.0);
    SumPositive(0, n, Excess(m, n), k);
  }

  // ---------------------------------------------------------------- the exact condition

  ghost predicate NeverNegative(m: Matrix, n: nat) {
    forall p1: seq<real>, p2: seq<real> :: |p1| == |p2| == n ==> Curvature(m, n, p1, p2) >= 0.0
  }

  /** No direction has negative curvature exactly when R is doubly stochastic. */
  lemma CurvatureExact(m: Matrix, n: nat)
    requires RowStochastic(m, n)
    ensures NeverNegative(m, n) <==> DoublyStochastic(m, n)
  {
    hide Sum, Times, Upper, Lower;
    if DoublyStochastic(m, n) {
      forall p1: seq<real>, p2: seq<real> | |p1| == |p2| == n ensures Curvature(m, n, p1, p2) >= 0.0 {
        CurvatureBound(m, n, 0.0, p1, p2);
        TimesUnit(Dot(n, p1, p2, p1, p2));
      }
    } else {
      ExcessPositive(m, n);
      WitnessCurvature(m, n);
      assert |Ones(n, -1.0)| == |ColSums(m, n)| == n;
    }
  }

  // ---------------------------------------------------------------- steps and runs

  /** t p. */
  function Stretched(n: nat, t: real, p: seq<real>): seq<real> { Axpy(Ones(n, 0.0), t, p) }

  lemma DotZero(n: nat, y1: seq<real>, y2: seq<real>)
    ensures Dot(n, Ones(n, 0.0), Ones(n, 0.0), y1, y2) == 0.0
  {
    hide Times, Sum;
    var z := Ones(n, 0.0);
    forall i | 0 <= i < n ensures DotTerm(z, z, y1, y2)(i) == 0.0 {
      TimesUnit(At(y1, i));
      TimesUnit(At(y2, i));
    }
    SumZero(0, n, DotTerm(z, z, y1, y2));
  }

  /** Curvature and square grow with the square of the stretch. */
  lemma StretchedForms(m: Matrix, n: nat, t: real, p1: seq<real>, p2: seq<real>)
    requires |p1| == |p2| == n
    ensures var q1, q2 := Stretched(n, t, p1), Stretched(n, t, p2);
            && |q1| == |q2| == n
            && Curvature(m, n, q1, q2) == Times(t, Times(t, Curvature(m, n, p1, p2)))
            && Dot(n, q1, q2, q1, q2) == Times(t, Times(t, Dot(n, p1, p2, p1, p2)))
  {
    hide Sum, Times, Upper, Lower, Dot, Axpy;
    var z, q1, q2 := Ones(n, 0.0), Stretched(n, t, p1), Stretched(n, t, p2);
    AxpySize(z, t, p1);
    AxpySize(z, t, p2);
    OperatorLinear(m, n, z, z, t, p1, p2);
    ZeroOperator(m, n);
    DotLinear(n, z, z, t, p1, p2, Upper(m, n, q1, q2), Lower(m, n, q1, q2));
    DotLinearRight(n, p1, p2, z, z, t, Upper(m, n, p1, p2), Lower(m, n, p1, p2));
    DotZero(n, Upper(m, n, q1, q2), Lower(m, n, q1, q2));
    DotSymmetric(n, p1, p2, z, z);
    DotZero(n, p1, p2);
    DotLinear(n, z, z, t, p1, p2, q1, q2);
    DotLinearRight(n, p1, p2, z, z, t, p1, p2);
    DotZero(n, q1, q2);
  }

  lemma ZeroOperator(m: Matrix, n: nat)
    ensures var z := Ones(n, 0.0); Upper(m, n, z, z) == z && Lower(m, n, z, z) == z
  {
    hide Sum, Times;
    var z := Ones(n, 0.0);
    forall i | 0 <= i < n ensures Upper(m, n, z, z)[i] == 0.0 && Lower(m, n, z, z)[i] == 0.0 {
      ZeroRow(m, n, z, i);
      ZeroCol(m, n, z, i);
    }
  }

  /** A step against a curvature below -2 EPS raises the objective. */
  lemma StepAscends(m: Matrix, n: nat, b1: seq<real>, b2: seq<real>, s: Cg)
    requires Descending(m, n, b1, b2, s) && s.normsq > 0.0 && Curvature(m, n, s.p1, s.p2) < -2.0 * EPS
    ensures Objective(m, n, b1, b2, Step(EPS, m, n, s).x1, Step(EPS, m, n, s).x2) > Objective(m, n, b1, b2, s.x1, s.x2)
  {
    hide Dot, Times, Upper, Lower, Axpy, Beta, Objective, Residual;
    var curv, d := Curvature(m, n, s.p1, s.p2), Dot(n, s.p1, s.p2, s.r1, s.r2);
    ObjectiveAlong(m, n, b1, b2, s, Alpha(EPS, m, n, s));
    TimesQuotient(s.normsq, curv + EPS);
    AscentArithmetic(Alpha(EPS, m, n, s), curv, s.normsq, d);
  }

  lemma AscentArithmetic(alpha: real, curv: real, normsq: real, d: real)
    requires d >= normsq > 0.0 && curv < -2.0 * EPS && Times(alpha, curv + EPS) == normsq
    ensures -2.0 * Times(alpha, d) + Times(alpha, Times(alpha, curv)) > 0.0
  {
    hide Times;
    var a := -alpha;
    TimesNegate(alpha, curv + EPS);
    TimesAssoc(a, curv + EPS, 1.0);
    if a <= 0.0 {
      TimesSign(-a, -(curv + EPS));
      TimesNegate(a, -(curv + EPS));
      TimesAssoc(-(curv + EPS), a, 1.0);
      TimesNegate(curv + EPS, a);
      assert false;
    }
    // normsq = a (-(curv + EPS)) > a EPS
    TimesNegate(curv + EPS, a);
    TimesAssoc(-(curv + EPS), a, 1.0);
    TimesSum(-(curv + EPS), EPS, a);
    TimesSign(a, -(curv + EPS) - EPS);
    // 2 a d - a (normsq + a EPS) = a (2 d - normsq - a EPS)
    TimesNegate(alpha, d);
    TimesSum(curv, EPS, alpha);
    TimesNegate(alpha, EPS);
    TimesNegate(alpha, Times(alpha, curv));
    TimesSum(d + d, normsq + Times(a, EPS), a);
    TimesSum(d, d, a);
    TimesSign(a, d + d - (normsq + Times(a, EPS)));
  }

  /** Every iteration of every run, from any right-hand sides, lowers the objective while there is a residual. */
  ghost predicate AlwaysDescends(m: Matrix, n: nat) {
    forall b1: seq<real>, b2: seq<real>, k: nat | |b1| == |b2| == n ::
      var s, t := Run(EPS, m, n, b1, b2, k), Run(EPS, m, n, b1, b2, k + 1);
      s.normsq > 0.0 ==> Objective(m, n, b1, b2, t.x1, t.x2) < Objective(m, n, b1, b2, s.x1, s.x2)
  }

  /** The right-hand sides (-t, t c) whose first step goes backwards. */
  lemma BackwardStart(m: Matrix, n: nat) returns (b1: seq<real>, b2: seq<real>)
    requires RowStochastic(m, n) && !DoublyStochastic(m, n)
    ensures |b1| == |b2| == n && Dot(n, b1, b2, b1, b2) > 0.0 && Curvature(m, n, b1, b2) < -2.0 * EPS
  {
    hide Sum, Times, Upper, Lower, Dot, Curvature, RowStochastic, DoublyStochastic;
    var p1, p2, e := Ones(n, -1.0), ColSums(m, n), Sum(0, n, Excess(m, n));
    ExcessPositive(m, n);
    WitnessCurvature(m, n);
    var t := 1.0 + 3.0 * EPS / e;
    Enough(e, t);
    StretchedForms(m, n, t, p1, p2);
    b1, b2 := Stretched(n, t, p1), Stretched(n, t, p2);
    SomeRow(m, n);
    DotPositive(n, p2);
    TimesSign(t, Dot(n, p1, p2, p1, p2));
    TimesSign(t, Times(t, Dot(n, p1, p2, p1, p2)));
  }

  lemma SomeRow(m: Matrix, n: nat)
    requires RowStochastic(m, n) && !DoublyStochastic(m, n)
    ensures n >= 1
  {
  }

  lemma DotPositive(n: nat, y: seq<real>)
    requires n >= 1 && |y| == n
    ensures Dot(n, Ones(n, -1.0), y, Ones(n, -1.0), y) > 0.0
  {
    var x := Ones(n, -1.0);
    forall i | 0 <= i < n ensures DotTerm(x, y, x, y)(i) > 0.0 { SquareNonNegative(At(y, i)); }
    SumPositive(0, n, DotTerm(x, y, x, y), 0);
  }

  lemma Enough(e: real, t: real)
    requires e > 0.0 && t == 1.0 + 3.0 * EPS / e
    ensures t >= 1.0 && Times(t, Times(t, -e)) < -2.0 * EPS
  {
    hide Times;
    var q := 3.0 * EPS / e;
    TimesQuotient(3.0 * EPS, e);
    TimesSign(q, e);
    if q < 0.0 { TimesSign(-q, e); TimesNegate(q, e); assert false; }
    TimesSum(1.0, q, e);
    TimesUnit(e);
    TimesSign(t, e);
    TimesOrder(1.0, t, Times(t, e));
    TimesUnit(Times(t, e));
    TimesNegate(e, t);
    TimesAssoc(t, e, 1.0);
    TimesAssoc(t, -e, 1.0);
    TimesNegate(Times(t, e), t);
    TimesAssoc(t, Times(t, e), 1.0);
    TimesAssoc(t, -Times(t, e), 1.0);
  }

  /** Among row-stochastic R, the loop always descends exactly when R is doubly stochastic. */
  lemma DescendsExact(m: Matrix, n: nat)
    requires RowStochastic(m, n)
    ensures AlwaysDescends(m, n) <==> DoublyStochastic(m, n)
  {
    hide Sum, Times, Upper, Lower, Dot, Curvature, Objective, Guarded, Residual, Step;
    if DoublyStochastic(m, n) {
      forall b1: seq<real>, b2: seq<real>, k: nat | |b1| == |b2| == n
        ensures var s, t := Run(EPS, m, n, b1, b2, k), Run(EPS, m, n, b1, b2, k + 1);
                s.normsq > 0.0 ==> Objective(m, n, b1, b2, t.x1, t.x2) < Objective(m, n, b1, b2, s.x1, s.x2)
      {
        forall j | 0 <= j <= k ensures Guarded(EPS, m, n, Run(EPS, m, n, b1, b2, j)) { AlwaysGuarded(m, n, b1, b2, j); }
        RunDescends(m, n, b1, b2, k);
      }
    } else {
      var b1, b2 := BackwardStart(m, n);
      StartDescending(m, n, b1, b2);
      StepAscends(m, n, b1, b2, Start(n, b1, b2));
      assert Run(EPS, m, n, b1, b2, 0) == Start(n, b1, b2);
      assert Run(EPS, m, n, b1, b2, 1) == Step(EPS, m, n, Run(EPS, m, n, b1, b2, 0));
      assert Run(EPS, m, n, b1, b2, 0 + 1) == Run(EPS, m, n, b1, b2, 1);
    }
  }

  // ---------------------------------------------------------------- the forward pass

  ghost predicate Positive(m: Matrix, n: nat) { forall i, j :: 0 <= i < n && 0 <= j < n ==> m(i, j) > 0.0 }

  /** R / R.sum(-2) and R / R.sum(-1). */
  function ByColumns(m: Matrix, n: nat): Matrix { (i, j) => Ratio(m(i, j), ColSum(m, n, j)) }
  function ByRows(m: Matrix, n: nat): Matrix { (i, j) => Ratio(m(i, j), RowSum(m, n, i)) }

  function Forward(m: Matrix, n: nat, iters: nat): Matrix {
    if iters == 0 then m else ByRows(ByColumns(Forward(m, n, iters - 1), n), n)
  }

  lemma SumsPositive(m: Matrix, n: nat, i: int)
    requires Positive(m, n) && 0 <= i < n
    ensures RowSum(m, n, i) > 0.0 && ColSum(m, n, i) > 0.0
  {
    SumPositive(0, n, j => m(i, j), i);
    SumPositive(0, n, k => m(k, i), i);
  }

  lemma NormalisedPositive(m: Matrix, n: nat)
    requires Positive(m, n)
    ensures Positive(ByColumns(m, n), n) && Positive(ByRows(m, n), n)
  {
    forall i, j | 0 <= i < n && 0 <= j < n ensures ByColumns(m, n)(i, j) > 0.0 && ByRows(m, n)(i, j) > 0.0 {
      SumsPositive(m, n, i);
      SumsPositive(m, n, j);
      RatioSign(m(i, j), ColSum(m, n, j));
      RatioSign(m(i, j), RowSum(m, n, i));
    }
  }

  lemma RowsNormalised(m: Matrix, n: nat, i: int)
    requires Positive(m, n) && 0 <= i < n
    ensures RowSum(ByRows(m, n), n, i) == 1.0
  {
    hide Sum, Times;
    SumsPositive(m, n, i);
    var s := RowSum(m, n, i);
    var r: int -> real := j => ByRows(m, n)(i, j);
    forall j | 0 <= j < n ensures m(i, j) == Times(s, r(j)) {
      assert r(j) == ByRows(m, n)(i, j) == Ratio(m(i, j), s);
      TimesQuotient(m(i, j), s);
      TimesAssoc(r(j), s, 1.0);
    }
    SumTimes(0, n, s, r, j => m(i, j));
    SumEq(0, n, r, j => ByRows(m, n)(i, j));
    TimesUnit(s);
    TimesAssoc(s, Sum(0, n, r), 1.0);
    TimesCancel(Sum(0, n, r), 1.0, s);
    TimesCancel(1.0, Sum(0, n, r), s);
  }

  /** From a positive matrix every iteration of the forward pass leaves positive entries and rows that sum to one. */
  lemma {:induction false} ForwardRowStochastic(m: Matrix, n: nat, iters: nat)
    requires Positive(m, n)
    ensures Positive(Forward(m, n, iters), n) && (iters >= 1 ==> RowStochastic(Forward(m, n, iters), n))
  {
    hide ByRows, ByColumns, Sum;
    if iters > 0 {
      ForwardRowStochastic(m, n, iters - 1);
      var f := Forward(m, n, iters - 1);
      NormalisedPositive(f, n);
      NormalisedPositive(ByColumns(f, n), n);
      forall i | 0 <= i < n ensures RowSum(Forward(m, n, iters), n, i) == 1.0 { RowsNormalised(ByColumns(f, n), n, i); }
    }
  }

  ghost predicate SameEntries(m: Matrix, m': Matrix, n: nat) {
    forall i, j :: 0 <= i < n && 0 <= j < n ==> m(i, j) == m'(i, j)
  }

  /** An iteration of the forward pass leaves a positive matrix as it is exactly when it is doubly stochastic. */
  lemma FixedExactly(m: Matrix, n: nat)
    requires Positive(m, n)
    ensures SameEntries(Forward(m, n, 1), m, n) <==> DoublyStochastic(m, n)
  {
    hide Sum, ByRows, ByColumns;
    assert Forward(m, n, 0) == m;
    if DoublyStochastic(m, n) { StochasticFixed(m, n); }
    if SameEntries(Forward(m, n, 1), m, n) { FixedStochastic(m, n); }
  }

  lemma SameRows(m: Matrix, m': Matrix, n: nat, i: int)
    requires SameEntries(m, m', n) && 0 <= i < n
    ensures RowSum(m, n, i) == RowSum(m', n, i)
  {
    SumEq(0, n, j => m(i, j), j => m'(i, j));
  }

  lemma StochasticFixed(m: Matrix, n: nat)
    requires Positive(m, n) && DoublyStochastic(m, n)
    ensures SameEntries(ByRows(ByColumns(m, n), n), m, n)
  {
    hide Sum;
    var c := ByColumns(m, n);
    forall i, j | 0 <= i < n && 0 <= j < n ensures c(i, j) == m(i, j) { assert ColSum(m, n, j) == 1.0; }
    forall i, j | 0 <= i < n && 0 <= j < n ensures ByRows(c, n)(i, j) == m(i, j) {
      SameRows(c, m, n, i);
      assert RowSum(m, n, i) == 1.0;
    }
  }

  /** A fixed matrix has rows that sum to one, and the row sums after its column step are the inverses of all its
      column sums, which are therefore equal, and one since they add up to n. */
  lemma FixedStochastic(m: Matrix, n: nat)
    requires Positive(m, n) && SameEntries(ByRows(ByColumns(m, n), n), m, n)
    ensures DoublyStochastic(m, n)
  {
    hide Sum, ByRows, ByColumns;
    var c := ByColumns(m, n);
    NormalisedPositive(m, n);
    forall i | 0 <= i < n ensures RowSum(m, n, i) == 1.0 {
      RowsNormalised(c, n, i);
      SameRows(ByRows(c, n), m, n, i);
    }
    forall j | 0 <= j < n ensures ColSum(m, n, j) == 1.0 {
      forall k | 0 <= k < n ensures ColSum(m, n, k) == ColSum(m, n, j) {
        InverseSums(m, n, 0, j);
        InverseSums(m, n, 0, k);
        SumsPositive(m, n, j);
        SumsPositive(m, n, k);
        SameInverse(ColSum(m, n, j), ColSum(m, n, k), RowSum(c, n, 0));
      }
      EqualColumns(m, n, j);
    }
  }

  /** c_j times the row sum after the column step is one. */
  lemma InverseSums(m: Matrix, n: nat, i: int, j: int)
    requires Positive(m, n) && SameEntries(ByRows(ByColumns(m, n), n), m, n) && 0 <= i < n && 0 <= j < n
    ensures Times(ColSum(m, n, j), RowSum(ByColumns(m, n), n, i)) == 1.0
  {
    hide Sum;
    var c := ByColumns(m, n);
    NormalisedPositive(m, n);
    SumsPositive(m, n, j);
    SumsPositive(c, n, i);
    assert ByRows(c, n)(i, j) == m(i, j);
    Inverse(m(i, j), ColSum(m, n, j), RowSum(c, n, i));
  }

  lemma Inverse(a: real, b: real, c: real)
    requires a > 0.0 && b > 0.0 && c > 0.0 && (a / b) / c == a
    ensures Times(b, c) == 1.0
  {
    var q := a / b;
    assert q * b == a;
    assert a * c == q;
    assert (b * c) * a == (a * c) * b;
    CancelPositive(b * c, 1.0, a);
    CancelPositive(1.0, b * c, a);
  }

  lemma SameInverse(a: real, b: real, c: real)
    requires a > 0.0 && b > 0.0 && Times(a, c) == 1.0 && Times(b, c) == 1.0
    ensures a == b
  {
    if c <= 0.0 { MulNonNegative(a, -c); assert false; }
    CancelPositive(a, b, c);
    CancelPositive(b, a, c);
  }

  lemma EqualColumns(m: Matrix, n: nat, j: int)
    requires RowStochastic(m, n) && 0 <= j < n && forall k :: 0 <= k < n ==> ColSum(m, n, k) == ColSum(m, n, j)
    ensures ColSum(m, n, j) == 1.0
  {
    hide Sum;
    var v := ColSum(m, n, j);
    ColSumsTotal(m, n);
    var cols: int -> real := k => ColSum(m, n, k);
    var one: int -> real := _ => 1.0;
    forall k | 0 <= k < n ensures cols(k) == Times(v, one(k)) { TimesUnit(v); }
    SumTimes(0, n, v, one, cols);
    SumOfOnes(n, one);
    SumEq(0, n, cols, k => ColSum(m, n, k));
    TimesUnit(n as real);
    TimesCancel(v, 1.0, n as real);
    TimesCancel(1.0, v, n as real);
  }

  // ---------------------------------------------------------------- a run that goes backwards

  /** exp(M), and what one iteration of the forward pass makes of it. */
  function Source(): Matrix {
    (i, j) => if i == 0 then (if j == 0 then 9.0 else 1.0) else if j == 0 then 32.0 else 40.0
  }

  function Skewed(): Matrix {
    (i, j) => if i == 0 then (if j == 0 then 0.9 else 0.1) else if j == 0 then 4.0 / 9.0 else 5.0 / 9.0
  }

  lemma SkewedIsForward(i: int, j: int)
    requires 0 <= i < 2 && 0 <= j < 2
    ensures Positive(Source(), 2) && Forward(Source(), 2, 1)(i, j) == Skewed()(i, j)
  {
    var p := Source();
    var c := ByColumns(p, 2);
    SumOfTwo(k => p(k, 0));
    SumOfTwo(k => p(k, 1));
    assert ColSum(p, 2, 0) == 41.0 && ColSum(p, 2, 1) == 41.0;
    SumOfTwo(k => c(i, k));
    assert RowSum(c, 2, i) == c(i, 0) + c(i, 1);
    assert Forward(p, 2, 0) == p;
    assert Forward(p, 2, 1)(i, j) == Ratio(c(i, j), RowSum(c, 2, i));
  }

  /** A 2 x 2 operator and inner product written out. */
  lemma TwoByTwo(m: Matrix, x1: seq<real>, x2: seq<real>, i: int)
    requires |x1| == |x2| == 2 && 0 <= i < 2
    ensures Upper(m, 2, x1, x2)[i] == x1[i] + (Times(m(i, 0), x2[0]) + Times(m(i, 1), x2[1]))
    ensures Lower(m, 2, x1, x2)[i] == x2[i] + (Times(m(0, i), x1[0]) + Times(m(1, i), x1[1]))
  {
    hide Times;
    SumOfTwo(RowTerm(m, x2, i));
    SumOfTwo(ColTerm(m, x1, i));
  }

  lemma DotOfTwo(x1: seq<real>, x2: seq<real>, y1: seq<real>, y2: seq<real>)
    requires |x1| == |x2| == |y1| == |y2| == 2
    ensures Dot(2, x1, x2, y1, y2)
            == Times(x1[0], y1[0]) + Times(x2[0], y2[0]) + (Times(x1[1], y1[1]) + Times(x2[1], y2[1]))
  {
    hide Times;
    SumOfTwo(DotTerm(x1, x2, y1, y2));
  }

  /** dout for which the right-hand sides are (4, 3) and (5, 2). */
  function Upstream(): Matrix {
    (i, j) => if i == 0 then (if j == 0 then 40.0 / 9.0 else 0.0) else if j == 0 then 9.0 / 4.0 else 18.0 / 5.0
  }

  const B1: seq<real> := [4.0, 3.0]
  const B2: seq<real> := [5.0, 2.0]

  lemma UpstreamSides()
    ensures RhsRows(Skewed(), Upstream(), 2) == B1 && RhsCols(Skewed(), Upstream(), 2) == B2
  {
    hide Sum;
    var m, d := Skewed(), Upstream();
    SumOfTwo(RhsRowTerm(m, d, 0));
    SumOfTwo(RhsRowTerm(m, d, 1));
    SumOfTwo(RhsColTerm(m, d, 0));
    SumOfTwo(RhsColTerm(m, d, 1));
    SideProducts();
  }

  lemma SideProducts()
    ensures var m, d := Skewed(), Upstream();
            && Times(m(0, 0), d(0, 0)) == 4.0 && Times(m(0, 1), d(0, 1)) == 0.0
            && Times(m(1, 0), d(1, 0)) == 1.0 && Times(m(1, 1), d(1, 1)) == 2.0
  {
  }

  /** The numbers of the first iteration, and the curvature of the direction it leaves. */
  lemma Numbers(a: real, r0: real, r1: real, r2: real, r3: real, n: real, be: real,
                p0: real, p1: real, p2: real, p3: real)
    requires a == 54.0 / (111.6 + EPS)
    requires r0 == 4.0 + -a * 8.7 && r1 == 3.0 + -a * (19.0 / 3.0)
    requires r2 == 5.0 + -a * (149.0 / 15.0) && r3 == 2.0 + -a * (61.0 / 15.0)
    requires n == r0 * r0 + r2 * r2 + (r1 * r1 + r3 * r3) && be == n / (54.0 + EPS)
    requires p0 == r0 + be * 4.0 && p1 == r1 + be * 3.0 && p2 == r2 + be * 5.0 && p3 == r3 + be * 2.0
    ensures n > 0.0
    ensures p0 * (p0 + (0.9 * p2 + 0.1 * p3)) + p2 * (p2 + (0.9 * p0 + 4.0 / 9.0 * p1))
            + (p1 * (p1 + (4.0 / 9.0 * p2 + 5.0 / 9.0 * p3)) + p3 * (p3 + (0.1 * p0 + 5.0 / 9.0 * p1))) < -0.001
  {
  }

  lemma CurvatureOfTwo(p1: seq<real>, p2: seq<real>)
    requires |p1| == |p2| == 2
    ensures Curvature(Skewed(), 2, p1, p2)
            == Times(p1[0], p1[0] + (Times(0.9, p2[0]) + Times(0.1, p2[1])))
               + Times(p2[0], p2[0] + (Times(0.9, p1[0]) + Times(4.0 / 9.0, p1[1])))
               + (Times(p1[1], p1[1] + (Times(4.0 / 9.0, p2[0]) + Times(5.0 / 9.0, p2[1])))
                  + Times(p2[1], p2[1] + (Times(0.1, p1[0]) + Times(5.0 / 9.0, p1[1]))))
  {
    hide Sum, Times, Upper, Lower, Dot;
    var m := Skewed();
    OperatorSize(m, 2, p1, p2);
    TwoByTwo(m, p1, p2, 0);
    TwoByTwo(m, p1, p2, 1);
    DotOfTwo(p1, p2, Upper(m, 2, p1, p2), Lower(m, 2, p1, p2));
  }

  /** A b, b'Ab and |b|^2. */
  lemma FirstOperator()
    ensures var u, l := Upper(Skewed(), 2, B1, B2), Lower(Skewed(), 2, B1, B2);
            && |u| == |l| == 2 && u[0] == 8.7 && u[1] == 19.0 / 3.0 && l[0] == 149.0 / 15.0 && l[1] == 61.0 / 15.0
    ensures Curvature(Skewed(), 2, B1, B2) == 111.6 && Dot(2, B1, B2, B1, B2) == 54.0
  {
    hide Sum, Upper, Lower, Curvature, Dot;
    OperatorSize(Skewed(), 2, B1, B2);
    TwoByTwo(Skewed(), B1, B2, 0);
    TwoByTwo(Skewed(), B1, B2, 1);
    CurvatureOfTwo(B1, B2);
    DotOfTwo(B1, B2, B1, B2);
  }

  /** The residual after one step of length a, and the direction after it. */
  lemma FirstUpdate(a: real, be: real)
    ensures var s := Update(Skewed(), 2, Start(2, B1, B2), a, be);
            && Sized(2, s) && s.normsq == Dot(2, s.r1, s.r2, s.r1, s.r2)
            && s.r1[0] == 4.0 + Times(-a, 8.7) && s.r1[1] == 3.0 + Times(-a, 19.0 / 3.0)
            && s.r2[0] == 5.0 + Times(-a, 149.0 / 15.0) && s.r2[1] == 2.0 + Times(-a, 61.0 / 15.0)
            && s.p1[0] == s.r1[0] + Times(be, 4.0) && s.p1[1] == s.r1[1] + Times(be, 3.0)
            && s.p2[0] == s.r2[0] + Times(be, 5.0) && s.p2[1] == s.r2[1] + Times(be, 2.0)
  {
    hide Sum, Upper, Lower, Curvature, Dot, Times;
    FirstOperator();
  }

  /** The first iteration, written out. */
  lemma FirstIteration()
    ensures var s := Run(EPS, Skewed(), 2, B1, B2, 1);
            Sized(2, s) && s.normsq > 0.0 && Curvature(Skewed(), 2, s.p1, s.p2) < -0.001
  {
    hide Sum, Upper, Lower, Curvature, Dot, Update, Times;
    var m, s0 := Skewed(), Start(2, B1, B2);
    FirstOperator();
    var a, be := Alpha(EPS, m, 2, s0), Beta(EPS, m, 2, s0);
    var s, t := Update(m, 2, s0, a, be), Update(m, 2, s0, a, 0.0);
    FirstUpdate(a, be);
    FirstUpdate(a, 0.0);
    assert Run(EPS, m, 2, B1, B2, 0) == s0;
    assert Run(EPS, m, 2, B1, B2, 1) == s;
    assert t.r1 == s.r1 && t.r2 == s.r2;
    DotOfTwo(s.r1, s.r2, s.r1, s.r2);
    FirstNumbers(a, be, s);
  }

  lemma FirstNumbers(a: real, be: real, s: Cg)
    requires Sized(2, s) && a == 54.0 / (111.6 + EPS) && be == s.normsq / (54.0 + EPS)
    requires s.r1[0] == 4.0 + Times(-a, 8.7) && s.r1[1] == 3.0 + Times(-a, 19.0 / 3.0)
    requires s.r2[0] == 5.0 + Times(-a, 149.0 / 15.0) && s.r2[1] == 2.0 + Times(-a, 61.0 / 15.0)
    requires s.p1[0] == s.r1[0] + Times(be, 4.0) && s.p1[1] == s.r1[1] + Times(be, 3.0)
    requires s.p2[0] == s.r2[0] + Times(be, 5.0) && s.p2[1] == s.r2[1] + Times(be, 2.0)
    requires s.normsq == Times(s.r1[0], s.r1[0]) + Times(s.r2[0], s.r2[0])
                         + (Times(s.r1[1], s.r1[1]) + Times(s.r2[1], s.r2[1]))
    ensures s.normsq > 0.0 && Curvature(Skewed(), 2, s.p1, s.p2) < -0.001
  {
    hide Curvature;
    Numbers(a, s.r1[0], s.r1[1], s.r2[0], s.r2[1], s.normsq, be, s.p1[0], s.p1[1], s.p2[0], s.p2[1]);
    CurvatureOfTwo(s.p1, s.p2);
  }

  /** The kernel on a forward result: with exp(M) = ((9, 1), (32, 40)), one iteration of the forward pass and this dout,
      the second of the four conjugate-gradient iterations steps backwards and raises the objective. */
  lemma BackwardRun()
    ensures forall i, j :: 0 <= i < 2 && 0 <= j < 2 ==> Forward(Source(), 2, 1)(i, j) == Skewed()(i, j)
    ensures RhsRows(Skewed(), Upstream(), 2) == B1 && RhsCols(Skewed(), Upstream(), 2) == B2
    ensures var s, t := Run(EPS, Skewed(), 2, B1, B2, 1), Run(EPS, Skewed(), 2, B1, B2, 2);
            && !Guarded(EPS, Skewed(), 2, s) && Alpha(EPS, Skewed(), 2, s) < 0.0
            && Objective(Skewed(), 2, B1, B2, t.x1, t.x2) > Objective(Skewed(), 2, B1, B2, s.x1, s.x2)
  {
    hide Sum, Upper, Lower, Curvature, Objective, Dot, Residual;
    var m := Skewed();
    forall i, j | 0 <= i < 2 && 0 <= j < 2 ensures Forward(Source(), 2, 1)(i, j) == m(i, j) { SkewedIsForward(i, j); }
    UpstreamSides();
    FirstIteration();
    var s := Run(EPS, m, 2, B1, B2, 1);
    assert Run(EPS, m, 2, B1, B2, 2) == Step(EPS, m, 2, s);
    FirstDescending();
    StepAscends(m, 2, B1, B2, s);
    BackwardRatio(s.normsq, Curvature(m, 2, s.p1, s.p2) + EPS);
  }

  /** The first iteration was guarded, so that its result is a state StepAscends speaks about. */
  lemma FirstDescending()
    ensures Descending(Skewed(), 2, B1, B2, Run(EPS, Skewed(), 2, B1, B2, 1))
  {
    hide Sum, Upper, Lower, Curvature, Objective, Dot, Residual, Step;
    var m, s0 := Skewed(), Start(2, B1, B2);
    assert Run(EPS, m, 2, B1, B2, 0) == s0;
    assert Run(EPS, m, 2, B1, B2, 1) == Step(EPS, m, 2, s0);
    StartDescending(m, 2, B1, B2);
    CurvatureOfTwo(B1, B2);
    StepDescends(m, 2, B1, B2, s0);
  }

  lemma BackwardRatio(a: real, b: real)
    requires a > 0.0 && b < 0.0
    ensures Ratio(a, b) < 0.0
  {
    RatioBackward(a, b);
    TimesQuotient(a, b);
    TimesUnit(b);
  }
}
