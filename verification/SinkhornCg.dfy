/** The conjugate-gradient loop of the Sinkhorn backward pass and the gradient it returns. */
module SinkhornCg {
  import opened RealArith
  import opened Sums
  import opened Sinkhorn

  const EPS: real := 0.0000000001

  // ---------------------------------------------------------------- specification of the loop

  datatype Cg = Cg(x1: seq<real>, x2: seq<real>, r1: seq<real>, r2: seq<real>, p1: seq<real>, p2: seq<real>,
                   normsq: real)

  /** A quotient, with a value for the zero denominator that a guarded run does not meet. */
  function Ratio(a: real, b: real): real {
    if b == 0.0 then 0.0 else a / b
  }

  function Curvature(m: Matrix, n: nat, p1: seq<real>, p2: seq<real>): real {
    Dot(n, p1, p2, Upper(m, n, p1, p2), Lower(m, n, p1, p2))
  }

  /** One iteration with step lengths alpha and beta. */
  function Update(m: Matrix, n: nat, s: Cg, alpha: real, beta: real): Cg {
    var r1 := Axpy(s.r1, -alpha, Upper(m, n, s.p1, s.p2));
    var r2 := Axpy(s.r2, -alpha, Lower(m, n, s.p1, s.p2));
    Cg(Axpy(s.x1, alpha, s.p1), Axpy(s.x2, alpha, s.p2), r1, r2, Axpy(r1, beta, s.p1), Axpy(r2, beta, s.p2),
       Dot(n, r1, r2, r1, r2))
  }

  function Alpha(eps: real, m: Matrix, n: nat, s: Cg): real {
    Ratio(s.normsq, Curvature(m, n, s.p1, s.p2) + eps)
  }

  function Beta(eps: real, m: Matrix, n: nat, s: Cg): real {
    Ratio(Update(m, n, s, Alpha(eps, m, n, s), 0.0).normsq, s.normsq + eps)
  }

  function Step(eps: real, m: Matrix, n: nat, s: Cg): Cg {
    Update(m, n, s, Alpha(eps, m, n, s), Beta(eps, m, n, s))
  }

  function Start(n: nat, b1: seq<real>, b2: seq<real>): Cg {
    Cg(seq(n, i => 0.0), seq(n, i => 0.0), b1, b2, b1, b2, Dot(n, b1, b2, b1, b2))
  }

  function Run(eps: real, m: Matrix, n: nat, b1: seq<real>, b2: seq<real>, k: nat): Cg {
    if k == 0 then Start(n, b1, b2) else Step(eps, m, n, Run(eps, m, n, b1, b2, k - 1))
  }

  ghost predicate Sized(n: nat, s: Cg) {
    |s.x1| == |s.x2| == |s.r1| == |s.r2| == |s.p1| == |s.p2| == n
  }

  // ---------------------------------------------------------------- residual

  /** r = b - A x. */
  ghost predicate Residual(m: Matrix, n: nat, b1: seq<real>, b2: seq<real>, s: Cg) {
    && |b1| == |b2| == n && Sized(n, s)
    && (forall i :: 0 <= i < n ==> s.r1[i] == b1[i] - Upper(m, n, s.x1, s.x2)[i])
    && (forall j :: 0 <= j < n ==> s.r2[j] == b2[j] - Lower(m, n, s.x1, s.x2)[j])
  }

  /** The residual identity survives an iteration whatever the step lengths are. */
  lemma UpdateKeepsResidual(m: Matrix, n: nat, b1: seq<real>, b2: seq<real>, s: Cg, alpha: real, beta: real)
    requires Residual(m, n, b1, b2, s)
    ensures Residual(m, n, b1, b2, Update(m, n, s, alpha, beta))
  {
    hide Times, Upper, Lower, Dot;
    var t := Update(m, n, s, alpha, beta);
    var u, v := Upper(m, n, s.p1, s.p2), Lower(m, n, s.p1, s.p2);
    OperatorLinear(m, n, s.x1, s.x2, alpha, s.p1, s.p2);
    OperatorSize(m, n, s.x1, s.x2);
    OperatorSize(m, n, t.x1, t.x2);
    forall i | 0 <= i < n ensures t.r1[i] == b1[i] - Upper(m, n, t.x1, t.x2)[i] { TimesNegate(alpha, At(u, i)); }
    forall j | 0 <= j < n ensures t.r2[j] == b2[j] - Lower(m, n, t.x1, t.x2)[j] { TimesNegate(alpha, At(v, j)); }
  }

  lemma OperatorSize(m: Matrix, n: nat, x1: seq<real>, x2: seq<real>)
    ensures |Upper(m, n, x1, x2)| == |Lower(m, n, x1, x2)| == n
  {
  }

  lemma StartResidual(m: Matrix, n: nat, b1: seq<real>, b2: seq<real>)
    requires |b1| == |b2| == n
    ensures Residual(m, n, b1, b2, Start(n, b1, b2))
  {
    hide Sum, Times;
    var s := Start(n, b1, b2);
    forall i | 0 <= i < n ensures Upper(m, n, s.x1, s.x2)[i] == 0.0 && Lower(m, n, s.x1, s.x2)[i] == 0.0 {
      ZeroRow(m, n, s.x2, i);
      ZeroCol(m, n, s.x1, i);
    }
  }

  lemma ZeroRow(m: Matrix, n: nat, x: seq<real>, i: int)
    requires forall j :: 0 <= j < |x| ==> x[j] == 0.0
    ensures Sum(0, n, RowTerm(m, x, i)) == 0.0
  {
    forall j | 0 <= j < n ensures RowTerm(m, x, i)(j) == 0.0 { TimesUnit(m(i, j)); }
    SumZero(0, n, RowTerm(m, x, i));
  }

  lemma ZeroCol(m: Matrix, n: nat, x: seq<real>, j: int)
    requires forall i :: 0 <= i < |x| ==> x[i] == 0.0
    ensures Sum(0, n, ColTerm(m, x, j)) == 0.0
  {
    forall i | 0 <= i < n ensures ColTerm(m, x, j)(i) == 0.0 { TimesUnit(m(i, j)); }
    SumZero(0, n, ColTerm(m, x, j));
  }

  /** After any number of iterations, r is exactly b - A x and the kept norm is |r|^2. */
  lemma {:induction false} ResidualExact(eps: real, m: Matrix, n: nat, b1: seq<real>, b2: seq<real>, k: nat)
    requires |b1| == |b2| == n
    ensures var s := Run(eps, m, n, b1, b2, k); Residual(m, n, b1, b2, s) && s.normsq == Dot(n, s.r1, s.r2, s.r1, s.r2)
  {
    hide Dot, Upper, Lower, Residual, Axpy, Alpha, Beta;
    if k == 0 {
      StartResidual(m, n, b1, b2);
    } else {
      ResidualExact(eps, m, n, b1, b2, k - 1);
      var s := Run(eps, m, n, b1, b2, k - 1);
      UpdateKeepsResidual(m, n, b1, b2, s, Alpha(eps, m, n, s), Beta(eps, m, n, s));
    }
  }

  // ---------------------------------------------------------------- descent

  /** x'Ax - 2 b'x: twice the quadratic that conjugate gradients minimise. */
  function Objective(m: Matrix, n: nat, b1: seq<real>, b2: seq<real>, x1: seq<real>, x2: seq<real>): real {
    Curvature(m, n, x1, x2) - 2.0 * Dot(n, x1, x2, b1, b2)
  }

  /** p'r = p'b - p'Ax for the residual r of x. */
  lemma ResidualAgainst(m: Matrix, n: nat, b1: seq<real>, b2: seq<real>, s: Cg, p1: seq<real>, p2: seq<real>)
    requires Residual(m, n, b1, b2, s)
    ensures Dot(n, p1, p2, s.r1, s.r2)
            == Dot(n, p1, p2, b1, b2) - Dot(n, p1, p2, Upper(m, n, s.x1, s.x2), Lower(m, n, s.x1, s.x2))
  {
    hide Sum, Upper, Lower, Times;
    var u, v := Upper(m, n, s.x1, s.x2), Lower(m, n, s.x1, s.x2);
    var f, g, h := DotTerm(p1, p2, b1, b2), DotTerm(p1, p2, u, v), DotTerm(p1, p2, s.r1, s.r2);
    OperatorSize(m, n, s.x1, s.x2);
    forall i | 0 <= i < n ensures h(i) == 1.0 * f(i) + -1.0 * g(i) {
      TimesSum(b1[i], u[i], At(p1, i));
      TimesSum(b2[i], v[i], At(p2, i));
    }
    SumLinear(0, n, 1.0, f, -1.0, g, h);
  }

  /** z'(x + a y) = z'x + a z'y. */
  lemma DotLinearRight(n: nat, z1: seq<real>, z2: seq<real>, x1: seq<real>, x2: seq<real>, a: real, y1: seq<real>,
                       y2: seq<real>)
    requires |x1| == |x2| == n
    ensures Dot(n, z1, z2, Axpy(x1, a, y1), Axpy(x2, a, y2))
            == Dot(n, z1, z2, x1, x2) + Times(a, Dot(n, z1, z2, y1, y2))
  {
    hide Dot, Times, Axpy;
    DotSymmetric(n, z1, z2, Axpy(x1, a, y1), Axpy(x2, a, y2));
    DotLinear(n, x1, x2, a, y1, y2, z1, z2);
    DotSymmetric(n, z1, z2, x1, x2);
    DotSymmetric(n, z1, z2, y1, y2);
  }

  /** Moving x along p by a: the objective changes by -2a p'r + a^2 p'Ap. */
  lemma ObjectiveAlong(m: Matrix, n: nat, b1: seq<real>, b2: seq<real>, s: Cg, a: real)
    requires Residual(m, n, b1, b2, s)
    ensures Objective(m, n, b1, b2, Axpy(s.x1, a, s.p1), Axpy(s.x2, a, s.p2))
            == Objective(m, n, b1, b2, s.x1, s.x2) - 2.0 * Times(a, Dot(n, s.p1, s.p2, s.r1, s.r2))
               + Times(a, Times(a, Curvature(m, n, s.p1, s.p2)))
  {
    hide Dot, Times, Upper, Lower, Axpy;
    var x1, x2, p1, p2 := s.x1, s.x2, s.p1, s.p2;
    var u, v, w, z := Upper(m, n, x1, x2), Lower(m, n, x1, x2), Upper(m, n, p1, p2), Lower(m, n, p1, p2);
    OperatorSize(m, n, x1, x2);
    OperatorLinear(m, n, x1, x2, a, p1, p2);
    DotLinear(n, x1, x2, a, p1, p2, Axpy(u, a, w), Axpy(v, a, z));
    DotLinearRight(n, x1, x2, u, v, a, w, z);
    DotLinearRight(n, p1, p2, u, v, a, w, z);
    OperatorSymmetric(m, n, x1, x2, p1, p2);
    DotLinear(n, x1, x2, a, p1, p2, b1, b2);
    ResidualAgainst(m, n, b1, b2, s, p1, p2);
    TimesSum(Dot(n, p1, p2, u, v), Times(a, Curvature(m, n, p1, p2)), a);
    TimesSum(Dot(n, p1, p2, b1, b2), Dot(n, p1, p2, u, v), a);
  }

  /** What every iteration keeps: the residual identity, and a direction p with p'r >= |r|^2. */
  ghost predicate Descending(m: Matrix, n: nat, b1: seq<real>, b2: seq<real>, s: Cg) {
    && Residual(m, n, b1, b2, s)
    && s.normsq == Dot(n, s.r1, s.r2, s.r1, s.r2)
    && Dot(n, s.p1, s.p2, s.r1, s.r2) >= s.normsq
  }

  /** The guarded denominator of alpha is positive. */
  predicate Guarded(eps: real, m: Matrix, n: nat, s: Cg) { Curvature(m, n, s.p1, s.p2) + eps > 0.0 }

  /** The other denominator always is, beta times it is the new |r|^2, and while there is a residual alpha points
      forward exactly when the state is guarded. */
  lemma StepLengths(m: Matrix, n: nat, s: Cg)
    requires Sized(n, s) && s.normsq == Dot(n, s.r1, s.r2, s.r1, s.r2)
    ensures s.normsq >= 0.0 && s.normsq + EPS > 0.0 && Beta(EPS, m, n, s) >= 0.0
    ensures Times(Beta(EPS, m, n, s), s.normsq + EPS) == Step(EPS, m, n, s).normsq
    ensures s.normsq > 0.0 ==> (Alpha(EPS, m, n, s) > 0.0 <==> Guarded(EPS, m, n, s))
    ensures Guarded(EPS, m, n, s) ==>
              Alpha(EPS, m, n, s) >= 0.0 && Times(Alpha(EPS, m, n, s), Curvature(m, n, s.p1, s.p2) + EPS) == s.normsq
  {
    hide Dot, Upper, Lower, Axpy;
    NormNonNegative(n, s.r1, s.r2);
    var t := Update(m, n, s, Alpha(EPS, m, n, s), 0.0);
    NormNonNegative(n, t.r1, t.r2);
    RatioSign(t.normsq, s.normsq + EPS);
    if Guarded(EPS, m, n, s) {
      RatioSign(s.normsq, Curvature(m, n, s.p1, s.p2) + EPS);
    } else {
      RatioBackward(s.normsq, Curvature(m, n, s.p1, s.p2) + EPS);
    }
  }

  lemma RatioBackward(a: real, b: real)
    requires a >= 0.0 && b <= 0.0
    ensures Ratio(a, b) <= 0.0
  {
    if b < 0.0 {
      var q := a / b;
      assert q * b == a;
      if q > 0.0 { MulPositive(q, -b); assert false; }
    }
  }

  /** A state is guarded when the row and column sums of R exceed one by at most d and d |p|^2 < EPS: always, for
      sums of at most one. */
  lemma GuardedWithin(m: Matrix, n: nat, s: Cg, d: real)
    requires Sized(n, s) && Within(m, n, d) && Times(d, Dot(n, s.p1, s.p2, s.p1, s.p2)) < EPS
    ensures Guarded(EPS, m, n, s)
  {
    CurvatureBound(m, n, d, s.p1, s.p2);
  }

  lemma RatioSign(a: real, b: real)
    requires a >= 0.0 && b > 0.0
    ensures Ratio(a, b) >= 0.0 && (a > 0.0 ==> Ratio(a, b) > 0.0) && Times(Ratio(a, b), b) == a
  {
    var q := a / b;
    assert q * b == a;
    if q < 0.0 { MulPositive(-q, b); assert false; }
    if a > 0.0 && q == 0.0 { assert false; }
  }

  /** p'r after the step: at least the share of |r|^2 the guard EPS withheld. */
  lemma DirectionAfter(m: Matrix, n: nat, s: Cg, alpha: real, beta: real)
    requires Sized(n, s)
    ensures var t := Update(m, n, s, alpha, beta);
            Dot(n, t.p1, t.p2, t.r1, t.r2)
            == t.normsq + Times(beta, Dot(n, s.p1, s.p2, s.r1, s.r2) - Times(alpha, Curvature(m, n, s.p1, s.p2)))
  {
    hide Dot, Times, Upper, Lower, Axpy;
    AxpySize(s.r1, -alpha, Upper(m, n, s.p1, s.p2));
    AxpySize(s.r2, -alpha, Lower(m, n, s.p1, s.p2));
    var t := Update(m, n, s, alpha, beta);
    DotLinear(n, t.r1, t.r2, beta, s.p1, s.p2, t.r1, t.r2);
    DotLinearRight(n, s.p1, s.p2, s.r1, s.r2, -alpha, Upper(m, n, s.p1, s.p2), Lower(m, n, s.p1, s.p2));
    TimesNegate(alpha, Curvature(m, n, s.p1, s.p2));
  }

  lemma AxpySize(x: seq<real>, a: real, y: seq<real>)
    ensures |Axpy(x, a, y)| == |x|
  {
  }

  /** A guarded iteration keeps p'r >= |r|^2 and lowers the objective by at least alpha |r|^2,
      although EPS makes the step shorter than the exact conjugate-gradient step. */
  lemma StepDescends(m: Matrix, n: nat, b1: seq<real>, b2: seq<real>, s: Cg)
    requires Guarded(EPS, m, n, s) && Descending(m, n, b1, b2, s)
    ensures Descending(m, n, b1, b2, Step(EPS, m, n, s))
    ensures Objective(m, n, b1, b2, Step(EPS, m, n, s).x1, Step(EPS, m, n, s).x2)
            <= Objective(m, n, b1, b2, s.x1, s.x2) - Times(Alpha(EPS, m, n, s), s.normsq)
  {
    hide Dot, Times, Upper, Lower, Axpy, Alpha, Beta, Objective;
    var alpha, beta, curv, d := Alpha(EPS, m, n, s), Beta(EPS, m, n, s), Curvature(m, n, s.p1, s.p2),
        Dot(n, s.p1, s.p2, s.r1, s.r2);
    StepLengths(m, n, s);
    UpdateKeepsResidual(m, n, b1, b2, s, alpha, beta);
    DirectionAfter(m, n, s, alpha, beta);
    ObjectiveAlong(m, n, b1, b2, s, alpha);
    StepArithmetic(alpha, beta, curv, s.normsq, d);
  }

  lemma StepArithmetic(alpha: real, beta: real, curv: real, normsq: real, d: real)
    requires alpha >= 0.0 && beta >= 0.0 && d >= normsq && Times(alpha, curv + EPS) == normsq
    ensures Times(beta, d - Times(alpha, curv)) >= 0.0
    ensures -2.0 * Times(alpha, d) + Times(alpha, Times(alpha, curv)) <= -Times(alpha, normsq)
  {
    hide Times;
    TimesSum(curv, EPS, alpha);
    TimesSign(alpha, EPS);
    TimesSign(beta, d - Times(alpha, curv));
    TimesOrder(normsq, d, alpha);
    TimesOrder(Times(alpha, curv), normsq, alpha);
  }

  lemma StartDescending(m: Matrix, n: nat, b1: seq<real>, b2: seq<real>)
    requires |b1| == |b2| == n
    ensures Descending(m, n, b1, b2, Start(n, b1, b2))
  {
    StartResidual(m, n, b1, b2);
  }

  /** Over a run that stays guarded, every iterate is at least as good as the one before, and strictly better while
      the residual is non-zero. */
  lemma {:induction false} RunDescends(m: Matrix, n: nat, b1: seq<real>, b2: seq<real>, k: nat)
    requires |b1| == |b2| == n && forall j :: 0 <= j <= k ==> Guarded(EPS, m, n, Run(EPS, m, n, b1, b2, j))
    ensures var s, t := Run(EPS, m, n, b1, b2, k), Run(EPS, m, n, b1, b2, k + 1);
            && Descending(m, n, b1, b2, s)
            && Objective(m, n, b1, b2, t.x1, t.x2) <= Objective(m, n, b1, b2, s.x1, s.x2)
            && (s.normsq > 0.0 ==> Objective(m, n, b1, b2, t.x1, t.x2) < Objective(m, n, b1, b2, s.x1, s.x2))
  {
    hide Dot, Times, Upper, Lower, Axpy, Alpha, Beta, Objective, Guarded, Update, Residual, Start;
    if k == 0 {
      StartDescending(m, n, b1, b2);
    } else {
      RunDescends(m, n, b1, b2, k - 1);
      StepDescends(m, n, b1, b2, Run(EPS, m, n, b1, b2, k - 1));
    }
    var s := Run(EPS, m, n, b1, b2, k);
    DescendingSized(m, n, b1, b2, s);
    StepLengths(m, n, s);
    StepDescends(m, n, b1, b2, s);
    TimesSign(Alpha(EPS, m, n, s), s.normsq);
  }

  /** With row and column sums of at most one, in particular for a doubly stochastic R, every run is guarded: both
      divisions are defined throughout. */
  lemma {:induction false} AlwaysGuarded(m: Matrix, n: nat, b1: seq<real>, b2: seq<real>, k: nat)
    requires Within(m, n, 0.0) && |b1| == |b2| == n
    ensures Guarded(EPS, m, n, Run(EPS, m, n, b1, b2, k))
  {
    hide Dot, Run, Guarded, Within, Upper, Lower;
    ResidualExact(EPS, m, n, b1, b2, k);
    var s := Run(EPS, m, n, b1, b2, k);
    TimesUnit(Dot(n, s.p1, s.p2, s.p1, s.p2));
    GuardedWithin(m, n, s, 0.0);
  }

  lemma DescendingSized(m: Matrix, n: nat, b1: seq<real>, b2: seq<real>, s: Cg)
    requires Descending(m, n, b1, b2, s)
    ensures Sized(n, s)
  {
  }

  // ---------------------------------------------------------------- the returned gradient

  /** b1 and b2: the row and column sums of R * dR. */
  function RhsRows(m: Matrix, d: Matrix, n: nat): seq<real> { seq(n, i => Sum(0, n, RhsRowTerm(m, d, i))) }
  function RhsCols(m: Matrix, d: Matrix, n: nat): seq<real> { seq(n, j => Sum(0, n, RhsColTerm(m, d, j))) }
  function RhsRowTerm(m: Matrix, d: Matrix, i: int): int -> real { j => Times(m(i, j), d(i, j)) }
  function RhsColTerm(m: Matrix, d: Matrix, j: int): int -> real { i => Times(m(i, j), d(i, j)) }

  /** (dR_ij - x1_i - x2_j) R_ij. */
  function Gradient(m: Matrix, d: Matrix, x1: seq<real>, x2: seq<real>, i: int, j: int): real {
    Times(d(i, j) - At(x1, i) - At(x2, j), m(i, j))
  }

  lemma GradientExpand(r: real, d: real, x: real, y: real)
    ensures Times(d - x - y, r) == Times(r, d) - Times(x, r) - Times(r, y)
  {
    assert (d - x - y) * r == r * d - x * r - r * y;
  }

  /** Row i of the gradient sums to r1_i, up to what row i of R lacks to one. */
  lemma GradientRowSum(m: Matrix, d: Matrix, n: nat, s: Cg, i: int)
    requires Residual(m, n, RhsRows(m, d, n), RhsCols(m, d, n), s) && 0 <= i < n
    ensures Sum(0, n, j => Gradient(m, d, s.x1, s.x2, i, j)) == s.r1[i] + Times(1.0 - RowSum(m, n, i), s.x1[i])
  {
    hide Times, Sum;
    var x := s.x1[i];
    var g: int -> real := j => Gradient(m, d, s.x1, s.x2, i, j);
    var row: int -> real := j => m(i, j);
    forall j | 0 <= j < n ensures RhsRowTerm(m, d, i)(j) == g(j) + Times(x, row(j)) + RowTerm(m, s.x2, i)(j) {
      GradientExpand(m(i, j), d(i, j), x, At(s.x2, j));
    }
    var xr: int -> real := j => Times(x, row(j));
    SumThree(n, g, xr, RowTerm(m, s.x2, i), RhsRowTerm(m, d, i));
    SumTimes(0, n, x, row, xr);
    SumEq(0, n, row, j => m(i, j));
    SumEq(0, n, g, j => Gradient(m, d, s.x1, s.x2, i, j));
    TimesSum(1.0, RowSum(m, n, i), x);
    TimesUnit(x);
    TimesAssoc(RowSum(m, n, i), x, 1.0);
    assert RhsRows(m, d, n)[i] == Sum(0, n, RhsRowTerm(m, d, i));
    assert Upper(m, n, s.x1, s.x2)[i] == x + Sum(0, n, RowTerm(m, s.x2, i));
  }

  lemma GradientColSum(m: Matrix, d: Matrix, n: nat, s: Cg, j: int)
    requires Residual(m, n, RhsRows(m, d, n), RhsCols(m, d, n), s) && 0 <= j < n
    ensures Sum(0, n, i => Gradient(m, d, s.x1, s.x2, i, j)) == s.r2[j] + Times(1.0 - ColSum(m, n, j), s.x2[j])
  {
    hide Times, Sum;
    var x := s.x2[j];
    var g: int -> real := i => Gradient(m, d, s.x1, s.x2, i, j);
    var col: int -> real := i => m(i, j);
    forall i | 0 <= i < n ensures RhsColTerm(m, d, j)(i) == g(i) + Times(x, col(i)) + ColTerm(m, s.x1, j)(i) {
      GradientExpand(m(i, j), d(i, j), At(s.x1, i), x);
      TimesAssoc(At(s.x1, i), m(i, j), 1.0);
      TimesAssoc(x, m(i, j), 1.0);
    }
    var xc: int -> real := i => Times(x, col(i));
    SumThree(n, g, xc, ColTerm(m, s.x1, j), RhsColTerm(m, d, j));
    SumTimes(0, n, x, col, xc);
    SumEq(0, n, col, i => m(i, j));
    SumEq(0, n, g, i => Gradient(m, d, s.x1, s.x2, i, j));
    TimesSum(1.0, ColSum(m, n, j), x);
    TimesUnit(x);
    TimesAssoc(ColSum(m, n, j), x, 1.0);
    assert RhsCols(m, d, n)[j] == Sum(0, n, RhsColTerm(m, d, j));
    assert Lower(m, n, s.x1, s.x2)[j] == x + Sum(0, n, ColTerm(m, s.x1, j));
  }

  /** For a doubly stochastic R the returned gradient, after any number of iterations, has row sums
      exactly r1 and column sums exactly r2, and so r1 and r2 have the same total. */
  lemma GradientSums(eps: real, m: Matrix, d: Matrix, n: nat, k: nat)
    requires DoublyStochastic(m, n)
    ensures var s := Run(eps, m, n, RhsRows(m, d, n), RhsCols(m, d, n), k);
            && |s.r1| == |s.r2| == n
            && (forall i :: 0 <= i < n ==> Sum(0, n, j => Gradient(m, d, s.x1, s.x2, i, j)) == s.r1[i])
            && (forall j :: 0 <= j < n ==> Sum(0, n, i => Gradient(m, d, s.x1, s.x2, i, j)) == s.r2[j])
            && Sum(0, n, i => At(s.r1, i)) == Sum(0, n, j => At(s.r2, j))
  {
    hide Times, Sum, Gradient, Run;
    var s := Run(eps, m, n, RhsRows(m, d, n), RhsCols(m, d, n), k);
    ResidualExact(eps, m, n, RhsRows(m, d, n), RhsCols(m, d, n), k);
    forall i | 0 <= i < n ensures Sum(0, n, j => Gradient(m, d, s.x1, s.x2, i, j)) == s.r1[i] {
      GradientRowSum(m, d, n, s, i);
      TimesUnit(s.x1[i]);
    }
    forall j | 0 <= j < n ensures Sum(0, n, i => Gradient(m, d, s.x1, s.x2, i, j)) == s.r2[j] {
      GradientColSum(m, d, n, s, j);
      TimesUnit(s.x2[j]);
    }
    var g: Matrix := (i, j) => Gradient(m, d, s.x1, s.x2, i, j);
    forall i | 0 <= i < n ensures Sum(0, n, j => g(i, j)) == s.r1[i] {
      SumEq(0, n, j => g(i, j), j => Gradient(m, d, s.x1, s.x2, i, j));
    }
    forall j | 0 <= j < n ensures Sum(0, n, i => g(i, j)) == s.r2[j] {
      SumEq(0, n, i => g(i, j), i => Gradient(m, d, s.x1, s.x2, i, j));
    }
    SameTotal(n, g, s.r1, s.r2);
  }

  lemma SameTotal(n: nat, g: Matrix, r1: seq<real>, r2: seq<real>)
    requires |r1| == |r2| == n
    requires forall i :: 0 <= i < n ==> Sum(0, n, j => g(i, j)) == r1[i]
    requires forall j :: 0 <= j < n ==> Sum(0, n, i => g(i, j)) == r2[j]
    ensures Sum(0, n, i => At(r1, i)) == Sum(0, n, j => At(r2, j))
  {
    hide Sum;
    SumExchange(n, n, g, i => At(r1, i), j => At(r2, j));
  }
}
