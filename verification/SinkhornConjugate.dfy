/** Conjugacy of the directions: exact without the guard EPS, and within a bound of it for the kernel's. */
module SinkhornConjugate {
  import opened RealArith
  import opened Sums
  import opened Sinkhorn
  import opened SinkhornCg

  // ---------------------------------------------------------------- stacked vectors

  datatype Vec = Vec(upper: seq<real>, lower: seq<real>)

  predicate Fits(n: nat, v: Vec) { |v.upper| == |v.lower| == n }

  function Inner(n: nat, x: Vec, y: Vec): real { Dot(n, x.upper, x.lower, y.upper, y.lower) }

  /** A x. */
  function Image(m: Matrix, n: nat, x: Vec): Vec { Vec(Upper(m, n, x.upper, x.lower), Lower(m, n, x.upper, x.lower)) }

  /** x + a y. */
  function Plus(x: Vec, a: real, y: Vec): Vec { Vec(Axpy(x.upper, a, y.upper), Axpy(x.lower, a, y.lower)) }

  lemma PlusFits(n: nat, x: Vec, a: real, y: Vec)
    requires Fits(n, x)
    ensures Fits(n, Plus(x, a, y))
  {
  }

  lemma InnerSymmetric(n: nat, x: Vec, y: Vec)
    ensures Inner(n, x, y) == Inner(n, y, x)
  {
    DotSymmetric(n, x.upper, x.lower, y.upper, y.lower);
  }

  lemma InnerPlus(n: nat, x: Vec, a: real, y: Vec, z: Vec)
    requires Fits(n, x)
    ensures Inner(n, Plus(x, a, y), z) == Inner(n, x, z) + Times(a, Inner(n, y, z))
    ensures Inner(n, z, Plus(x, a, y)) == Inner(n, z, x) + Times(a, Inner(n, z, y))
  {
    DotLinear(n, x.upper, x.lower, a, y.upper, y.lower, z.upper, z.lower);
    DotLinearRight(n, z.upper, z.lower, x.upper, x.lower, a, y.upper, y.lower);
  }

  /** x'(A y) = y'(A x). */
  lemma ImageSymmetric(m: Matrix, n: nat, x: Vec, y: Vec)
    requires Fits(n, x) && Fits(n, y)
    ensures Inner(n, x, Image(m, n, y)) == Inner(n, y, Image(m, n, x))
  {
    OperatorSymmetric(m, n, x.upper, x.lower, y.upper, y.lower);
  }

  lemma InnerNonNegative(n: nat, x: Vec)
    ensures Inner(n, x, x) >= 0.0
  {
    NormNonNegative(n, x.upper, x.lower);
  }

  // ---------------------------------------------------------------- the run as vectors

  /** A system A x = b. */
  datatype System = System(m: Matrix, n: nat, b: Vec)

  function State(e: real, y: System, k: nat): Cg { Run(e, y.m, y.n, y.b.upper, y.b.lower, k) }
  function Res(e: real, y: System, k: nat): Vec { Vec(State(e, y, k).r1, State(e, y, k).r2) }
  function Dir(e: real, y: System, k: nat): Vec { Vec(State(e, y, k).p1, State(e, y, k).p2) }
  function Norm(e: real, y: System, k: nat): real { Inner(y.n, Res(e, y, k), Res(e, y, k)) }
  function ImageDir(e: real, y: System, k: nat): Vec { Image(y.m, y.n, Dir(e, y, k)) }
  function Curv(e: real, y: System, k: nat): real { Inner(y.n, Dir(e, y, k), ImageDir(e, y, k)) }
  function AlphaAt(e: real, y: System, k: nat): real { Alpha(e, y.m, y.n, State(e, y, k)) }
  function BetaAt(e: real, y: System, k: nat): real { Beta(e, y.m, y.n, State(e, y, k)) }

  /** r' = r - alpha A p and p' = r' + beta p, with alpha = |r|^2 / (p'Ap + e) and beta = |r'|^2 / (|r|^2 + e). */
  lemma StepForms(e: real, y: System, k: nat)
    requires Fits(y.n, y.b)
    ensures Fits(y.n, Res(e, y, k)) && Fits(y.n, Dir(e, y, k)) && Fits(y.n, ImageDir(e, y, k))
    ensures Fits(y.n, Res(e, y, k + 1)) && Fits(y.n, Dir(e, y, k + 1))
    ensures Res(e, y, k + 1) == Plus(Res(e, y, k), -AlphaAt(e, y, k), ImageDir(e, y, k))
    ensures Dir(e, y, k + 1) == Plus(Res(e, y, k + 1), BetaAt(e, y, k), Dir(e, y, k))
    ensures AlphaAt(e, y, k) == Ratio(Norm(e, y, k), Curv(e, y, k) + e)
    ensures BetaAt(e, y, k) == Ratio(Norm(e, y, k + 1), Norm(e, y, k) + e)
  {
    hide Dot, Upper, Lower, Axpy, Residual, Ratio;
    StateFacts(e, y, k);
    StateFacts(e, y, k + 1);
    var s := State(e, y, k);
    OperatorSize(y.m, y.n, s.p1, s.p2);
    assert State(e, y, k + 1) == Step(e, y.m, y.n, s);
  }

  lemma StateFacts(e: real, y: System, k: nat)
    requires Fits(y.n, y.b)
    ensures Fits(y.n, Res(e, y, k)) && Fits(y.n, Dir(e, y, k)) && State(e, y, k).normsq == Norm(e, y, k)
    ensures Residual(y.m, y.n, y.b.upper, y.b.lower, State(e, y, k))
  {
    hide Run, Dot, Upper, Lower;
    ResidualExact(e, y.m, y.n, y.b.upper, y.b.lower, k);
  }

  lemma FirstForms(e: real, y: System)
    ensures Res(e, y, 0) == y.b == Dir(e, y, 0)
  {
  }

  // ---------------------------------------------------------------- a step with any guard

  /** p_{k+1}'A p_k. */
  function Cross(e: real, y: System, k: nat): real { Inner(y.n, Dir(e, y, k + 1), ImageDir(e, y, k)) }

  /** What is left of p_k'A p_{k-1} in the residual: r_k'A p_k = p_k'A p_k - beta_{k-1} p_k'A p_{k-1}. */
  function Carried(e: real, y: System, k: nat): real {
    if k == 0 then 0.0 else Times(BetaAt(e, y, k - 1), Cross(e, y, k - 1))
  }

  lemma ResidualImage(e: real, y: System, k: nat)
    requires Fits(y.n, y.b)
    ensures Inner(y.n, Res(e, y, k), ImageDir(e, y, k)) == Curv(e, y, k) - Carried(e, y, k)
  {
    hide Dot, Times, State, Inner, Plus, Image, BetaAt, AlphaAt;
    if k == 0 {
      FirstForms(e, y);
    } else {
      StepForms(e, y, k - 1);
      StepForms(e, y, k);
      InnerPlus(y.n, Res(e, y, k), BetaAt(e, y, k - 1), Dir(e, y, k - 1), ImageDir(e, y, k));
      ImageSymmetric(y.m, y.n, Dir(e, y, k - 1), Dir(e, y, k));
    }
  }

  /** alpha p_{k+1}'A p_k, exactly: only the guard and what an earlier step left over keep the directions from being
      conjugate. */
  lemma CrossExact(e: real, y: System, k: nat)
    requires Fits(y.n, y.b) && Curv(e, y, k) + e != 0.0 && Norm(e, y, k) + e != 0.0
    ensures Times(AlphaAt(e, y, k), Cross(e, y, k))
            == Times(AlphaAt(e, y, k), e + Carried(e, y, k))
               - Times(BetaAt(e, y, k), Times(e, AlphaAt(e, y, k) + 1.0))
  {
    hide Dot, Times, State, Inner, Plus, Image, BetaAt, AlphaAt, Ratio, Carried, Res, Dir, ImageDir, Curv, Norm;
    CrossForms(e, y, k);
    CrossArithmetic(e, AlphaAt(e, y, k), BetaAt(e, y, k), Curv(e, y, k), Norm(e, y, k), Norm(e, y, k + 1),
                    Carried(e, y, k), Inner(y.n, Res(e, y, k + 1), Res(e, y, k)),
                    Inner(y.n, Res(e, y, k + 1), ImageDir(e, y, k)), Cross(e, y, k));
  }

  /** The inner products of a step in terms of one another. */
  lemma CrossForms(e: real, y: System, k: nat)
    requires Fits(y.n, y.b) && Curv(e, y, k) + e != 0.0 && Norm(e, y, k) + e != 0.0
    ensures var n, alpha, beta, r, r', ap := y.n, AlphaAt(e, y, k), BetaAt(e, y, k), Res(e, y, k), Res(e, y, k + 1),
              ImageDir(e, y, k);
            && Times(alpha, Curv(e, y, k) + e) == Norm(e, y, k) && Times(beta, Norm(e, y, k) + e) == Norm(e, y, k + 1)
            && Inner(n, r', r) == Norm(e, y, k) - Times(alpha, Curv(e, y, k) - Carried(e, y, k))
            && Norm(e, y, k + 1) == Inner(n, r', r) - Times(alpha, Inner(n, r', ap))
            && Cross(e, y, k) == Inner(n, r', ap) + Times(beta, Curv(e, y, k))
  {
    hide Dot, Times, State, Inner, Plus, Image, BetaAt, AlphaAt, Carried, Res, Dir, ImageDir;
    StepForms(e, y, k);
    var n, alpha, r, r', ap := y.n, AlphaAt(e, y, k), Res(e, y, k), Res(e, y, k + 1), ImageDir(e, y, k);
    TimesQuotient(Norm(e, y, k), Curv(e, y, k) + e);
    TimesQuotient(Norm(e, y, k + 1), Norm(e, y, k) + e);
    InnerPlus(n, r, -alpha, ap, r);
    InnerPlus(n, r, -alpha, ap, r');
    InnerSymmetric(n, r, ap);
    ResidualImage(e, y, k);
    TimesNegate(alpha, Inner(n, ap, r));
    TimesNegate(alpha, Inner(n, r', ap));
    InnerPlus(n, r', BetaAt(e, y, k), Dir(e, y, k), ap);
  }

  lemma CrossArithmetic(e: real, alpha: real, beta: real, c: real, q: real, q': real, t: real, rr: real, ra: real,
                        x: real)
    requires Times(alpha, c + e) == q && Times(beta, q + e) == q'
    requires rr == q - Times(alpha, c - t) && q' == rr - Times(alpha, ra) && x == ra + Times(beta, c)
    ensures Times(alpha, x) == Times(alpha, e + t) - Times(beta, Times(e, alpha + 1.0))
  {
    hide Times;
    TimesSum(ra, Times(beta, c), alpha);
    TimesSum(c, t, alpha);
    TimesSum(c, e, alpha);
    TimesSum(e, t, alpha);
    // beta (alpha c) = beta (q - alpha e) = q' - beta e - beta (alpha e)
    TimesAssoc(alpha, beta, c);
    TimesAssoc(beta, alpha, c);
    TimesSum(q, Times(alpha, e), beta);
    TimesSum(q, e, beta);
    TimesSum(alpha, 1.0, e);
    TimesUnit(e);
    TimesAssoc(e, alpha, 1.0);
    TimesSum(Times(e, alpha), e, beta);
  }

  // ---------------------------------------------------------------- the kernel's guard

  function Abs(a: real): (r: real) { if a < 0.0 then -a else a }

  /** How far p_{k+1}'A p_k can be from zero: EPS times the sizes of the steps, plus beta times the bound before. */
  function Slack(y: System, k: nat): real {
    (if k == 0 then 0.0 else Times(BetaAt(EPS, y, k - 1), Slack(y, k - 1)))
    + Times(EPS, 1.0 + Times(BetaAt(EPS, y, k), 1.0 + Ratio(Curv(EPS, y, k) + EPS, Norm(EPS, y, k))))
  }

  /** While the steps are guarded and there is a residual, successive directions are conjugate up to the slack. */
  lemma {:induction false} CrossBounded(y: System, k: nat)
    requires Fits(y.n, y.b)
    requires forall i :: 0 <= i <= k ==> Curv(EPS, y, i) + EPS > 0.0 && Norm(EPS, y, i) > 0.0
    ensures Abs(Cross(EPS, y, k)) <= Slack(y, k)
  {
    hide Dot, Times, State, Inner, Plus, Image, BetaAt, AlphaAt, Ratio, Res, Dir, ImageDir, Curv, Norm, Cross;
    StepSigns(y, k);
    CrossExact(EPS, y, k);
    if k > 0 {
      CrossBounded(y, k - 1);
      StepSigns(y, k - 1);
      AbsTimes(BetaAt(EPS, y, k - 1), Cross(EPS, y, k - 1), Slack(y, k - 1));
    }
    BoundArithmetic(AlphaAt(EPS, y, k), BetaAt(EPS, y, k), Carried(EPS, y, k), Cross(EPS, y, k),
                    Ratio(Curv(EPS, y, k) + EPS, Norm(EPS, y, k)));
  }

  lemma StepSigns(y: System, k: nat)
    requires Fits(y.n, y.b) && Curv(EPS, y, k) + EPS > 0.0 && Norm(EPS, y, k) > 0.0
    ensures AlphaAt(EPS, y, k) > 0.0 && BetaAt(EPS, y, k) >= 0.0
    ensures Times(AlphaAt(EPS, y, k), Ratio(Curv(EPS, y, k) + EPS, Norm(EPS, y, k))) == 1.0
  {
    hide Dot, State, Inner, Plus, Image, BetaAt, AlphaAt, Res, Dir, ImageDir, Curv;
    StepForms(EPS, y, k);
    InnerNonNegative(y.n, Res(EPS, y, k + 1));
    RatioSign(Norm(EPS, y, k), Curv(EPS, y, k) + EPS);
    RatioSign(Norm(EPS, y, k + 1), Norm(EPS, y, k) + EPS);
    Reciprocal(Norm(EPS, y, k), Curv(EPS, y, k) + EPS);
  }

  lemma Reciprocal(a: real, b: real)
    requires a > 0.0 && b > 0.0
    ensures Times(Ratio(a, b), Ratio(b, a)) == 1.0
  {
    var q, s := a / b, b / a;
    assert q * b == a;
    assert s * a == b;
    assert (q * s) * a == q * (s * a);
    CancelPositive(q * s, 1.0, a);
    CancelPositive(1.0, q * s, a);
  }

  lemma AbsTimes(b: real, x: real, s: real)
    requires b >= 0.0 && Abs(x) <= s
    ensures Abs(Times(b, x)) <= Times(b, s)
  {
    hide Times;
    TimesOrder(x, s, b);
    TimesOrder(-x, s, b);
    TimesNegate(x, b);
    TimesAssoc(b, x, 1.0);
    TimesAssoc(b, -x, 1.0);
  }

  lemma BoundArithmetic(alpha: real, beta: real, t: real, x: real, inv: real)
    requires alpha > 0.0 && beta >= 0.0 && Times(alpha, inv) == 1.0
    requires Times(alpha, x) == Times(alpha, EPS + t) - Times(beta, Times(EPS, alpha + 1.0))
    ensures x == EPS + t - Times(EPS, Times(beta, 1.0 + inv))
    ensures Abs(x) <= Abs(t) + Times(EPS, 1.0 + Times(beta, 1.0 + inv))
  {
    var w := EPS + t - EPS * (beta * (1.0 + inv));
    assert alpha * w == alpha * (EPS + t) - beta * (EPS * (alpha + alpha * inv));
    assert alpha * (x - w) == 0.0;
    if inv <= 0.0 { MulNonNegative(alpha, -inv); assert false; }
    MulNonNegative(beta, 1.0 + inv);
    MulNonNegative(EPS, beta * (1.0 + inv));
    assert EPS * (1.0 + beta * (1.0 + inv)) == EPS + EPS * (beta * (1.0 + inv));
  }

  // ---------------------------------------------------------------- without a guard

  /** Every step before k had a residual and a direction of positive curvature, so that no denominator was zero. */
  ghost predicate Regular(y: System, k: nat) {
    Fits(y.n, y.b) && forall i :: 0 <= i < k ==> Norm(0.0, y, i) > 0.0 && Curv(0.0, y, i) > 0.0
  }

  /** Residual j is orthogonal to what came before it, and direction j conjugate to it. */
  ghost predicate ClearOf(y: System, j: nat, i: nat) {
    && Inner(y.n, Res(0.0, y, j), Res(0.0, y, i)) == 0.0
    && Inner(y.n, Res(0.0, y, j), Dir(0.0, y, i)) == 0.0
    && Inner(y.n, Dir(0.0, y, j), ImageDir(0.0, y, i)) == 0.0
  }

  ghost predicate Along(y: System, j: nat) { Inner(y.n, Dir(0.0, y, j), Res(0.0, y, j)) == Norm(0.0, y, j) }

  ghost predicate Conjugate(y: System, k: nat) {
    (forall i, j :: 0 <= i < j <= k ==> ClearOf(y, j, i)) && (forall j :: 0 <= j <= k ==> Along(y, j))
  }

  /** The step lengths of a regular step, without quotients. */
  lemma RegularStep(y: System, k: nat)
    requires Fits(y.n, y.b) && Norm(0.0, y, k) > 0.0 && Curv(0.0, y, k) > 0.0
    ensures AlphaAt(0.0, y, k) > 0.0 && Times(AlphaAt(0.0, y, k), Curv(0.0, y, k)) == Norm(0.0, y, k)
    ensures Times(BetaAt(0.0, y, k), Norm(0.0, y, k)) == Norm(0.0, y, k + 1)
  {
    hide Dot, State, Inner, Plus, Image, BetaAt, AlphaAt, Res, Dir, ImageDir, Curv;
    StepForms(0.0, y, k);
    InnerNonNegative(y.n, Res(0.0, y, k + 1));
    RatioSign(Norm(0.0, y, k), Curv(0.0, y, k));
    RatioSign(Norm(0.0, y, k + 1), Norm(0.0, y, k));
  }

  /** r_{k+1} is orthogonal to the directions up to p_k. */
  lemma NextAgainstDir(y: System, k: nat, i: nat)
    requires Regular(y, k + 1) && Conjugate(y, k) && i <= k
    ensures Inner(y.n, Res(0.0, y, k + 1), Dir(0.0, y, i)) == 0.0
  {
    hide Dot, Times, State, Inner, Plus, Image, BetaAt, AlphaAt, Res, Dir;
    StepForms(0.0, y, k);
    StepForms(0.0, y, i);
    RegularStep(y, k);
    var n, alpha, ap, pi := y.n, AlphaAt(0.0, y, k), ImageDir(0.0, y, k), Dir(0.0, y, i);
    InnerPlus(n, Res(0.0, y, k), -alpha, ap, pi);
    TimesNegate(alpha, Inner(n, ap, pi));
    TimesUnit(alpha);
    InnerSymmetric(n, ap, pi);
    if i == k {
      assert Along(y, k);
      InnerSymmetric(n, Dir(0.0, y, k), Res(0.0, y, k));
    } else {
      assert ClearOf(y, k, i);
      ImageSymmetric(y.m, n, pi, Dir(0.0, y, k));
    }
  }

  /** r_i = p_i - beta p_{i-1}. */
  lemma NextAgainstRes(y: System, k: nat, i: nat)
    requires Regular(y, k + 1) && Conjugate(y, k) && i <= k
    ensures Inner(y.n, Res(0.0, y, k + 1), Res(0.0, y, i)) == 0.0
  {
    hide Dot, Times, State, Inner, Plus, Image, BetaAt, AlphaAt, Res, Dir, ImageDir;
    NextAgainstDir(y, k, i);
    if i == 0 {
      FirstForms(0.0, y);
    } else {
      NextAgainstDir(y, k, i - 1);
      StepForms(0.0, y, i - 1);
      InnerPlus(y.n, Res(0.0, y, i), BetaAt(0.0, y, i - 1), Dir(0.0, y, i - 1), Res(0.0, y, k + 1));
      TimesUnit(BetaAt(0.0, y, i - 1));
    }
  }

  /** alpha A p_i = r_i - r_{i+1}. */
  lemma NextAgainstImage(y: System, k: nat, i: nat)
    requires Regular(y, k + 1) && Conjugate(y, k) && i <= k
    ensures Inner(y.n, Dir(0.0, y, k + 1), ImageDir(0.0, y, i)) == 0.0
  {
    hide Dot, Times, State, Inner, Plus, Image, BetaAt, AlphaAt, Res, Dir, ImageDir;
    var n, alpha, beta, ap, r' := y.n, AlphaAt(0.0, y, i), BetaAt(0.0, y, k), ImageDir(0.0, y, i), Res(0.0, y, k + 1);
    StepForms(0.0, y, i);
    StepForms(0.0, y, k);
    RegularStep(y, i);
    RegularStep(y, k);
    NextAgainstRes(y, k, i);
    InnerPlus(n, Res(0.0, y, i), -alpha, ap, r');
    TimesNegate(alpha, Inner(n, r', ap));
    InnerPlus(n, r', beta, Dir(0.0, y, k), ap);
    if i < k {
      NextAgainstRes(y, k, i + 1);
      assert ClearOf(y, k, i);
      TimesUnit(beta);
      OnlyZero(alpha, Inner(n, r', ap));
    } else {
      OnlyZero(alpha, Inner(n, r', ap) + Times(beta, Curv(0.0, y, k)));
      TimesSum(Inner(n, r', ap), Times(beta, Curv(0.0, y, k)), alpha);
      TimesAssoc(alpha, beta, Curv(0.0, y, k));
      TimesAssoc(beta, alpha, Curv(0.0, y, k));
    }
  }

  lemma OnlyZero(a: real, x: real)
    requires a > 0.0
    ensures Times(a, x) == 0.0 ==> x == 0.0
  {
    hide Times;
    TimesSign(a, x);
  }

  /** At a guard of zero, as long as no denominator is zero, all residuals are mutually orthogonal and all directions
      mutually conjugate. */
  lemma {:induction false} MutuallyConjugate(y: System, k: nat)
    requires Regular(y, k)
    ensures Conjugate(y, k)
  {
    hide Dot, Times, State, Inner, Plus, Image, BetaAt, AlphaAt, Res, Dir, ImageDir, ClearOf;
    if k == 0 {
      FirstForms(0.0, y);
    } else {
      MutuallyConjugate(y, k - 1);
      forall i, j | 0 <= i < j <= k ensures ClearOf(y, j, i) {
        if j == k { NextClear(y, k - 1, i); }
      }
      NextAlong(y, k - 1);
    }
  }

  lemma NextClear(y: System, k: nat, i: nat)
    requires Regular(y, k + 1) && Conjugate(y, k) && i <= k
    ensures ClearOf(y, k + 1, i)
  {
    NextAgainstDir(y, k, i);
    NextAgainstRes(y, k, i);
    NextAgainstImage(y, k, i);
  }

  lemma NextAlong(y: System, k: nat)
    requires Regular(y, k + 1) && Conjugate(y, k)
    ensures Along(y, k + 1)
  {
    hide Dot, Times, State, Inner, Plus, Image, BetaAt, AlphaAt, Res, Dir, ImageDir, Conjugate;
    NextAgainstDir(y, k, k);
    StepForms(0.0, y, k);
    var r', p := Res(0.0, y, k + 1), Dir(0.0, y, k);
    InnerPlus(y.n, r', BetaAt(0.0, y, k), p, r');
    InnerSymmetric(y.n, r', p);
    TimesUnit(BetaAt(0.0, y, k));
  }
}
