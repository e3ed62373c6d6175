/** Without the guard EPS the 2n steps of the loop solve the system, and the returned gradient is the exact
    projection. */
module SinkhornExact {
  import opened RealArith
  import opened Sums
  import opened Sinkhorn
  import opened SinkhornCg
  import opened SinkhornConjugate

  // ---------------------------------------------------------------- orthogonal vectors

  ghost predicate Orthogonal(n: nat, v: seq<Vec>) {
    && (forall i :: 0 <= i < |v| ==> Fits(n, v[i]) && Inner(n, v[i], v[i]) > 0.0)
    && (forall i, j :: 0 <= i < |v| && 0 <= j < |v| && i != j ==> Inner(n, v[i], v[j]) == 0.0)
  }

  /** The share of u along v: (u'v)^2 / |v|^2. */
  function Share(n: nat, u: Vec, v: Vec): real {
    Ratio(Times(Inner(n, u, v), Inner(n, u, v)), Inner(n, v, v))
  }

  function ShareTerm(n: nat, u: Vec, v: seq<Vec>): int -> real {
    i => if 0 <= i < |v| then Share(n, u, v[i]) else 0.0
  }

  /** u less its parts along the first k vectors. */
  function Left(n: nat, u: Vec, v: seq<Vec>, k: nat): Vec
    requires k <= |v|
  {
    if k == 0 then u
    else Plus(Left(n, u, v, k - 1), -Ratio(Inner(n, u, v[k - 1]), Inner(n, v[k - 1], v[k - 1])), v[k - 1])
  }

  /** What is left has kept its products with the later vectors, and lost the shares of the earlier ones. */
  lemma {:induction false} LeftForms(n: nat, u: Vec, v: seq<Vec>, k: nat)
    requires Orthogonal(n, v) && Fits(n, u) && k <= |v|
    ensures Fits(n, Left(n, u, v, k))
    ensures forall j :: k <= j < |v| ==> Inner(n, Left(n, u, v, k), v[j]) == Inner(n, u, v[j])
    ensures Inner(n, Left(n, u, v, k), Left(n, u, v, k)) == Inner(n, u, u) - Sum(0, k, ShareTerm(n, u, v))
    decreases k
  {
    hide Dot, Inner, Plus, Times, Ratio, Share;
    if k > 0 {
      LeftForms(n, u, v, k - 1);
      var w, x := Left(n, u, v, k - 1), v[k - 1];
      var a := -Ratio(Inner(n, u, x), Inner(n, x, x));
      PlusFits(n, w, a, x);
      var w' := Plus(w, a, x);
      forall j | k <= j < |v| ensures Inner(n, w', v[j]) == Inner(n, u, v[j]) {
        InnerPlus(n, w, a, x, v[j]);
        TimesUnit(a);
      }
      InnerPlus(n, w, a, x, w);
      InnerPlus(n, w, a, x, w');
      InnerPlus(n, w, a, x, x);
      InnerSymmetric(n, w, x);
      InnerSymmetric(n, w', x);
      ShareArithmetic(n, u, x, a);
      TimesSum(Inner(n, u, x), Times(a, Inner(n, x, x)), a);
    }
  }

  lemma ShareArithmetic(n: nat, u: Vec, x: Vec, a: real)
    requires Inner(n, x, x) > 0.0 && a == -Ratio(Inner(n, u, x), Inner(n, x, x))
    ensures 2.0 * Times(a, Inner(n, u, x)) + Times(a, Times(a, Inner(n, x, x))) == -Share(n, u, x)
    ensures Inner(n, u, x) + Times(a, Inner(n, x, x)) == 0.0
  {
    hide Inner;
    Squares(Inner(n, u, x), Inner(n, x, x), a);
  }

  lemma Squares(c: real, d: real, a: real)
    requires d > 0.0 && a == -(c / d)
    ensures 2.0 * (a * c) + a * (a * d) == -((c * c) / d) && c + a * d == 0.0
  {
    var q := c / d;
    assert q * d == c;
    assert q * c == (c * c) / d by {
      assert (q * c) * d == c * c;
      CancelBoth(q * c, (c * c) / d, d);
    }
  }

  lemma CancelBoth(x: real, z: real, d: real)
    requires d > 0.0 && x * d == z * d
    ensures x == z
  {
    CancelPositive(x, z, d);
    CancelPositive(z, x, d);
  }

  /** Bessel's inequality. */
  lemma Bessel(n: nat, u: Vec, v: seq<Vec>)
    requires Orthogonal(n, v) && Fits(n, u)
    ensures Sum(0, |v|, ShareTerm(n, u, v)) <= Inner(n, u, u)
  {
    hide Orthogonal, Inner;
    LeftForms(n, u, v, |v|);
    InnerNonNegative(n, Left(n, u, v, |v|));
  }

  // ---------------------------------------------------------------- at most 2n of them

  /** The unit vectors. */
  function Unit(n: nat, c: int): seq<real> { seq(n, i => if i == c then 1.0 else 0.0) }
  function Flat(n: nat): seq<real> { seq(n, _ => 0.0) }
  function UpperUnit(n: nat, c: int): Vec { Vec(Unit(n, c), Flat(n)) }
  function LowerUnit(n: nat, c: int): Vec { Vec(Flat(n), Unit(n, c)) }

  lemma {:induction false} SumAt(n: nat, c: int, f: int -> real)
    requires 0 <= c < n && forall i :: 0 <= i < n && i != c ==> f(i) == 0.0
    ensures Sum(0, n, f) == f(c)
  {
    SumWiden(c, c + 1, 0, n, f);
    assert Sum(c, c + 1, f) == Sum(c, c, f) + f(c);
  }

  lemma UnitInner(n: nat, c: int, v: Vec)
    requires 0 <= c < n && Fits(n, v)
    ensures Inner(n, UpperUnit(n, c), v) == v.upper[c] && Inner(n, LowerUnit(n, c), v) == v.lower[c]
  {
    hide Sum;
    SumAt(n, c, DotTerm(Unit(n, c), Flat(n), v.upper, v.lower));
    SumAt(n, c, DotTerm(Flat(n), Unit(n, c), v.upper, v.lower));
  }

  lemma UnitLength(n: nat, c: int)
    requires 0 <= c < n
    ensures Inner(n, UpperUnit(n, c), UpperUnit(n, c)) == 1.0 && Inner(n, LowerUnit(n, c), LowerUnit(n, c)) == 1.0
  {
    hide Inner;
    UnitInner(n, c, UpperUnit(n, c));
    UnitInner(n, c, LowerUnit(n, c));
  }

  /** Both coordinates c of vector i, squared, over its square. */
  function Weight(n: nat, v: seq<Vec>): Matrix {
    (c, i) => ShareTerm(n, UpperUnit(n, c), v)(i) + ShareTerm(n, LowerUnit(n, c), v)(i)
  }

  lemma WeightRow(n: nat, v: seq<Vec>, c: int)
    requires Orthogonal(n, v) && 0 <= c < n
    ensures Sum(0, |v|, i => Weight(n, v)(c, i)) <= 2.0
  {
    hide Inner, Sum, ShareTerm;
    var f, g := ShareTerm(n, UpperUnit(n, c), v), ShareTerm(n, LowerUnit(n, c), v);
    var h: int -> real := i => Weight(n, v)(c, i);
    Bessel(n, UpperUnit(n, c), v);
    Bessel(n, LowerUnit(n, c), v);
    UnitLength(n, c);
    forall i | 0 <= i < |v| ensures h(i) == 1.0 * f(i) + 1.0 * g(i) { assert Weight(n, v)(c, i) == f(i) + g(i); }
    SumLinear(0, |v|, 1.0, f, 1.0, g, h);
    SumEq(0, |v|, h, i => Weight(n, v)(c, i));
  }

  lemma WeightAt(n: nat, v: seq<Vec>, c: int, i: int)
    requires Orthogonal(n, v) && 0 <= i < |v| && 0 <= c < n
    ensures var x := v[i];
            Times(Inner(n, x, x), Weight(n, v)(c, i)) == DotTerm(x.upper, x.lower, x.upper, x.lower)(c)
  {
    hide Times, Inner, UpperUnit, LowerUnit;
    var x := v[i];
    var d, a, b := Inner(n, x, x), Times(x.upper[c], x.upper[c]), Times(x.lower[c], x.lower[c]);
    UnitInner(n, c, x);
    assert ShareTerm(n, UpperUnit(n, c), v)(i) == Share(n, UpperUnit(n, c), x) == a / d;
    assert ShareTerm(n, LowerUnit(n, c), v)(i) == Share(n, LowerUnit(n, c), x) == b / d;
    TimesQuotient(a, d);
    TimesQuotient(b, d);
    TimesSum(a / d, b / d, d);
    TimesAssoc(a / d, d, 1.0);
    TimesAssoc(b / d, d, 1.0);
  }

  lemma WeightColumn(n: nat, v: seq<Vec>, i: int)
    requires Orthogonal(n, v) && 0 <= i < |v|
    ensures Sum(0, n, c => Weight(n, v)(c, i)) == 1.0
  {
    hide Sum, Times, Weight;
    var x := v[i];
    var d, g := Inner(n, x, x), DotTerm(x.upper, x.lower, x.upper, x.lower);
    var f: int -> real := c => Weight(n, v)(c, i);
    forall c | 0 <= c < n ensures g(c) == Times(d, f(c)) { WeightAt(n, v, c, i); }
    SumTimes(0, n, d, f, g);
    SumEq(0, n, f, c => Weight(n, v)(c, i));
    TimesUnit(d);
    TimesAssoc(d, Sum(0, n, f), 1.0);
    TimesCancel(Sum(0, n, f), 1.0, d);
    TimesCancel(1.0, Sum(0, n, f), d);
  }

  /** No more than 2n non-zero vectors are mutually orthogonal. */
  lemma DimensionBound(n: nat, v: seq<Vec>)
    requires Orthogonal(n, v)
    ensures |v| <= 2 * n
  {
    hide Orthogonal, Sum, Weight;
    var rows: int -> real := c => Sum(0, |v|, i => Weight(n, v)(c, i));
    var cols: int -> real := i => Sum(0, n, c => Weight(n, v)(c, i));
    SumExchange(n, |v|, Weight(n, v), rows, cols);
    forall c | 0 <= c < n ensures rows(c) <= 2.0 { WeightRow(n, v, c); }
    forall i | 0 <= i < |v| ensures cols(i) == 1.0 { WeightColumn(n, v, i); }
    SumAtMost(n, rows, 2.0);
    SumOfOnes(|v|, cols);
  }

  // ---------------------------------------------------------------- directions without curvature

  /** R_ij (p1_i + p2_j) = 0 throughout. */
  ghost predicate Level(m: Matrix, n: nat, p: Vec) {
    forall i, j :: 0 <= i < n && 0 <= j < n ==> Times(m(i, j), At(p.upper, i) + At(p.lower, j)) == 0.0
  }

  lemma EnergyTermSign(m: Matrix, n: nat, p: Vec, i: int, j: int)
    requires NonNegative(m, n) && 0 <= i < n && 0 <= j < n
    ensures EnergyTerm(m, p.upper, p.lower)(i, j) >= 0.0
    ensures EnergyTerm(m, p.upper, p.lower)(i, j) == 0.0 ==> Times(m(i, j), At(p.upper, i) + At(p.lower, j)) == 0.0
  {
    hide Times;
    var r, a := m(i, j), At(p.upper, i) + At(p.lower, j);
    SquareNonNegative(a);
    TimesSign(r, Times(a, a));
    TimesUnit(a);
    TimesUnit(r);
    if a != 0.0 { SquarePositive(a); }
  }

  lemma LevelDirection(m: Matrix, n: nat, p: Vec)
    requires DoublyStochastic(m, n) && Fits(n, p) && Inner(n, p, Image(m, n, p)) == 0.0
    ensures Level(m, n, p)
  {
    hide Times, Sum, Upper, Lower, EnergyTerm, Dot;
    QuadraticForm(m, n, p.upper, p.lower);
    var f, g := EnergyTerm(m, p.upper, p.lower), EnergyRow(m, n, p.upper, p.lower);
    forall i | 0 <= i < n ensures g(i) >= 0.0 { EnergyRowSign(m, n, p, i); }
    forall i, j | 0 <= i < n && 0 <= j < n ensures Times(m(i, j), At(p.upper, i) + At(p.lower, j)) == 0.0 {
      EnergyTermSign(m, n, p, i, j);
      if f(i, j) > 0.0 {
        EnergyRowSign(m, n, p, i);
        EnergyRowPositive(m, n, p, i, j);
        SumPositive(0, n, g, i);
      }
    }
  }

  lemma EnergyRowSign(m: Matrix, n: nat, p: Vec, i: int)
    requires NonNegative(m, n) && 0 <= i < n
    ensures EnergyRow(m, n, p.upper, p.lower)(i) >= 0.0
  {
    hide Times, Sum, EnergyTerm;
    forall j | 0 <= j < n ensures EnergyTerm(m, p.upper, p.lower)(i, j) >= 0.0 { EnergyTermSign(m, n, p, i, j); }
    SumNonNegative(0, n, j => EnergyTerm(m, p.upper, p.lower)(i, j));
  }

  lemma EnergyRowPositive(m: Matrix, n: nat, p: Vec, i: int, j: int)
    requires NonNegative(m, n) && 0 <= i < n && 0 <= j < n && EnergyTerm(m, p.upper, p.lower)(i, j) > 0.0
    ensures EnergyRow(m, n, p.upper, p.lower)(i) > 0.0
  {
    hide Times, Sum, EnergyTerm;
    forall k | 0 <= k < n ensures EnergyTerm(m, p.upper, p.lower)(i, k) >= 0.0 { EnergyTermSign(m, n, p, i, k); }
    SumPositive(0, n, k => EnergyTerm(m, p.upper, p.lower)(i, k), j);
  }

  /** Row i of A p, with p1_i taken along in the sum since the row sums to one. */
  lemma LevelRow(m: Matrix, n: nat, p: Vec, i: int)
    requires DoublyStochastic(m, n) && Level(m, n, p) && 0 <= i < n
    ensures At(p.upper, i) + Sum(0, n, RowTerm(m, p.lower, i)) == 0.0
  {
    hide Times, Sum;
    var a := At(p.upper, i);
    var row: int -> real := j => m(i, j);
    var f: int -> real := j => Times(a, row(j));
    var zero: int -> real := _ => 0.0;
    forall j | 0 <= j < n ensures zero(j) == 1.0 * f(j) + 1.0 * RowTerm(m, p.lower, i)(j) {
      TimesSum(a, At(p.lower, j), m(i, j));
      TimesAssoc(a, m(i, j), 1.0);
    }
    SumLinear(0, n, 1.0, f, 1.0, RowTerm(m, p.lower, i), zero);
    SumZero(0, n, zero);
    SumTimes(0, n, a, row, f);
    SumEq(0, n, row, j => m(i, j));
    assert RowSum(m, n, i) == 1.0;
    TimesUnit(a);
  }

  lemma LevelCol(m: Matrix, n: nat, p: Vec, j: int)
    requires DoublyStochastic(m, n) && Level(m, n, p) && 0 <= j < n
    ensures At(p.lower, j) + Sum(0, n, ColTerm(m, p.upper, j)) == 0.0
  {
    hide Times, Sum;
    var a := At(p.lower, j);
    var col: int -> real := i => m(i, j);
    var f: int -> real := i => Times(a, col(i));
    var zero: int -> real := _ => 0.0;
    forall i | 0 <= i < n ensures zero(i) == 1.0 * f(i) + 1.0 * ColTerm(m, p.upper, j)(i) {
      TimesSum(At(p.upper, i), a, m(i, j));
      TimesAssoc(a, m(i, j), 1.0);
    }
    SumLinear(0, n, 1.0, f, 1.0, ColTerm(m, p.upper, j), zero);
    SumZero(0, n, zero);
    SumTimes(0, n, a, col, f);
    SumEq(0, n, col, i => m(i, j));
    assert ColSum(m, n, j) == 1.0;
    TimesUnit(a);
  }

  /** A level direction is in the null space of A. */
  lemma LevelImage(m: Matrix, n: nat, p: Vec, x: Vec)
    requires DoublyStochastic(m, n) && Level(m, n, p)
    ensures Inner(n, x, Image(m, n, p)) == 0.0
  {
    hide Times, Sum, Dot, Inner, Level, DoublyStochastic;
    var z := Image(m, n, p);
    forall i | 0 <= i < n ensures z.upper[i] == 0.0 && z.lower[i] == 0.0 {
      LevelRow(m, n, p, i);
      LevelCol(m, n, p, i);
    }
    InnerWithZero(n, x, z);
  }

  lemma InnerWithZero(n: nat, x: Vec, z: Vec)
    requires Fits(n, z) && forall i :: 0 <= i < n ==> z.upper[i] == 0.0 && z.lower[i] == 0.0
    ensures Inner(n, x, z) == 0.0
  {
    var f := DotTerm(x.upper, x.lower, z.upper, z.lower);
    forall i | 0 <= i < n ensures f(i) == 0.0 { TimesUnit(At(x.upper, i)); TimesUnit(At(x.lower, i)); }
    SumZero(0, n, f);
  }

  /** The system that the kernel solves for R and dR. */
  function Kernel(m: Matrix, d: Matrix, n: nat): System { System(m, n, Vec(RhsRows(m, d, n), RhsCols(m, d, n))) }

  /** Its right-hand side is orthogonal to every level direction. */
  lemma RhsAgainstLevel(m: Matrix, d: Matrix, n: nat, p: Vec)
    requires Level(m, n, p)
    ensures Inner(n, p, Kernel(m, d, n).b) == 0.0
  {
    hide Times, Sum;
    var b := Kernel(m, d, n).b;
    var g: Matrix := (i, j) => Times(At(p.lower, j), Times(m(i, j), d(i, j)));
    var rows: int -> real := i => Times(At(p.upper, i), At(b.upper, i));
    var cols: int -> real := j => Times(At(p.lower, j), At(b.lower, j));
    var across: int -> real := i => Sum(0, n, j => g(i, j));
    forall j | 0 <= j < n ensures cols(j) == Sum(0, n, i => g(i, j)) {
      SumTimes(0, n, At(p.lower, j), RhsColTerm(m, d, j), i => g(i, j));
    }
    SumExchange(n, n, g, across, cols);
    var zero: int -> real := _ => 0.0;
    forall i | 0 <= i < n ensures zero(i) == 1.0 * rows(i) + 1.0 * across(i) {
      RhsRowAgainst(m, d, n, p, i, j => g(i, j));
    }
    SumLinear(0, n, 1.0, rows, 1.0, across, zero);
    SumZero(0, n, zero);
    SumLinear(0, n, 1.0, rows, 1.0, cols, DotTerm(p.upper, p.lower, b.upper, b.lower));
  }

  lemma RhsRowAgainst(m: Matrix, d: Matrix, n: nat, p: Vec, i: int, g: int -> real)
    requires Level(m, n, p) && 0 <= i < n
    requires forall j :: 0 <= j < n ==> g(j) == Times(At(p.lower, j), Times(m(i, j), d(i, j)))
    ensures Times(At(p.upper, i), At(Kernel(m, d, n).b.upper, i)) + Sum(0, n, g) == 0.0
  {
    hide Times, Sum;
    var a := At(p.upper, i);
    var f: int -> real := j => Times(a, RhsRowTerm(m, d, i)(j));
    var zero: int -> real := _ => 0.0;
    forall j | 0 <= j < n ensures zero(j) == 1.0 * f(j) + 1.0 * g(j) {
      var c, w := At(p.lower, j), Times(m(i, j), d(i, j));
      TimesSum(a, c, w);
      assert Times(m(i, j), a + c) == 0.0;
      TimesAssoc(a + c, m(i, j), d(i, j));
      TimesUnit(d(i, j));
      assert RhsRowTerm(m, d, i)(j) == w && g(j) == Times(c, w);
    }
    SumLinear(0, n, 1.0, f, 1.0, g, zero);
    SumZero(0, n, zero);
    SumTimes(0, n, a, RhsRowTerm(m, d, i), f);
  }

  // ---------------------------------------------------------------- the loop ends

  /** While there is a residual, its direction has positive curvature. */
  lemma CurvaturePositive(m: Matrix, d: Matrix, n: nat, k: nat)
    requires DoublyStochastic(m, n) && Regular(Kernel(m, d, n), k) && Norm(0.0, Kernel(m, d, n), k) > 0.0
    ensures Curv(0.0, Kernel(m, d, n), k) > 0.0
  {
    hide Dot, Times, Upper, Lower, Run, Inner, Level, Regular, RhsRows, RhsCols, Image;
    var y := Kernel(m, d, n);
    KernelFits(m, d, n);
    StateFacts(0.0, y, k);
    var s, p := State(0.0, y, k), Dir(0.0, y, k);
    CurvatureSign(m, n, p);
    MutuallyConjugate(y, k);
    assert Along(y, k);
    if Curv(0.0, y, k) <= 0.0 {
      LevelDirection(m, n, p);
      AgainstResidual(0.0, m, d, n, k);
    }
  }

  lemma KernelFits(m: Matrix, d: Matrix, n: nat)
    ensures Fits(n, Kernel(m, d, n).b)
  {
  }

  lemma CurvatureSign(m: Matrix, n: nat, p: Vec)
    requires DoublyStochastic(m, n) && Fits(n, p)
    ensures Inner(n, p, Image(m, n, p)) >= 0.0
  {
    CurvatureBound(m, n, 0.0, p.upper, p.lower);
    TimesUnit(Dot(n, p.upper, p.lower, p.upper, p.lower));
  }

  /** A level direction has no part along the residual b - A x. */
  lemma AgainstResidual(e: real, m: Matrix, d: Matrix, n: nat, k: nat)
    requires DoublyStochastic(m, n) && Level(m, n, Dir(e, Kernel(m, d, n), k))
    ensures var y := Kernel(m, d, n); Inner(n, Dir(e, y, k), Res(e, y, k)) == 0.0
  {
    hide Dot, Times, Run, Level, Upper, Lower, RhsRows, RhsCols;
    var y := Kernel(m, d, n);
    KernelFits(m, d, n);
    StateFacts(e, y, k);
    var s, p := State(e, y, k), Dir(e, y, k);
    var x := Vec(s.x1, s.x2);
    ResidualAgainst(m, n, y.b.upper, y.b.lower, s, p.upper, p.lower);
    RhsAgainstLevel(m, d, n, p);
    LevelImage(m, n, p, x);
    ImageSymmetric(m, n, p, x);
  }

  /** The residuals of a regular run are orthogonal, so it has at most 2n steps. */
  lemma RegularBound(y: System, k: nat)
    requires Regular(y, k)
    ensures k <= 2 * y.n
  {
    hide Inner, State;
    var v := seq(k, i requires 0 <= i < k => Res(0.0, y, i));
    MutuallyConjugate(y, k);
    forall i | 0 <= i < k ensures Fits(y.n, v[i]) && Inner(y.n, v[i], v[i]) > 0.0 {
      StateFacts(0.0, y, i);
      assert Norm(0.0, y, i) > 0.0;
    }
    forall i, j | 0 <= i < k && 0 <= j < k && i != j ensures Inner(y.n, v[i], v[j]) == 0.0 {
      InnerSymmetric(y.n, v[i], v[j]);
      if i < j { assert ClearOf(y, j, i); } else { assert ClearOf(y, i, j); }
    }
    DimensionBound(y.n, v);
  }

  /** The first residual that vanishes comes after at most 2n steps, and no denominator before it is zero. */
  lemma {:induction false} Solved(m: Matrix, d: Matrix, n: nat, k: nat) returns (j: nat)
    requires DoublyStochastic(m, n) && Regular(Kernel(m, d, n), k)
    ensures k <= j <= 2 * n && Regular(Kernel(m, d, n), j) && Norm(0.0, Kernel(m, d, n), j) == 0.0
    decreases 2 * n - k
  {
    hide Norm, Curv, RhsRows, RhsCols, DoublyStochastic;
    var y := Kernel(m, d, n);
    RegularBound(y, k);
    NormSign(0.0, y, k);
    if Norm(0.0, y, k) == 0.0 {
      j := k;
    } else {
      CurvaturePositive(m, d, n, k);
      RegularBound(y, k + 1);
      j := Solved(m, d, n, k + 1);
    }
  }

  lemma NormSign(e: real, y: System, k: nat)
    ensures Norm(e, y, k) >= 0.0
  {
    InnerNonNegative(y.n, Res(e, y, k));
  }

  /** A vanished residual stays. */
  lemma {:induction false} StaysSolved(y: System, j: nat, k: nat)
    requires Fits(y.n, y.b) && j <= k && Norm(0.0, y, j) == 0.0
    ensures Norm(0.0, y, k) == 0.0
    decreases k - j
  {
    hide Dot, Times, Inner, Plus, State, ImageDir;
    if j < k {
      StaysSolved(y, j, k - 1);
      StepForms(0.0, y, k - 1);
      var r, ap := Res(0.0, y, k - 1), ImageDir(0.0, y, k - 1);
      var r' := Res(0.0, y, k);
      InnerPlus(y.n, r, -0.0, ap, r);
      InnerPlus(y.n, r, -0.0, ap, r');
      TimesUnit(Inner(y.n, ap, r));
      TimesUnit(Inner(y.n, r', ap));
    }
  }

  lemma ZeroParts(n: nat, x: Vec, i: int)
    requires Fits(n, x) && Inner(n, x, x) == 0.0 && 0 <= i < n
    ensures x.upper[i] == 0.0 && x.lower[i] == 0.0
  {
    hide Sum, Times;
    var f := DotTerm(x.upper, x.lower, x.upper, x.lower);
    forall k | 0 <= k < n ensures f(k) >= 0.0 { SquareNonNegative(x.upper[k]); SquareNonNegative(x.lower[k]); }
    SquareNonNegative(x.upper[i]);
    SquareNonNegative(x.lower[i]);
    if x.upper[i] != 0.0 { SquarePositive(x.upper[i]); SumPositive(0, n, f, i); }
    if x.lower[i] != 0.0 { SquarePositive(x.lower[i]); SumPositive(0, n, f, i); }
  }

  /** The 2n steps of the loop leave no residual. */
  lemma ExactlySolved(m: Matrix, d: Matrix, n: nat)
    requires DoublyStochastic(m, n)
    ensures var s := Run(0.0, m, n, RhsRows(m, d, n), RhsCols(m, d, n), 2 * n);
            |s.r1| == |s.r2| == n && forall i :: 0 <= i < n ==> s.r1[i] == 0.0 && s.r2[i] == 0.0
  {
    hide Dot, Inner, Run, RhsRows, RhsCols, Residual;
    var y := Kernel(m, d, n);
    KernelFits(m, d, n);
    var j := Solved(m, d, n, 0);
    StaysSolved(y, j, 2 * n);
    StateFacts(0.0, y, 2 * n);
    forall i | 0 <= i < n ensures Res(0.0, y, 2 * n).upper[i] == 0.0 && Res(0.0, y, 2 * n).lower[i] == 0.0 {
      ZeroParts(n, Res(0.0, y, 2 * n), i);
    }
  }

  // ---------------------------------------------------------------- the projection

  function GradientRow(m: Matrix, d: Matrix, n: nat, x1: seq<real>, x2: seq<real>, i: int): real {
    Sum(0, n, j => Gradient(m, d, x1, x2, i, j))
  }

  function GradientCol(m: Matrix, d: Matrix, n: nat, x1: seq<real>, x2: seq<real>, j: int): real {
    Sum(0, n, i => Gradient(m, d, x1, x2, i, j))
  }

  /** Every row and every column of the gradient at x sums to zero. */
  ghost predicate Balanced(m: Matrix, d: Matrix, n: nat, x: Vec) {
    && (forall i :: 0 <= i < n ==> GradientRow(m, d, n, x.upper, x.lower, i) == 0.0)
    && (forall j :: 0 <= j < n ==> GradientCol(m, d, n, x.upper, x.lower, j) == 0.0)
  }

  /** A balanced gradient is one at a solution of the system. */
  lemma BalancedSolves(m: Matrix, d: Matrix, n: nat, x: Vec, i: int)
    requires DoublyStochastic(m, n) && Fits(n, x) && Balanced(m, d, n, x) && 0 <= i < n
    ensures Fits(n, Image(m, n, x))
    ensures var b, z := Kernel(m, d, n).b, Image(m, n, x); z.upper[i] == b.upper[i] && z.lower[i] == b.lower[i]
  {
    hide Sum, Times, Gradient, Upper, Lower, RhsRows, RhsCols;
    KernelFits(m, d, n);
    OperatorSize(m, n, x.upper, x.lower);
    var b, z := Kernel(m, d, n).b, Image(m, n, x);
    var r1, r2 := seq(n, k requires 0 <= k < n => b.upper[k] - z.upper[k]),
        seq(n, k requires 0 <= k < n => b.lower[k] - z.lower[k]);
    var s := Cg(x.upper, x.lower, r1, r2, r1, r2, 0.0);
    GradientRowSum(m, d, n, s, i);
    GradientColSum(m, d, n, s, i);
    assert GradientRow(m, d, n, x.upper, x.lower, i) == 0.0 && GradientCol(m, d, n, x.upper, x.lower, i) == 0.0;
    TimesUnit(x.upper[i]);
    TimesUnit(x.lower[i]);
  }

  /** Without the guard, the returned gradient is the exact projection: of all gradients (dR - x1 - x2) R it is the one
      whose rows and columns sum to zero. */
  lemma ExactProjection(m: Matrix, d: Matrix, n: nat, x: Vec)
    requires DoublyStochastic(m, n) && Fits(n, x)
    ensures var s := Run(0.0, m, n, RhsRows(m, d, n), RhsCols(m, d, n), 2 * n);
            && Balanced(m, d, n, Vec(s.x1, s.x2))
            && (Balanced(m, d, n, x) ==> forall i, j :: 0 <= i < n && 0 <= j < n ==>
                  Gradient(m, d, x.upper, x.lower, i, j) == Gradient(m, d, s.x1, s.x2, i, j))
  {
    hide Sum, Gradient, Run, Upper, Lower, RhsRows, RhsCols, Balanced, DoublyStochastic, Level;
    var s := Run(0.0, m, n, RhsRows(m, d, n), RhsCols(m, d, n), 2 * n);
    FinalBalanced(m, d, n);
    if Balanced(m, d, n, x) {
      KernelFits(m, d, n);
      StateFacts(0.0, Kernel(m, d, n), 2 * n);
      SameGradient(m, d, n, x, Vec(s.x1, s.x2));
    }
  }

  lemma FinalBalanced(m: Matrix, d: Matrix, n: nat)
    requires DoublyStochastic(m, n)
    ensures var s := Run(0.0, m, n, RhsRows(m, d, n), RhsCols(m, d, n), 2 * n); Balanced(m, d, n, Vec(s.x1, s.x2))
  {
    hide Sum, Gradient, Run, RhsRows, RhsCols, DoublyStochastic;
    GradientSums(0.0, m, d, n, 2 * n);
    ExactlySolved(m, d, n);
    var s := Run(0.0, m, n, RhsRows(m, d, n), RhsCols(m, d, n), 2 * n);
    forall i | 0 <= i < n
      ensures GradientRow(m, d, n, s.x1, s.x2, i) == 0.0 && GradientCol(m, d, n, s.x1, s.x2, i) == 0.0
    {
      assert s.r1[i] == 0.0 && s.r2[i] == 0.0;
    }
  }

  /** Two solutions differ by a level direction, along which the gradient does not change. */
  lemma SameGradient(m: Matrix, d: Matrix, n: nat, x: Vec, x': Vec)
    requires DoublyStochastic(m, n) && Fits(n, x) && Fits(n, x') && Balanced(m, d, n, x) && Balanced(m, d, n, x')
    ensures forall i, j :: 0 <= i < n && 0 <= j < n ==>
              Gradient(m, d, x.upper, x.lower, i, j) == Gradient(m, d, x'.upper, x'.lower, i, j)
  {
    hide Sum, Upper, Lower, RhsRows, RhsCols, Balanced, DoublyStochastic, Times;
    var z := Plus(x, -1.0, x');
    KernelFits(m, d, n);
    PlusFits(n, x, -1.0, x');
    OperatorLinear(m, n, x.upper, x.lower, -1.0, x'.upper, x'.lower);
    forall i | 0 <= i < n
      ensures |Image(m, n, z).upper| == n == |Image(m, n, z).lower|
      ensures Image(m, n, z).upper[i] == 0.0 && Image(m, n, z).lower[i] == 0.0
    {
      BalancedSolves(m, d, n, x, i);
      BalancedSolves(m, d, n, x', i);
      Cancelled(Kernel(m, d, n).b.upper[i]);
      Cancelled(Kernel(m, d, n).b.lower[i]);
    }
    OperatorSize(m, n, z.upper, z.lower);
    InnerWithZero(n, z, Image(m, n, z));
    LevelDirection(m, n, z);
    forall i, j | 0 <= i < n && 0 <= j < n
      ensures Gradient(m, d, x.upper, x.lower, i, j) == Gradient(m, d, x'.upper, x'.lower, i, j)
    {
      Difference(m(i, j), d(i, j), x.upper[i], x.lower[j], x'.upper[i], x'.lower[j]);
    }
  }

  lemma Cancelled(a: real)
    ensures a + Times(-1.0, a) == 0.0
  {
  }

  lemma Difference(r: real, d: real, a: real, b: real, a': real, b': real)
    requires Times(r, a + Times(-1.0, a') + (b + Times(-1.0, b'))) == 0.0
    ensures Times(d - a - b, r) == Times(d - a' - b', r)
  {
    assert r * (a - a' + (b - b')) == (d - a' - b') * r - (d - a - b) * r;
  }
}
