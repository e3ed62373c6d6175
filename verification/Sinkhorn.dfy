/** The implicit Sinkhorn backward pass: conjugate gradients on A = [I R; R' I]. */
module Sinkhorn {
  import opened RealArith
  import opened Sums

  type Matrix = (int, int) -> real

  function At(x: seq<real>, i: int): real {
    if 0 <= i < |x| then x[i] else 0.0
  }

  // ---------------------------------------------------------------- the operator

  /** Row i of R against a vector, and column j. */
  function RowTerm(m: Matrix, x: seq<real>, i: int): int -> real { j => Times(m(i, j), At(x, j)) }
  function ColTerm(m: Matrix, x: seq<real>, j: int): int -> real { i => Times(m(i, j), At(x, i)) }

  /** (A x)_1 = x1 + R x2 and (A x)_2 = x2 + R' x1. */
  function Upper(m: Matrix, n: nat, x1: seq<real>, x2: seq<real>): seq<real> {
    seq(n, i => At(x1, i) + Sum(0, n, RowTerm(m, x2, i)))
  }

  function Lower(m: Matrix, n: nat, x1: seq<real>, x2: seq<real>): seq<real> {
    seq(n, j => At(x2, j) + Sum(0, n, ColTerm(m, x1, j)))
  }

  function DotTerm(x1: seq<real>, x2: seq<real>, y1: seq<real>, y2: seq<real>): int -> real {
    i => Times(At(x1, i), At(y1, i)) + Times(At(x2, i), At(y2, i))
  }

  function Dot(n: nat, x1: seq<real>, x2: seq<real>, y1: seq<real>, y2: seq<real>): real {
    Sum(0, n, DotTerm(x1, x2, y1, y2))
  }

  function RowSum(m: Matrix, n: nat, i: int): real { Sum(0, n, j => m(i, j)) }
  function ColSum(m: Matrix, n: nat, j: int): real { Sum(0, n, i => m(i, j)) }

  /** x + a y, component by component. */
  function Axpy(x: seq<real>, a: real, y: seq<real>): seq<real> {
    seq(|x|, i requires 0 <= i < |x| => x[i] + Times(a, At(y, i)))
  }

  lemma {:induction false} RowLinear(m: Matrix, n: nat, x: seq<real>, a: real, y: seq<real>, i: int)
    requires |x| == n
    ensures Sum(0, n, RowTerm(m, Axpy(x, a, y), i))
            == Sum(0, n, RowTerm(m, x, i)) + Times(a, Sum(0, n, RowTerm(m, y, i)))
  {
    var f, g, h := RowTerm(m, x, i), RowTerm(m, y, i), RowTerm(m, Axpy(x, a, y), i);
    forall j | 0 <= j < n ensures h(j) == 1.0 * f(j) + a * g(j) {
      Expand(m(i, j), x[j], a, At(y, j));
    }
    SumLinear(0, n, 1.0, f, a, g, h);
  }

  lemma {:induction false} ColLinear(m: Matrix, n: nat, x: seq<real>, a: real, y: seq<real>, j: int)
    requires |x| == n
    ensures Sum(0, n, ColTerm(m, Axpy(x, a, y), j))
            == Sum(0, n, ColTerm(m, x, j)) + Times(a, Sum(0, n, ColTerm(m, y, j)))
  {
    var f, g, h := ColTerm(m, x, j), ColTerm(m, y, j), ColTerm(m, Axpy(x, a, y), j);
    forall i | 0 <= i < n ensures h(i) == 1.0 * f(i) + a * g(i) {
      Expand(m(i, j), x[i], a, At(y, i));
    }
    SumLinear(0, n, 1.0, f, a, g, h);
  }

  lemma Expand(r: real, x: real, a: real, y: real)
    ensures Times(r, x + Times(a, y)) == 1.0 * Times(r, x) + a * Times(r, y)
  {
    assert r * (x + a * y) == r * x + a * (r * y);
  }

  /** A (x + a p) = A x + a A p. */
  lemma OperatorLinear(m: Matrix, n: nat, x1: seq<real>, x2: seq<real>, a: real, p1: seq<real>, p2: seq<real>)
    requires |x1| == |x2| == |p1| == |p2| == n
    ensures Upper(m, n, Axpy(x1, a, p1), Axpy(x2, a, p2)) == Axpy(Upper(m, n, x1, x2), a, Upper(m, n, p1, p2))
    ensures Lower(m, n, Axpy(x1, a, p1), Axpy(x2, a, p2)) == Axpy(Lower(m, n, x1, x2), a, Lower(m, n, p1, p2))
  {
    hide Times, Sum;
    forall i | 0 <= i < n
      ensures Upper(m, n, Axpy(x1, a, p1), Axpy(x2, a, p2))[i] == Axpy(Upper(m, n, x1, x2), a, Upper(m, n, p1, p2))[i]
    {
      RowLinear(m, n, x2, a, p2, i);
      TimesSum(p1[i], Sum(0, n, RowTerm(m, p2, i)), a);
    }
    forall j | 0 <= j < n
      ensures Lower(m, n, Axpy(x1, a, p1), Axpy(x2, a, p2))[j] == Axpy(Lower(m, n, x1, x2), a, Lower(m, n, p1, p2))[j]
    {
      ColLinear(m, n, x1, a, p1, j);
      TimesSum(p2[j], Sum(0, n, ColTerm(m, p1, j)), a);
    }
  }

  // ---------------------------------------------------------------- p'Ap

  function SquareTerm(x: seq<real>): int -> real { i => Times(At(x, i), At(x, i)) }

  /** R_ij (p1_i + p2_j)^2. */
  function EnergyTerm(m: Matrix, p1: seq<real>, p2: seq<real>): Matrix {
    (i, j) => Times(m(i, j), Times(At(p1, i) + At(p2, j), At(p1, i) + At(p2, j)))
  }

  function EnergyRow(m: Matrix, n: nat, p1: seq<real>, p2: seq<real>): int -> real {
    i => Sum(0, n, j => EnergyTerm(m, p1, p2)(i, j))
  }

  function Energy(m: Matrix, n: nat, p1: seq<real>, p2: seq<real>): real {
    Sum(0, n, EnergyRow(m, n, p1, p2))
  }

  /** What the row and column sums of R lack to one, weighted by the squares of p. */
  function DeficitTerm(m: Matrix, n: nat, p1: seq<real>, p2: seq<real>): int -> real {
    i => Times(1.0 - RowSum(m, n, i), SquareTerm(p1)(i)) + Times(1.0 - ColSum(m, n, i), SquareTerm(p2)(i))
  }

  // The three parts of the energy: row squares, cross products, column squares.
  function RowPart(m: Matrix, n: nat, p1: seq<real>): int -> real { i => Times(RowSum(m, n, i), SquareTerm(p1)(i)) }
  function ColPart(m: Matrix, n: nat, p2: seq<real>): int -> real { j => Times(ColSum(m, n, j), SquareTerm(p2)(j)) }
  function CrossRow(m: Matrix, n: nat, p1: seq<real>, p2: seq<real>): int -> real {
    i => Times(At(p1, i), Sum(0, n, RowTerm(m, p2, i)))
  }
  function CrossCol(m: Matrix, n: nat, p1: seq<real>, p2: seq<real>): int -> real {
    j => Times(At(p2, j), Sum(0, n, ColTerm(m, p1, j)))
  }
  function ColSquareRow(m: Matrix, n: nat, p2: seq<real>): int -> real {
    i => Sum(0, n, j => Times(m(i, j), SquareTerm(p2)(j)))
  }

  /** Sum of p1_i R_ij p2_j, by rows and by columns. */
  lemma CrossExchange(m: Matrix, n: nat, p1: seq<real>, p2: seq<real>)
    ensures Sum(0, n, CrossRow(m, n, p1, p2)) == Sum(0, n, CrossCol(m, n, p1, p2))
  {
    hide Times;
    var f: Matrix := (i, j) => Times(At(p1, i), Times(m(i, j), At(p2, j)));
    forall i | 0 <= i < n ensures CrossRow(m, n, p1, p2)(i) == Sum(0, n, j => f(i, j)) {
      SumTimes(0, n, At(p1, i), RowTerm(m, p2, i), j => f(i, j));
    }
    forall j | 0 <= j < n ensures CrossCol(m, n, p1, p2)(j) == Sum(0, n, i => f(i, j)) {
      forall i | 0 <= i < n ensures f(i, j) == Times(At(p2, j), ColTerm(m, p1, j)(i)) {
        Rotate(At(p1, i), m(i, j), At(p2, j));
      }
      SumTimes(0, n, At(p2, j), ColTerm(m, p1, j), i => f(i, j));
    }
    SumExchange(n, n, f, CrossRow(m, n, p1, p2), CrossCol(m, n, p1, p2));
  }

  lemma Rotate(a: real, b: real, c: real)
    ensures Times(a, Times(b, c)) == Times(c, Times(b, a))
  {
    assert a * (b * c) == c * (b * a);
  }

  lemma ColSquareExchange(m: Matrix, n: nat, p2: seq<real>)
    ensures Sum(0, n, ColSquareRow(m, n, p2)) == Sum(0, n, ColPart(m, n, p2))
  {
    hide Times;
    var f: Matrix := (i, j) => Times(m(i, j), SquareTerm(p2)(j));
    forall i | 0 <= i < n ensures ColSquareRow(m, n, p2)(i) == Sum(0, n, j => f(i, j)) {
      SumEq(0, n, j => Times(m(i, j), SquareTerm(p2)(j)), j => f(i, j));
    }
    forall j | 0 <= j < n ensures ColPart(m, n, p2)(j) == Sum(0, n, i => f(i, j)) {
      var s := SquareTerm(p2)(j);
      forall i | 0 <= i < n ensures f(i, j) == Times(s, m(i, j)) { TimesAssoc(m(i, j), s, 1.0); }
      SumTimes(0, n, s, i => m(i, j), i => f(i, j));
      TimesAssoc(ColSum(m, n, j), s, 1.0);
    }
    SumExchange(n, n, f, ColSquareRow(m, n, p2), ColPart(m, n, p2));
  }

  lemma Square(r: real, a: real, b: real)
    ensures Times(r, Times(a + b, a + b)) == Times(r, Times(a, a)) + 2.0 * Times(a, Times(r, b)) + Times(r, Times(b, b))
  {
    assert r * ((a + b) * (a + b)) == r * (a * a) + 2.0 * (a * (r * b)) + r * (b * b);
  }

  lemma {:induction false} SumFour(n: nat, a: int -> real, b: int -> real, c: int -> real, d: int -> real,
                                   e: int -> real)
    requires forall i :: 0 <= i < n ==> e(i) == a(i) + b(i) + c(i) + d(i)
    ensures Sum(0, n, e) == Sum(0, n, a) + Sum(0, n, b) + Sum(0, n, c) + Sum(0, n, d)
  {
    if n > 0 { SumFour(n - 1, a, b, c, d, e); }
  }

  lemma EnergyRowSplit(m: Matrix, n: nat, p1: seq<real>, p2: seq<real>, i: int)
    ensures EnergyRow(m, n, p1, p2)(i)
            == RowPart(m, n, p1)(i) + 2.0 * CrossRow(m, n, p1, p2)(i) + ColSquareRow(m, n, p2)(i)
  {
    hide Times, Sum;
    var a, s := At(p1, i), SquareTerm(p1)(i);
    var f: int -> real := j => Times(m(i, j), s);
    var row := RowTerm(m, p2, i);
    var g: int -> real := j => Times(a, row(j));
    var h: int -> real := j => Times(m(i, j), SquareTerm(p2)(j));
    var e: int -> real := j => EnergyTerm(m, p1, p2)(i, j);
    forall j | 0 <= j < n ensures e(j) == f(j) + g(j) + g(j) + h(j) {
      Square(m(i, j), a, At(p2, j));
      assert row(j) == Times(m(i, j), At(p2, j));
      assert h(j) == Times(m(i, j), Times(At(p2, j), At(p2, j)));
      assert f(j) == Times(m(i, j), Times(a, a));
      assert EnergyTerm(m, p1, p2)(i, j) == Times(m(i, j), Times(a + At(p2, j), a + At(p2, j)));
    }
    SumFour(n, f, g, g, h, e);
    RowSquare(m, n, s, i, f);
    SumTimes(0, n, a, RowTerm(m, p2, i), g);
    SumEq(0, n, h, j => Times(m(i, j), SquareTerm(p2)(j)));
    SumEq(0, n, e, j => EnergyTerm(m, p1, p2)(i, j));
  }

  lemma RowSquare(m: Matrix, n: nat, s: real, i: int, f: int -> real)
    requires forall j :: 0 <= j < n ==> f(j) == Times(m(i, j), s)
    ensures Sum(0, n, f) == Times(RowSum(m, n, i), s)
  {
    hide Times, Sum;
    forall j | 0 <= j < n ensures f(j) == Times(s, m(i, j)) { TimesAssoc(m(i, j), s, 1.0); }
    SumTimes(0, n, s, j => m(i, j), f);
    TimesAssoc(RowSum(m, n, i), s, 1.0);
  }

  lemma DotAt(m: Matrix, n: nat, x1: seq<real>, x2: seq<real>, y1: seq<real>, y2: seq<real>, i: int)
    requires |y1| == |y2| == n && 0 <= i < n
    ensures DotTerm(x1, x2, Upper(m, n, y1, y2), Lower(m, n, y1, y2))(i)
            == DotTerm(x1, x2, y1, y2)(i) + CrossRow(m, n, x1, y2)(i) + CrossCol(m, n, y1, x2)(i)
  {
    hide Times, Sum;
    var row, col := Sum(0, n, RowTerm(m, y2, i)), Sum(0, n, ColTerm(m, y1, i));
    assert At(Upper(m, n, y1, y2), i) == y1[i] + row;
    assert At(Lower(m, n, y1, y2), i) == y2[i] + col;
    TimesSum(y1[i], row, At(x1, i));
    TimesSum(y2[i], col, At(x2, i));
  }

  /** x'(A y): the plain product and the two cross sums. */
  lemma DotSplit(m: Matrix, n: nat, x1: seq<real>, x2: seq<real>, y1: seq<real>, y2: seq<real>)
    requires |y1| == |y2| == n
    ensures Dot(n, x1, x2, Upper(m, n, y1, y2), Lower(m, n, y1, y2))
            == Dot(n, x1, x2, y1, y2) + Sum(0, n, CrossRow(m, n, x1, y2)) + Sum(0, n, CrossCol(m, n, y1, x2))
  {
    hide Times, Sum, Upper, Lower, DotTerm, CrossRow, CrossCol;
    var d, e := DotTerm(x1, x2, Upper(m, n, y1, y2), Lower(m, n, y1, y2)), DotTerm(x1, x2, y1, y2);
    forall i | 0 <= i < n ensures d(i) == e(i) + CrossRow(m, n, x1, y2)(i) + CrossCol(m, n, y1, x2)(i) {
      DotAt(m, n, x1, x2, y1, y2, i);
    }
    SumThree(n, e, CrossRow(m, n, x1, y2), CrossCol(m, n, y1, x2), d);
  }

  /** A is symmetric: x'(A y) = y'(A x). */
  lemma OperatorSymmetric(m: Matrix, n: nat, x1: seq<real>, x2: seq<real>, y1: seq<real>, y2: seq<real>)
    requires |x1| == |x2| == |y1| == |y2| == n
    ensures Dot(n, x1, x2, Upper(m, n, y1, y2), Lower(m, n, y1, y2))
            == Dot(n, y1, y2, Upper(m, n, x1, x2), Lower(m, n, x1, x2))
  {
    hide Times, Sum, Upper, Lower, Dot, CrossRow, CrossCol;
    DotSplit(m, n, x1, x2, y1, y2);
    DotSplit(m, n, y1, y2, x1, x2);
    CrossExchange(m, n, x1, y2);
    CrossExchange(m, n, y1, x2);
    DotSymmetric(n, x1, x2, y1, y2);
  }

  lemma DotSymmetric(n: nat, x1: seq<real>, x2: seq<real>, y1: seq<real>, y2: seq<real>)
    ensures Dot(n, x1, x2, y1, y2) == Dot(n, y1, y2, x1, x2)
  {
    hide Times, Sum;
    forall i | 0 <= i < n ensures DotTerm(x1, x2, y1, y2)(i) == DotTerm(y1, y2, x1, x2)(i) {
      TimesAssoc(At(x1, i), At(y1, i), 1.0);
      TimesAssoc(At(x2, i), At(y2, i), 1.0);
    }
    SumEq(0, n, DotTerm(x1, x2, y1, y2), DotTerm(y1, y2, x1, x2));
  }

  /** (x + a y)'z = x'z + a y'z. */
  lemma DotLinear(n: nat, x1: seq<real>, x2: seq<real>, a: real, y1: seq<real>, y2: seq<real>, z1: seq<real>,
                  z2: seq<real>)
    requires |x1| == |x2| == n
    ensures Dot(n, Axpy(x1, a, y1), Axpy(x2, a, y2), z1, z2)
            == Dot(n, x1, x2, z1, z2) + Times(a, Dot(n, y1, y2, z1, z2))
  {
    hide Sum;
    var f, g, h := DotTerm(x1, x2, z1, z2), DotTerm(y1, y2, z1, z2), DotTerm(Axpy(x1, a, y1), Axpy(x2, a, y2), z1, z2);
    forall i | 0 <= i < n ensures h(i) == 1.0 * f(i) + a * g(i) {
      ExpandTwo(x1[i], At(y1, i), At(z1, i), x2[i], At(y2, i), At(z2, i), a);
    }
    SumLinear(0, n, 1.0, f, a, g, h);
  }

  lemma ExpandTwo(x: real, y: real, z: real, x': real, y': real, z': real, a: real)
    ensures Times(x + Times(a, y), z) + Times(x' + Times(a, y'), z')
            == 1.0 * (Times(x, z) + Times(x', z')) + a * (Times(y, z) + Times(y', z'))
  {
    assert (x + a * y) * z == x * z + a * (y * z);
    assert (x' + a * y') * z' == x' * z' + a * (y' * z');
  }

  lemma {:induction false} SumThree(n: nat, a: int -> real, b: int -> real, c: int -> real, e: int -> real)
    requires forall i :: 0 <= i < n ==> e(i) == a(i) + b(i) + c(i)
    ensures Sum(0, n, e) == Sum(0, n, a) + Sum(0, n, b) + Sum(0, n, c)
  {
    if n > 0 { SumThree(n - 1, a, b, c, e); }
  }

  lemma NormSplit(n: nat, p1: seq<real>, p2: seq<real>)
    ensures Dot(n, p1, p2, p1, p2) == Sum(0, n, SquareTerm(p1)) + Sum(0, n, SquareTerm(p2))
  {
    hide Times;
    SumLinear(0, n, 1.0, SquareTerm(p1), 1.0, SquareTerm(p2), DotTerm(p1, p2, p1, p2));
  }

  lemma DeficitAt(m: Matrix, n: nat, p1: seq<real>, p2: seq<real>, i: int)
    ensures DeficitTerm(m, n, p1, p2)(i) + RowPart(m, n, p1)(i) + ColPart(m, n, p2)(i)
            == SquareTerm(p1)(i) + SquareTerm(p2)(i)
  {
    hide Times, Sum;
    var s1, s2 := SquareTerm(p1)(i), SquareTerm(p2)(i);
    TimesSum(1.0, RowSum(m, n, i), s1);
    TimesSum(1.0, ColSum(m, n, i), s2);
    TimesUnit(s1);
    TimesUnit(s2);
  }

  lemma {:induction false} DeficitSplit(m: Matrix, n: nat, k: nat, p1: seq<real>, p2: seq<real>)
    ensures Sum(0, k, DeficitTerm(m, n, p1, p2)) + Sum(0, k, RowPart(m, n, p1)) + Sum(0, k, ColPart(m, n, p2))
            == Sum(0, k, SquareTerm(p1)) + Sum(0, k, SquareTerm(p2))
    decreases k
  {
    hide Times, DeficitTerm, RowPart, ColPart, SquareTerm;
    if k > 0 {
      DeficitSplit(m, n, k - 1, p1, p2);
      DeficitAt(m, n, p1, p2, k - 1);
    }
  }

  lemma EnergySplit(m: Matrix, n: nat, p1: seq<real>, p2: seq<real>)
    ensures Energy(m, n, p1, p2)
            == Sum(0, n, RowPart(m, n, p1)) + 2.0 * Sum(0, n, CrossRow(m, n, p1, p2))
               + Sum(0, n, ColSquareRow(m, n, p2))
  {
    hide Times, Sum, RowPart, CrossRow, ColSquareRow, EnergyRow;
    var f, g, h := RowPart(m, n, p1), CrossRow(m, n, p1, p2), ColSquareRow(m, n, p2);
    forall i | 0 <= i < n ensures EnergyRow(m, n, p1, p2)(i) == f(i) + g(i) + g(i) + h(i) {
      EnergyRowSplit(m, n, p1, p2, i);
    }
    SumFour(n, f, g, g, h, EnergyRow(m, n, p1, p2));
  }

  /** p'Ap is the energy of p plus what the row and column sums lack to one; for a doubly
      stochastic R it is exactly the sum of R_ij (p1_i + p2_j)^2. */
  lemma QuadraticForm(m: Matrix, n: nat, p1: seq<real>, p2: seq<real>)
    requires |p1| == |p2| == n
    ensures Dot(n, p1, p2, Upper(m, n, p1, p2), Lower(m, n, p1, p2))
            == Energy(m, n, p1, p2) + Sum(0, n, DeficitTerm(m, n, p1, p2))
    ensures DoublyStochastic(m, n) ==>
              Dot(n, p1, p2, Upper(m, n, p1, p2), Lower(m, n, p1, p2)) == Energy(m, n, p1, p2)
  {
    hide Times;
    DotSplit(m, n, p1, p2, p1, p2);
    NormSplit(n, p1, p2);
    CrossExchange(m, n, p1, p2);
    ColSquareExchange(m, n, p2);
    EnergySplit(m, n, p1, p2);
    DeficitSplit(m, n, n, p1, p2);
    if DoublyStochastic(m, n) {
      forall i | 0 <= i < n ensures DeficitTerm(m, n, p1, p2)(i) == 0.0 {
        TimesUnit(SquareTerm(p1)(i));
        TimesUnit(SquareTerm(p2)(i));
      }
      SumZero(0, n, DeficitTerm(m, n, p1, p2));
    }
  }

  ghost predicate NonNegative(m: Matrix, n: nat) {
    forall i, j :: 0 <= i < n && 0 <= j < n ==> m(i, j) >= 0.0
  }

  ghost predicate DoublyStochastic(m: Matrix, n: nat) {
    NonNegative(m, n) && forall i :: 0 <= i < n ==> RowSum(m, n, i) == 1.0 && ColSum(m, n, i) == 1.0
  }

  lemma SquareNonNegative(a: real)
    ensures Times(a, a) >= 0.0
  {
    if a >= 0.0 { MulNonNegative(a, a); } else { MulNonNegative(-a, -a); }
  }

  lemma SquarePositive(c: real)
    requires c != 0.0
    ensures Times(c, c) > 0.0
  {
    hide Times;
    TimesSign(c, c);
    TimesSign(-c, -c);
    TimesNegate(c, -c);
    TimesNegate(c, c);
    TimesAssoc(c, -c, 1.0);
  }

  /** No row or column sum exceeds one by more than d. */
  ghost predicate Within(m: Matrix, n: nat, d: real) {
    NonNegative(m, n) && forall i :: 0 <= i < n ==> RowSum(m, n, i) <= 1.0 + d && ColSum(m, n, i) <= 1.0 + d
  }

  /** The curvature falls below zero by at most the largest excess of a row or column sum over one, times |p|^2. */
  lemma CurvatureBound(m: Matrix, n: nat, d: real, p1: seq<real>, p2: seq<real>)
    requires Within(m, n, d) && |p1| == |p2| == n
    ensures Dot(n, p1, p2, Upper(m, n, p1, p2), Lower(m, n, p1, p2)) >= -Times(d, Dot(n, p1, p2, p1, p2))
  {
    hide Times, Sum, Upper, Lower, DotTerm, DeficitTerm;
    QuadraticForm(m, n, p1, p2);
    EnergyNonNegative(m, n, p1, p2);
    var f: int -> real := i => DeficitTerm(m, n, p1, p2)(i) + Times(d, DotTerm(p1, p2, p1, p2)(i));
    forall i | 0 <= i < n ensures f(i) >= 0.0 { DeficitWithin(m, n, d, p1, p2, i); }
    SumNonNegative(0, n, f);
    SumTimesPlus(n, d, DeficitTerm(m, n, p1, p2), DotTerm(p1, p2, p1, p2), f);
  }

  lemma SumTimesPlus(n: nat, d: real, f: int -> real, g: int -> real, h: int -> real)
    requires forall i :: 0 <= i < n ==> h(i) == f(i) + Times(d, g(i))
    ensures Sum(0, n, h) == Sum(0, n, f) + Times(d, Sum(0, n, g))
  {
    SumLinear(0, n, 1.0, f, d, g, h);
  }

  lemma DeficitWithin(m: Matrix, n: nat, d: real, p1: seq<real>, p2: seq<real>, i: int)
    requires Within(m, n, d) && 0 <= i < n
    ensures DeficitTerm(m, n, p1, p2)(i) + Times(d, DotTerm(p1, p2, p1, p2)(i)) >= 0.0
  {
    hide Times, Sum;
    var s1, s2 := SquareTerm(p1)(i), SquareTerm(p2)(i);
    SquareNonNegative(At(p1, i));
    SquareNonNegative(At(p2, i));
    TimesSum(s1, s2, d);
    TimesSum(1.0 - RowSum(m, n, i), d, s1);
    TimesSum(1.0 - ColSum(m, n, i), d, s2);
    TimesSign(1.0 - RowSum(m, n, i) + d, s1);
    TimesSign(1.0 - ColSum(m, n, i) + d, s2);
  }

  lemma EnergyNonNegative(m: Matrix, n: nat, p1: seq<real>, p2: seq<real>)
    requires NonNegative(m, n)
    ensures Energy(m, n, p1, p2) >= 0.0
  {
    hide Times;
    forall i | 0 <= i < n ensures EnergyRow(m, n, p1, p2)(i) >= 0.0 {
      forall j | 0 <= j < n ensures EnergyTerm(m, p1, p2)(i, j) >= 0.0 {
        SquareNonNegative(At(p1, i) + At(p2, j));
        TimesSign(m(i, j), Times(At(p1, i) + At(p2, j), At(p1, i) + At(p2, j)));
      }
      SumNonNegative(0, n, j => EnergyTerm(m, p1, p2)(i, j));
    }
    SumNonNegative(0, n, EnergyRow(m, n, p1, p2));
  }

  lemma SumOfTwo(f: int -> real)
    ensures Sum(0, 2, f) == f(0) + f(1)
  {
    assert Sum(0, 1, f) == Sum(0, 0, f) + f(0);
  }

  lemma NormNonNegative(n: nat, r1: seq<real>, r2: seq<real>)
    ensures Dot(n, r1, r2, r1, r2) >= 0.0
  {
    forall i | 0 <= i < n ensures DotTerm(r1, r2, r1, r2)(i) >= 0.0 {
      SquareNonNegative(At(r1, i));
      SquareNonNegative(At(r2, i));
    }
    SumNonNegative(0, n, DotTerm(r1, r2, r1, r2));
  }
}
