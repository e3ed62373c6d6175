/** The buffers of one position of the sequence, updated in place as the kernel does. */
module SinkhornSolver {
  import opened RealArith
  import opened Sums
  import opened Sinkhorn
  import opened SinkhornCg
  import opened SinkhornConjugate
  import opened SinkhornExact

  /** y = R x, with the products of a row added up. */
  method RowProducts(m: Matrix, n: nat, x: array<real>, y: array<real>)
    requires x.Length == y.Length == n && x != y
    modifies y
    ensures forall k :: 0 <= k < n ==> y[k] == Sum(0, n, RowTerm(m, x[..], k))
  {
    for i := 0 to n
      invariant forall k :: 0 <= k < i ==> y[k] == Sum(0, n, RowTerm(m, x[..], k))
    {
      y[i] := 0.0;
      for j := 0 to n
        invariant y[i] == Sum(0, j, RowTerm(m, x[..], i))
        invariant forall k :: 0 <= k < i ==> y[k] == Sum(0, n, RowTerm(m, x[..], k))
      {
        y[i] := y[i] + Times(m(i, j), x[j]);
      }
    }
  }

  /** y = R' x. */
  method ColProducts(m: Matrix, n: nat, x: array<real>, y: array<real>)
    requires x.Length == y.Length == n && x != y
    modifies y
    ensures forall k :: 0 <= k < n ==> y[k] == Sum(0, n, ColTerm(m, x[..], k))
  {
    for j := 0 to n
      invariant forall k :: 0 <= k < j ==> y[k] == Sum(0, n, ColTerm(m, x[..], k))
    {
      y[j] := 0.0;
      for i := 0 to n
        invariant y[j] == Sum(0, i, ColTerm(m, x[..], j))
        invariant forall k :: 0 <= k < j ==> y[k] == Sum(0, n, ColTerm(m, x[..], k))
      {
        y[j] := y[j] + Times(m(i, j), x[i]);
      }
    }
  }

  /** y = A x. */
  method MatVec(m: Matrix, n: nat, x1: array<real>, x2: array<real>, y1: array<real>, y2: array<real>)
    requires x1.Length == x2.Length == y1.Length == y2.Length == n
    requires y1 != y2 && y1 !in {x1, x2} && y2 !in {x1, x2}
    modifies y1, y2
    ensures y1[..] == Upper(m, n, x1[..], x2[..])
    ensures y2[..] == Lower(m, n, x1[..], x2[..])
  {
    hide Times, Sum, RowTerm, ColTerm;
    RowProducts(m, n, x2, y1);
    ColProducts(m, n, x1, y2);
    label Products:
    for i := 0 to n
      invariant forall k :: 0 <= k < i ==> y1[k] == x1[k] + old@Products(y1[k]) && y2[k] == x2[k] + old@Products(y2[k])
      invariant forall k :: i <= k < n ==> y1[k] == old@Products(y1[k]) && y2[k] == old@Products(y2[k])
    {
      y1[i] := y1[i] + x1[i];
      y2[i] := y2[i] + x2[i];
    }
  }

  method DotProduct(n: nat, x1: array<real>, x2: array<real>, y1: array<real>, y2: array<real>) returns (out: real)
    requires x1.Length == x2.Length == y1.Length == y2.Length == n
    ensures out == Dot(n, x1[..], x2[..], y1[..], y2[..])
  {
    out := 0.0;
    for i := 0 to n
      invariant out == Sum(0, i, DotTerm(x1[..], x2[..], y1[..], y2[..]))
    {
      out := out + (Times(x1[i], y1[i]) + Times(x2[i], y2[i]));
    }
  }

  /** x += a y. */
  method AddScaled(x: array<real>, a: real, y: array<real>)
    requires x.Length == y.Length && x != y
    modifies x
    ensures x[..] == Axpy(old(x[..]), a, y[..])
  {
    for i := 0 to x.Length
      invariant forall k :: 0 <= k < i ==> x[k] == old(x[k]) + Times(a, y[k])
      invariant forall k :: i <= k < x.Length ==> x[k] == old(x[k])
    {
      x[i] := x[i] + Times(a, y[i]);
    }
  }

  /** p = r + a p. */
  method ScaleAndAdd(p: array<real>, a: real, r: array<real>)
    requires p.Length == r.Length && p != r
    modifies p
    ensures p[..] == Axpy(r[..], a, old(p[..]))
  {
    for i := 0 to p.Length
      invariant forall k :: 0 <= k < i ==> p[k] == r[k] + Times(a, old(p[k]))
      invariant forall k :: i <= k < p.Length ==> p[k] == old(p[k])
    {
      p[i] := r[i] + Times(a, p[i]);
    }
  }

  method RightHandSides(m: Matrix, d: Matrix, n: nat, b1: array<real>, b2: array<real>)
    requires b1.Length == b2.Length == n && b1 != b2
    modifies b1, b2
    ensures b1[..] == RhsRows(m, d, n) && b2[..] == RhsCols(m, d, n)
  {
    for i := 0 to n
      invariant forall k :: 0 <= k < i ==>
        b1[k] == Sum(0, n, RhsRowTerm(m, d, k)) && b2[k] == Sum(0, n, RhsColTerm(m, d, k))
    {
      b1[i], b2[i] := 0.0, 0.0;
      for j := 0 to n
        invariant b1[i] == Sum(0, j, RhsRowTerm(m, d, i)) && b2[i] == Sum(0, j, RhsColTerm(m, d, i))
        invariant forall k :: 0 <= k < i ==>
          b1[k] == Sum(0, n, RhsRowTerm(m, d, k)) && b2[k] == Sum(0, n, RhsColTerm(m, d, k))
      {
        b1[i] := b1[i] + Times(m(i, j), d(i, j));
        b2[i] := b2[i] + Times(m(j, i), d(j, i));
      }
    }
  }

  /** The six vectors and the residual norm of the loop. */
  class Buffers {
    const n: nat
    const x1: array<real>
    const x2: array<real>
    const r1: array<real>
    const r2: array<real>
    const p1: array<real>
    const p2: array<real>
    const ap1: array<real>
    const ap2: array<real>
    var normsq: real

    ghost predicate Valid() {
      && x1.Length == x2.Length == r1.Length == r2.Length == p1.Length == p2.Length == ap1.Length == ap2.Length == n
      && x1 !in {x2, r1, r2, p1, p2, ap1, ap2} && x2 !in {r1, r2, p1, p2, ap1, ap2}
      && r1 !in {r2, p1, p2, ap1, ap2} && r2 !in {p1, p2, ap1, ap2}
      && p1 !in {p2, ap1, ap2} && p2 !in {ap1, ap2} && ap1 != ap2
    }

    ghost function State(): Cg
      reads this, x1, x2, r1, r2, p1, p2
    {
      Cg(x1[..], x2[..], r1[..], r2[..], p1[..], p2[..], normsq)
    }

    constructor (n: nat)
      ensures Valid() && this.n == n
      ensures fresh({x1, x2, r1, r2, p1, p2, ap1, ap2})
    {
      this.n := n;
      x1 := new real[n];
      x2 := new real[n];
      r1 := new real[n];
      r2 := new real[n];
      p1 := new real[n];
      p2 := new real[n];
      ap1 := new real[n];
      ap2 := new real[n];
      normsq := 0.0;
    }

    /** x = 0, r = b - A x, p = r. */
    method Begin(m: Matrix, b1: array<real>, b2: array<real>)
      requires Valid() && b1.Length == b2.Length == n
      requires {b1, b2} !! {x1, x2, r1, r2, p1, p2}
      modifies this`normsq, x1, x2, r1, r2, p1, p2
      ensures State() == Start(n, b1[..], b2[..])
    {
      hide Times, Sum, Upper, Lower, Dot;
      Fill(x1, 0.0);
      Fill(x2, 0.0);
      MatVec(m, n, x1, x2, r1, r2);
      Subtract(b1, r1);
      Subtract(b2, r2);
      StartBuffers(m, n, b1[..], b2[..], x1[..], x2[..], r1[..], r2[..]);
      CopyTo(r1, p1);
      CopyTo(r2, p2);
      normsq := DotProduct(n, r1, r2, r1, r2);
    }

    /** One iteration of the loop. */
    method Iterate(eps: real, m: Matrix)
      requires Valid()
      modifies this`normsq, x1, x2, r1, r2, p1, p2, ap1, ap2
      ensures State() == Step(eps, m, n, old(State()))
    {
      hide Times, Sum, Upper, Lower, Dot, Axpy;
      MatVec(m, n, p1, p2, ap1, ap2);
      var pap := DotProduct(n, p1, p2, ap1, ap2);
      var alpha := Ratio(normsq, pap + eps);
      AddScaled(x1, alpha, p1);
      AddScaled(x2, alpha, p2);
      AddScaled(r1, -alpha, ap1);
      AddScaled(r2, -alpha, ap2);
      var q := DotProduct(n, r1, r2, r1, r2);
      var beta := Ratio(q, normsq + eps);
      ScaleAndAdd(p1, beta, r1);
      ScaleAndAdd(p2, beta, r2);
      normsq := q;
    }
  }

  method Fill(x: array<real>, v: real)
    modifies x
    ensures forall k :: 0 <= k < x.Length ==> x[k] == v
  {
    for i := 0 to x.Length
      invariant forall k :: 0 <= k < i ==> x[k] == v
    {
      x[i] := v;
    }
  }

  /** r = b - r. */
  method Subtract(b: array<real>, r: array<real>)
    requires b.Length == r.Length && b != r
    modifies r
    ensures forall k :: 0 <= k < r.Length ==> r[k] == b[k] - old(r[k])
  {
    for i := 0 to r.Length
      invariant forall k :: 0 <= k < i ==> r[k] == b[k] - old(r[k])
      invariant forall k :: i <= k < r.Length ==> r[k] == old(r[k])
    {
      r[i] := b[i] - r[i];
    }
  }

  method CopyTo(a: array<real>, b: array<real>)
    requires a.Length == b.Length && a != b
    modifies b
    ensures b[..] == a[..]
  {
    for i := 0 to b.Length
      invariant forall k :: 0 <= k < i ==> b[k] == a[k]
    {
      b[i] := a[i];
    }
  }

  lemma StartBuffers(m: Matrix, n: nat, b1: seq<real>, b2: seq<real>, x1: seq<real>, x2: seq<real>, r1: seq<real>,
                     r2: seq<real>)
    requires |b1| == |b2| == |x1| == |x2| == |r1| == |r2| == n
    requires forall k :: 0 <= k < n ==> x1[k] == 0.0 && x2[k] == 0.0
    requires forall k :: 0 <= k < n ==> r1[k] == b1[k] - Upper(m, n, x1, x2)[k]
    requires forall k :: 0 <= k < n ==> r2[k] == b2[k] - Lower(m, n, x1, x2)[k]
    ensures r1 == b1 && r2 == b2 && x1 == Start(n, b1, b2).x1 && x2 == Start(n, b1, b2).x2
  {
    StartResidual(m, n, b1, b2);
    assert x1 == Start(n, b1, b2).x1 && x2 == Start(n, b1, b2).x2;
    assert forall k :: 0 <= k < n ==> Upper(m, n, x1, x2)[k] == 0.0 && Lower(m, n, x1, x2)[k] == 0.0;
  }

  /** res = (dR - x1 - x2) R. */
  method Project(m: Matrix, d: Matrix, n: nat, x1: array<real>, x2: array<real>, res: array2<real>)
    requires x1.Length == x2.Length == res.Length0 == res.Length1 == n
    modifies res
    ensures forall i, j :: 0 <= i < n && 0 <= j < n ==> res[i, j] == Gradient(m, d, x1[..], x2[..], i, j)
  {
    for i := 0 to n
      invariant forall k, j :: 0 <= k < i && 0 <= j < n ==> res[k, j] == Gradient(m, d, x1[..], x2[..], k, j)
    {
      for j := 0 to n
        invariant forall k, l :: 0 <= k < i && 0 <= l < n ==> res[k, l] == Gradient(m, d, x1[..], x2[..], k, l)
        invariant forall l :: 0 <= l < j ==> res[i, l] == Gradient(m, d, x1[..], x2[..], i, l)
      {
        res[i, j] := Times(d(i, j) - x1[i] - x2[j], m(i, j));
      }
    }
  }

  /** The kernel on one position, whose guard eps is EPS: the gradient is the projection at the iterate after 2n steps.
      With a guard of zero it is the exact projection. */
  method Backward(eps: real, m: Matrix, d: Matrix, n: nat) returns (res: array2<real>)
    ensures res.Length0 == res.Length1 == n
    ensures var s := Run(eps, m, n, RhsRows(m, d, n), RhsCols(m, d, n), 2 * n);
            forall i, j :: 0 <= i < n && 0 <= j < n ==> res[i, j] == Gradient(m, d, s.x1, s.x2, i, j)
    ensures eps == 0.0 && DoublyStochastic(m, n) ==>
              forall x: Vec, i, j :: Fits(n, x) && Balanced(m, d, n, x) && 0 <= i < n && 0 <= j < n ==>
                res[i, j] == Gradient(m, d, x.upper, x.lower, i, j)
  {
    hide Times, Sum, Step, RhsRows, RhsCols, Start, Gradient, Balanced, DoublyStochastic;
    var b1 := new real[n];
    var b2 := new real[n];
    RightHandSides(m, d, n, b1, b2);
    ghost var u, v := RhsRows(m, d, n), RhsCols(m, d, n);
    var b := new Buffers(n);
    b.Begin(m, b1, b2);
    for k := 0 to 2 * n
      invariant fresh(b) && fresh({b.x1, b.x2, b.r1, b.r2, b.p1, b.p2, b.ap1, b.ap2})
      invariant b.State() == Run(eps, m, n, u, v, k)
    {
      b.Iterate(eps, m);
    }
    res := new real[n, n];
    Project(m, d, n, b.x1, b.x2, res);
    if eps == 0.0 {
      ExactForAll(m, d, n);
    }
  }

  lemma ExactForAll(m: Matrix, d: Matrix, n: nat)
    ensures var s := Run(0.0, m, n, RhsRows(m, d, n), RhsCols(m, d, n), 2 * n);
            DoublyStochastic(m, n) ==>
              forall x: Vec, i, j :: Fits(n, x) && Balanced(m, d, n, x) && 0 <= i < n && 0 <= j < n ==>
                Gradient(m, d, s.x1, s.x2, i, j) == Gradient(m, d, x.upper, x.lower, i, j)
  {
    hide Run, Gradient, Balanced, DoublyStochastic;
    if DoublyStochastic(m, n) {
      forall x: Vec | Fits(n, x) && Balanced(m, d, n, x)
        ensures var s := Run(0.0, m, n, RhsRows(m, d, n), RhsCols(m, d, n), 2 * n);
                forall i, j :: 0 <= i < n && 0 <= j < n ==>
                  Gradient(m, d, s.x1, s.x2, i, j) == Gradient(m, d, x.upper, x.lower, i, j)
      {
        ExactProjection(m, d, n, x);
      }
    }
  }
}
