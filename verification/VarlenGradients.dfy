/** What the backward kernel over packed sequences adds to dQ, dK and dV, with the tails of the stored
    logarithms and of Delta undefined. */
module VarlenGradients {
  import opened Arith
  import opened RealArith
  import opened Sums
  import opened Nan
  import opened SinkForward
  import opened VarlenForward
  import opened VarlenBackward

  // ---------------------------------------------------------------- operands

  /** Operands of one head: scaled scores, the stored logarithm and Delta of each query position of the
      padded buffers, and the rows of Q, K, V and dO, which past the sequence belong to its neighbours. */
  datatype Head = Head(e: real -> real, score: (int, int) -> real, lse: int -> Number, delta: int -> Number, sm: real,
                       q: (int, int) -> real, k: (int, int) -> real, v: (int, int) -> real, g: (int, int) -> real,
                           dim: nat)

  /** What the forward and preprocess kernels have written: Delta of every query of the sequence, and its logarithm
      but for the blocks that visited no key. Nothing is known of positions past the sequence. */
  ghost predicate Written(s: Sequence, h: Head, fM: int)
    requires fM >= 1
  {
    forall q {:trigger h.delta(q)} {:trigger h.lse(q)} :: 0 <= q < s.qlen ==>
      h.delta(q).Real? && (h.lse(q).NaN? ==> NoBlock(s, q / fM, fM))
  }

  /** exp2(qk - lse), replaced by zero off the mask. */
  function Prob(s: Sequence, h: Head, q: int, k: int): Number {
    if BackwardPair(s, q, k) then (if h.lse(q).NaN? then NaN else Real(h.e(h.score(q, k) - h.lse(q).v))) else Real(0.0)
  }

  /** dP: row k of V against row q of dO. */
  function ValueGrad(h: Head, q: int, k: int): real { Sum(0, h.dim, x => Times(h.v(k, x), h.g(q, x))) }

  /** P (dP - Delta) sm. Nothing is replaced here: an undefined Delta goes through a zero P. */
  function ScoreGrad(s: Sequence, h: Head, q: int, k: int): Number {
    Mul(Mul(Prob(s, h, q, k), Sub(Real(ValueGrad(h, q, k)), h.delta(q))), Real(h.sm))
  }

  type Contribution = (int, int) -> Number

  // Column d of the products that are accumulated.
  function ToV(s: Sequence, h: Head, d: int): Contribution { (q, k) => Mul(Prob(s, h, q, k), Real(h.g(q, d))) }
  function ToK(s: Sequence, h: Head, d: int): Contribution { (q, k) => Mul(ScoreGrad(s, h, q, k), Real(h.q(q, d))) }
  function ToQ(s: Sequence, h: Head, d: int): Contribution { (q, k) => Mul(ScoreGrad(s, h, q, k), Real(h.k(k, d))) }

  // The gradients meant: the same products over the reals, for the pairs of the reference mask alone.
  function Weight(s: Sequence, h: Head, q: int, k: int): real {
    if ReferencePair(s, q, k) && q < s.qlen && k < s.klen then h.e(h.score(q, k) - ValueOf(h.lse(q))) else 0.0
  }
  function Score(s: Sequence, h: Head, q: int, k: int): real {
    Times(Times(Weight(s, h, q, k), ValueGrad(h, q, k) - ValueOf(h.delta(q))), h.sm)
  }
  function MeantV(s: Sequence, h: Head, d: int, k: int): int -> real { q => Times(Weight(s, h, q, k), h.g(q, d)) }
  function MeantK(s: Sequence, h: Head, d: int, k: int): int -> real { q => Times(Score(s, h, q, k), h.q(q, d)) }
  function MeantQ(s: Sequence, h: Head, d: int, q: int): int -> real { k => Times(Score(s, h, q, k), h.k(k, d)) }

  function Row(f: Contribution, q: int): int -> Number { k => f(q, k) }
  function Col(f: Contribution, k: int): int -> Number { q => f(q, k) }

  function PairTerm(s: Sequence, h: Head, d: int): (int, int) -> real {
    (q, k) => Times(Score(s, h, q, k), Times(h.q(q, d), h.k(k, d)))
  }

  function AgainstK(s: Sequence, h: Head, d: int): int -> real {
    k => Times(h.k(k, d), Sum(0, s.qlen, MeantK(s, h, d, k)))
  }

  function AgainstQ(s: Sequence, h: Head, d: int): int -> real {
    q => Times(h.q(q, d), Sum(0, s.klen, MeantQ(s, h, d, q)))
  }

  /** In every column, K against its gradient is Q against its own: both are the score gradients of all pairs, weighted
      by the products of the pairs' entries. */
  lemma GradientsCross(s: Sequence, h: Head, d: int)
    ensures Sum(0, s.klen, AgainstK(s, h, d)) == Sum(0, s.qlen, AgainstQ(s, h, d))
    ensures Sum(0, s.qlen, AgainstQ(s, h, d)) == Sum(0, s.qlen, q => Sum(0, s.klen, k => PairTerm(s, h, d)(q, k)))
  {
    hide Times, Sum, Score;
    var f := PairTerm(s, h, d);
    forall k | 0 <= k < s.klen ensures AgainstK(s, h, d)(k) == Sum(0, s.qlen, q => f(q, k)) {
      forall q | 0 <= q < s.qlen ensures f(q, k) == Times(h.k(k, d), MeantK(s, h, d, k)(q)) {
        TimesAssoc(Score(s, h, q, k), h.q(q, d), h.k(k, d));
        TimesAssoc(h.k(k, d), MeantK(s, h, d, k)(q), 1.0);
      }
      SumTimes(0, s.qlen, h.k(k, d), MeantK(s, h, d, k), q => f(q, k));
    }
    forall q | 0 <= q < s.qlen ensures AgainstQ(s, h, d)(q) == Sum(0, s.klen, k => f(q, k)) {
      forall k | 0 <= k < s.klen ensures f(q, k) == Times(h.q(q, d), MeantQ(s, h, d, q)(k)) {
        TimesAssoc(Score(s, h, q, k), h.k(k, d), h.q(q, d));
        TimesAssoc(h.q(q, d), h.k(k, d), 1.0);
        TimesAssoc(h.q(q, d), MeantQ(s, h, d, q)(k), 1.0);
      }
      SumTimes(0, s.klen, h.q(q, d), MeantQ(s, h, d, q), k => f(q, k));
    }
    SumExchange(s.qlen, s.klen, f, AgainstQ(s, h, d), AgainstK(s, h, d));
    SumEq(0, s.qlen, AgainstQ(s, h, d), q => Sum(0, s.klen, k => PairTerm(s, h, d)(q, k)));
  }

  function AgainstV(s: Sequence, h: Head, d: int): int -> real {
    k => Times(h.v(k, d), Sum(0, s.qlen, MeantV(s, h, d, k)))
  }

  function ValueColumns(s: Sequence, h: Head): int -> real { d => Sum(0, s.klen, AgainstV(s, h, d)) }

  /** The first `dim` columns of row k of V against row q of dO. */
  function ValueTerm(h: Head, q: int, k: int): int -> real { x => Times(h.v(k, x), h.g(q, x)) }

  function WeightedRow(s: Sequence, h: Head, dim: nat, q: int): int -> real {
    k => Times(Weight(s, h, q, k), Sum(0, dim, ValueTerm(h, q, k)))
  }

  function WeightedRows(s: Sequence, h: Head, dim: nat): int -> real { q => Sum(0, s.klen, WeightedRow(s, h, dim, q)) }

  /** Over all columns, V against its gradient is dP summed over all pairs with their probabilities. */
  lemma ValuesCross(s: Sequence, h: Head)
    ensures Sum(0, h.dim, ValueColumns(s, h))
            == Sum(0, s.qlen, q => Sum(0, s.klen, k => Times(Weight(s, h, q, k), ValueGrad(h, q, k))))
  {
    hide Times, Weight;
    ColumnsCross(s, h, h.dim);
    var rows: int -> real := q => Sum(0, s.klen, k => Times(Weight(s, h, q, k), ValueGrad(h, q, k)));
    forall q | 0 <= q < s.qlen ensures WeightedRows(s, h, h.dim)(q) == rows(q) {
      forall k | 0 <= k < s.klen
        ensures WeightedRow(s, h, h.dim, q)(k) == Times(Weight(s, h, q, k), ValueGrad(h, q, k))
      {
        SumEq(0, h.dim, ValueTerm(h, q, k), x => Times(h.v(k, x), h.g(q, x)));
      }
      SumEq(0, s.klen, WeightedRow(s, h, h.dim, q), k => Times(Weight(s, h, q, k), ValueGrad(h, q, k)));
    }
    SumEq(0, s.qlen, WeightedRows(s, h, h.dim), rows);
    SumEq(0, s.qlen, rows, q => Sum(0, s.klen, k => Times(Weight(s, h, q, k), ValueGrad(h, q, k))));
  }

  lemma {:induction false} ColumnsCross(s: Sequence, h: Head, dim: nat)
    ensures Sum(0, dim, ValueColumns(s, h)) == Sum(0, s.qlen, WeightedRows(s, h, dim))
    decreases dim
  {
    hide Times, Weight, WeightedRow;
    if dim == 0 {
      forall q | 0 <= q < s.qlen ensures WeightedRows(s, h, 0)(q) == 0.0 { NoColumns(s, h, q); }
      SumZero(0, s.qlen, WeightedRows(s, h, 0));
    } else {
      ColumnsCross(s, h, dim - 1);
      OneColumn(s, h, dim - 1);
      forall q | 0 <= q < s.qlen
        ensures WeightedRows(s, h, dim)(q) == 1.0 * WeightedRows(s, h, dim - 1)(q) + 1.0 * ColumnRows(s, h, dim - 1)(q)
      {
        NextColumn(s, h, dim, q);
      }
      SumLinear(0, s.qlen, 1.0, WeightedRows(s, h, dim - 1), 1.0, ColumnRows(s, h, dim - 1), WeightedRows(s, h, dim));
    }
  }

  lemma NoColumns(s: Sequence, h: Head, q: int)
    ensures WeightedRows(s, h, 0)(q) == 0.0
  {
    forall k | 0 <= k < s.klen ensures WeightedRow(s, h, 0, q)(k) == 0.0 { TimesUnit(Weight(s, h, q, k)); }
    SumZero(0, s.klen, WeightedRow(s, h, 0, q));
  }

  function ColumnTerm(s: Sequence, h: Head, d: int): (int, int) -> real {
    (q, k) => Times(Weight(s, h, q, k), Times(h.v(k, d), h.g(q, d)))
  }

  function ColumnRows(s: Sequence, h: Head, d: int): int -> real {
    q => Sum(0, s.klen, k => ColumnTerm(s, h, d)(q, k))
  }

  lemma OneColumn(s: Sequence, h: Head, d: int)
    ensures Sum(0, s.klen, AgainstV(s, h, d)) == Sum(0, s.qlen, ColumnRows(s, h, d))
  {
    hide Times, Sum, Weight;
    var f := ColumnTerm(s, h, d);
    forall k | 0 <= k < s.klen ensures AgainstV(s, h, d)(k) == Sum(0, s.qlen, q => f(q, k)) {
      forall q | 0 <= q < s.qlen ensures f(q, k) == Times(h.v(k, d), MeantV(s, h, d, k)(q)) {
        TimesAssoc(Weight(s, h, q, k), h.g(q, d), h.v(k, d));
        TimesAssoc(h.v(k, d), h.g(q, d), 1.0);
        TimesAssoc(h.v(k, d), MeantV(s, h, d, k)(q), 1.0);
      }
      SumTimes(0, s.qlen, h.v(k, d), MeantV(s, h, d, k), q => f(q, k));
    }
    SumExchange(s.qlen, s.klen, f, ColumnRows(s, h, d), AgainstV(s, h, d));
  }

  lemma NextColumn(s: Sequence, h: Head, dim: nat, q: int)
    requires dim >= 1
    ensures WeightedRows(s, h, dim)(q) == WeightedRows(s, h, dim - 1)(q) + ColumnRows(s, h, dim - 1)(q)
  {
    hide Times, Weight;
    var f, g := WeightedRow(s, h, dim - 1, q), WeightedRow(s, h, dim, q);
    var c: int -> real := k => ColumnTerm(s, h, dim - 1)(q, k);
    forall k | 0 <= k < s.klen ensures g(k) == 1.0 * f(k) + 1.0 * c(k) {
      var w, v := Weight(s, h, q, k), ValueTerm(h, q, k);
      assert ColumnTerm(s, h, dim - 1)(q, k) == Times(w, v(dim - 1));
      assert Sum(0, dim, v) == Sum(0, dim - 1, v) + v(dim - 1);
      TimesSum(Sum(0, dim - 1, v), v(dim - 1), w);
    }
    SumLinear(0, s.klen, 1.0, f, 1.0, c, g);
    SumEq(0, s.klen, c, k => ColumnTerm(s, h, dim - 1)(q, k));
  }

  /** Off the mask the meant contributions are zero. */
  lemma OffMask(s: Sequence, h: Head, d: int, q: int, k: int)
    requires !BackwardPair(s, q, k)
    ensures MeantV(s, h, d, k)(q) == 0.0 && MeantK(s, h, d, k)(q) == 0.0 && MeantQ(s, h, d, q)(k) == 0.0
  {
    hide Times, Sum;
    MasksAgree(s, q, k);
    TimesUnit(h.g(q, d));
    TimesUnit(ValueGrad(h, q, k) - ValueOf(h.delta(q)));
    TimesUnit(h.sm);
    TimesUnit(h.q(q, d));
    TimesUnit(h.k(k, d));
  }

  /** A pair with weight has a logarithm: its query's block visited a key block. */
  lemma WeightedHasLse(s: Sequence, h: Head, fM: int, q: nat, k: nat)
    requires fM >= 1 && Written(s, h, fM) && BackwardPair(s, q, k)
    ensures h.lse(q).Real?
  {
    assert q == q / fM * fM + q % fM;
    assert (q / fM + 1) * fM == q / fM * fM + fM;
  }

  /** What each tile product is: the meant one as long as Delta is a number; into dK and dQ it is
      undefined otherwise, mask or no mask. */
  lemma Products(s: Sequence, h: Head, fM: int, d: int, q: nat, k: nat)
    requires fM >= 1 && Written(s, h, fM)
    ensures ToV(s, h, d)(q, k) == Real(MeantV(s, h, d, k)(q))
    ensures h.delta(q).Real? ==>
              ToK(s, h, d)(q, k) == Real(MeantK(s, h, d, k)(q)) && ToQ(s, h, d)(q, k) == Real(MeantQ(s, h, d, q)(k))
    ensures h.delta(q).NaN? ==> ToK(s, h, d)(q, k).NaN? && ToQ(s, h, d)(q, k).NaN?
  {
    hide Times, Sum, Written;
    MasksAgree(s, q, k);
    if BackwardPair(s, q, k) { WeightedHasLse(s, h, fM, q, k); }
    assert Prob(s, h, q, k) == Real(Weight(s, h, q, k));
    assert h.delta(q).Real? ==> ScoreGrad(s, h, q, k) == Real(Score(s, h, q, k));
    assert ToV(s, h, d)(q, k) == Mul(Prob(s, h, q, k), Real(h.g(q, d)));
    assert ToK(s, h, d)(q, k) == Mul(ScoreGrad(s, h, q, k), Real(h.q(q, d)));
    assert ToQ(s, h, d)(q, k) == Mul(ScoreGrad(s, h, q, k), Real(h.k(k, d)));
  }

  // ---------------------------------------------------------------- what a key block visits

  /** The query positions in the blocks visited for key block b. */
  predicate Visited(s: Sequence, blockM: int, blockN: int, b: int, q: int)
    requires blockN >= 1
  {
    LoopStart(s, b, blockM, blockN) * blockN <= q < LoopEnd(s, b, blockM, blockN) * blockN
  }

  /** Key block b visits a position past the sequence where Delta is undefined. */
  ghost predicate Poisoned(s: Sequence, h: Head, blockM: int, blockN: int, b: int)
    requires blockN >= 1
  {
    exists q :: q >= s.qlen && Visited(s, blockM, blockN, b, q) && h.delta(q).NaN?
  }

  /** The sum of a key over the visited blocks: undefined if the block is poisoned, and otherwise the sum
      over the whole sequence. */
  lemma KeySum(s: Sequence, h: Head, fM: int, d: int, b: nat, blockM: int, blockN: int, st: int, t: int, k: nat)
    requires fM >= 1 && Written(s, h, fM) && blockM >= 1 && blockN >= 1 && b * blockM <= k < b * blockM + blockM
    requires st == LoopStart(s, b, blockM, blockN) && t == Max(st, LoopEnd(s, b, blockM, blockN))
    ensures NSum(st * blockN, t * blockN, Col(ToK(s, h, d), k))
            == if Poisoned(s, h, blockM, blockN, b) then NaN else Real(Sum(0, s.qlen, MeantK(s, h, d, k)))
    ensures NSum(st * blockN, t * blockN, Col(ToV(s, h, d), k)) == Real(Sum(0, s.qlen, MeantV(s, h, d, k)))
  {
    hide Sum, NSum, ToK, ToV, MeantK, MeantV, Written, LoopStart, LoopEnd;
    var lo, hi := st * blockN, t * blockN;
    LoopCovers(s, b, blockM, blockN, st, LoopEnd(s, b, blockM, blockN));
    NextTile(t, blockN, st);
    forall q: nat ensures ToV(s, h, d)(q, k) == Real(MeantV(s, h, d, k)(q)) { Products(s, h, fM, d, q, k); }
    NSumIs(lo, hi, Col(ToV(s, h, d), k), MeantV(s, h, d, k));
    KeyRange(s, h, d, b, blockM, blockN, st, t, k);
    if Poisoned(s, h, blockM, blockN, b) {
      var q: nat :| q >= s.qlen && Visited(s, blockM, blockN, b, q) && h.delta(q).NaN?;
      Products(s, h, fM, d, q, k);
      VisitedInside(s, blockM, blockN, b, q, st, t);
      NSumUndefined(lo, hi, Col(ToK(s, h, d), k), q);
    } else {
      forall q | lo <= q < hi ensures Col(ToK(s, h, d), k)(q) == Real(MeantK(s, h, d, k)(q)) {
        Products(s, h, fM, d, q, k);
        VisitedFrom(s, blockM, blockN, b, q, st, t);
        DeltaWritten(s, h, fM, q);
      }
      NSumIs(lo, hi, Col(ToK(s, h, d), k), MeantK(s, h, d, k));
    }
  }

  lemma DeltaWritten(s: Sequence, h: Head, fM: int, q: int)
    requires fM >= 1 && Written(s, h, fM) && 0 <= q
    ensures q < s.qlen ==> h.delta(q).Real?
  {
  }

  lemma VisitedInside(s: Sequence, blockM: int, blockN: int, b: int, q: int, st: int, t: int)
    requires blockN >= 1 && Visited(s, blockM, blockN, b, q)
    requires st == LoopStart(s, b, blockM, blockN) && t == Max(st, LoopEnd(s, b, blockM, blockN))
    ensures st * blockN <= q < t * blockN
  {
    MulOrder(LoopEnd(s, b, blockM, blockN), t, blockN);
  }

  lemma VisitedFrom(s: Sequence, blockM: int, blockN: int, b: int, q: int, st: int, t: int)
    requires blockN >= 1 && st * blockN <= q < t * blockN
    requires st == LoopStart(s, b, blockM, blockN) && t == Max(st, LoopEnd(s, b, blockM, blockN))
    ensures Visited(s, blockM, blockN, b, q)
  {
  }

  /** Over the reals the visited blocks are as good as the whole sequence. */
  lemma KeyRange(s: Sequence, h: Head, d: int, b: nat, blockM: int, blockN: int, st: int, t: int, k: int)
    requires blockM >= 1 && blockN >= 1 && b * blockM <= k < b * blockM + blockM
    requires st == LoopStart(s, b, blockM, blockN) && t == Max(st, LoopEnd(s, b, blockM, blockN))
    ensures Sum(st * blockN, t * blockN, MeantK(s, h, d, k)) == Sum(0, s.qlen, MeantK(s, h, d, k))
    ensures Sum(st * blockN, t * blockN, MeantV(s, h, d, k)) == Sum(0, s.qlen, MeantV(s, h, d, k))
  {
    hide Sum, MeantK, MeantV, LoopStart, LoopEnd;
    var lo, hi, top := st * blockN, t * blockN, Max(t * blockN, s.qlen);
    LoopCovers(s, b, blockM, blockN, st, LoopEnd(s, b, blockM, blockN));
    NextTile(t, blockN, st);
    MulOrder(LoopEnd(s, b, blockM, blockN), t, blockN);
    forall q | 0 <= q && !(lo <= q < hi && q < s.qlen)
      ensures MeantK(s, h, d, k)(q) == 0.0 && MeantV(s, h, d, k)(q) == 0.0 {
      OffMask(s, h, d, q, k);
    }
    SumWiden(lo, hi, 0, top, MeantK(s, h, d, k));
    SumWiden(0, s.qlen, 0, top, MeantK(s, h, d, k));
    SumWiden(lo, hi, 0, top, MeantV(s, h, d, k));
    SumWiden(0, s.qlen, 0, top, MeantV(s, h, d, k));
  }

  /** What key block b adds to query position q, visited or not. */
  function Share(s: Sequence, h: Head, d: int, b: int, blockM: int, blockN: int, q: int): Number
    requires blockN >= 1
  {
    if q < 0 then Real(0.0)
    else if q < s.qlen then Real(Sum(b * blockM, b * blockM + blockM, MeantQ(s, h, d, q)))
    else if Visited(s, blockM, blockN, b, q) && h.delta(q).NaN? then NaN
    else Real(0.0)
  }

  lemma QueryShare(s: Sequence, h: Head, fM: int, d: int, b: nat, blockM: int, blockN: int, st: int, t: int, q: int)
    requires fM >= 1 && Written(s, h, fM) && blockM >= 1 && blockN >= 1
    requires st == LoopStart(s, b, blockM, blockN) && t == Max(st, LoopEnd(s, b, blockM, blockN))
    ensures st >= 0 && 0 <= st * blockN
    ensures (if st * blockN <= q < t * blockN then NSum(b * blockM, b * blockM + blockM, Row(ToQ(s, h, d), q))
             else Real(0.0))
            == Share(s, h, d, b, blockM, blockN, q)
  {
    hide Sum, NSum, ToQ, MeantQ, Written, LoopStart, LoopEnd;
    var klo := b * blockM;
    LoopCovers(s, b, blockM, blockN, st, LoopEnd(s, b, blockM, blockN));
    NextTile(t, blockN, st);
    NextTile(b, blockM, 0);
    if st * blockN <= q < t * blockN {
      VisitedFrom(s, blockM, blockN, b, q, st, t);
      DeltaWritten(s, h, fM, q);
      if h.delta(q).NaN? {
        Products(s, h, fM, d, q, klo);
        NSumUndefined(klo, klo + blockM, Row(ToQ(s, h, d), q), klo);
      } else {
        forall k: nat ensures ToQ(s, h, d)(q, k) == Real(MeantQ(s, h, d, q)(k)) { Products(s, h, fM, d, q, k); }
        NSumIs(klo, klo + blockM, Row(ToQ(s, h, d), q), MeantQ(s, h, d, q));
        if q >= s.qlen { ZeroRow(s, h, d, q, klo, klo + blockM); }
      }
    } else if q >= 0 {
      if Visited(s, blockM, blockN, b, q) { VisitedInside(s, blockM, blockN, b, q, st, t); }
      MulOrder(LoopEnd(s, b, blockM, blockN), t, blockN);
      ZeroRow(s, h, d, q, klo, klo + blockM);
    }
  }

  lemma ZeroRow(s: Sequence, h: Head, d: int, q: int, lo: int, hi: int)
    requires forall k :: lo <= k < hi ==> !BackwardPair(s, q, k)
    ensures Sum(lo, hi, MeantQ(s, h, d, q)) == 0.0
  {
    hide Sum, MeantQ;
    forall k | lo <= k < hi ensures MeantQ(s, h, d, q)(k) == 0.0 { OffMask(s, h, d, q, k); }
    SumZero(lo, hi, MeantQ(s, h, d, q));
  }

  lemma NextTile(t: int, n: nat, st: int)
    requires 0 <= st <= t
    ensures (t + 1) * n == t * n + n && 0 <= st * n <= t * n
  {
    MulOrder(st, t, n);
    MulOrder(0, st, n);
  }

  // ---------------------------------------------------------------- the kernel

  /** Adds the rows [lo, lo + n) of a tile, each summed over the keys [klo, klo + kn), to dq; what lies
      outside of the tensor is dropped. */
  method AddRows(dq: array<Number>, base: nat, lo: nat, n: nat, f: Contribution, klo: int, kn: nat)
    modifies dq
    ensures forall r :: 0 <= r < dq.Length ==>
              dq[r] == Add(old(dq[r]), if lo <= r - base < lo + n then NSum(klo, klo + kn, Row(f, r - base))
                           else Real(0.0))
  {
    for j := 0 to n
      invariant forall r :: 0 <= r < dq.Length ==>
        dq[r] == Add(old(dq[r]), if lo <= r - base < lo + j then NSum(klo, klo + kn, Row(f, r - base)) else Real(0.0))
    {
      var x := Real(0.0);
      for i := 0 to kn
        invariant x == NSum(klo, klo + i, Row(f, lo + j))
      {
        x := Add(x, f(lo + j, klo + i));
      }
      if base + lo + j < dq.Length {
        dq[base + lo + j] := Add(dq[base + lo + j], x);
      }
    }
  }

  /** Adds the queries [lo, lo + n) to the fragment of the keys from klo on. */
  method AddCols(frag: array<Number>, f: Contribution, lo: int, n: nat, klo: int)
    modifies frag
    ensures forall i :: 0 <= i < frag.Length ==> frag[i] == Add(old(frag[i]), NSum(lo, lo + n, Col(f, klo + i)))
  {
    for i := 0 to frag.Length
      invariant forall r :: 0 <= r < i ==> frag[r] == Add(old(frag[r]), NSum(lo, lo + n, Col(f, klo + r)))
      invariant forall r :: i <= r < frag.Length ==> frag[r] == old(frag[r])
    {
      var x := Real(0.0);
      for j := 0 to n
        invariant x == NSum(lo, lo + j, Col(f, klo + i))
      {
        x := Add(x, f(lo + j, klo + i));
      }
      frag[i] := Add(frag[i], x);
    }
  }

  /** Adds a fragment to the keys from klo on. */
  method Flush(dk: array<Number>, base: nat, klo: nat, frag: array<Number>)
    requires dk != frag
    modifies dk
    ensures forall r :: 0 <= r < dk.Length ==>
              dk[r] == Add(old(dk[r]), if klo <= r - base < klo + frag.Length then frag[r - base - klo] else Real(0.0))
  {
    for i := 0 to frag.Length
      invariant forall r :: 0 <= r < dk.Length ==>
        dk[r] == Add(old(dk[r]), if klo <= r - base < klo + i then frag[r - base - klo] else Real(0.0))
    {
      if base + klo + i < dk.Length {
        dk[base + klo + i] := Add(dk[base + klo + i], frag[i]);
      }
    }
  }

  /** What key block b adds to dK at key k. */
  ghost function KeyShare(s: Sequence, h: Head, d: int, b: int, blockM: int, blockN: int, k: int): Number
    requires blockN >= 1
  {
    if Poisoned(s, h, blockM, blockN, b) then NaN else Real(Sum(0, s.qlen, MeantK(s, h, d, k)))
  }

  /** The loop over the query blocks [st, ed) of the keys from klo on: it adds into dQ as it goes, and into the
      fragments of dK and dV. */
  method VisitQueries(s: Sequence, h: Head, d: int, klo: nat, blockM: nat, blockN: nat, st: nat, ed: int, qStart: nat,
                      dq: array<Number>, fk: array<Number>, fv: array<Number>)
    requires blockM >= 1 && blockN >= 1 && fk.Length == fv.Length == blockM && dq != fk && dq != fv && fk != fv
    requires forall i :: 0 <= i < blockM ==> fk[i] == Real(0.0) && fv[i] == Real(0.0)
    modifies dq, fk, fv
    ensures forall r :: 0 <= r < dq.Length ==>
              dq[r] == Add(old(dq[r]), if st * blockN <= r - qStart < Max(st, ed) * blockN
                           then NSum(klo, klo + blockM, Row(ToQ(s, h, d), r - qStart)) else Real(0.0))
    ensures forall i :: 0 <= i < blockM ==> fk[i] == NSum(st * blockN, Max(st, ed) * blockN, Col(ToK(s, h, d), klo + i))
    ensures forall i :: 0 <= i < blockM ==> fv[i] == NSum(st * blockN, Max(st, ed) * blockN, Col(ToV(s, h, d), klo + i))
  {
    hide NSum, ToQ, ToK, ToV, Row, Col, Add;
    var t := st;
    EmptySums(st * blockN);
    AddZero();
    while t < ed
      invariant st <= t <= Max(st, ed)
      invariant forall r :: 0 <= r < dq.Length ==>
        dq[r] == Add(old(dq[r]), if st * blockN <= r - qStart < t * blockN
                     then NSum(klo, klo + blockM, Row(ToQ(s, h, d), r - qStart)) else Real(0.0))
      invariant forall i :: 0 <= i < blockM ==> fk[i] == NSum(st * blockN, t * blockN, Col(ToK(s, h, d), klo + i))
      invariant forall i :: 0 <= i < blockM ==> fv[i] == NSum(st * blockN, t * blockN, Col(ToV(s, h, d), klo + i))
    {
      NextTile(t, blockN, st);
      AddCols(fv, ToV(s, h, d), t * blockN, blockN, klo);
      AddCols(fk, ToK(s, h, d), t * blockN, blockN, klo);
      AddRows(dq, qStart, t * blockN, blockN, ToQ(s, h, d), klo, blockM);
      forall i | 0 <= i < blockM
        ensures fk[i] == NSum(st * blockN, t * blockN + blockN, Col(ToK(s, h, d), klo + i))
        ensures fv[i] == NSum(st * blockN, t * blockN + blockN, Col(ToV(s, h, d), klo + i))
      {
        NSumSplit(st * blockN, t * blockN, t * blockN + blockN, Col(ToK(s, h, d), klo + i));
        NSumSplit(st * blockN, t * blockN, t * blockN + blockN, Col(ToV(s, h, d), klo + i));
      }
      t := t + 1;
    }
  }

  /** One key block: its query blocks, and the fragments added to dK and dV at the end. */
  method KeyBlock(s: Sequence, h: Head, ghost fM: int, d: int, b: nat, blockM: nat, blockN: nat, qStart: nat,
                  kStart: nat, dq: array<Number>, dk: array<Number>, dv: array<Number>)
    requires fM >= 1 && Written(s, h, fM) && blockM >= 1 && blockN >= 1 && dq != dk && dq != dv && dk != dv
    modifies dq, dk, dv
    ensures forall r :: 0 <= r < dq.Length ==> dq[r] == Add(old(dq[r]), Share(s, h, d, b, blockM, blockN, r - qStart))
    ensures forall r :: 0 <= r < dk.Length ==>
              dk[r] == Add(old(dk[r]), if b * blockM <= r - kStart < b * blockM + blockM
                           then KeyShare(s, h, d, b, blockM, blockN, r - kStart) else Real(0.0))
    ensures forall r :: 0 <= r < dv.Length ==>
              dv[r] == Add(old(dv[r]), if b * blockM <= r - kStart < b * blockM + blockM
                           then Real(Sum(0, s.qlen, MeantV(s, h, d, r - kStart))) else Real(0.0))
  {
    hide Sum, NSum, ToQ, ToK, ToV, MeantV, Row, Col, LoopStart, LoopEnd, Written, Share, KeyShare, Add;
    var fk := new Number[blockM](_ => Real(0.0));
    var fv := new Number[blockM](_ => Real(0.0));
    var st, ed := LoopStart(s, b, blockM, blockN), LoopEnd(s, b, blockM, blockN);
    LoopCovers(s, b, blockM, blockN, st, ed);
    VisitQueries(s, h, d, b * blockM, blockM, blockN, st, ed, qStart, dq, fk, fv);
    forall i | 0 <= i < blockM
      ensures fk[i] == KeyShare(s, h, d, b, blockM, blockN, b * blockM + i)
              && fv[i] == Real(Sum(0, s.qlen, MeantV(s, h, d, b * blockM + i)))
    {
      KeyShareIs(s, h, fM, d, b, blockM, blockN, st, Max(st, ed), b * blockM + i);
    }
    forall r | 0 <= r < dq.Length ensures dq[r] == Add(old(dq[r]), Share(s, h, d, b, blockM, blockN, r - qStart)) {
      QueryShare(s, h, fM, d, b, blockM, blockN, st, Max(st, ed), r - qStart);
    }
    Flush(dv, kStart, b * blockM, fv);
    Flush(dk, kStart, b * blockM, fk);
  }

  lemma KeyShareIs(s: Sequence, h: Head, fM: int, d: int, b: nat, blockM: int, blockN: int, st: int, t: int, k: nat)
    requires fM >= 1 && Written(s, h, fM) && blockM >= 1 && blockN >= 1 && b * blockM <= k < b * blockM + blockM
    requires st == LoopStart(s, b, blockM, blockN) && t == Max(st, LoopEnd(s, b, blockM, blockN))
    ensures NSum(st * blockN, t * blockN, Col(ToK(s, h, d), k)) == KeyShare(s, h, d, b, blockM, blockN, k)
    ensures NSum(st * blockN, t * blockN, Col(ToV(s, h, d), k)) == Real(Sum(0, s.qlen, MeantV(s, h, d, k)))
  {
    KeySum(s, h, fM, d, b, blockM, blockN, st, t, k);
  }

  lemma EmptySums(x: int)
    ensures forall f: int -> Number :: NSum(x, x, f) == Real(0.0)
  {
  }

  lemma AddZero()
    ensures forall x :: Add(x, Real(0.0)) == x
  {
  }

  // ---------------------------------------------------------------- the grid of one sequence

  /** What key blocks [0, n) add to query position q: its gradient inside of the sequence; nothing past it, or an
      undefined value once a block visits an undefined Delta there. */
  ghost function QueryTotal(s: Sequence, h: Head, d: int, n: int, blockM: int, blockN: int, q: int): Number
    requires blockN >= 1
  {
    if q < 0 then Real(0.0)
    else if q < s.qlen then Real(Sum(0, n * blockM, MeantQ(s, h, d, q)))
    else if h.delta(q).NaN? && exists b :: 0 <= b < n && Visited(s, blockM, blockN, b, q) then NaN
    else Real(0.0)
  }

  lemma QueryStep(s: Sequence, h: Head, d: int, b: nat, blockM: nat, blockN: int, q: int)
    requires blockN >= 1
    ensures QueryTotal(s, h, d, b + 1, blockM, blockN, q)
            == Add(QueryTotal(s, h, d, b, blockM, blockN, q), Share(s, h, d, b, blockM, blockN, q))
  {
    hide Sum, MeantQ, Visited;
    NextTile(b, blockM, 0);
    if 0 <= q < s.qlen {
      SumSplit(0, b * blockM, b * blockM + blockM, MeantQ(s, h, d, q));
    } else if q >= s.qlen && Visited(s, blockM, blockN, b, q) {
      assert 0 <= b < b + 1;
    }
  }

  /** What key blocks [0, n) add to dK at key k, which lies in block k / blockM. */
  ghost function KeyTotal(s: Sequence, h: Head, d: int, n: int, blockM: int, blockN: int, k: int): Number
    requires blockM >= 1 && blockN >= 1
  {
    if 0 <= k < n * blockM then KeyShare(s, h, d, k / blockM, blockM, blockN, k) else Real(0.0)
  }

  function ValueTotal(s: Sequence, h: Head, d: int, n: int, blockM: int, k: int): Number {
    if 0 <= k < n * blockM then Real(Sum(0, s.qlen, MeantV(s, h, d, k))) else Real(0.0)
  }

  lemma KeyStep(s: Sequence, h: Head, d: int, b: nat, blockM: nat, blockN: int, k: int)
    requires blockM >= 1 && blockN >= 1
    ensures var here := b * blockM <= k < b * blockM + blockM;
            && KeyTotal(s, h, d, b + 1, blockM, blockN, k)
               == Add(KeyTotal(s, h, d, b, blockM, blockN, k), if here then KeyShare(s, h, d, b, blockM, blockN, k)
                      else Real(0.0))
            && ValueTotal(s, h, d, b + 1, blockM, k)
               == Add(ValueTotal(s, h, d, b, blockM, k), if here then Real(Sum(0, s.qlen, MeantV(s, h, d, k)))
                      else Real(0.0))
  {
    hide Sum, MeantV, KeyShare;
    OwnBlock(b, blockM, k);
  }

  lemma OwnBlock(b: nat, n: int, k: int)
    requires n >= 1
    ensures 0 <= k < (b + 1) * n <==> 0 <= k < b * n || b * n <= k < b * n + n
    ensures b * n <= k < b * n + n ==> k / n == b
  {
    NextTile(b, n, 0);
    if b * n <= k < b * n + n { DivModUnique(k, n, b, k - b * n); }
  }

  /** The whole grid of one sequence. */
  method Backward(s: Sequence, h: Head, ghost fM: int, d: int, maxSeq: nat, blockM: nat, blockN: nat, qStart: nat,
                  kStart: nat, dq: array<Number>, dk: array<Number>, dv: array<Number>)
    requires fM >= 1 && Written(s, h, fM) && blockM >= 1 && blockN >= 1 && dq != dk && dq != dv && dk != dv
    modifies dq, dk, dv
    ensures var grid := CeilDiv(maxSeq, blockM);
            && (forall r :: 0 <= r < dq.Length ==>
                dq[r] == Add(old(dq[r]), QueryTotal(s, h, d, grid, blockM, blockN, r - qStart)))
            && (forall r :: 0 <= r < dk.Length ==>
                dk[r] == Add(old(dk[r]), KeyTotal(s, h, d, grid, blockM, blockN, r - kStart)))
            && (forall r :: 0 <= r < dv.Length ==>
                dv[r] == Add(old(dv[r]), ValueTotal(s, h, d, grid, blockM, r - kStart)))
  {
    hide Sum, MeantV, Written, Share, KeyShare, QueryTotal, KeyTotal, ValueTotal, CeilDiv;
    var grid := CeilDiv(maxSeq, blockM);
    BelowCeilDiv(-1, maxSeq, blockM);
    NothingYet(s, h, d, blockM, blockN);
    for b := 0 to grid
      invariant forall r :: 0 <= r < dq.Length ==>
                dq[r] == Add(old(dq[r]), QueryTotal(s, h, d, b, blockM, blockN, r - qStart))
      invariant forall r :: 0 <= r < dk.Length ==>
                dk[r] == Add(old(dk[r]), KeyTotal(s, h, d, b, blockM, blockN, r - kStart))
      invariant forall r :: 0 <= r < dv.Length ==> dv[r] == Add(old(dv[r]), ValueTotal(s, h, d, b, blockM, r - kStart))
    {
      KeyBlock(s, h, fM, d, b, blockM, blockN, qStart, kStart, dq, dk, dv);
      forall r | 0 <= r < dq.Length ensures dq[r]
          == Add(old(dq[r]), QueryTotal(s, h, d, b + 1, blockM, blockN, r - qStart)) {
        QueryStep(s, h, d, b, blockM, blockN, r - qStart);
      }
      forall r | 0 <= r < dk.Length ensures dk[r]
          == Add(old(dk[r]), KeyTotal(s, h, d, b + 1, blockM, blockN, r - kStart)) {
        KeyStep(s, h, d, b, blockM, blockN, r - kStart);
      }
      forall r | 0 <= r < dv.Length ensures dv[r] == Add(old(dv[r]), ValueTotal(s, h, d, b + 1, blockM, r - kStart)) {
        KeyStep(s, h, d, b, blockM, blockN, r - kStart);
      }
    }
  }

  lemma NothingYet(s: Sequence, h: Head, d: int, blockM: int, blockN: int)
    requires blockM >= 1 && blockN >= 1
    ensures forall i :: QueryTotal(s, h, d, 0, blockM, blockN, i) == Real(0.0)
    ensures forall i :: KeyTotal(s, h, d, 0, blockM, blockN, i) == Real(0.0)
    ensures forall i :: ValueTotal(s, h, d, 0, blockM, i) == Real(0.0)
  {
    assert 0 * blockM == 0;
  }

  // ---------------------------------------------------------------- what the totals are

  /** Inside of the sequence a query receives its gradient from all keys the grid reaches; past the sequence keys
      receive no gradient. */
  lemma TotalsMeant(s: Sequence, h: Head, d: int, grid: nat, blockM: int, blockN: int, i: nat)
    requires blockM >= 1 && blockN >= 1
    ensures i < s.qlen ==>
              QueryTotal(s, h, d, grid, blockM, blockN, i)
              == Real(Sum(0, Min(s.klen, grid * blockM), MeantQ(s, h, d, i)))
    ensures i >= s.klen ==> Sum(0, s.qlen, MeantK(s, h, d, i)) == 0.0 && Sum(0, s.qlen, MeantV(s, h, d, i)) == 0.0
  {
    hide Sum, MeantQ, MeantK, MeantV;
    NextTile(grid, blockM, 0);
    forall k | k >= s.klen ensures MeantQ(s, h, d, i)(k) == 0.0 { OffMask(s, h, d, i, k); }
    SumWiden(0, Min(s.klen, grid * blockM), 0, grid * blockM, MeantQ(s, h, d, i));
    if i >= s.klen {
      forall q ensures MeantK(s, h, d, i)(q) == 0.0 && MeantV(s, h, d, i)(q) == 0.0 { OffMask(s, h, d, q, i); }
      SumZero(0, s.qlen, MeantK(s, h, d, i));
      SumZero(0, s.qlen, MeantV(s, h, d, i));
    }
  }

  /** All that the grid adds is defined. */
  ghost predicate AllNumbers(s: Sequence, h: Head, grid: nat, blockM: int, blockN: int)
    requires blockM >= 1 && blockN >= 1
  {
    forall d, i :: QueryTotal(s, h, d, grid, blockM, blockN, i).Real?
        && KeyTotal(s, h, d, grid, blockM, blockN, i).Real?
  }

  lemma UndefinedQuery(s: Sequence, h: Head, d: int, grid: nat, blockM: int, blockN: int, i: int)
    requires blockN >= 1
    ensures QueryTotal(s, h, d, grid, blockM, blockN, i).NaN? ==>
              exists b :: 0 <= b < grid && Poisoned(s, h, blockM, blockN, b)
  {
    hide Visited;
    if QueryTotal(s, h, d, grid, blockM, blockN, i).NaN? {
      var b :| 0 <= b < grid && Visited(s, blockM, blockN, b, i);
      assert Poisoned(s, h, blockM, blockN, b);
    }
  }

  /** The gradients are numbers exactly when no launched key block visits an undefined Delta. */
  lemma NumbersIff(s: Sequence, h: Head, grid: nat, blockM: int, blockN: int)
    requires blockM >= 1 && blockN >= 1
    ensures AllNumbers(s, h, grid, blockM, blockN) <==> forall b :: 0 <= b < grid ==> !Poisoned(s, h, blockM, blockN, b)
  {
    hide Sum, MeantQ, MeantK, Visited;
    if b :| 0 <= b < grid && Poisoned(s, h, blockM, blockN, b) {
      OwnBlock(b, blockM, b * blockM);
      MulOrder(b + 1, grid, blockM);
      MulOrder(0, b, blockM);
      assert KeyTotal(s, h, 0, grid, blockM, blockN, b * blockM).NaN?;
    } else {
      forall d, i ensures QueryTotal(s, h, d, grid, blockM, blockN, i).Real?
          && KeyTotal(s, h, d, grid, blockM, blockN, i).Real? {
        if 0 <= i < grid * blockM { DivBelow(i, blockM, grid); DivBelow(i, blockM, 0); }
        UndefinedQuery(s, h, d, grid, blockM, blockN, i);
      }
    }
  }

  /** The query blocks of key block b reach positions of the padded buffer past the sequence. */
  ghost predicate Overhangs(s: Sequence, nctx: int, blockM: int, blockN: int, b: int)
    requires blockN >= 1
  {
    exists q :: s.qlen <= q < nctx && Visited(s, blockM, blockN, b, q)
  }

  /** Reads past the end of a buffer of nctx rows are replaced by zero. */
  ghost predicate Bounded(h: Head, nctx: int) {
    forall q :: q >= nctx ==> h.delta(q) == Real(0.0)
  }

  /** What the gradients are made of, with nothing known of the rows in between. */
  ghost predicate Stored(s: Sequence, h: Head, fM: int, nctx: int)
    requires fM >= 1
  {
    Written(s, h, fM) && Bounded(h, nctx)
  }

  /** Operands whose Delta is undefined in the buffer past the sequence. */
  function BlankTail(s: Sequence, nctx: int): Head {
    Head(x => 1.0, (q, k) => 0.0, q => Real(0.0), q => if s.qlen <= q < nctx then NaN else Real(0.0), 1.0,
         (q, d) => 0.0, (k, d) => 0.0, (k, d) => 0.0, (q, d) => 0.0, 0)
  }

  /** The gradients are numbers whatever is left in the unwritten rows exactly when no launched key block
      visits one of them. */
  lemma CleanIff(s: Sequence, fM: int, nctx: int, grid: nat, blockM: int, blockN: int)
    requires fM >= 1 && blockM >= 1 && blockN >= 1 && s.qlen <= nctx
    ensures (forall h :: Stored(s, h, fM, nctx) ==> AllNumbers(s, h, grid, blockM, blockN))
            <==> forall b :: 0 <= b < grid ==> !Overhangs(s, nctx, blockM, blockN, b)
  {
    hide AllNumbers, Visited;
    forall h
      ensures AllNumbers(s, h, grid, blockM, blockN)
              <==> forall b :: 0 <= b < grid ==> !Poisoned(s, h, blockM, blockN, b)
    {
      NumbersIff(s, h, grid, blockM, blockN);
    }
    if b :| 0 <= b < grid && Overhangs(s, nctx, blockM, blockN, b) {
      var h := BlankTail(s, nctx);
      assert Stored(s, h, fM, nctx);
      var q :| s.qlen <= q < nctx && Visited(s, blockM, blockN, b, q);
      assert h.delta(q).NaN?;
      assert Poisoned(s, h, blockM, blockN, b);
    } else {
      forall h, b | 0 <= b < grid && Stored(s, h, fM, nctx) ensures !Poisoned(s, h, blockM, blockN, b) {
        assert !Overhangs(s, nctx, blockM, blockN, b);
      }
    }
  }

  /** Which for a grid that reaches all keys is when the query block size divides the query length, or the
      sequence fills its buffer. */
  lemma CleanWhenDivided(s: Sequence, fM: int, nctx: int, grid: nat, blockM: int, blockN: int)
    requires Positive(s.window) && fM >= 1 && blockM >= 1 && blockN >= 1
    requires 1 <= s.qlen <= nctx && 1 <= s.klen <= grid * blockM
    ensures (forall h :: Stored(s, h, fM, nctx) ==> AllNumbers(s, h, grid, blockM, blockN))
            <==> s.qlen % blockN == 0 || s.qlen == nctx
  {
    hide AllNumbers, Stored, LoopStart, LoopEnd, Visited;
    CleanIff(s, fM, nctx, grid, blockM, blockN);
    if s.qlen % blockN == 0 {
      forall b | 0 <= b < grid ensures !Overhangs(s, nctx, blockM, blockN, b) {
        WithinLength(s, nctx, blockM, blockN, b);
      }
    } else if s.qlen < nctx {
      var b := (s.klen - 1) / blockM;
      Quotients(s.klen - 1, blockM);
      DivBelow(s.klen - 1, blockM, grid);
      LastBlockOverhangs(s, nctx, blockM, blockN, b);
    }
  }

  lemma WithinLength(s: Sequence, nctx: int, blockM: int, blockN: int, b: int)
    requires blockN >= 1 && s.qlen % blockN == 0
    ensures !Overhangs(s, nctx, blockM, blockN, b)
  {
    var ed := LoopEnd(s, b, blockM, blockN);
    CeilDivExact(s.qlen, blockN);
    MulOrder(ed, s.qlen / blockN, blockN);
    assert s.qlen == s.qlen / blockN * blockN;
  }

  lemma LastBlockOverhangs(s: Sequence, nctx: int, blockM: int, blockN: int, b: nat)
    requires Positive(s.window) && blockM >= 1 && blockN >= 1
    requires 1 <= s.qlen < nctx && s.klen >= 1 && s.qlen % blockN != 0
    requires b * blockM <= s.klen - 1 < b * blockM + blockM
    ensures Overhangs(s, nctx, blockM, blockN, b)
  {
    hide LoopStart, LoopEnd;
    var st, ed := LoopStart(s, b, blockM, blockN), LoopEnd(s, b, blockM, blockN);
    LoopCovers(s, b, blockM, blockN, st, ed);
    assert BackwardPair(s, s.qlen - 1, s.klen - 1);
    if ed * blockN == s.qlen { DivModUnique(s.qlen, blockN, ed, 0); }
    assert Visited(s, blockM, blockN, b, s.qlen);
  }

  /** With 33 queries and 33 keys in buffers of 64 rows, and the kernel's blocks of 128 keys and 32 queries, unwritten
      rows leave undefined the gradient of every key of the sequence and of the neighbour's first queries. */
  lemma TailPoisons(d: int)
    ensures var s := Sequence(33, 33, true, Whole); var h := BlankTail(s, 64);
            && Stored(s, h, 64, 64)
            && (forall k :: 0 <= k < 128 ==> KeyTotal(s, h, d, 1, 128, 32, k).NaN?)
            && (forall q :: 33 <= q < 64 ==> QueryTotal(s, h, d, 1, 128, 32, q).NaN?)
  {
    var s := Sequence(33, 33, true, Whole);
    var h := BlankTail(s, 64);
    assert LoopStart(s, 0, 128, 32) == 0 && LoopEnd(s, 0, 128, 32) == 2;
    assert Visited(s, 128, 32, 0, 33) && h.delta(33).NaN?;
    assert Poisoned(s, h, 128, 32, 0);
    forall q | 33 <= q < 64 ensures QueryTotal(s, h, d, 1, 128, 32, q).NaN? { assert Visited(s, 128, 32, 0, q); }
  }
}
