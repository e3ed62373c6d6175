/** The backward kernels of attention with sinks, row by row: Delta, the score gradients and the sink gradient. */
module SinkBackward {
  import opened Arith
  import opened RealArith
  import opened Sums
  import opened Softmax
  import opened SinkForward

  // ---------------------------------------------------------------- preprocess

  function ProductTerm(o: seq<real>, g: seq<real>): int -> real {
    d => if 0 <= d < |o| && d < |g| then Times(o[d], g[d]) else 0.0
  }

  /** Adds chunk k of the row to the lanes. */
  method AddChunk(f: int -> real, blk: nat, k: nat, acc: array<real>)
    requires acc.Length == blk && forall j :: 0 <= j < blk ==> acc[j] == Sum(0, k, Lane(f, blk, j))
    modifies acc
    ensures forall j :: 0 <= j < blk ==> acc[j] == Sum(0, k + 1, Lane(f, blk, j))
  {
    for j := 0 to blk
      invariant forall i :: 0 <= i < j ==> acc[i] == Sum(0, k + 1, Lane(f, blk, i))
      invariant forall i :: j <= i < blk ==> acc[i] == Sum(0, k, Lane(f, blk, i))
    {
      assert Sum(0, k + 1, Lane(f, blk, j)) == Sum(0, k, Lane(f, blk, j)) + Lane(f, blk, j)(k);
      acc[j] := acc[j] + f(k * blk + j);
    }
  }

  /** Delta: the inner product of the output row and its gradient, kept in blk lanes over the chunks of
      the row and added up at the end. Elements past the row read as zero. */
  method Preprocess(o: seq<real>, g: seq<real>, blk: nat) returns (delta: real)
    requires |o| == |g| && blk >= 1
    ensures delta == Sum(0, |o|, ProductTerm(o, g))
  {
    hide Times, Lane;
    var f := ProductTerm(o, g);
    var acc := new real[blk](_ => 0.0);
    var chunks := CeilDiv(|o|, blk);
    BelowCeilDiv(-1, |o|, blk);
    CeilDivBounds(|o|, blk);
    for k := 0 to chunks
      invariant forall j :: 0 <= j < blk ==> acc[j] == Sum(0, k, Lane(f, blk, j))
    {
      AddChunk(f, blk, k, acc);
    }
    ghost var lanes: int -> real := j => Sum(0, chunks, Lane(f, blk, j));
    delta := 0.0;
    for j := 0 to blk
      invariant delta == Sum(0, j, lanes)
    {
      delta := delta + acc[j];
    }
    LanesAddUp(f, blk, chunks, lanes);
    SumWiden(0, |o|, 0, chunks * blk, f);
  }

  function Lane(f: int -> real, blk: int, j: int): int -> real { k => f(k * blk + j) }

  /** Summing lane by lane is summing the whole row. */
  lemma LanesAddUp(f: int -> real, blk: nat, chunks: nat, lanes: int -> real)
    requires blk >= 1 && forall j :: 0 <= j < blk ==> lanes(j) == Sum(0, chunks, Lane(f, blk, j))
    ensures Sum(0, blk, lanes) == Sum(0, chunks * blk, f)
  {
    hide Sum;
    var at: (int, int) -> real := (k, j) => f(k * blk + j);
    var rows: int -> real := k => Sum(k * blk, k * blk + blk, f);
    forall k | 0 <= k < chunks ensures rows(k) == Sum(0, blk, j => at(k, j)) {
      SumShift(0, blk, k * blk, f, j => at(k, j));
    }
    forall j | 0 <= j < blk ensures lanes(j) == Sum(0, chunks, k => at(k, j)) {
      SumEq(0, chunks, Lane(f, blk, j), k => at(k, j));
    }
    SumExchange(chunks, blk, at, rows, lanes);
    SumBlocks(0, chunks, blk, f, rows);
  }

  // ---------------------------------------------------------------- one row of gradients

  /** dP_k: the value row of key k against the output gradient. */
  function ValueGrad(ks: Keys, g: int -> real, dim: nat, k: int): real {
    Sum(0, dim, d => Times(ks.value(k, d), g(d)))
  }

  /** P_k (dP_k - Delta) sm with P rebuilt from the stored logarithm. */
  function ScoreGrad(e: real -> real, ks: Keys, lse: real, g: int -> real, dim: nat, delta: real,
                     sm: real): int -> real {
    k => Times(Times(Weight(e, ks, lse)(k), ValueGrad(ks, g, dim, k) - delta), sm)
  }

  function SinkGrad(e: real -> real, z: real, lse: real, delta: real): real {
    -Times(e(z - lse), delta)
  }

  /** The stored logarithm rebuilds probabilities: with the sink's they add up to one, and the output row
      is their average of the values. */
  lemma Rebuilt(e: real -> real, ks: Keys, z: real, lse: real, n: nat)
    requires ExpLaw(e) && e(lse) == Den(e, ks, 0.0, 0, n) + e(z)
    ensures Den(e, ks, lse, 0, n) + e(z - lse) == 1.0
    ensures forall d :: Attend(e, ks, z, d, 0, n) == Num(e, ks, lse, d, 0, n)
  {
    hide Sum, Times, Weight, Weighted, Attend;
    var c := e(0.0 - lse);
    Rebase(e, ks, 0.0, lse, 0, n);
    ExpSum(e, 0.0 - lse, z);
    ExpSum(e, 0.0 - lse, lse);
    assert 0.0 - lse + z == z - lse;
    ExpZero(e);
    TimesSum(Den(e, ks, 0.0, 0, n), e(z), c);
    AnyReference(e, ks, z, lse, 0, n);
    forall d ensures Attend(e, ks, z, d, 0, n) == Num(e, ks, lse, d, 0, n) {
      OverOne(Num(e, ks, lse, d, 0, n), Den(e, ks, lse, 0, n) + e(z - lse));
    }
  }

  lemma OverOne(x: real, t: real)
    requires t == 1.0
    ensures x / t == x
  {
  }

  /** Delta, an inner product of output and gradient, is also the P-average of dP. */
  lemma DeltaIsAverage(e: real -> real, ks: Keys, lse: real, n: nat, dim: nat, o: int -> real, g: int -> real)
    requires forall d :: 0 <= d < dim ==> o(d) == Num(e, ks, lse, d, 0, n)
    ensures Sum(0, dim, d => Times(o(d), g(d)))
            == Sum(0, n, k => Times(Weight(e, ks, lse)(k), ValueGrad(ks, g, dim, k)))
  {
    hide Sum, Times, Weight;
    var w := Weight(e, ks, lse);
    var f: (int, int) -> real := (d, k) => Times(Times(w(k), ks.value(k, d)), g(d));
    var rows: int -> real := d => Times(o(d), g(d));
    var cols: int -> real := k => Times(w(k), ValueGrad(ks, g, dim, k));
    forall d | 0 <= d < dim ensures rows(d) == Sum(0, n, k => f(d, k)) {
      forall k ensures f(d, k) == Times(g(d), Weighted(e, ks, lse, d)(k)) {
        TimesAssoc(Times(w(k), ks.value(k, d)), g(d), 1.0);
      }
      SumTimes(0, n, g(d), Weighted(e, ks, lse, d), k => f(d, k));
      TimesAssoc(o(d), g(d), 1.0);
    }
    forall k | 0 <= k < n ensures cols(k) == Sum(0, dim, d => f(d, k)) {
      var v: int -> real := d => Times(ks.value(k, d), g(d));
      forall d ensures f(d, k) == Times(w(k), v(d)) { TimesAssoc(w(k), ks.value(k, d), g(d)); }
      SumTimes(0, dim, w(k), v, d => f(d, k));
      SumEq(0, dim, v, d => Times(ks.value(k, d), g(d)));
    }
    SumExchange(dim, n, f, rows, cols);
    SumEq(0, dim, rows, d => Times(o(d), g(d)));
    SumEq(0, n, cols, k => Times(w(k), ValueGrad(ks, g, dim, k)));
  }

  /** Conservation: over all keys, and whatever the mask, the score gradients of a row and the sink's
      gradient cancel exactly. */
  lemma RowConservation(e: real -> real, ks: Keys, z: real, lse: real, n: nat, dim: nat, o: int -> real,
                        g: int -> real, delta: real, sm: real)
    requires ExpLaw(e) && e(lse) == Den(e, ks, 0.0, 0, n) + e(z)
    requires forall d :: 0 <= d < dim ==> o(d) == Attend(e, ks, z, d, 0, n)
    requires delta == Sum(0, dim, d => Times(o(d), g(d)))
    ensures Sum(0, n, ScoreGrad(e, ks, lse, g, dim, delta, sm)) + Times(SinkGrad(e, z, lse, delta), sm) == 0.0
  {
    hide Sum, Times, Weight, Attend, ValueGrad;
    Rebuilt(e, ks, z, lse, n);
    DeltaIsAverage(e, ks, lse, n, dim, o, g);
    var w := Weight(e, ks, lse);
    var a: int -> real := k => Times(w(k), ValueGrad(ks, g, dim, k));
    var b: int -> real := k => Times(w(k), delta);
    var ds := ScoreGrad(e, ks, lse, g, dim, delta, sm);
    forall k ensures ds(k) == sm * a(k) + -sm * b(k) { Parts(w(k), ValueGrad(ks, g, dim, k), delta, sm); }
    SumLinear(0, n, sm, a, -sm, b, ds);
    SumEq(0, n, a, k => Times(w(k), ValueGrad(ks, g, dim, k)));
    forall k ensures b(k) == Times(delta, w(k)) { TimesAssoc(w(k), delta, 1.0); }
    SumTimes(0, n, delta, w, b);
    Cancel(delta, Den(e, ks, lse, 0, n), e(z - lse), sm);
  }

  lemma Parts(w: real, v: real, delta: real, sm: real)
    ensures Times(Times(w, v - delta), sm) == sm * Times(w, v) + -sm * Times(w, delta)
  {
    assert (w * (v - delta)) * sm == sm * (w * v) + -sm * (w * delta);
  }

  lemma Cancel(delta: real, p: real, s: real, sm: real)
    requires p + s == 1.0
    ensures sm * delta + -sm * Times(delta, p) + Times(-Times(s, delta), sm) == 0.0
  {
    assert delta * p == delta - s * delta by { assert delta * (p + s) == delta * p + delta * s; }
    assert sm * delta + -sm * (delta - s * delta) + -(s * delta) * sm == 0.0;
  }

  /** The same total however the keys are tiled: over key blocks that hold all unmasked keys. */
  lemma TiledConservation(e: real -> real, ks: Keys, z: real, lse: real, n: nat, dim: nat, o: int -> real,
                          g: int -> real, delta: real, sm: real,
                          blocks: nat, blockM: nat, tile: int -> real)
    requires ExpLaw(e) && e(lse) == Den(e, ks, 0.0, 0, n) + e(z)
    requires forall d :: 0 <= d < dim ==> o(d) == Attend(e, ks, z, d, 0, n)
    requires delta == Sum(0, dim, d => Times(o(d), g(d)))
    requires blockM >= 1 && n <= blocks * blockM && forall k :: n <= k ==> !ks.on(k)
    requires forall b :: 0 <= b < blocks ==>
             tile(b) == Sum(b * blockM, b * blockM + blockM, ScoreGrad(e, ks, lse, g, dim, delta, sm))
    ensures Sum(0, blocks, tile) + Times(SinkGrad(e, z, lse, delta), sm) == 0.0
  {
    hide Sum, Times, Attend, ValueGrad;
    var ds := ScoreGrad(e, ks, lse, g, dim, delta, sm);
    RowConservation(e, ks, z, lse, n, dim, o, g, delta, sm);
    SumBlocks(0, blocks, blockM, ds, tile);
    forall k | n <= k ensures ds(k) == 0.0 {
      assert Weight(e, ks, lse)(k) == 0.0;
      assert ds(k) == Times(Times(0.0, ValueGrad(ks, g, dim, k) - delta), sm);
      TimesUnit(ValueGrad(ks, g, dim, k) - delta);
      TimesUnit(sm);
    }
    SumWiden(0, n, 0, blocks * blockM, ds);
  }

  function Entry(g: seq<real>): int -> real { d => if 0 <= d < |g| then g[d] else 0.0 }

  /** The chain of kernels: an output row and logarithm as the forward kernel stores them, Delta as the
      preprocess kernel computes it from that row, then the score and sink gradients. The stored sink gradient does
      not carry the factor sm that the stored score gradients do, and is multiplied by it here. */
  lemma KernelConservation(e: real -> real, c: real, on: int -> bool, raw: int -> real, sm: real, sink: real, n: nat,
                           value: (int, int) -> real, out: seq<real>, lse: real, g: seq<real>, delta: real)
    requires ExpLaw(e) && |out| == |g| && delta == Sum(0, |out|, ProductTerm(out, g))
    requires OutputCorrect(e, c, on, raw, sm, sink, n, value, out) && LseCorrect(e, c, on, raw, sm, sink, n, value, lse)
    ensures var ks, z := RowKeys(on, raw, Times(sm, c), value), Times(sink, c);
            Sum(0, n, ScoreGrad(e, ks, lse, Entry(g), |g|, delta, sm)) + Times(SinkGrad(e, z, lse, delta), sm) == 0.0
  {
    hide Sum, Times, Attend, ScoreGrad, Den, Reference;
    var ks, z, go := RowKeys(on, raw, Times(sm, c), value), Times(sink, c), Entry(g);
    var o: int -> real := d => if 0 <= d < |out| then out[d] else 0.0;
    ReferenceIsAttention(e, c, on, raw, sm, sink, n, value);
    SumEq(0, |out|, ProductTerm(out, g), d => Times(o(d), go(d)));
    RowConservation(e, ks, z, lse, n, |g|, o, go, delta, sm);
  }
}
