/** The gradient of the attention sinks over packed sequences, from what the other kernels stored. */
module VarlenSink {
  import opened Arith
  import opened RealArith
  import opened Sums
  import opened Nan
  import opened Softmax
  import opened SinkForward
  import opened VarlenForward
  import SinkBackward
  import VarlenGradients

  /** One row: -exp2(z - lse) Delta inside of the sequence, and zero past it whatever was read. */
  function SinkValue(e: real -> real, z: real, s: Sequence, lse: Number, delta: Number, row: int): Number {
    if row < s.qlen then Mul(if lse.NaN? then NaN else Real(-e(z - lse.v)), delta) else Real(0.0)
  }

  /** What the kernels before have stored for one sequence: Delta of its queries, and their logarithms but for
      the blocks of fM rows that visited no key. */
  ghost predicate Stored(s: Sequence, lse: int -> Number, delta: int -> Number, fM: int)
    requires fM >= 1
  {
    forall q {:trigger lse(q)} {:trigger delta(q)} :: 0 <= q < s.qlen ==>
      delta(q).Real? && (lse(q).NaN? <==> NoBlock(s, q / fM, fM))
  }

  /** A row is undefined exactly when it lies in the sequence and its block visited no key. */
  lemma RowUndefinedIff(e: real -> real, z: real, s: Sequence, lse: int -> Number, delta: int -> Number, fM: int,
                        row: nat)
    requires fM >= 1 && Stored(s, lse, delta, fM)
    ensures SinkValue(e, z, s, lse(row), delta(row), row).NaN? <==> row < s.qlen && NoBlock(s, row / fM, fM)
  {
  }

  function RowsOf(e: real -> real, z: real, s: Sequence, lse: int -> Number, delta: int -> Number, rows: int,
                  junk: int -> Number): int -> Number {
    r => if r < rows then SinkValue(e, z, s, lse(r), delta(r), r) else junk(r)
  }

  /** The kernel on one sequence: blocks of rows up to the longest query length. Rows past them stay unwritten. */
  method FillRows(e: real -> real, z: real, s: Sequence, lse: int -> Number, delta: int -> Number, maxSeq: nat,
                  block: nat, out: array<Number>, ghost junk: int -> Number)
    requires block >= 1 && forall r :: 0 <= r < out.Length ==> out[r] == junk(r)
    modifies out
    ensures forall r :: 0 <= r < out.Length ==>
            out[r] == RowsOf(e, z, s, lse, delta, CeilDiv(maxSeq, block) * block, junk)(r)
  {
    hide SinkValue;
    var grid := CeilDiv(maxSeq, block);
    BelowCeilDiv(-1, maxSeq, block);
    assert 0 * block == 0;
    for b := 0 to grid
      invariant forall r :: 0 <= r < out.Length ==> out[r] == RowsOf(e, z, s, lse, delta, b * block, junk)(r)
    {
      assert (b + 1) * block == b * block + block;
      MulOrder(0, b, block);
      for i := 0 to block
        invariant forall r :: 0 <= r < out.Length ==> out[r] == RowsOf(e, z, s, lse, delta, b * block + i, junk)(r)
      {
        var r := b * block + i;
        if r < out.Length {
          out[r] := SinkValue(e, z, s, lse(r), delta(r), r);
        }
      }
    }
  }

  /** Row b of a table. */
  function Of(f: (int, int) -> Number, b: int): int -> Number { r => f(b, r) }

  /** Row sums of one sequence over the padded length. */
  function SequenceTotal(e: real -> real, z: real, batch: seq<Sequence>, lse: (int, int) -> Number,
                         delta: (int, int) -> Number, nctx: nat, rows: int, junk: (int, int) -> Number): int -> Number {
    b => if 0 <= b < |batch| then NSum(0, nctx, RowsOf(e, z, batch[b], Of(lse, b), Of(delta, b), rows, Of(junk, b)))
        else Real(0.0)
  }

  /** The gradient of one head's sink: the rows of all sequences of the batch, added up over the padded buffer. */
  method SinkGradient(e: real -> real, z: real, batch: seq<Sequence>, lse: (int, int) -> Number,
                      delta: (int, int) -> Number, nctx: nat, maxSeq: nat, block: nat, junk: (int, int) -> Number)
    returns (total: Number)
    requires block >= 1
    ensures total == NSum(0, |batch|, SequenceTotal(e, z, batch, lse, delta, nctx, CeilDiv(maxSeq, block) * block,
                                                    junk))
  {
    hide RowsOf;
    total := Real(0.0);
    ghost var rows := CeilDiv(maxSeq, block) * block;
    for b := 0 to |batch|
      invariant total == NSum(0, b, SequenceTotal(e, z, batch, lse, delta, nctx, rows, junk))
    {
      var out := new Number[nctx](i => junk(b, i));
      FillRows(e, z, batch[b], Of(lse, b), Of(delta, b), maxSeq, block, out, Of(junk, b));
      var sum := Real(0.0);
      for r := 0 to nctx
        invariant sum == NSum(0, r, RowsOf(e, z, batch[b], Of(lse, b), Of(delta, b), rows, Of(junk, b)))
      {
        sum := Add(sum, out[r]);
      }
      total := Add(total, sum);
    }
  }

  // ---------------------------------------------------------------- when the gradient is a number

  /** Some launched block of the sequence's own rows visits no key. */
  predicate LosesBlock(s: Sequence, fM: int) {
    s.qlen >= 1 && (s.klen == 0 || (s.causal && s.qlen >= s.klen + fM))
  }

  /** A row of the sequence loses its logarithm exactly when the first one does: without keys, or with a causal mask
      and at least a block more queries than keys. */
  lemma LosesBlockIff(s: Sequence, fM: int)
    requires fM >= 1
    ensures LosesBlock(s, fM) <==> exists q :: 0 <= q < s.qlen && NoBlock(s, q / fM, fM)
    ensures LosesBlock(s, fM) <==> exists bx: nat :: bx * fM < s.qlen && NoBlock(s, bx, fM)
  {
    hide NoBlock;
    if LosesBlock(s, fM) {
      FirstBlockLost(s, fM);
      assert NoBlock(s, 0 / fM, fM);
      assert 0 * fM < s.qlen;
    }
    forall bx: nat | bx * fM < s.qlen && NoBlock(s, bx, fM) ensures LosesBlock(s, fM) { LaterBlockLost(s, fM, bx); }
    forall q | 0 <= q < s.qlen && NoBlock(s, q / fM, fM) ensures LosesBlock(s, fM) {
      Quotients(q, fM);
      LaterBlockLost(s, fM, q / fM);
    }
  }

  lemma FirstBlockLost(s: Sequence, fM: int)
    requires fM >= 1 && LosesBlock(s, fM)
    ensures NoBlock(s, 0, fM) && 0 / fM == 0
  {
  }

  lemma LaterBlockLost(s: Sequence, fM: int, bx: nat)
    requires fM >= 1 && bx * fM < s.qlen && NoBlock(s, bx, fM)
    ensures LosesBlock(s, fM)
  {
    MulOrder(0, bx, fM);
    assert (bx + 1) * fM == bx * fM + fM;
  }

  ghost predicate Filled(junk: int -> Number, lo: int, hi: int) { forall r :: lo <= r < hi ==> junk(r).Real? }

  /** One sequence adds up to a number exactly when no row of it lost its logarithm and what the unwritten rows of
      the buffer hold are numbers. */
  lemma SequenceNumberIff(e: real -> real, z: real, s: Sequence, lse: int -> Number, delta: int -> Number, fM: int,
                          nctx: nat, rows: nat, junk: int -> Number)
    requires fM >= 1 && Stored(s, lse, delta, fM) && s.qlen <= rows && s.qlen <= nctx
    ensures NSum(0, nctx, RowsOf(e, z, s, lse, delta, rows, junk)).Real?
            <==> !LosesBlock(s, fM) && Filled(junk, rows, nctx)
  {
    hide NSum, LosesBlock, NoBlock;
    var f := RowsOf(e, z, s, lse, delta, rows, junk);
    NSumIff(0, nctx, f);
    LosesBlockIff(s, fM);
    if q :| 0 <= q < s.qlen && NoBlock(s, q / fM, fM) {
      RowUndefinedIff(e, z, s, lse, delta, fM, q);
      assert f(q).NaN?;
    } else if r :| rows <= r < nctx && junk(r).NaN? {
      assert f(r).NaN?;
    } else {
      forall r | 0 <= r < nctx ensures f(r).Real? { RowUndefinedIff(e, z, s, lse, delta, fM, r); }
    }
  }

  /** The gradient of a head's sink is a number, whatever the unwritten rows hold, exactly when no sequence of the
      batch loses a block and the blocks of rows reach the end of the padded buffer. */
  lemma SinkGradientNumberIff(e: real -> real, z: real, batch: seq<Sequence>, lse: (int, int) -> Number,
                              delta: (int, int) -> Number, fM: int, nctx: nat, rows: nat)
    requires fM >= 1 && |batch| >= 1
    requires forall b :: 0 <= b < |batch| ==>
               Stored(batch[b], Of(lse, b), Of(delta, b), fM) && batch[b].qlen <= rows && batch[b].qlen <= nctx
    ensures (forall junk :: NSum(0, |batch|, SequenceTotal(e, z, batch, lse, delta, nctx, rows, junk)).Real?)
            <==> (forall b :: 0 <= b < |batch| ==> !LosesBlock(batch[b], fM)) && nctx <= rows
  {
    hide NSum, RowsOf, LosesBlock, Stored, SequenceTotal;
    var full: (int, int) -> Number := (b, r) => Real(0.0);
    var blank: (int, int) -> Number := (b, r) => NaN;
    BatchNumberIff(e, z, batch, lse, delta, fM, nctx, rows, full);
    BatchNumberIff(e, z, batch, lse, delta, fM, nctx, rows, blank);
    if nctx > rows { assert Of(blank, 0)(rows).NaN?; }
    if (forall b :: 0 <= b < |batch| ==> !LosesBlock(batch[b], fM)) && nctx <= rows {
      forall junk ensures NSum(0, |batch|, SequenceTotal(e, z, batch, lse, delta, nctx, rows, junk)).Real? {
        BatchNumberIff(e, z, batch, lse, delta, fM, nctx, rows, junk);
      }
    }
  }

  lemma BatchNumberIff(e: real -> real, z: real, batch: seq<Sequence>, lse: (int, int) -> Number,
                       delta: (int, int) -> Number, fM: int,
                       nctx: nat, rows: nat, junk: (int, int) -> Number)
    requires fM >= 1
    requires forall b :: 0 <= b < |batch| ==>
               Stored(batch[b], Of(lse, b), Of(delta, b), fM) && batch[b].qlen <= rows && batch[b].qlen <= nctx
    ensures NSum(0, |batch|, SequenceTotal(e, z, batch, lse, delta, nctx, rows, junk)).Real?
            <==> forall b :: 0 <= b < |batch| ==> !LosesBlock(batch[b], fM) && Filled(Of(junk, b), rows, nctx)
  {
    hide NSum, RowsOf, LosesBlock, Stored;
    var f := SequenceTotal(e, z, batch, lse, delta, nctx, rows, junk);
    NSumIff(0, |batch|, f);
    forall b | 0 <= b < |batch| ensures f(b).Real? <==> !LosesBlock(batch[b], fM) && Filled(Of(junk, b), rows, nctx) {
      SequenceNumberIff(e, z, batch[b], Of(lse, b), Of(delta, b), fM, nctx, rows, Of(junk, b));
    }
  }

  /** Blocks of 64 rows: a batch of one causal sequence with 100 queries and 10 keys, in a buffer of 128 rows, has an
      undefined sink gradient, whatever its operands and the unwritten rows; with 73 queries it is a number. */
  lemma SinkGradientLost(e: real -> real, z: real, q: nat, lse: (int, int) -> Number, delta: (int, int) -> Number,
                         junk: (int, int) -> Number)
    requires (q == 100 || q == 73) && Stored(Sequence(q, 10, true, Whole), Of(lse, 0), Of(delta, 0), 64)
    ensures var batch := [Sequence(q, 10, true, Whole)];
            NSum(0, 1, SequenceTotal(e, z, batch, lse, delta, 128, CeilDiv(q, 256) * 256, junk)).NaN? <==> q == 100
  {
    hide NSum, Stored, SequenceTotal;
    assert CeilDiv(q, 256) == 1;
    BatchNumberIff(e, z, [Sequence(q, 10, true, Whole)], lse, delta, 64, 128, 256, junk);
  }

  // ---------------------------------------------------------------- conservation

  function GradRow(h: VarlenGradients.Head, q: int): seq<real> { seq(h.dim, x => h.g(q, x)) }

  /** The score gradients that the packed backward kernel means for a query, over all keys of its sequence, and
      the gradient of the sink (scaled as they are) cancel exactly. */
  lemma PackedConservation(c: real, sink: real, s: Sequence, h: VarlenGradients.Head, q: nat, raw: int -> real,
                           out: seq<real>)
    requires ExpLaw(h.e) && q < s.qlen && |out| == h.dim
    requires forall k :: h.score(q, k) == Times(raw(k), Times(h.sm, c))
    requires OutputCorrect(h.e, c, PairMask(s, q), raw, h.sm, sink, s.klen, h.v, out)
    requires h.lse(q).Real? && LseCorrect(h.e, c, PairMask(s, q), raw, h.sm, sink, s.klen, h.v, h.lse(q).v)
    requires h.delta(q) == Real(Sum(0, |out|, SinkBackward.ProductTerm(out, GradRow(h, q))))
    ensures SinkValue(h.e, Times(sink, c), s, h.lse(q), h.delta(q), q).Real?
    ensures Sum(0, s.klen, k => VarlenGradients.Score(s, h, q, k))
            + Times(SinkValue(h.e, Times(sink, c), s, h.lse(q), h.delta(q), q).v, h.sm) == 0.0
  {
    hide Sum, Times, ExpLaw, OutputCorrect, LseCorrect;
    var g, lse, delta := GradRow(h, q), h.lse(q).v, h.delta(q).v;
    var ks := RowKeys(PairMask(s, q), raw, Times(h.sm, c), h.v);
    var go := SinkBackward.Entry(g);
    SinkBackward.KernelConservation(h.e, c, PairMask(s, q), raw, h.sm, sink, s.klen, h.v, out, lse, g, delta);
    var meant := SinkBackward.ScoreGrad(h.e, ks, lse, go, |g|, delta, h.sm);
    forall k | 0 <= k < s.klen ensures VarlenGradients.Score(s, h, q, k) == meant(k) {
      SumEq(0, h.dim, x => Times(h.v(k, x), h.g(q, x)), d => Times(ks.value(k, d), go(d)));
      assert VarlenGradients.ValueGrad(h, q, k) == SinkBackward.ValueGrad(ks, go, |g|, k);
      assert ks.score(k) == h.score(q, k);
      assert VarlenGradients.Weight(s, h, q, k) == Weight(h.e, ks, lse)(k);
      assert meant(k) == Times(Times(Weight(h.e, ks, lse)(k), SinkBackward.ValueGrad(ks, go, |g|, k) - delta), h.sm);
    }
    SumEq(0, s.klen, k => VarlenGradients.Score(s, h, q, k), meant);
    TimesNegate(h.e(Times(sink, c) - lse), delta);
  }
}
