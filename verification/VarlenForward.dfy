/** The forward kernel over packed sequences of different lengths, causal or not, windowed or not. */
module VarlenForward {
  import opened Arith
  import opened RealArith
  import opened Sums
  import opened Softmax
  import opened SinkForward
  import opened Nan

  /** One sequence of the batch, with the masking mode. */
  datatype Sequence = Sequence(qlen: nat, klen: nat, causal: bool, window: Window) {
    function Offset(): int { klen - qlen }
  }

  /** Neither masked by causality, nor by the window, nor outside of the sequence. */
  predicate ForwardPair(s: Sequence, row: int, k: int) {
    !(|| (s.causal && row + s.Offset() < k)
      || (s.window.Sliding? && row + s.Offset() >= k + s.window.size)
      || row >= s.qlen || k >= s.klen)
  }

  function ForwardMask(s: Sequence, row: int): int -> bool { k => ForwardPair(s, row, k) }

  /** The reference mask, defined on 0 <= row < qlen and 0 <= k < klen. */
  predicate ReferencePair(s: Sequence, row: int, k: int) {
    !(s.causal && k > row + s.Offset()) && !(s.window.Sliding? && k < row + s.Offset() - s.window.size + 1)
  }

  function PairMask(s: Sequence, row: int): int -> bool { k => ReferencePair(s, row, k) }

  function ForwardStart(s: Sequence, bx: int, blockM: int, blockN: int): int
    requires blockN >= 1
  {
    if s.window.Sliding? then Max(0, (s.Offset() + bx * blockM - s.window.size + 1) / blockN) else 0
  }

  function ForwardEnd(s: Sequence, bx: int, blockM: int, blockN: int): int
    requires blockN >= 1
  {
    if s.causal then Min(CeilDiv(s.Offset() + (bx + 1) * blockM, blockN), CeilDiv(s.klen, blockN))
        else CeilDiv(s.klen, blockN)
  }

  /** No key block is visited: no keys, or all rows of the block lie before the first key. */
  predicate NoBlock(s: Sequence, bx: int, blockM: int) {
    s.klen == 0 || (s.causal && s.Offset() + (bx + 1) * blockM <= 0)
  }

  /** The visited blocks hold every unmasked key; none is visited exactly in the NoBlock case. */
  lemma ForwardRange(s: Sequence, bx: nat, i: nat, blockM: int, blockN: int)
    requires Positive(s.window) && blockN >= 1 && i < blockM && bx * blockM + i < s.qlen
    ensures var st, ed, row := ForwardStart(s, bx, blockM, blockN), ForwardEnd(s, bx, blockM, blockN), bx * blockM + i;
            && 0 <= row < (bx + 1) * blockM && 0 <= st && (st >= ed <==> NoBlock(s, bx, blockM))
            && (st < ed ==> st * blockN <= s.klen)
            && (forall k :: k >= 0 && ForwardPair(s, row, k) ==> st * blockN <= k < ed * blockN)
  {
    var lo := if s.window.Sliding? then s.Offset() + bx * blockM - s.window.size + 1 else 0;
    var hi := if s.causal then s.Offset() + (bx + 1) * blockM else s.klen;
    assert bx * blockM >= 0;
    assert (bx + 1) * blockM == bx * blockM + blockM;
    assert 0 / blockN == 0;
    BlocksEnclose(lo, hi, s.klen, blockN);
    if NoBlock(s, bx, blockM) {
      CeilOfNegative(if s.klen == 0 then s.klen else hi, blockN);
    }
  }

  lemma CeilOfNegative(x: int, n: int)
    requires n >= 1 && x <= 0
    ensures CeilDiv(x, n) <= 0
  {
    BelowCeilDiv(0, x, n);
  }

  /** One valid row. With no key block visited the running maximum is still -inf when the sink is added:
      logsum becomes +inf, so the output is 0 and the stored logarithm, inf + -inf, is not a number. */
  method VarlenRow(e: real -> real, lg: real -> real, raw: int -> real, value: (int, int) -> real, sm: real, c: real,
                   sink: real, s: Sequence, bx: nat, i: nat, blockM: nat, blockN: nat, dim: nat)
    returns (out: seq<real>, lse: Number)
    requires ExpLaw(e) && LogLaw(e, lg) && Positive(s.window)
    requires blockN >= 1 && i < blockM && bx * blockM + i < s.qlen
    ensures |out| == dim
    ensures OutputCorrect(e, c, PairMask(s, bx * blockM + i), raw, sm, sink, s.klen, value, out)
    ensures lse.NaN? <==> NoBlock(s, bx, blockM)
    ensures lse.Real? ==> LseCorrect(e, c, PairMask(s, bx * blockM + i), raw, sm, sink, s.klen, value, lse.v)
  {
    hide Times, Sum, Den, Num, Attend, Weight, Weighted, ForwardStart, ForwardEnd, Reference, ExpLaw, LogLaw, NoBlock,
        ReferencePair, ForwardPair;
    var row := bx * blockM + i;
    var on, scale, z := ForwardMask(s, row), Times(sm, c), Times(sink, c);
    var start, end := ForwardStart(s, bx, blockM, blockN), ForwardEnd(s, bx, blockM, blockN);
    ForwardRange(s, bx, i, blockM, blockN);
    var m, logsum, acc := OnlineRow(e, on, raw, value, scale, start, end, blockN, dim, true);
    ghost var ks := RowKeys(on, raw, scale, value);
    VarlenReference(e, c, raw, value, sm, sink, s, row);
    if m.NegInf? {
      out, lse := seq(dim, _ => 0.0), NaN;
      BeforeFirstKey(e, ks, z, s, bx, blockM, row);
    } else {
      FinishRange(start, end, blockN);
      BeyondKeys(s, row);
      FinishRow(e, lg, ks, z, Times(m.v, scale), start * blockN, end * blockN, s.klen);
      var l;
      out, l := Finish(e, lg, m.v, scale, z, logsum, acc);
      lse := Real(l);
      if s.causal && row + s.Offset() < 0 {
        out := seq(dim, _ => 0.0);
        BeforeFirstKey(e, ks, z, s, bx, blockM, row);
      }
    }
  }

  lemma BeyondKeys(s: Sequence, row: int)
    ensures forall k :: ForwardPair(s, row, k) ==> k < s.klen
  {
  }

  /** The reference, stated over the kernel's mask. */
  lemma VarlenReference(e: real -> real, c: real, raw: int -> real, value: (int, int) -> real, sm: real, sink: real,
                        s: Sequence, row: int)
    requires ExpLaw(e) && 0 <= row < s.qlen
    ensures var ks, ks' := RowKeys(ForwardMask(s, row), raw, Times(sm, c), value),
            RowKeys(PairMask(s, row), raw, Times(sm, c), value);
            && Normalizer(e, c, PairMask(s, row), raw, sm, sink, s.klen) > 0.0
            && Den(e, ks, 0.0, 0, s.klen) == Den(e, ks', 0.0, 0, s.klen)
            && forall d :: Reference(e, c, PairMask(s, row), raw, sm, sink, s.klen, value, d)
                == Attend(e, ks, Times(sink, c), d, 0, s.klen)
  {
    hide Times, Sum, Den, Attend, Reference;
    var ks, ks' := RowKeys(ForwardMask(s, row), raw, Times(sm, c), value),
        RowKeys(PairMask(s, row), raw, Times(sm, c), value);
    SameMask(e, ks, ks', Times(sink, c), s.klen);
    ReferenceIsAttention(e, c, PairMask(s, row), raw, sm, sink, s.klen, value);
  }

  /** A row without keys, or before the first one, has output zero. */
  lemma BeforeFirstKey(e: real -> real, ks: Keys, z: real, s: Sequence, bx: nat, blockM: nat, row: int)
    requires ExpLaw(e) && ks.on == ForwardMask(s, row) && row < (bx + 1) * blockM
    requires NoBlock(s, bx, blockM) || (s.causal && row + s.Offset() < 0)
    ensures forall d :: Attend(e, ks, z, d, 0, s.klen) == 0.0
  {
    hide Attend, ExpLaw;
    NothingVisible(e, ks, z, s.klen);
  }

  lemma NothingVisible(e: real -> real, ks: Keys, z: real, n: nat)
    requires ExpLaw(e) && forall k :: 0 <= k < n ==> !ks.on(k)
    ensures forall d :: Attend(e, ks, z, d, 0, n) == 0.0
  {
    hide Times, Sum;
    forall d ensures Attend(e, ks, z, d, 0, n) == 0.0 {
      forall k | 0 <= k < n ensures Weighted(e, ks, 0.0, d)(k) == 0.0 { TimesUnit(ks.value(k, d)); }
      SumZero(0, n, Weighted(e, ks, 0.0, d));
      TotalPositive(e, ks, 0.0, 0, n, z);
      ZeroOver(Den(e, ks, 0.0, 0, n) + e(z));
    }
  }

  lemma ZeroOver(t: real)
    requires t > 0.0
    ensures 0.0 / t == 0.0
  {
  }

  /** A causal sequence with more queries than keys loses the logarithm of its leading blocks: with 100
      queries, 10 keys and blocks of 64 rows, that of row 0. */
  lemma LseLost()
    ensures var s := Sequence(100, 10, true, Whole); NoBlock(s, 0, 64) && !NoBlock(s, 1, 64)
    ensures forall s: Sequence, bx: nat, blockM: nat ::
              s.klen >= 1 && blockM >= 1 && (s.qlen <= s.klen || !s.causal) ==> !NoBlock(s, bx, blockM)
  {
    forall s: Sequence, bx: nat, blockM: nat | s.klen >= 1 && blockM >= 1 && (s.qlen <= s.klen || !s.causal)
      ensures !NoBlock(s, bx, blockM)
    {
      assert (bx + 1) * blockM >= 1 by { Multiple(bx + 1, blockM); }
    }
  }
}
