/** The backward kernel over packed sequences: which pairs it visits. */
module VarlenBackward {
  import opened Arith
  import opened SinkForward
  import opened VarlenForward

  // ---------------------------------------------------------------- pairs

  /** The backward mask on query row q and key k. */
  predicate BackwardPair(s: Sequence, q: int, k: int) {
    && (s.causal ==> k <= q + s.Offset())
    && (s.window.Sliding? ==> k > q + s.Offset() - s.window.size)
    && k < s.klen && q < s.qlen
  }

  function LoopStart(s: Sequence, b: int, blockM: int, blockN: int): int
    requires blockN >= 1
  {
    if s.causal then Max(0, (b * blockM - s.Offset()) / blockN) else 0
  }

  function LoopEnd(s: Sequence, b: int, blockM: int, blockN: int): int
    requires blockN >= 1
  {
    if s.window.Sliding?
    then Min(CeilDiv((b + 1) * blockM - s.Offset() + s.window.size, blockN), CeilDiv(s.qlen, blockN))
    else CeilDiv(s.qlen, blockN)
  }

  /** Forward mask, backward mask and reference mask are the same relation on the tiles' indices. */
  lemma MasksAgree(s: Sequence, q: int, k: int)
    ensures ForwardPair(s, q, k) <==> BackwardPair(s, q, k)
    ensures BackwardPair(s, q, k) <==> ReferencePair(s, q, k) && q < s.qlen && k < s.klen
  {
  }

  /** The query blocks visited for a key block hold every unmasked pair of that key block. */
  lemma LoopCovers(s: Sequence, b: nat, blockM: int, blockN: int, st: int, ed: int)
    requires blockM >= 1 && blockN >= 1
    requires st == LoopStart(s, b, blockM, blockN) && ed == LoopEnd(s, b, blockM, blockN)
    ensures 0 <= st
    ensures forall q, k :: q >= 0 && b * blockM <= k < b * blockM + blockM && BackwardPair(s, q, k) ==>
              st * blockN <= q < ed * blockN
  {
    var lo := if s.causal then b * blockM - s.Offset() else 0;
    var hi := if s.window.Sliding? then (b + 1) * blockM - s.Offset() + s.window.size else s.qlen;
    assert (b + 1) * blockM == b * blockM + blockM;
    assert 0 / blockN == 0;
    BlocksEnclose(lo, hi, s.qlen, blockN);
  }

  predicate ForwardVisits(s: Sequence, blockM: int, blockN: int, q: int, k: int)
    requires blockM >= 1 && blockN >= 1
  {
    ForwardStart(s, q / blockM, blockM, blockN) <= k / blockN < ForwardEnd(s, q / blockM, blockM, blockN)
  }

  predicate BackwardVisits(s: Sequence, blockM: int, blockN: int, grid: int, q: int, k: int)
    requires blockM >= 1 && blockN >= 1
  {
    k / blockM < grid && LoopStart(s, k / blockM, blockM, blockN) <= q / blockN < LoopEnd(s, k / blockM, blockM, blockN)
  }

  /** Weighted pairs of the forward blocks, of the backward blocks (each with its own block sizes) and of the
      reference coincide, up to the keys beyond the launched backward grid. */
  lemma PairsAgree(s: Sequence, fM: int, fN: int, bM: int, bN: int, grid: int, q: nat, k: nat)
    requires Positive(s.window) && fM >= 1 && fN >= 1 && bM >= 1 && bN >= 1
    ensures ForwardVisits(s, fM, fN, q, k) && ForwardPair(s, q, k)
            <==> ReferencePair(s, q, k) && q < s.qlen && k < s.klen
    ensures BackwardVisits(s, bM, bN, grid, q, k) && BackwardPair(s, q, k)
            <==> ReferencePair(s, q, k) && q < s.qlen && k < s.klen && k < grid * bM
  {
    MasksAgree(s, q, k);
    DivBelow(k, bM, grid);
    if BackwardPair(s, q, k) {
      Quotients(q, fM);
      ForwardRange(s, q / fM, q % fM, fM, fN);
      Between(k, fN, ForwardStart(s, q / fM, fM, fN), ForwardEnd(s, q / fM, fM, fN));
      Quotients(k, bM);
      LoopCovers(s, k / bM, bM, bN, LoopStart(s, k / bM, bM, bN), LoopEnd(s, k / bM, bM, bN));
      Between(q, bN, LoopStart(s, k / bM, bM, bN), LoopEnd(s, k / bM, bM, bN));
    }
  }

  lemma Between(x: int, n: int, lo: int, hi: int)
    requires n >= 1 && lo * n <= x < hi * n
    ensures lo <= x / n < hi
  {
    DivBelow(x, n, hi);
    DivBelow(x, n, lo);
  }

  /** The launched grid reaches every weighted pair exactly when it reaches the last key. */
  lemma GridCoversIff(s: Sequence, maxSeq: nat, blockM: int)
    requires Positive(s.window) && blockM >= 1 && s.qlen >= 1 && s.klen >= 1
    ensures (forall q, k :: 0 <= q < s.qlen && 0 <= k < s.klen && ReferencePair(s, q, k) ==>
               k < CeilDiv(maxSeq, blockM) * blockM)
            <==> s.klen <= CeilDiv(maxSeq, blockM) * blockM
  {
    assert ReferencePair(s, s.qlen - 1, s.klen - 1);
  }

  /** The wrapper launches with the longest query length: 128 queries against 256 keys, in key blocks of
      128, leave the pair of query 127 and key 255 without gradient. */
  lemma GridTooSmall()
    ensures var s := Sequence(128, 256, true, Whole);
            ReferencePair(s, 127, 255) && !BackwardVisits(s, 128, 32, CeilDiv(128, 128), 127, 255)
  {
  }

  /** The mask of the fixed-length kernel, which tests no sequence bounds. */
  predicate FixedPair(w: Window, q: int, k: int) {
    k <= q && (w.Sliding? ==> k > q - w.size)
  }

  /** The fixed-length kernel: on valid queries its mask is that of a packed sequence with as many keys as queries,
      keys past the end included, and its loop bounds hold every unmasked pair of every key block, at
      least one query block for a key block that starts inside. */
  lemma FixedLength(n: nat, w: Window, b: nat, blockM: int, blockN: int, st: int, ed: int)
    requires Positive(w) && blockM >= 1 && blockN >= 1
    requires st == b * blockM / blockN
    requires ed == if w.Sliding? then Min(CeilDiv((b + 1) * blockM + w.size, blockN), CeilDiv(n, blockN))
             else CeilDiv(n, blockN)
    ensures forall q, k :: q < n ==> (FixedPair(w, q, k) <==> BackwardPair(Sequence(n, n, true, w), q, k))
    ensures forall q, k :: 0 <= q < n && b * blockM <= k < b * blockM + blockM && FixedPair(w, q, k) ==>
              st * blockN <= q < ed * blockN
    ensures b * blockM < n ==> st < ed
  {
    var s := Sequence(n, n, true, w);
    MulOrder(0, b, blockM);
    assert (b + 1) * blockM == b * blockM + blockM;
    NonNegativeQuotient(b * blockM, blockN);
    LoopCovers(s, b, blockM, blockN, st, ed);
    BlocksEnclose(b * blockM, if w.Sliding? then (b + 1) * blockM + w.size else n, n, blockN);
  }

  lemma NonNegativeQuotient(x: nat, n: int)
    requires n >= 1
    ensures x / n >= 0
  {
  }
}
