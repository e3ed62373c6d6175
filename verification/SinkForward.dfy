/** Online softmax with attention sinks: the block loop of one query row and the one-shot reference. */
module SinkForward {
  import opened Arith
  import opened RealArith
  import opened Sums
  import opened Softmax

  // ---------------------------------------------------------------- the one-shot reference

  function Logit(on: int -> bool, raw: int -> real, sm: real, k: int): Ext {
    if on(k) then Fin(Times(raw(k), sm)) else NegInf
  }

  function LogitsMax(on: int -> bool, raw: int -> real, sm: real, n: nat): Ext {
    if n == 0 then NegInf else MaxExt(LogitsMax(on, raw, sm, n - 1), Logit(on, raw, sm, n - 1))
  }

  /** The larger of the sink and the largest logit. */
  function SharedMax(on: int -> bool, raw: int -> real, sm: real, sink: real, n: nat): real {
    MaxExt(Fin(sink), LogitsMax(on, raw, sm, n)).v
  }

  /** exp(x - mx) in base e, written through exp2 with c standing for log2(e). */
  function ExpOf(e: real -> real, c: real, x: Ext, mx: real): real {
    match x case NegInf => 0.0 case Fin(v) => e(Times(v - mx, c))
  }

  function Unnormalized(e: real -> real, c: real, on: int -> bool, raw: int -> real, sm: real, mx: real): int -> real {
    k => ExpOf(e, c, Logit(on, raw, sm, k), mx)
  }

  function Normalizer(e: real -> real, c: real, on: int -> bool, raw: int -> real, sm: real, sink: real, n: nat): real {
    var mx := SharedMax(on, raw, sm, sink, n);
    Sum(0, n, Unnormalized(e, c, on, raw, sm, mx)) + ExpOf(e, c, Fin(sink), mx)
  }

  function Scores(e: real -> real, c: real, on: int -> bool, raw: int -> real, sm: real, sink: real,
                  n: nat): int -> real
    requires Normalizer(e, c, on, raw, sm, sink, n) != 0.0
  {
    var mx, z := SharedMax(on, raw, sm, sink, n), Normalizer(e, c, on, raw, sm, sink, n);
    k => Unnormalized(e, c, on, raw, sm, mx)(k) / z
  }

  function Reference(e: real -> real, c: real, on: int -> bool, raw: int -> real, sm: real, sink: real, n: nat,
                     value: (int, int) -> real, d: int): real
    requires Normalizer(e, c, on, raw, sm, sink, n) != 0.0
  {
    var s := Scores(e, c, on, raw, sm, sink, n);
    Sum(0, n, k => Times(s(k), value(k, d)))
  }

  /** The keys of a row with raw scores, scaled by sm * log2(e). */
  function RowKeys(on: int -> bool, raw: int -> real, scale: real, value: (int, int) -> real): Keys {
    Keys(on, k => Times(raw(k), scale), value)
  }

  lemma ScaledLogit(r: real, sm: real, c: real, mx: real)
    ensures Times(Times(r, sm) - mx, c) == Times(r, Times(sm, c)) - Times(mx, c)
  {
    hide Times;
    TimesSum(Times(r, sm), mx, c);
    TimesAssoc(r, sm, c);
  }

  /** The reference is attention with the sink logit, whatever its maximum. */
  lemma ReferenceIsAttention(e: real -> real, c: real, on: int -> bool, raw: int -> real, sm: real, sink: real, n: nat,
                             value: (int, int) -> real)
    requires ExpLaw(e)
    ensures Normalizer(e, c, on, raw, sm, sink, n) > 0.0
    ensures forall d :: Reference(e, c, on, raw, sm, sink, n, value, d)
                        == Attend(e, RowKeys(on, raw, Times(sm, c), value), Times(sink, c), d, 0, n)
  {
    hide Sum, Times;
    var ks, z, mx := RowKeys(on, raw, Times(sm, c), value), Times(sink, c), SharedMax(on, raw, sm, sink, n);
    var m := Times(mx, c);
    var u := Unnormalized(e, c, on, raw, sm, mx);
    forall k ensures u(k) == Weight(e, ks, m)(k) { ScaledLogit(raw(k), sm, c, mx); }
    SumEq(0, n, u, Weight(e, ks, m));
    TimesSum(sink, mx, c);
    AnyReference(e, ks, z, m, 0, n);
    var t := Normalizer(e, c, on, raw, sm, sink, n);
    forall d ensures Reference(e, c, on, raw, sm, sink, n, value, d) == Num(e, ks, m, d, 0, n) / t {
      var s := Scores(e, c, on, raw, sm, sink, n);
      forall k ensures Weighted(e, ks, m, d)(k) == Times(t, Times(s(k), value(k, d))) {
        TimesQuotient(u(k), t);
        TimesAssoc(s(k), t, value(k, d));
        TimesAssoc(t, s(k), value(k, d));
      }
      SumTimes(0, n, t, k => Times(s(k), value(k, d)), Weighted(e, ks, m, d));
      DivideOut(t, Reference(e, c, on, raw, sm, sink, n, value, d), Num(e, ks, m, d, 0, n));
    }
  }

  lemma DivideOut(t: real, r: real, x: real)
    requires t > 0.0 && Times(t, r) == x
    ensures r == x / t
  {
    QuotientIs(x, t, r);
  }

  // ---------------------------------------------------------------- the block loop of one row

  /** Running maximum over one block of masked scores. */
  method BlockMax(on: int -> bool, raw: int -> real, lo: int, blockN: nat, prev: Ext) returns (m: Ext)
    ensures m.NegInf? <==> prev.NegInf? && forall k :: lo <= k < lo + blockN ==> !on(k)
    ensures m.Fin? ==> m == prev || exists k :: lo <= k < lo + blockN && on(k) && m.v == raw(k)
    ensures prev.Fin? ==> prev.v <= m.v
    ensures forall k :: lo <= k < lo + blockN && on(k) ==> raw(k) <= m.v
  {
    m := prev;
    for j := 0 to blockN
      invariant m.NegInf? <==> prev.NegInf? && forall k :: lo <= k < lo + j ==> !on(k)
      invariant m.Fin? ==> m == prev || exists k :: lo <= k < lo + j && on(k) && m.v == raw(k)
      invariant prev.Fin? ==> prev.v <= m.v
      invariant forall k :: lo <= k < lo + j && on(k) ==> raw(k) <= m.v
    {
      var s := if on(lo + j) then Fin(raw(lo + j)) else NegInf;
      m := MaxExt(m, s);
    }
  }

  /** The exponentials of one block and their sum. */
  method Exponentials(e: real -> real, on: int -> bool, raw: int -> real, scale: real, m: Ext, lo: int, blockN: nat,
                      ghost ks: Keys)
    returns (p: seq<real>, sum: real)
    requires m.Fin? && ks.on == on && forall k :: ks.score(k) == Times(raw(k), scale)
    ensures |p| == blockN && forall j :: 0 <= j < blockN ==> p[j] == Weight(e, ks, Times(m.v, scale))(lo + j)
    ensures sum == Den(e, ks, Times(m.v, scale), lo, lo + blockN)
  {
    p, sum := [], 0.0;
    for j := 0 to blockN
      invariant |p| == j && forall i :: 0 <= i < j ==> p[i] == Weight(e, ks, Times(m.v, scale))(lo + i)
      invariant sum == Den(e, ks, Times(m.v, scale), lo, lo + j)
    {
      var s := if on(lo + j) then Fin(raw(lo + j)) else NegInf;
      p := p + [ExpDiff(e, s, m, scale)];
      sum := sum + p[j];
    }
  }

  /** acc = acc * c, then acc += p V for the values of one block. */
  method Accumulate(acc: array<real>, c: real, p: seq<real>, value: (int, int) -> real, lo: int)
    modifies acc
    ensures forall d :: 0 <= d < acc.Length ==>
              acc[d] == Times(old(acc[d]), c)
                        + Sum(0, |p|, j => Times(if 0 <= j < |p| then p[j] else 0.0, value(lo + j, d)))
  {
    hide Times;
    for d := 0 to acc.Length
      invariant forall i :: 0 <= i < d ==>
        acc[i] == Times(old(acc[i]), c) + Sum(0, |p|, j => Times(if 0 <= j < |p| then p[j] else 0.0, value(lo + j, i)))
      invariant forall i :: d <= i < acc.Length ==> acc[i] == old(acc[i])
    {
      var x := Times(acc[d], c);
      ghost var f: int -> real := j => Times(if 0 <= j < |p| then p[j] else 0.0, value(lo + j, d));
      for j := 0 to |p|
        invariant x == Times(old(acc[d]), c) + Sum(0, j, f)
      {
        x := x + Times(p[j], value(lo + j, d));
      }
      acc[d] := x;
      SumEq(0, |p|, f, j => Times(if 0 <= j < |p| then p[j] else 0.0, value(lo + j, d)));
    }
  }

  lemma BlockProduct(e: real -> real, ks: Keys, m: real, p: seq<real>, lo: int, d: int)
    requires forall j :: 0 <= j < |p| ==> p[j] == Weight(e, ks, m)(lo + j)
    ensures Sum(0, |p|, j => Times(if 0 <= j < |p| then p[j] else 0.0, ks.value(lo + j, d)))
            == Num(e, ks, m, d, lo, lo + |p|)
  {
    hide Times;
    SumShift(0, |p|, lo, Weighted(e, ks, m, d), j => Times(if 0 <= j < |p| then p[j] else 0.0, ks.value(lo + j, d)));
  }

  /** The running state of a row after the keys [first, lo): a finite maximum is the reference of both sums;
      -inf means that no unmasked key has been met and nothing has been accumulated. */
  ghost predicate RowState(e: real -> real, ks: Keys, scale: real, first: int, lo: int, m: Ext, logsum: real,
                           acc: seq<real>) {
    && first <= lo
    && (m.NegInf? ==> (forall k :: first <= k < lo ==> !ks.on(k)) && forall d :: 0 <= d < |acc| ==> acc[d] == 0.0)
    && (m.Fin? ==>
          && logsum == Den(e, ks, Times(m.v, scale), first, lo)
          && forall d :: 0 <= d < |acc| ==> acc[d] == Num(e, ks, Times(m.v, scale), d, first, lo))
  }

  /** One block: new maximum (forced to 0 on request), rescaling of the sums, and the block's own share.
      The old logsum does not matter while the maximum is -inf. */
  method BlockStep(e: real -> real, on: int -> bool, raw: int -> real, value: (int, int) -> real, scale: real,
                   ghost first: int, lo: int, blockN: nat, force: bool, prev: Ext, logsum: real, acc: array<real>)
    returns (m: Ext, logsum': real)
    requires ExpLaw(e) && RowState(e, RowKeys(on, raw, scale, value), scale, first, lo, prev, logsum, acc[..])
    requires force || prev.Fin? || exists k :: lo <= k < lo + blockN && on(k)
    modifies acc
    ensures m.Fin? && RowState(e, RowKeys(on, raw, scale, value), scale, first, lo + blockN, m, logsum', acc[..])
  {
    hide Times, Sum, Weight, Weighted;
    ghost var ks := RowKeys(on, raw, scale, value);
    m := BlockMax(on, raw, lo, blockN, prev);
    if force && m == NegInf { m := Fin(0.0); }
    var c := ExpDiff(e, prev, m, scale);
    var p, sum := Exponentials(e, on, raw, scale, m, lo, blockN, ks);
    Accumulate(acc, c, p, value, lo);
    logsum' := Times(logsum, c) + sum;
    ghost var r, r' := if prev.Fin? then Times(prev.v, scale) else 0.0, Times(m.v, scale);
    if prev.NegInf? { NoKeys(e, ks, first, lo); TimesUnit(e(r - r')); TimesUnit(logsum); }
    Append(e, ks, r, r', first, lo, lo + blockN);
    forall d | 0 <= d < acc.Length ensures acc[d] == Num(e, ks, r', d, first, lo + blockN) {
      BlockProduct(e, ks, r', p, lo, d);
      TimesUnit(c);
    }
  }

  lemma NoKeys(e: real -> real, ks: Keys, lo: int, hi: int)
    requires lo <= hi && forall k :: lo <= k < hi ==> !ks.on(k)
    ensures forall m :: Den(e, ks, m, lo, hi) == 0.0
    ensures forall m, d :: Num(e, ks, m, d, lo, hi) == 0.0
  {
    EmptyRange(e, ks, lo);
    forall m ensures Den(e, ks, m, lo, hi) == 0.0 { RangeIrrelevant(e, ks, m, lo, lo, lo, hi); }
    forall m, d ensures Num(e, ks, m, d, lo, hi) == 0.0 { RangeIrrelevant(e, ks, m, lo, lo, lo, hi); }
  }

  /** The loop over key blocks [start, end). */
  method OnlineRow(e: real -> real, on: int -> bool, raw: int -> real, value: (int, int) -> real, scale: real,
                   start: int, end: int, blockN: nat, dim: nat, force: bool)
    returns (m: Ext, logsum: real, acc: array<real>)
    requires ExpLaw(e) && blockN >= 1
    requires force || start >= end || exists k :: start * blockN <= k < start * blockN + blockN && on(k)
    ensures fresh(acc) && acc.Length == dim
    ensures m.NegInf? <==> start >= end
    ensures RowState(e, RowKeys(on, raw, scale, value), scale, start * blockN, Max(start, end) * blockN, m, logsum,
                     acc[..])
  {
    hide RowState;
    ghost var ks := RowKeys(on, raw, scale, value);
    m, logsum := NegInf, 0.0;
    acc := new real[dim](_ => 0.0);
    var b := start;
    EmptyState(e, ks, scale, start * blockN, 0.0, acc[..]);
    while b < end
      invariant fresh(acc) && acc.Length == dim
      invariant start <= b <= Max(start, end)
      invariant m.NegInf? <==> b == start
      invariant RowState(e, ks, scale, start * blockN, b * blockN, m, logsum, acc[..])
    {
      m, logsum := BlockStep(e, on, raw, value, scale, start * blockN, b * blockN, blockN, force, m, logsum, acc);
      assert (b + 1) * blockN == b * blockN + blockN;
      b := b + 1;
    }
  }

  lemma EmptyState(e: real -> real, ks: Keys, scale: real, first: int, logsum: real, acc: seq<real>)
    requires forall d :: 0 <= d < |acc| ==> acc[d] == 0.0
    ensures RowState(e, ks, scale, first, first, NegInf, logsum, acc)
  {
  }

  lemma EmptyRange(e: real -> real, ks: Keys, lo: int)
    ensures forall m :: Den(e, ks, m, lo, lo) == 0.0
    ensures forall m, d :: Num(e, ks, m, d, lo, lo) == 0.0
  {
  }

  // ---------------------------------------------------------------- masks and block ranges

  datatype Window = Whole | Sliding(size: int)

  ghost predicate Positive(w: Window) { w.Sliding? ==> w.size >= 1 }

  /** The mask the kernel writes before the matrix product. */
  predicate KernelSees(w: Window, q: int, k: int) {
    q >= k && (w.Sliding? ==> q < k + w.size)
  }

  function KernelMask(w: Window, q: int): int -> bool { k => KernelSees(w, q, k) }

  /** The mask of the reference: too new, or too old. */
  function ReferenceMask(w: Window, q: int): int -> bool {
    k => !(k > q) && !(w.Sliding? && k < q - w.size + 1)
  }

  function Min(a: int, b: int): int { if a <= b then a else b }
  function Max(a: int, b: int): int { if a >= b then a else b }

  function StartBlock(w: Window, bx: int, blockM: int, past: int, blockN: int): int
    requires blockN >= 1
  {
    if w.Sliding? then Max(0, (bx * blockM + past - w.size) / blockN) else 0
  }

  function EndBlock(bx: int, blockM: int, past: int, seqKv: int, blockN: int): int
    requires blockN >= 1
  {
    Min(CeilDiv(seqKv, blockN), CeilDiv((bx + 1) * blockM + past, blockN))
  }

  /** start = max(0, lo / n) and end = min(ceil(hi1 / n), ceil(hi2 / n)) enclose the positions from lo to
      both upper bounds, and are a non-empty range as soon as those are. */
  lemma BlocksEnclose(lo: int, hi1: int, hi2: int, n: int)
    requires n >= 1
    ensures var st, ed := Max(0, lo / n), Min(CeilDiv(hi1, n), CeilDiv(hi2, n));
            && st >= 0 && st * n <= Max(0, lo)
            && ed * n >= Min(hi1, hi2)
            && (Max(0, lo) < Min(hi1, hi2) ==> st < ed)
  {
    var st, ed := Max(0, lo / n), Min(CeilDiv(hi1, n), CeilDiv(hi2, n));
    assert lo / n * n <= lo by { assert lo == lo / n * n + lo % n; }
    CeilDivBounds(hi1, n);
    CeilDivBounds(hi2, n);
    if ed <= st { MulOrder(ed, st, n); }
  }

  /** The blocks visited by a valid row hold all its visible keys, at least one block is visited, and
      without a window the first of them holds a visible key. */
  lemma RangeCoversVisible(w: Window, bx: nat, i: nat, blockM: int, past: nat, seqKv: int, blockN: int, q: int,
                           st: int, ed: int)
    requires Positive(w) && blockN >= 1 && i < blockM && q == bx * blockM + i + past < seqKv
    requires st == StartBlock(w, bx, blockM, past, blockN) && ed == EndBlock(bx, blockM, past, seqKv, blockN)
    ensures 0 <= st < ed && 0 <= st * blockN <= ed * blockN && st * blockN <= seqKv
    ensures forall k :: k >= 0 && KernelSees(w, q, k) ==> st * blockN <= k < ed * blockN && k < seqKv
    ensures w.Whole? ==> st * blockN == 0 && KernelSees(w, q, 0)
  {
    var lo := if w.Sliding? then bx * blockM + past - w.size else 0;
    assert bx * blockM >= 0;
    assert (bx + 1) * blockM == bx * blockM + blockM;
    assert 0 / blockN == 0;
    BlocksEnclose(lo, seqKv, (bx + 1) * blockM + past, blockN);
    FinishRange(st, ed, blockN);
  }

  /** Masks that agree on the range give the same attention. */
  lemma SameMask(e: real -> real, ks: Keys, ks': Keys, z: real, hi: nat)
    requires ExpLaw(e) && ks.score == ks'.score && ks.value == ks'.value
    requires forall k :: 0 <= k < hi ==> ks.on(k) == ks'.on(k)
    ensures Den(e, ks, 0.0, 0, hi) == Den(e, ks', 0.0, 0, hi)
    ensures forall d :: Attend(e, ks, z, d, 0, hi) == Attend(e, ks', z, d, 0, hi)
  {
    hide Sum, Times;
    SumEq(0, hi, Weight(e, ks, 0.0), Weight(e, ks', 0.0));
    forall d ensures Num(e, ks, 0.0, d, 0, hi) == Num(e, ks', 0.0, d, 0, hi) {
      SumEq(0, hi, Weighted(e, ks, 0.0, d), Weighted(e, ks', 0.0, d));
    }
  }

  /** From the sums over the visited blocks to attention over all keys, and to the stored logarithm. */
  lemma FinishRow(e: real -> real, lg: real -> real, ks: Keys, z: real, r: real, lo: int, hi: int, n: nat)
    requires ExpLaw(e) && LogLaw(e, lg) && 0 <= lo <= hi && lo <= n
    requires forall k :: 0 <= k < n || lo <= k < hi ==> ks.on(k) ==> lo <= k < hi && k < n
    ensures var t := Den(e, ks, r, lo, hi) + e(z - r);
            && t > 0.0 && e(lg(t) + r) == Den(e, ks, 0.0, 0, n) + e(z)
            && forall d :: Num(e, ks, r, d, lo, hi) / t == Attend(e, ks, z, d, 0, n)
  {
    hide Sum, Times, Weight, Weighted;
    AnyReference(e, ks, z, r, 0, n);
    LogOfTotal(e, lg, ks, z, r, 0, n);
    SameRange(e, ks, r, lo, hi, 0, n);
  }

  /** The row is what the reference computes. */
  ghost predicate OutputCorrect(e: real -> real, c: real, on: int -> bool, raw: int -> real, sm: real, sink: real,
                                n: nat, value: (int, int) -> real, out: seq<real>)
    requires ExpLaw(e)
  {
    ReferenceIsAttention(e, c, on, raw, sm, sink, n, value);
    forall d :: 0 <= d < |out| ==> out[d] == Reference(e, c, on, raw, sm, sink, n, value, d)
  }

  /** The stored number is the logarithm of the whole normaliser, sink included. */
  ghost predicate LseCorrect(e: real -> real, c: real, on: int -> bool, raw: int -> real, sm: real, sink: real, n: nat,
                             value: (int, int) -> real, lse: real)
  {
    e(lse) == Den(e, RowKeys(on, raw, Times(sm, c), value), 0.0, 0, n) + e(Times(sink, c))
  }

  /** acc / logsum once the sink's weight is in logsum, and the stored logarithm. */
  method Finish(e: real -> real, lg: real -> real, m: real, scale: real, z: real, logsum: real, acc: array<real>)
    returns (out: seq<real>, lse: real)
    requires logsum + e(z - Times(m, scale)) > 0.0
    ensures |out| == acc.Length && forall d :: 0 <= d < |out| ==> out[d] == acc[d] / (logsum + e(z - Times(m, scale)))
    ensures lse == lg(logsum + e(z - Times(m, scale))) + Times(m, scale)
  {
    var total := logsum + e(z - Times(m, scale));
    out := [];
    for d := 0 to acc.Length
      invariant |out| == d && forall i :: 0 <= i < d ==> out[i] == acc[i] / total
    {
      out := out + [acc[d] / total];
    }
    lse := lg(total) + Times(m, scale);
  }

  /** One valid row of the fixed-length kernels. */
  method SinkRow(e: real -> real, lg: real -> real, raw: int -> real, value: (int, int) -> real, sm: real, c: real,
                 sink: real, seqQ: nat, seqKv: nat, w: Window, bx: nat, i: nat, blockM: nat, blockN: nat, dim: nat)
    returns (out: seq<real>, lse: real)
    requires ExpLaw(e) && LogLaw(e, lg) && Positive(w)
    requires seqQ <= seqKv && blockN >= 1 && i < blockM && bx * blockM + i < seqQ
    ensures |out| == dim
    ensures OutputCorrect(e, c, ReferenceMask(w, bx * blockM + i + (seqKv - seqQ)), raw, sm, sink, seqKv, value, out)
    ensures LseCorrect(e, c, ReferenceMask(w, bx * blockM + i + (seqKv - seqQ)), raw, sm, sink, seqKv, value, lse)
  {
    hide Times, Sum, Den, Num, Attend, Weight, Weighted, StartBlock, EndBlock, Reference, ExpLaw, LogLaw;
    var past := seqKv - seqQ;
    var q := bx * blockM + i + past;
    var on, scale, z := KernelMask(w, q), Times(sm, c), Times(sink, c);
    var start, end := StartBlock(w, bx, blockM, past, blockN), EndBlock(bx, blockM, past, seqKv, blockN);
    RangeCoversVisible(w, bx, i, blockM, past, seqKv, blockN, q, start, end);
    assert w.Whole? ==> on(0);
    var m, logsum, acc := OnlineRow(e, on, raw, value, scale, start, end, blockN, dim, w.Sliding?);
    ghost var ks, ks' := RowKeys(on, raw, scale, value), RowKeys(ReferenceMask(w, q), raw, scale, value);
    FinishRow(e, lg, ks, z, Times(m.v, scale), start * blockN, end * blockN, seqKv);
    out, lse := Finish(e, lg, m.v, scale, z, logsum, acc);
    SameMask(e, ks, ks', z, seqKv);
    ReferenceIsAttention(e, c, ReferenceMask(w, q), raw, sm, sink, seqKv, value);
  }

  lemma FinishRange(start: int, end: int, n: int)
    requires 0 <= start < end && n >= 1
    ensures 0 <= start * n <= end * n
  {
    MulOrder(start, end, n);
    MulOrder(0, start, n);
  }
}
