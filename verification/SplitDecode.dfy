/** Decoding with the keys split over workers, and the merge of their partial results. */
module SplitDecode {
  import opened Arith
  import opened RealArith
  import opened Sums
  import opened Softmax
  import opened SinkForward
  import opened Nan

  /** Plain softmax attention over the unmasked keys in [0, n). */
  function Plain(e: real -> real, ks: Keys, n: int, d: int): real
    requires Den(e, ks, 0.0, 0, n) != 0.0
  {
    Num(e, ks, 0.0, d, 0, n) / Den(e, ks, 0.0, 0, n)
  }

  /** Without a sink the quotient does not depend on the reference either. */
  lemma PlainReference(e: real -> real, lg: real -> real, ks: Keys, r: real, lo: int, hi: int, k: int)
    requires ExpLaw(e) && LogLaw(e, lg) && lo <= k < hi && ks.on(k)
    ensures Den(e, ks, r, lo, hi) > 0.0 && Den(e, ks, 0.0, lo, hi) > 0.0
    ensures e(lg(Den(e, ks, r, lo, hi)) + r) == Den(e, ks, 0.0, lo, hi)
    ensures forall d ::
              Num(e, ks, r, d, lo, hi) / Den(e, ks, r, lo, hi) == Num(e, ks, 0.0, d, lo, hi) / Den(e, ks, 0.0, lo, hi)
  {
    hide Sum, Times, Weight, Weighted;
    DenPositive(e, ks, r, lo, hi, k);
    DenPositive(e, ks, 0.0, lo, hi, k);
    Rebase(e, ks, 0.0, r, lo, hi);
    Rebase(e, ks, r, 0.0, lo, hi);
    ExpSum(e, lg(Den(e, ks, r, lo, hi)), r);
    TimesAssoc(e(r - 0.0), Den(e, ks, r, lo, hi), 1.0);
    forall d ensures Num(e, ks, r, d, lo, hi) / Den(e, ks, r, lo, hi)
        == Num(e, ks, 0.0, d, lo, hi) / Den(e, ks, 0.0, lo, hi) {
      RatioCancel(e(0.0 - r), Num(e, ks, 0.0, d, lo, hi), Den(e, ks, 0.0, lo, hi));
    }
  }

  // ---------------------------------------------------------------- merging

  /** What a split leaves behind: an output row, and the logarithm of its normaliser or -inf. */
  datatype Partial = Partial(out: seq<real>, lse: Ext)

  /** The partial result of the keys [lo, hi). */
  ghost predicate PartOf(e: real -> real, ks: Keys, lo: int, hi: int, dim: nat, p: Partial) {
    && |p.out| == dim
    && (p.lse.NegInf? ==> forall k :: lo <= k < hi ==> !ks.on(k))
    && (p.lse.Fin? ==>
          var den := Den(e, ks, 0.0, lo, hi);
          den > 0.0 && e(p.lse.v) == den && forall d :: 0 <= d < dim ==> p.out[d] == Num(e, ks, 0.0, d, lo, hi) / den)
  }

  function PartLse(ps: seq<Partial>): int -> real { s => if 0 <= s < |ps| && ps[s].lse.Fin? then ps[s].lse.v else 0.0 }

  function PartOut(ps: seq<Partial>): (int, int) -> real {
    (s, d) => if 0 <= s < |ps| && 0 <= d < |ps[s].out| then ps[s].out[d] else 0.0
  }

  /** Partial results as the keys of one more softmax. */
  function PartKeys(on: int -> bool, ps: seq<Partial>): Keys { RowKeys(on, PartLse(ps), 1.0, PartOut(ps)) }

  /** Split s of the keys, [bound(s), bound(s+1)), is either taken with its partial result or left out with no key. */
  ghost predicate SplitOk(e: real -> real, ks: Keys, bound: int -> int, on: int -> bool, p: Partial, dim: nat, s: int) {
    && bound(s) <= bound(s + 1)
    && (on(s) ==> PartOf(e, ks, bound(s), bound(s + 1), dim, p) && p.lse.Fin?)
    && (!on(s) ==> forall k :: bound(s) <= k < bound(s + 1) ==> !ks.on(k))
  }

  ghost predicate Splitting(e: real -> real, ks: Keys, bound: int -> int, on: int -> bool, ps: seq<Partial>, dim: nat) {
    forall s :: 0 <= s < |ps| ==> SplitOk(e, ks, bound, on, ps[s], dim, s)
  }

  lemma EmptySplitting(e: real -> real, ks: Keys, bound: int -> int, on: int -> bool, dim: nat)
    ensures Splitting(e, ks, bound, on, [], dim)
  {
  }

  lemma SplittingAppend(e: real -> real, ks: Keys, bound: int -> int, on: int -> bool, ps: seq<Partial>, dim: nat,
                        p: Partial)
    requires Splitting(e, ks, bound, on, ps, dim) && SplitOk(e, ks, bound, on, p, dim, |ps|)
    ensures Splitting(e, ks, bound, on, ps + [p], dim)
  {
    hide SplitOk;
  }

  /** One split's weight is its normaliser and its weighted value is its numerator. */
  lemma PartShare(e: real -> real, ks: Keys, bound: int -> int, on: int -> bool, ps: seq<Partial>, dim: nat, s: int)
    requires Splitting(e, ks, bound, on, ps, dim) && 0 <= s < |ps|
    ensures Weight(e, PartKeys(on, ps), 0.0)(s) == Den(e, ks, 0.0, bound(s), bound(s + 1))
    ensures forall d :: 0 <= d < dim ==>
            Weighted(e, PartKeys(on, ps), 0.0, d)(s) == Num(e, ks, 0.0, d, bound(s), bound(s + 1))
  {
    hide Sum, Times;
    assert SplitOk(e, ks, bound, on, ps[s], dim, s);
    if on(s) {
      var den := Den(e, ks, 0.0, bound(s), bound(s + 1));
      TimesUnit(ps[s].lse.v);
      assert PartKeys(on, ps).score(s) == ps[s].lse.v;
      assert ps[s].lse.v - 0.0 == ps[s].lse.v;
      forall d | 0 <= d < dim ensures Weighted(e, PartKeys(on, ps), 0.0, d)(s)
          == Num(e, ks, 0.0, d, bound(s), bound(s + 1)) {
        TimesQuotient(Num(e, ks, 0.0, d, bound(s), bound(s + 1)), den);
        TimesAssoc(ps[s].out[d], den, 1.0);
        assert PartKeys(on, ps).value(s, d) == ps[s].out[d];
        assert Weighted(e, PartKeys(on, ps), 0.0, d)(s) == Times(den, ps[s].out[d]);
      }
    } else {
      NoKeys(e, ks, bound(s), bound(s + 1));
      forall d | 0 <= d < dim ensures Weighted(e, PartKeys(on, ps), 0.0, d)(s) == 0.0 {
        TimesUnit(PartKeys(on, ps).value(s, d));
      }
    }
  }

  /** The softmax over partial results has the sums of the softmax over all keys. */
  lemma {:induction false} MergeIsWhole(e: real -> real, ks: Keys, bound: int -> int, on: int -> bool,
                                        ps: seq<Partial>, dim: nat, n: nat)
    requires Splitting(e, ks, bound, on, ps, dim) && n <= |ps|
    ensures bound(0) <= bound(n)
    ensures Den(e, PartKeys(on, ps), 0.0, 0, n) == Den(e, ks, 0.0, bound(0), bound(n))
    ensures forall d :: 0 <= d < dim ==>
            Num(e, PartKeys(on, ps), 0.0, d, 0, n) == Num(e, ks, 0.0, d, bound(0), bound(n))
  {
    hide Times, Weight, Weighted, PartOf;
    if n > 0 {
      assert SplitOk(e, ks, bound, on, ps[n - 1], dim, n - 1);
      MergeIsWhole(e, ks, bound, on, ps, dim, n - 1);
      PartShare(e, ks, bound, on, ps, dim, n - 1);
      assert n - 1 + 1 == n;
      SumSplit(bound(0), bound(n - 1), bound(n), Weight(e, ks, 0.0));
      forall d | 0 <= d < dim ensures Num(e, PartKeys(on, ps), 0.0, d, 0, n) == Num(e, ks, 0.0, d, bound(0), bound(n)) {
        SumSplit(bound(0), bound(n - 1), bound(n), Weighted(e, ks, 0.0, d));
        var w := Weighted(e, PartKeys(on, ps), 0.0, d);
        assert w(n - 1) == Num(e, ks, 0.0, d, bound(n - 1), bound(n));
        assert Sum(0, n, w) == Sum(0, n - 1, w) + w(n - 1);
        assert Num(e, PartKeys(on, ps), 0.0, d, 0, n - 1) == Num(e, ks, 0.0, d, bound(0), bound(n - 1));
      }
    }
  }

  /** Some split is taken when some key is unmasked. */
  lemma {:induction false} SomeSplit(e: real -> real, ks: Keys, bound: int -> int, on: int -> bool, ps: seq<Partial>,
                                     dim: nat, n: nat, k: int) returns (s: int)
    requires Splitting(e, ks, bound, on, ps, dim) && n <= |ps| && bound(0) <= k < bound(n) && ks.on(k)
    ensures 0 <= s < n && on(s)
  {
    assert n > 0;
    if k >= bound(n - 1) {
      s := n - 1;
      assert SplitOk(e, ks, bound, on, ps[s], dim, s);
    } else {
      s := SomeSplit(e, ks, bound, on, ps, dim, n - 1, k);
    }
  }

  /** Finishing a split: the row divided by its sum, and the logarithm. */
  method ClosePartial(e: real -> real, lg: real -> real, ghost ks: Keys, ghost lo: int, ghost hi: int, ghost k: int,
                      scale: real, m: real, sum: real, acc: array<real>)
    returns (p: Partial)
    requires ExpLaw(e) && LogLaw(e, lg) && lo <= k < hi && ks.on(k)
    requires RowState(e, ks, scale, lo, hi, Fin(m), sum, acc[..])
    ensures p.lse.Fin? && PartOf(e, ks, lo, hi, acc.Length, p)
  {
    hide Sum, Times, Weight, Weighted, Den, Num, ExpLaw, LogLaw;
    PlainReference(e, lg, ks, Times(m, scale), lo, hi, k);
    var out := [];
    for d := 0 to acc.Length
      invariant |out| == d && forall i :: 0 <= i < d ==> out[i] == acc[i] / sum
    {
      out := out + [acc[d] / sum];
    }
    p := Partial(out, Fin(Times(m, scale) + lg(sum)));
    assert Times(m, scale) + lg(sum) == lg(sum) + Times(m, scale);
  }

  // ---------------------------------------------------------------- multi-head latent attention

  function Per(n: int, splits: int): int
    requires splits >= 1
  {
    CeilDiv(n, splits)
  }

  /** split_kv_start and split_kv_end. */
  function SplitStart(n: int, splits: int, id: int): int
    requires splits >= 1
  {
    Per(n, splits) * id
  }

  function SplitEnd(n: int, splits: int, id: int): int
    requires splits >= 1
  {
    Min(SplitStart(n, splits, id) + Per(n, splits), n)
  }

  function MlaBound(n: int, splits: int): int -> int
    requires splits >= 1
  {
    s => Min(SplitStart(n, splits, s), n)
  }

  /** The splits partition [0, n) in order: the first starts at 0 and the last ends at n. */
  lemma MlaEnds(n: nat, splits: int)
    requires splits >= 1
    ensures MlaBound(n, splits)(0) == 0 && MlaBound(n, splits)(splits) == n
  {
    hide CeilDiv;
    CeilDivBounds(n, splits);
    assert Per(n, splits) * 0 == 0;
  }

  /** Each split ends where the next starts, and one that starts at or past the end is empty. */
  lemma MlaBoundary(n: nat, splits: int, s: nat)
    requires splits >= 1
    ensures MlaBound(n, splits)(s) <= MlaBound(n, splits)(s + 1) && SplitStart(n, splits, s) >= 0
    ensures SplitStart(n, splits, s) < SplitEnd(n, splits, s) ==>
              MlaBound(n, splits)(s) == SplitStart(n, splits, s) && MlaBound(n, splits)(s + 1) == SplitEnd(n, splits, s)
    ensures SplitStart(n, splits, s) >= SplitEnd(n, splits, s) ==>
            MlaBound(n, splits)(s) == MlaBound(n, splits)(s + 1) == n
  {
    hide CeilDiv;
    var per := Per(n, splits);
    BelowCeilDiv(-1, n, splits);
    BelowCeilDiv(0, n, splits);
    assert per * (s + 1) == per * s + per;
    MulOrder(0, s, per);
  }

  /** Position of key n in the paged cache. */
  function Loc(table: int -> int, page: int, n: int): int
    requires page >= 1
  {
    table(n / page) * page + n % page
  }

  /** It keeps its offset in the page, and lies in the page the table gives. */
  lemma LocPlaced(table: int -> int, page: int, n: int)
    requires page >= 1
    ensures Loc(table, page, n) / page == table(n / page) && Loc(table, page, n) % page == n % page
  {
    DivModUnique(Loc(table, page, n), page, table(n / page), n % page);
  }

  ghost predicate Distinct(f: int -> int, n: int) {
    forall a, b :: 0 <= a < n && 0 <= b < n && f(a) == f(b) ==> a == b
  }

  /** No two keys of a request share a position exactly when no two of its pages do. */
  lemma LocInjective(table: int -> int, page: int, n: nat)
    requires page >= 1
    ensures Distinct(k => Loc(table, page, k), n) <==> Distinct(table, CeilDiv(n, page))
  {
    hide CeilDiv, Loc;
    var loc: int -> int := k => Loc(table, page, k);
    if Distinct(table, CeilDiv(n, page)) {
      forall a, b | 0 <= a < n && 0 <= b < n && loc(a) == loc(b) ensures a == b {
        PageInRange(page, n, a);
        PageInRange(page, n, b);
        LocPlaced(table, page, a);
        LocPlaced(table, page, b);
      }
    }
    if Distinct(loc, n) {
      forall p, q | 0 <= p < CeilDiv(n, page) && 0 <= q < CeilDiv(n, page) && table(p) == table(q) ensures p == q {
        FirstOfPage(table, page, n, p);
        FirstOfPage(table, page, n, q);
        assert loc(p * page) == loc(q * page);
      }
    }
    assert Distinct(loc, n) <==> Distinct(k => Loc(table, page, k), n);
  }

  lemma PageInRange(page: int, n: int, a: int)
    requires page >= 1 && 0 <= a < n
    ensures 0 <= a / page < CeilDiv(n, page) && a == a / page * page + a % page
  {
    BelowCeilDiv(a / page, n, page);
  }

  lemma FirstOfPage(table: int -> int, page: int, n: int, p: int)
    requires page >= 1 && 0 <= p < CeilDiv(n, page)
    ensures 0 <= p * page < n && Loc(table, page, p * page) == table(p) * page && p * page / page == p
  {
    BelowCeilDiv(p, n, page);
    MulOrder(0, p, page);
    DivModUnique(p * page, page, p, 0);
  }

  function InLength(n: int): int -> bool { k => 0 <= k < n }

  function PagedScore(score: int -> real, table: int -> int, page: int): int -> real
    requires page >= 1
  {
    k => score(Loc(table, page, k))
  }

  function PagedValue(value: (int, int) -> real, table: int -> int, page: int): (int, int) -> real
    requires page >= 1
  {
    (k, d) => value(Loc(table, page, k), d)
  }

  /** The keys of one request: all in-length keys, scored and valued where the page table puts them. */
  function PagedKeys(score: int -> real, value: (int, int) -> real, table: int -> int, page: int, n: int): Keys
    requires page >= 1
  {
    RowKeys(InLength(n), PagedScore(score, table, page), 1.0, PagedValue(value, table, page))
  }

  /** One non-empty split [lo, hi), in blocks of blockN counted from its start. */
  method MlaSplit(e: real -> real, lg: real -> real, on: int -> bool, raw: int -> real, value: (int, int) -> real,
                  lo: int, hi: int, blockN: nat, dim: nat)
    returns (p: Partial)
    requires ExpLaw(e) && LogLaw(e, lg) && blockN >= 1 && lo < hi
    requires forall k :: lo <= k < hi ==> on(k)
    ensures p.lse.Fin? && PartOf(e, RowKeys(on, raw, 1.0, value), lo, hi, dim, p)
  {
    hide RowState, PartOf;
    var inSplit: int -> bool := k => on(k) && k < hi;
    ghost var ks, ks' := RowKeys(on, raw, 1.0, value), RowKeys(inSplit, raw, 1.0, value);
    var m, sum := NegInf, 0.0;
    var acc := new real[dim](_ => 0.0);
    EmptyState(e, ks', 1.0, lo, 0.0, acc[..]);
    var n := lo;
    while n < hi
      invariant lo <= n && acc.Length == dim && fresh(acc) && (m.NegInf? <==> n == lo)
      invariant RowState(e, ks', 1.0, lo, n, m, sum, acc[..])
      decreases hi - n
    {
      assert inSplit(n);
      m, sum := BlockStep(e, inSplit, raw, value, 1.0, lo, n, blockN, false, m, sum, acc);
      n := n + blockN;
    }
    CutState(e, ks', 1.0, lo, n, hi, m, sum, acc[..]);
    assert inSplit(lo);
    p := ClosePartial(e, lg, ks', lo, hi, lo, 1.0, m.v, sum, acc);
    SamePart(e, ks, ks', lo, hi, dim, p);
  }

  /** Masked keys past hi do not matter to the state. */
  lemma CutState(e: real -> real, ks: Keys, scale: real, lo: int, n: int, hi: int, m: Ext, sum: real, acc: seq<real>)
    requires RowState(e, ks, scale, lo, n, m, sum, acc) && lo <= hi <= n && m.Fin?
    requires forall k :: hi <= k ==> !ks.on(k)
    ensures RowState(e, ks, scale, lo, hi, m, sum, acc)
  {
    RangeIrrelevant(e, ks, Times(m.v, scale), lo, hi, lo, n);
  }

  lemma SamePart(e: real -> real, ks: Keys, ks': Keys, lo: int, hi: int, dim: nat, p: Partial)
    requires PartOf(e, ks', lo, hi, dim, p) && ks.score == ks'.score && ks.value == ks'.value
    requires forall k :: lo <= k < hi ==> ks.on(k) == ks'.on(k)
    ensures PartOf(e, ks, lo, hi, dim, p)
  {
    hide Sum, Times;
    SumEq(lo, hi, Weight(e, ks, 0.0), Weight(e, ks', 0.0));
    forall d ensures Num(e, ks, 0.0, d, lo, hi) == Num(e, ks', 0.0, d, lo, hi) {
      SumEq(lo, hi, Weighted(e, ks, 0.0, d), Weighted(e, ks', 0.0, d));
    }
  }

  /** Keys that are all masked leave the state as it is. */
  lemma SkipState(e: real -> real, ks: Keys, scale: real, first: int, lo: int, hi: int, m: Ext, sum: real,
                  acc: seq<real>)
    requires RowState(e, ks, scale, first, lo, m, sum, acc) && lo <= hi
    requires forall k :: lo <= k < hi ==> !ks.on(k)
    ensures RowState(e, ks, scale, first, hi, m, sum, acc)
  {
    if m.Fin? { RangeIrrelevant(e, ks, Times(m.v, scale), first, lo, first, hi); }
  }

  predicate SplitUsed(n: int, splits: int, s: int)
    requires splits >= 1
  {
    SplitEnd(n, splits, s) > SplitStart(n, splits, s)
  }

  function UsedSplits(n: int, splits: int): int -> bool
    requires splits >= 1
  {
    s => SplitUsed(n, splits, s)
  }

  /** The merge loop over splits. What the empty ones left behind is never read; without a key the last division is
      zero by zero. */
  method MlaMerge(e: real -> real, ghost lg: real -> real, ghost ks: Keys, n: nat, splits: nat, ps: seq<Partial>,
                  dim: nat)
    returns (out: seq<Number>)
    requires ExpLaw(e) && LogLaw(e, lg) && splits >= 1 && |ps| == splits
    requires forall k :: 0 <= k < n ==> ks.on(k)
    requires Splitting(e, ks, MlaBound(n, splits), UsedSplits(n, splits), ps, dim)
    ensures n >= 1 ==> Den(e, ks, 0.0, 0, n) > 0.0
    ensures |out| == dim && forall d :: 0 <= d < dim ==> out[d] == if n == 0 then NaN else Real(Plain(e, ks, n, d))
  {
    hide RowState, Splitting, MlaBound, SplitUsed, Sum, Weight, Weighted, Den, Num, ExpLaw, LogLaw;
    var used := UsedSplits(n, splits);
    ghost var pk := PartKeys(used, ps);
    var m, sum := NegInf, 0.0;
    var acc := new real[dim](_ => 0.0);
    EmptyState(e, pk, 1.0, 0, 0.0, acc[..]);
    for s := 0 to splits
      invariant fresh(acc) && acc.Length == dim && RowState(e, pk, 1.0, 0, s, m, sum, acc[..])
      invariant n == 0 ==> sum == 0.0
    {
      if SplitUsed(n, splits, s) {
        assert used(s);
        NoneUsed(n, splits, s);
        m, sum := BlockStep(e, used, PartLse(ps), PartOut(ps), 1.0, 0, s, 1, false, m, sum, acc);
      } else {
        SkipState(e, pk, 1.0, 0, s, s + 1, m, sum, acc[..]);
      }
    }
    MlaEnds(n, splits);
    if n >= 1 {
      ghost var u := SomeSplit(e, ks, MlaBound(n, splits), used, ps, dim, splits, 0);
      MergeIsWhole(e, ks, MlaBound(n, splits), used, ps, dim, splits);
      MergedState(e, lg, pk, splits, m, sum, acc[..], u);
    }
    out := [];
    for d := 0 to dim
      invariant |out| == d && forall i :: 0 <= i < d ==> out[i] == Quotient(acc[i], sum)
    {
      out := out + [Quotient(acc[d], sum)];
    }
  }

  lemma NoneUsed(n: nat, splits: int, s: nat)
    requires splits >= 1 && SplitUsed(n, splits, s)
    ensures n >= 1
  {
    MlaBoundary(n, splits, s);
  }

  lemma MergedState(e: real -> real, lg: real -> real, pk: Keys, n: nat, m: Ext, sum: real, acc: seq<real>, u: int)
    requires ExpLaw(e) && LogLaw(e, lg) && RowState(e, pk, 1.0, 0, n, m, sum, acc) && 0 <= u < n && pk.on(u)
    ensures m.Fin? && sum > 0.0 && Den(e, pk, 0.0, 0, n) > 0.0
    ensures forall d :: 0 <= d < |acc| ==> acc[d] / sum == Num(e, pk, 0.0, d, 0, n) / Den(e, pk, 0.0, 0, n)
  {
    hide Sum, Times, Weight, Weighted, Den, Num;
    PlainReference(e, lg, pk, Times(m.v, 1.0), 0, n, u);
  }

  /** Split and merge: multi-head latent attention decodes to plain softmax over all keys of the request,
      whatever the number of splits, the block size and the page table; without keys the row is undefined. An
      empty split stores 0/0 and -inf, here an arbitrary row. */
  method MlaDecode(e: real -> real, lg: real -> real, score: int -> real, value: (int, int) -> real, table: int -> int,
                   page: nat, n: nat, splits: nat, blockN: nat, dim: nat, garbage: Partial)
    returns (out: seq<Number>)
    requires ExpLaw(e) && LogLaw(e, lg) && page >= 1 && splits >= 1 && blockN >= 1
    ensures n >= 1 ==> Den(e, PagedKeys(score, value, table, page, n), 0.0, 0, n) > 0.0
    ensures |out| == dim
    ensures forall d :: 0 <= d < dim ==> out[d] == if n == 0 then NaN
            else Real(Plain(e, PagedKeys(score, value, table, page, n), n, d))
  {
    hide PartOf, RowState, MlaBound, SplitStart, SplitEnd, ExpLaw, LogLaw, Plain, Den, PagedScore, PagedValue,
        Splitting;
    EmptySplitting(e, PagedKeys(score, value, table, page, n), MlaBound(n, splits), UsedSplits(n, splits), dim);
    ghost var ks := PagedKeys(score, value, table, page, n);
    var on, raw, val := InLength(n), PagedScore(score, table, page), PagedValue(value, table, page);
    var ps: seq<Partial> := [];
    ghost var bound := MlaBound(n, splits);
    ghost var used := UsedSplits(n, splits);
    for s := 0 to splits
      invariant |ps| == s && Splitting(e, ks, bound, used, ps, dim)
    {
      MlaBoundary(n, splits, s);
      var p := garbage;
      if SplitUsed(n, splits, s) {
        SplitInside(n, splits, s);
        p := MlaSplit(e, lg, on, raw, val, SplitStart(n, splits, s), SplitEnd(n, splits, s), blockN, dim);
      }
      SplittingAppend(e, ks, bound, used, ps, dim, p);
      ps := ps + [p];
    }
    out := MlaMerge(e, lg, ks, n, splits, ps, dim);
  }

  lemma SplitInside(n: nat, splits: int, s: nat)
    requires splits >= 1
    ensures 0 <= SplitStart(n, splits, s) && SplitEnd(n, splits, s) <= n
  {
    MlaBoundary(n, splits, s);
  }
}
