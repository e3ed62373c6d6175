/** Block-sparse decoding: splits take runs of key blocks, skip unselected ones, and are merged in one expression. */
module SparseDecode {
  import opened Arith
  import opened RealArith
  import opened Sums
  import opened Softmax
  import opened SinkForward
  import opened SplitDecode
  import opened Nan

  /** Selected block, and within the length of the cache. */
  function Selected(mask: int -> int, n: int, blockN: int): int -> bool
    requires blockN >= 1
  {
    k => 0 <= k < n && mask(k / blockN) == 1
  }

  // ---------------------------------------------------------------- blocks of a split

  function Blocks(n: int, blockN: int): int
    requires blockN >= 1
  {
    (n + blockN - 1) / blockN
  }

  function First(blocks: int, splits: int, s: int): int
    requires splits >= 1
  {
    blocks / splits * s + Min(s, blocks % splits)
  }

  function Count(blocks: int, splits: int, s: int): int
    requires splits >= 1
  {
    if s < blocks % splits then blocks / splits + 1 else blocks / splits
  }

  /** The runs of blocks partition [0, blocks) in order. */
  lemma SparsePartition(blocks: nat, splits: int, s: nat)
    requires splits >= 1 && s < splits
    ensures First(blocks, splits, 0) == 0 && First(blocks, splits, splits) == blocks
    ensures First(blocks, splits, s + 1) == First(blocks, splits, s) + Count(blocks, splits, s)
    ensures 0 <= First(blocks, splits, s) && Count(blocks, splits, s) >= 0
    ensures First(blocks, splits, s + 1) <= blocks
  {
    var q, r := blocks / splits, blocks % splits;
    assert blocks == q * splits + r;
    assert q * (s + 1) == q * s + q;
    MulOrder(0, s, q);
    LeftOrder(q, s + 1, splits);
  }

  lemma LeftOrder(q: int, a: int, b: int)
    requires q >= 0 && a <= b
    ensures q * a <= q * b
  {
    MulOrder(a, b, q);
  }

  function SparseBound(n: int, blockN: int, splits: int): int -> int
    requires blockN >= 1 && splits >= 1
  {
    s => First(Blocks(n, blockN), splits, s) * blockN
  }

  /** Every block of a split starts inside of the cache, so a selected one holds a key. */
  lemma BlockStartsInside(n: nat, blockN: int, b: int)
    requires blockN >= 1 && 0 <= b < Blocks(n, blockN)
    ensures 0 <= b * blockN < n
  {
    BelowCeilDiv(b, n, blockN);
    MulOrder(0, b, blockN);
  }

  lemma InOneBlock(b: int, blockN: int, k: int)
    requires blockN >= 1 && b * blockN <= k < b * blockN + blockN
    ensures k / blockN == b
  {
    DivModUnique(k, blockN, b, k - b * blockN);
  }

  /** A block is unmasked up to the length of the cache when selected, and masked throughout otherwise. */
  lemma BlockMask(mask: int -> int, n: nat, blockN: int, b: int)
    requires blockN >= 1 && 0 <= b < Blocks(n, blockN)
    ensures mask(b) == 1 ==> Selected(mask, n, blockN)(b * blockN)
    ensures mask(b) != 1 ==> forall k :: b * blockN <= k < b * blockN + blockN ==> !Selected(mask, n, blockN)(k)
  {
    BlockStartsInside(n, blockN, b);
    InOneBlock(b, blockN, b * blockN);
    forall k | b * blockN <= k < b * blockN + blockN ensures k / blockN == b { InOneBlock(b, blockN, k); }
  }

  /** One split. The sum starts at 1, which the first selected block multiplies by exp(-inf) = 0; a split without
      selected block keeps it, and stores log(1) - inf = -inf with a zero row. */
  method SparseSplit(e: real -> real, lg: real -> real, raw: int -> real, value: (int, int) -> real, mask: int -> int,
                     n: nat, blockN: nat, first: nat, count: nat, dim: nat)
    returns (p: Partial)
    requires ExpLaw(e) && LogLaw(e, lg) && blockN >= 1 && first + count <= Blocks(n, blockN)
    ensures PartOf(e, RowKeys(Selected(mask, n, blockN), raw, 1.0, value), first * blockN, (first + count) * blockN,
                   dim, p)
  {
    hide RowState, Sum, Weight, Weighted, Den, Num, ExpLaw, LogLaw, Blocks, Selected;
    var on := Selected(mask, n, blockN);
    ghost var ks, lo := RowKeys(on, raw, 1.0, value), first * blockN;
    ghost var k := 0;
    var m, sum := NegInf, 1.0;
    var acc := new real[dim](_ => 0.0);
    EmptyState(e, ks, 1.0, lo, sum, acc[..]);
    for b := 0 to count
      invariant fresh(acc) && acc.Length == dim
      invariant RowState(e, ks, 1.0, lo, (first + b) * blockN, m, sum, acc[..])
      invariant m.Fin? ==> lo <= k < (first + b) * blockN && ks.on(k)
    {
      BlockMask(mask, n, blockN, first + b);
      NextStart(first, b, blockN);
      if mask(first + b) == 1 {
        k := (first + b) * blockN;
        assert on(k);
        m, sum := BlockStep(e, on, raw, value, 1.0, lo, (first + b) * blockN, blockN, false, m, sum, acc);
      } else {
        SkipState(e, ks, 1.0, lo, (first + b) * blockN, (first + b) * blockN + blockN, m, sum, acc[..]);
      }
    }
    if m.NegInf? {
      p := Partial(seq(dim, _ => 0.0), NegInf);
      StateMeansNoKeys(e, ks, 1.0, lo, (first + count) * blockN, sum, acc[..]);
    } else {
      p := ClosePartial(e, lg, ks, lo, (first + count) * blockN, k, 1.0, m.v, sum, acc);
    }
  }

  lemma NextStart(first: nat, b: nat, n: nat)
    ensures (first + (b + 1)) * n == (first + b) * n + n && first * n <= (first + b) * n
  {
    MulOrder(first, first + b, n);
  }

  lemma StateMeansNoKeys(e: real -> real, ks: Keys, scale: real, lo: int, hi: int, sum: real, acc: seq<real>)
    requires RowState(e, ks, scale, lo, hi, NegInf, sum, acc)
    ensures forall k :: lo <= k < hi ==> !ks.on(k)
  {
  }

  // ---------------------------------------------------------------- the merge expression

  /** Lanes past the number of splits load -inf. */
  function LaneLse(ps: seq<Partial>, lane: int): Ext {
    if 0 <= lane < |ps| then ps[lane].lse else NegInf
  }

  function LaneMax(ps: seq<Partial>, lanes: nat): Ext {
    if lanes == 0 then NegInf else MaxExt(LaneMax(ps, lanes - 1), LaneLse(ps, lanes - 1))
  }

  /** Rows of the lanes past the number of splits hold whatever the masked load left there, numbers or not. */
  function LaneOut(ps: seq<Partial>, junk: (int, int) -> Number, lane: int, d: int): Number {
    if 0 <= lane < |ps| then Real(PartOut(ps)(lane, d)) else junk(lane, d)
  }

  function LaneWeight(e: real -> real, ps: seq<Partial>, top: Ext): int -> real
    requires top.Fin?
  {
    lane => ExpDiff(e, LaneLse(ps, lane), top, 1.0)
  }

  function LaneTerm(e: real -> real, ps: seq<Partial>, junk: (int, int) -> Number, top: Ext, d: int): int -> Number
    requires top.Fin?
  {
    lane => Mul(LaneOut(ps, junk, lane, d), Real(LaneWeight(e, ps, top)(lane)))
  }

  /** The merged row, over a power of two of lanes. With a maximum of -inf it subtracts -inf from -inf. */
  function Merge(e: real -> real, ps: seq<Partial>, junk: (int, int) -> Number, lanes: nat, d: int): Number {
    var top := LaneMax(ps, lanes);
    if top.NegInf? then NaN
    else
      var sum := NSum(0, lanes, LaneTerm(e, ps, junk, top, d));
      if sum.NaN? then NaN else Quotient(sum.v, Sum(0, lanes, LaneWeight(e, ps, top)))
  }

  function FiniteLanes(ps: seq<Partial>): int -> bool { s => LaneLse(ps, s).Fin? }

  lemma {:induction false} LaneMaxFinite(ps: seq<Partial>, lanes: nat)
    ensures LaneMax(ps, lanes).Fin? <==> exists s :: 0 <= s < lanes && LaneLse(ps, s).Fin?
  {
    if lanes > 0 {
      LaneMaxFinite(ps, lanes - 1);
      if s :| 0 <= s < lanes && LaneLse(ps, s).Fin? { assert s == lanes - 1 || s < lanes - 1; }
    }
  }

  /** A lane of a split weighs as its partial result does, and with -inf not at all; a padding lane has no weight, but
      its row does not vanish unless it is a number. */
  lemma LaneShare(e: real -> real, ps: seq<Partial>, junk: (int, int) -> Number, top: Ext, s: int, d: int)
    requires top.Fin?
    ensures LaneWeight(e, ps, top)(s) == Weight(e, PartKeys(FiniteLanes(ps), ps), Times(top.v, 1.0))(s)
    ensures LaneTerm(e, ps, junk, top, d)(s)
            == if !(0 <= s < |ps|) && junk(s, d).NaN? then NaN
                else Real(Weighted(e, PartKeys(FiniteLanes(ps), ps), Times(top.v, 1.0), d)(s))
  {
    hide Times;
    var pk := PartKeys(FiniteLanes(ps), ps);
    var w := Weight(e, pk, Times(top.v, 1.0))(s);
    assert LaneWeight(e, ps, top)(s) == w;
    var x := ValueOf(LaneOut(ps, junk, s, d));
    TimesUnit(x);
    TimesUnit(pk.value(s, d));
    TimesAssoc(x, w, 1.0);
    assert Weighted(e, pk, Times(top.v, 1.0), d)(s) == Times(w, pk.value(s, d));
    assert LaneTerm(e, ps, junk, top, d)(s) == Mul(LaneOut(ps, junk, s, d), Real(w));
  }

  /** The padding lanes hold numbers in column d. */
  ghost predicate Padded(junk: (int, int) -> Number, lo: int, hi: int, d: int) {
    forall lane :: lo <= lane < hi ==> junk(lane, d).Real?
  }

  /** The sum over lanes: that over partial results, unless a padding lane is undefined. */
  lemma LaneSum(e: real -> real, ps: seq<Partial>, junk: (int, int) -> Number, top: Ext, lanes: nat, d: int)
    requires top.Fin? && |ps| <= lanes
    ensures var sum := NSum(0, lanes, LaneTerm(e, ps, junk, top, d));
            && (sum.Real? <==> Padded(junk, |ps|, lanes, d))
            && (sum.Real? ==> sum.v == Num(e, PartKeys(FiniteLanes(ps), ps), Times(top.v, 1.0), d, 0, lanes))
  {
    hide Times, Sum, NSum, LaneTerm, Weighted;
    var f, g := LaneTerm(e, ps, junk, top, d), Weighted(e, PartKeys(FiniteLanes(ps), ps), Times(top.v, 1.0), d);
    forall s ensures f(s) == if !(0 <= s < |ps|) && junk(s, d).NaN? then NaN else Real(g(s)) {
      LaneShare(e, ps, junk, top, s, d);
    }
    if Padded(junk, |ps|, lanes, d) {
      NSumIs(0, lanes, f, g);
    } else {
      var s :| |ps| <= s < lanes && junk(s, d).NaN?;
      NSumUndefined(0, lanes, f, s);
    }
  }

  /** Merging the partial results of a splitting is plain attention over all selected keys; it is a number exactly
      when there is one and the padding lanes hold numbers. */
  lemma MergeCorrect(e: real -> real, lg: real -> real, ks: Keys, bound: int -> int, ps: seq<Partial>,
                     junk: (int, int) -> Number, lanes: nat, dim: nat, n: nat)
    requires ExpLaw(e) && LogLaw(e, lg) && |ps| <= lanes
    requires Splitting(e, ks, bound, FiniteLanes(ps), ps, dim)
    requires bound(0) == 0 && n <= bound(|ps|) && (forall j :: n <= j ==> !ks.on(j))
    ensures HasKey(ks, n) ==> Den(e, ks, 0.0, 0, n) > 0.0
    ensures forall d :: 0 <= d < dim ==>
              Merge(e, ps, junk, lanes, d)
              == if HasKey(ks, n) && Padded(junk, |ps|, lanes, d) then Real(Plain(e, ks, n, d)) else NaN
  {
    hide Times, Sum, NSum, Weight, Weighted, LaneWeight, LaneTerm, Splitting, ExpLaw, LogLaw, Padded;
    var on := FiniteLanes(ps);
    LaneMaxFinite(ps, lanes);
    if k :| 0 <= k < n && ks.on(k) {
      var s := SomeSplit(e, ks, bound, on, ps, dim, |ps|, k);
      DenPositive(e, ks, 0.0, 0, n, k);
      MergedSums(e, lg, ks, bound, ps, lanes, dim, n, s);
      forall d | 0 <= d < dim
        ensures Merge(e, ps, junk, lanes, d) == if Padded(junk, |ps|, lanes, d) then Real(Plain(e, ks, n, d)) else NaN
      {
        LaneSum(e, ps, junk, LaneMax(ps, lanes), lanes, d);
      }
    } else {
      forall s | 0 <= s < lanes ensures LaneLse(ps, s).NegInf? {
        if s < |ps| { NoKeyNoLane(e, ks, bound, ps, dim, s, n); }
      }
    }
  }

  ghost predicate HasKey(ks: Keys, n: int) { exists k :: 0 <= k < n && ks.on(k) }

  lemma NoKeyNoLane(e: real -> real, ks: Keys, bound: int -> int, ps: seq<Partial>, dim: nat, s: nat, n: nat)
    requires Splitting(e, ks, bound, FiniteLanes(ps), ps, dim) && s < |ps| && bound(0) == 0
    requires !HasKey(ks, n) && forall j :: n <= j ==> !ks.on(j)
    ensures ps[s].lse.NegInf?
  {
    hide Den, Num;
    assert SplitOk(e, ks, bound, FiniteLanes(ps), ps[s], dim, s);
    MergeIsWhole(e, ks, bound, FiniteLanes(ps), ps, dim, s);
    NoKeys(e, ks, bound(s), bound(s + 1));
  }

  /** Weights and quotients at the merge's own maximum are those of plain attention. */
  lemma MergedSums(e: real -> real, lg: real -> real, ks: Keys, bound: int -> int, ps: seq<Partial>, lanes: nat,
                   dim: nat, n: nat, s: int)
    requires ExpLaw(e) && LogLaw(e, lg) && |ps| <= lanes && LaneMax(ps, lanes).Fin?
    requires Splitting(e, ks, bound, FiniteLanes(ps), ps, dim) && 0 <= s < |ps| && FiniteLanes(ps)(s)
    requires bound(0) == 0 && n <= bound(|ps|) && (forall j :: n <= j ==> !ks.on(j)) && Den(e, ks, 0.0, 0, n) > 0.0
    ensures var top := LaneMax(ps, lanes);
            var pk, r, den := PartKeys(FiniteLanes(ps), ps), Times(top.v, 1.0), Sum(0, lanes, LaneWeight(e, ps, top));
            den > 0.0 && forall d :: 0 <= d < dim ==> Num(e, pk, r, d, 0, lanes) / den == Plain(e, ks, n, d)
  {
    hide Times, Sum, Weight, Weighted, LaneWeight, Splitting, ExpLaw, LogLaw;
    var top := LaneMax(ps, lanes);
    var pk, r := PartKeys(FiniteLanes(ps), ps), Times(top.v, 1.0);
    forall i | 0 <= i < lanes ensures LaneWeight(e, ps, top)(i) == Weight(e, pk, r)(i) {
      LaneShare(e, ps, (_, _) => NaN, top, i, 0);
    }
    SumEq(0, lanes, LaneWeight(e, ps, top), Weight(e, pk, r));
    PlainReference(e, lg, pk, r, 0, lanes, s);
    RangeIrrelevant(e, pk, 0.0, 0, |ps|, 0, lanes);
    MergeIsWhole(e, ks, bound, FiniteLanes(ps), ps, dim, |ps|);
    RangeIrrelevant(e, ks, 0.0, 0, n, 0, bound(|ps|));
  }

  // ---------------------------------------------------------------- the number of lanes

  predicate PowerOfTwo(n: nat) { n == 1 || (n >= 2 && n % 2 == 0 && PowerOfTwo(n / 2)) }

  function Doubled(p: nat, n: nat): nat
    requires p >= 1
    decreases n - p
  {
    if p >= n then p else Doubled(2 * p, n)
  }

  /** The lanes of the merge: the smallest power of two that holds all splits. */
  function Lanes(splits: nat): nat { Doubled(1, splits) }

  lemma {:induction false} DoubledIs(p: nat, n: nat, q: nat)
    requires p >= 1 && PowerOfTwo(p) && PowerOfTwo(q) && (p >= n ==> p <= q) && (p < n ==> n <= q)
    ensures PowerOfTwo(Doubled(p, n)) && Doubled(p, n) >= n && Doubled(p, n) <= q
    decreases n - p
  {
    if p < n {
      assert 2 * p / 2 == p && 2 * p % 2 == 0;
      PowersApart(p, q);
      DoubledIs(2 * p, n, q);
    }
  }

  /** A larger power of two is at least twice as large. */
  lemma {:induction false} PowersApart(p: nat, q: nat)
    requires PowerOfTwo(p) && PowerOfTwo(q) && p < q
    ensures 2 * p <= q
  {
    if p > 1 { PowersApart(p / 2, q / 2); }
  }

  lemma {:induction false} PowerAbove(n: nat) returns (q: nat)
    ensures PowerOfTwo(q) && q >= n
  {
    if n <= 1 {
      q := 1;
    } else {
      var h := PowerAbove(n - 1);
      q := 2 * h;
      assert q / 2 == h && q % 2 == 0;
    }
  }

  /** No lane is padding exactly when the number of splits is a power of two. */
  lemma LanesExact(splits: nat)
    requires splits >= 1
    ensures splits <= Lanes(splits) && (Lanes(splits) == splits <==> PowerOfTwo(splits))
  {
    var q := PowerAbove(splits);
    DoubledIs(1, splits, q);
    if PowerOfTwo(splits) { DoubledIs(1, splits, splits); }
  }

  /** The merged row is a number whatever the padding lanes hold exactly when there is a selected key and the number of
      splits is a power of two. */
  lemma MergeNumberIff(e: real -> real, lg: real -> real, ks: Keys, bound: int -> int, ps: seq<Partial>, dim: nat,
                       n: nat)
    requires ExpLaw(e) && LogLaw(e, lg) && |ps| >= 1 && dim >= 1
    requires Splitting(e, ks, bound, FiniteLanes(ps), ps, dim)
    requires bound(0) == 0 && n <= bound(|ps|) && (forall j :: n <= j ==> !ks.on(j))
    ensures (forall junk, d :: 0 <= d < dim ==> Merge(e, ps, junk, Lanes(|ps|), d).Real?)
            <==> HasKey(ks, n) && PowerOfTwo(|ps|)
  {
    hide ExpLaw, LogLaw, Splitting, Merge, Plain, HasKey, PowerOfTwo, Lanes;
    LanesExact(|ps|);
    var lanes := Lanes(|ps|);
    forall junk, d | 0 <= d < dim
      ensures Merge(e, ps, junk, lanes, d).Real? <==> HasKey(ks, n) && Padded(junk, |ps|, lanes, d)
    {
      MergeCorrect(e, lg, ks, bound, ps, junk, lanes, dim, n);
    }
    var blank := Blank();
    if |ps| < lanes { assert blank(|ps|, 0).NaN?; assert !Merge(e, ps, blank, lanes, 0).Real?; }
    if !HasKey(ks, n) { assert !Merge(e, ps, blank, lanes, 0).Real?; }
  }

  function Blank(): (int, int) -> Number { (_, _) => NaN }

  /** Three splits are merged over four lanes, and an undefined fourth one makes the row undefined. */
  lemma ThreeSplits(e: real -> real, lg: real -> real, ks: Keys, bound: int -> int, ps: seq<Partial>, dim: nat, n: nat)
    requires ExpLaw(e) && LogLaw(e, lg) && |ps| == 3 && Splitting(e, ks, bound, FiniteLanes(ps), ps, dim)
    requires bound(0) == 0 && n <= bound(3) && (forall j :: n <= j ==> !ks.on(j))
    ensures Lanes(3) == 4
    ensures forall d :: 0 <= d < dim ==> Merge(e, ps, Blank(), 4, d).NaN?
  {
    var blank := Blank();
    MergeCorrect(e, lg, ks, bound, ps, blank, 4, dim, n);
    assert blank(3, 0).NaN?;
    forall d | 0 <= d < dim ensures Merge(e, ps, blank, 4, d).NaN? { assert blank(3, d).NaN?; }
    assert Doubled(4, 3) == 4 && Doubled(2, 3) == 4;
  }

  /** Split and merge: block-sparse decoding is plain softmax over the selected keys within the length of the cache; a
      column is a number exactly when there is such a key and the padding lanes of the merge hold numbers in it. */
  method SparseDecode(e: real -> real, lg: real -> real, raw: int -> real, value: (int, int) -> real, mask: int -> int,
                      n: nat, blockN: nat, splits: nat, dim: nat, junk: (int, int) -> Number)
    returns (out: seq<Number>)
    requires ExpLaw(e) && LogLaw(e, lg) && blockN >= 1 && splits >= 1
    ensures |out| == dim
    ensures var ks := RowKeys(Selected(mask, n, blockN), raw, 1.0, value);
            && (HasKey(ks, n) ==> Den(e, ks, 0.0, 0, n) > 0.0)
            && forall d :: 0 <= d < dim ==>
                 out[d]
                 == if HasKey(ks, n) && Padded(junk, splits, Lanes(splits), d) then Real(Plain(e, ks, n, d)) else NaN
    ensures PowerOfTwo(splits) ==> forall d :: Padded(junk, splits, Lanes(splits), d)
  {
    hide PartOf, Sum, Weight, Weighted, Den, Num, ExpLaw, LogLaw, First, Count, Blocks, Splitting, LaneMax, Merge,
        Plain, Padded, HasKey, Lanes, PowerOfTwo;
    ghost var ks, bound := RowKeys(Selected(mask, n, blockN), raw, 1.0, value), SparseBound(n, blockN, splits);
    var blocks, lanes := Blocks(n, blockN), Lanes(splits);
    LanesExact(splits);
    NoPadding(junk, splits);
    EnoughBlocks(n, blockN);
    var ps: seq<Partial> := [];
    for s := 0 to splits
      invariant |ps| == s && AllParts(e, ks, bound, ps, dim)
    {
      SparsePartition(blocks, splits, s);
      var p := SparseSplit(e, lg, raw, value, mask, n, blockN, First(blocks, splits, s), Count(blocks, splits, s), dim);
      ps := ps + [p];
    }
    SparsePartition(blocks, splits, 0);
    PartsSplit(e, ks, bound, ps, dim, blocks, blockN, splits, n);
    MergeCorrect(e, lg, ks, bound, ps, junk, lanes, dim, n);
    out := [];
    for d := 0 to dim
      invariant |out| == d && forall i :: 0 <= i < d ==> out[i] == Merge(e, ps, junk, lanes, i)
    {
      out := out + [Merge(e, ps, junk, lanes, d)];
    }
  }

  lemma NoPadding(junk: (int, int) -> Number, splits: nat)
    requires splits >= 1
    ensures PowerOfTwo(splits) ==> forall d :: Padded(junk, splits, Lanes(splits), d)
  {
    LanesExact(splits);
  }

  ghost predicate AllParts(e: real -> real, ks: Keys, bound: int -> int, ps: seq<Partial>, dim: nat) {
    forall s :: 0 <= s < |ps| ==> PartOf(e, ks, bound(s), bound(s + 1), dim, ps[s])
  }

  lemma EnoughBlocks(n: nat, blockN: int)
    requires blockN >= 1
    ensures Blocks(n, blockN) >= 0 && n <= Blocks(n, blockN) * blockN
  {
    CeilDivBounds(n, blockN);
    BelowCeilDiv(-1, n, blockN);
  }

  lemma PartsSplit(e: real -> real, ks: Keys, bound: int -> int, ps: seq<Partial>, dim: nat, blocks: nat, blockN: nat,
                   splits: nat, n: nat)
    requires blockN >= 1 && splits >= 1 && |ps| == splits && blocks == Blocks(n, blockN)
             && bound == SparseBound(n, blockN, splits)
    requires AllParts(e, ks, bound, ps, dim)
    ensures Splitting(e, ks, bound, FiniteLanes(ps), ps, dim)
  {
    hide First, Count, Blocks, Den, Num;
    forall s | 0 <= s < |ps| ensures SplitOk(e, ks, bound, FiniteLanes(ps), ps[s], dim, s) {
      assert PartOf(e, ks, bound(s), bound(s + 1), dim, ps[s]);
      SparsePartition(blocks, splits, s);
      MulOrder(First(blocks, splits, s), First(blocks, splits, s + 1), blockN);
    }
  }
}
