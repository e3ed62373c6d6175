/** The backward kernel over a packed batch: every row receives the gradient of its own sequence. */
module VarlenBatch {
  import opened Arith
  import opened Sums
  import opened Nan
  import opened SinkForward
  import opened VarlenForward
  import opened VarlenGradients

  /** cu_seqlens: where the queries and the keys of a sequence start in the packed tensors. */
  function QStart(batch: seq<Sequence>, b: nat): nat
    requires b <= |batch|
  {
    if b == 0 then 0 else QStart(batch, b - 1) + batch[b - 1].qlen
  }

  function KStart(batch: seq<Sequence>, b: nat): nat
    requires b <= |batch|
  {
    if b == 0 then 0 else KStart(batch, b - 1) + batch[b - 1].klen
  }

  lemma {:induction false} StartsOrdered(batch: seq<Sequence>, b: nat, c: nat)
    requires b < c <= |batch|
    ensures QStart(batch, b) + batch[b].qlen <= QStart(batch, c) && KStart(batch, b) + batch[b].klen <= KStart(batch, c)
    decreases c
  {
    if b < c - 1 { StartsOrdered(batch, b, c - 1); }
  }

  // What the grids of the sequences add to a row of the packed tensors.
  ghost function QueryAdds(batch: seq<Sequence>, hs: seq<Head>, d: int, grid: int, blockM: int, blockN: int,
                           r: int): int -> Number
    requires |batch| == |hs| && blockN >= 1
  {
    b => if 0 <= b < |batch| then QueryTotal(batch[b], hs[b], d, grid, blockM, blockN, r - QStart(batch, b))
        else Real(0.0)
  }

  ghost function KeyAdds(batch: seq<Sequence>, hs: seq<Head>, d: int, grid: int, blockM: int, blockN: int,
                         r: int): int -> Number
    requires |batch| == |hs| && blockM >= 1 && blockN >= 1
  {
    b => if 0 <= b < |batch| then KeyTotal(batch[b], hs[b], d, grid, blockM, blockN, r - KStart(batch, b))
        else Real(0.0)
  }

  ghost function ValueAdds(batch: seq<Sequence>, hs: seq<Head>, d: int, grid: int, blockM: int, r: int): int -> Number
    requires |batch| == |hs|
  {
    b => if 0 <= b < |batch| then ValueTotal(batch[b], hs[b], d, grid, blockM, r - KStart(batch, b)) else Real(0.0)
  }

  /** All sequences of a batch, one grid after the other, into the same packed gradients. */
  method BatchBackward(batch: seq<Sequence>, hs: seq<Head>, ghost fM: int, d: int, maxSeq: nat, blockM: nat,
                       blockN: nat, dq: array<Number>, dk: array<Number>, dv: array<Number>)
    requires |batch| == |hs| && fM >= 1 && blockM >= 1 && blockN >= 1 && dq != dk && dq != dv && dk != dv
    requires forall b :: 0 <= b < |batch| ==> Written(batch[b], hs[b], fM)
    modifies dq, dk, dv
    ensures var grid := CeilDiv(maxSeq, blockM);
            && (forall r :: 0 <= r < dq.Length ==>
                  dq[r] == Add(old(dq[r]), NSum(0, |batch|, QueryAdds(batch, hs, d, grid, blockM, blockN, r))))
            && (forall r :: 0 <= r < dk.Length ==>
                  dk[r] == Add(old(dk[r]), NSum(0, |batch|, KeyAdds(batch, hs, d, grid, blockM, blockN, r))))
            && (forall r :: 0 <= r < dv.Length ==>
                  dv[r] == Add(old(dv[r]), NSum(0, |batch|, ValueAdds(batch, hs, d, grid, blockM, r))))
  {
    hide Written, QueryTotal, KeyTotal, ValueTotal, CeilDiv, Add, NSum, QueryAdds, KeyAdds, ValueAdds;
    ghost var grid := CeilDiv(maxSeq, blockM);
    AddZero();
    EmptySums(0);
    var qStart, kStart := 0, 0;
    for b := 0 to |batch|
      invariant qStart == QStart(batch, b) && kStart == KStart(batch, b)
      invariant forall r :: 0 <= r < dq.Length ==>
        dq[r] == Add(old(dq[r]), NSum(0, b, QueryAdds(batch, hs, d, grid, blockM, blockN, r)))
      invariant forall r :: 0 <= r < dk.Length ==>
        dk[r] == Add(old(dk[r]), NSum(0, b, KeyAdds(batch, hs, d, grid, blockM, blockN, r)))
      invariant forall r :: 0 <= r < dv.Length ==>
        dv[r] == Add(old(dv[r]), NSum(0, b, ValueAdds(batch, hs, d, grid, blockM, r)))
    {
      Backward(batch[b], hs[b], fM, d, maxSeq, blockM, blockN, qStart, kStart, dq, dk, dv);
      forall r ensures QueryAdds(batch, hs, d, grid, blockM, blockN, r)(b)
                       == QueryTotal(batch[b], hs[b], d, grid, blockM, blockN, r - qStart)
               ensures KeyAdds(batch, hs, d, grid, blockM, blockN, r)(b)
                       == KeyTotal(batch[b], hs[b], d, grid, blockM, blockN, r - kStart)
               ensures ValueAdds(batch, hs, d, grid, blockM, r)(b)
                       == ValueTotal(batch[b], hs[b], d, grid, blockM, r - kStart)
      {
        Adds(batch, hs, d, grid, blockM, blockN, r, b);
      }
      NextSequence(b);
      qStart, kStart := qStart + batch[b].qlen, kStart + batch[b].klen;
    }
  }

  lemma Adds(batch: seq<Sequence>, hs: seq<Head>, d: int, grid: int, blockM: int, blockN: int, r: int, b: nat)
    requires |batch| == |hs| && blockM >= 1 && blockN >= 1 && b < |batch|
    ensures QueryAdds(batch, hs, d, grid, blockM, blockN, r)(b)
            == QueryTotal(batch[b], hs[b], d, grid, blockM, blockN, r - QStart(batch, b))
    ensures KeyAdds(batch, hs, d, grid, blockM, blockN, r)(b)
            == KeyTotal(batch[b], hs[b], d, grid, blockM, blockN, r - KStart(batch, b))
    ensures ValueAdds(batch, hs, d, grid, blockM, r)(b)
            == ValueTotal(batch[b], hs[b], d, grid, blockM, r - KStart(batch, b))
  {
    hide QueryTotal, KeyTotal, ValueTotal, QStart, KStart;
  }

  lemma NextSequence(n: nat)
    ensures forall x, f: int -> Number {:trigger Add(x, NSum(0, n, f))} ::
              Add(Add(x, NSum(0, n, f)), f(n)) == Add(x, NSum(0, n + 1, f))
  {
    forall x, f: int -> Number ensures Add(Add(x, NSum(0, n, f)), f(n)) == Add(x, NSum(0, n + 1, f)) {
      AddAssoc(x, NSum(0, n, f), f(n));
    }
  }

  // ---------------------------------------------------------------- only its own gradient

  /** No grid of the batch adds an undefined value. */
  ghost predicate Clean(batch: seq<Sequence>, hs: seq<Head>, grid: nat, blockM: int, blockN: int)
    requires |batch| == |hs| && blockM >= 1 && blockN >= 1
  {
    forall b :: 0 <= b < |batch| ==> AllNumbers(batch[b], hs[b], grid, blockM, blockN)
  }

  lemma {:induction false} OneTerm(n: nat, f: int -> Number, k: nat, x: real)
    requires k < n && f(k) == Real(x) && forall i :: 0 <= i < n && i != k ==> f(i) == Real(0.0)
    ensures NSum(0, n, f) == Real(x)
  {
    if k == n - 1 {
      NSumIs(0, k, f, _ => 0.0);
      SumZero(0, k, _ => 0.0);
    } else {
      OneTerm(n - 1, f, k, x);
    }
  }

  /** In a clean batch a query row receives its own gradient, over all keys of its sequence that the grid reaches, and
      nothing from its neighbours. */
  lemma QueryReceives(batch: seq<Sequence>, hs: seq<Head>, d: int, grid: nat, blockM: int, blockN: int, b: nat, q: nat)
    requires |batch| == |hs| && blockM >= 1 && blockN >= 1 && Clean(batch, hs, grid, blockM, blockN)
    requires b < |batch| && q < batch[b].qlen
    ensures NSum(0, |batch|, QueryAdds(batch, hs, d, grid, blockM, blockN, QStart(batch, b) + q))
            == Real(Sum(0, Min(batch[b].klen, grid * blockM), MeantQ(batch[b], hs[b], d, q)))
  {
    hide NSum, Sum, MeantQ, QueryTotal, AllNumbers, QueryAdds, QStart;
    var r := QStart(batch, b) + q;
    var f := QueryAdds(batch, hs, d, grid, blockM, blockN, r);
    forall c | 0 <= c < |batch| ensures f(c)
        == QueryTotal(batch[c], hs[c], d, grid, blockM, blockN, r - QStart(batch, c)) {
      Adds(batch, hs, d, grid, blockM, blockN, r, c);
    }
    forall c | 0 <= c < |batch| && c != b ensures f(c) == Real(0.0) {
      if c < b { StartsOrdered(batch, c, b); } else { StartsOrdered(batch, b, c); }
      ForeignQuery(batch[c], hs[c], d, grid, blockM, blockN, r - QStart(batch, c));
    }
    TotalsMeant(batch[b], hs[b], d, grid, blockM, blockN, q);
    OneTerm(|batch|, f, b, Sum(0, Min(batch[b].klen, grid * blockM), MeantQ(batch[b], hs[b], d, q)));
  }

  lemma ForeignQuery(s: Sequence, h: Head, d: int, grid: nat, blockM: int, blockN: int, q: int)
    requires blockM >= 1 && blockN >= 1 && AllNumbers(s, h, grid, blockM, blockN) && (q < 0 || q >= s.qlen)
    ensures QueryTotal(s, h, d, grid, blockM, blockN, q) == Real(0.0)
  {
    hide Sum, KeyTotal;
    assert QueryTotal(s, h, d, grid, blockM, blockN, q).Real?;
  }

  /** And a key row that the grid reaches receives its own gradients over all queries of its sequence. */
  lemma KeyReceives(batch: seq<Sequence>, hs: seq<Head>, d: int, grid: nat, blockM: int, blockN: int, b: nat, k: nat)
    requires |batch| == |hs| && blockM >= 1 && blockN >= 1 && Clean(batch, hs, grid, blockM, blockN)
    requires b < |batch| && k < batch[b].klen && k < grid * blockM
    ensures NSum(0, |batch|, KeyAdds(batch, hs, d, grid, blockM, blockN, KStart(batch, b) + k))
            == Real(Sum(0, batch[b].qlen, MeantK(batch[b], hs[b], d, k)))
    ensures NSum(0, |batch|, ValueAdds(batch, hs, d, grid, blockM, KStart(batch, b) + k))
            == Real(Sum(0, batch[b].qlen, MeantV(batch[b], hs[b], d, k)))
  {
    hide NSum, Sum, MeantK, MeantV, KeyTotal, ValueTotal, AllNumbers, KeyAdds, ValueAdds, KStart;
    var r := KStart(batch, b) + k;
    var f, g := KeyAdds(batch, hs, d, grid, blockM, blockN, r), ValueAdds(batch, hs, d, grid, blockM, r);
    forall c | 0 <= c < |batch|
      ensures f(c) == KeyTotal(batch[c], hs[c], d, grid, blockM, blockN, r - KStart(batch, c))
      ensures g(c) == ValueTotal(batch[c], hs[c], d, grid, blockM, r - KStart(batch, c))
    {
      Adds(batch, hs, d, grid, blockM, blockN, r, c);
    }
    forall c | 0 <= c < |batch| && c != b ensures f(c) == Real(0.0) && g(c) == Real(0.0) {
      if c < b { StartsOrdered(batch, c, b); } else { StartsOrdered(batch, b, c); }
      ForeignKey(batch[c], hs[c], d, grid, blockM, blockN, r - KStart(batch, c));
    }
    OwnKey(batch[b], hs[b], d, grid, blockM, blockN, k);
    OneTerm(|batch|, f, b, Sum(0, batch[b].qlen, MeantK(batch[b], hs[b], d, k)));
    OneTerm(|batch|, g, b, Sum(0, batch[b].qlen, MeantV(batch[b], hs[b], d, k)));
  }

  lemma ForeignKey(s: Sequence, h: Head, d: int, grid: nat, blockM: int, blockN: int, k: int)
    requires blockM >= 1 && blockN >= 1 && AllNumbers(s, h, grid, blockM, blockN) && (k < 0 || k >= s.klen)
    ensures KeyTotal(s, h, d, grid, blockM, blockN, k) == Real(0.0) && ValueTotal(s, h, d, grid, blockM, k) == Real(0.0)
  {
    hide Sum, MeantK, MeantV, QueryTotal;
    assert KeyTotal(s, h, d, grid, blockM, blockN, k).Real?;
    if k >= 0 { TotalsMeant(s, h, d, grid, blockM, blockN, k); }
  }

  lemma OwnKey(s: Sequence, h: Head, d: int, grid: nat, blockM: int, blockN: int, k: nat)
    requires blockM >= 1 && blockN >= 1 && AllNumbers(s, h, grid, blockM, blockN) && k < grid * blockM
    ensures KeyTotal(s, h, d, grid, blockM, blockN, k) == Real(Sum(0, s.qlen, MeantK(s, h, d, k)))
    ensures ValueTotal(s, h, d, grid, blockM, k) == Real(Sum(0, s.qlen, MeantV(s, h, d, k)))
  {
    hide Sum, MeantK, MeantV, QueryTotal;
    assert KeyTotal(s, h, d, grid, blockM, blockN, k).Real?;
  }

  ghost predicate AllStored(batch: seq<Sequence>, hs: seq<Head>, fM: int, nctx: int)
    requires fM >= 1
  {
    |hs| == |batch| && forall b :: 0 <= b < |hs| ==> Stored(batch[b], hs[b], fM, nctx)
  }

  /** A batch whose grid reaches all keys is clean whatever the unwritten rows hold exactly when every sequence has a
      length that the query block size divides, or fills its buffer. */
  lemma CleanBatchIff(batch: seq<Sequence>, fM: int, nctx: int, grid: nat, blockM: int, blockN: int)
    requires fM >= 1 && blockM >= 1 && blockN >= 1
    requires forall b :: 0 <= b < |batch| ==> Reached(batch[b], nctx, grid, blockM)
    ensures (forall hs :: AllStored(batch, hs, fM, nctx) ==> Clean(batch, hs, grid, blockM, blockN))
            <==> forall b :: 0 <= b < |batch| ==> batch[b].qlen % blockN == 0 || batch[b].qlen == nctx
  {
    hide AllNumbers, Stored;
    forall b | 0 <= b < |batch|
      ensures (forall h :: Stored(batch[b], h, fM, nctx) ==> AllNumbers(batch[b], h, grid, blockM, blockN))
              <==> batch[b].qlen % blockN == 0 || batch[b].qlen == nctx
    {
      CleanWhenDivided(batch[b], fM, nctx, grid, blockM, blockN);
    }
    if b :| 0 <= b < |batch| && !(batch[b].qlen % blockN == 0 || batch[b].qlen == nctx) {
      var h :| Stored(batch[b], h, fM, nctx) && !AllNumbers(batch[b], h, grid, blockM, blockN);
      var hs := seq(|batch|, i requires 0 <= i < |batch| => if i == b then h else BlankTail(batch[i], nctx));
      forall i | 0 <= i < |hs| ensures Stored(batch[i], hs[i], fM, nctx) { BlankTailStored(batch[i], fM, nctx); }
      assert !AllNumbers(batch[b], hs[b], grid, blockM, blockN);
      assert !Clean(batch, hs, grid, blockM, blockN);
    }
  }

  ghost predicate Reached(s: Sequence, nctx: int, grid: nat, blockM: int) {
    Positive(s.window) && 1 <= s.qlen <= nctx && 1 <= s.klen <= grid * blockM
  }

  lemma BlankTailStored(s: Sequence, fM: int, nctx: int)
    requires fM >= 1 && s.qlen <= nctx
    ensures Stored(s, BlankTail(s, nctx), fM, nctx)
  {
  }
}
