/** The output of the grouped block-scaled GEMM: each row against the weights of its own expert. */
module GroupedOutput {
  import opened Arith
  import opened Sums
  import TileMap
  import opened Pipeline
  import opened PipelineTheorems
  import opened BlockScaled
  import opened GroupedSchedule

  /** A of all experts' rows, B of every expert, and the packed scales of both, group-major. */
  datatype Grouped = Grouped(p: Problem, mTotal: nat, k: nat, blockK: nat, gran: nat,
                             a: (int, int) -> real, b: (int, int, int) -> real, sfa: int -> nat, sfb: int -> nat)

  // ---------------------------------------------------------------- reference

  /** Scaled products of a row with column `col` of expert `e`, along one scale block. */
  function GroupedTerm(q: Grouped, e: nat, row: int, col: nat, bi: nat): int -> real {
    var sa := ScaleOf(Unpacked(q.sfa, q.mTotal, row, bi));
    var sb := ScaleOf(ByteOf(q.sfb(bi / 4 * (q.p.experts * q.p.n) + (e * q.p.n + col)), bi % 4));
    x => (q.a(row, x) * sa) * (q.b(e, x, col) * sb)
  }

  function GroupedBlock(q: Grouped, e: nat, row: int, col: nat): int -> real {
    bi => if bi < 0 then 0.0 else
      var hi := bi * q.gran + q.gran;
      Sum(bi * q.gran, if hi < q.k then hi else q.k, GroupedTerm(q, e, row, col, bi))
  }

  /** Element (row, col) of the reference, with the row's expert. */
  function GroupedReference(q: Grouped, e: nat, row: int, col: nat): real
    requires q.gran >= 1
  {
    Sum(0, CeilDiv(q.k, q.gran), GroupedBlock(q, e, row, col))
  }

  /** The same operands as one product, with the experts' columns side by side. */
  function Flat(q: Grouped): Gemm
    requires q.p.n >= 1
  {
    Gemm(TileMap.Grid(q.mTotal, q.p.experts * q.p.n, q.p.blockM, q.p.blockN, q.p.sms), q.k, q.blockK, q.gran,
         q.a, (x, c) => q.b(c / q.p.n, x, c % q.p.n), q.sfa, q.sfb)
  }

  lemma FlatReference(q: Grouped, e: nat, row: int, col: nat)
    requires q.p.n >= 1 && q.gran >= 1 && col < q.p.n
    ensures Reference(Flat(q), row, e * q.p.n + col) == GroupedReference(q, e, row, col)
  {
    hide Sum, ScaleOf, Unpacked, CeilDiv;
    var g, c := Flat(q), e * q.p.n + col;
    DivModUnique(c, q.p.n, e, col);
    MulOrder(0, e, q.p.n);
    forall bi | 0 <= bi < CeilDiv(q.k, q.gran) ensures RefBlock(g, row, c)(bi) == GroupedBlock(q, e, row, col)(bi) {
      var f, h := ScaledTerm(g, row, c, bi), GroupedTerm(q, e, row, col, bi);
      forall x ensures f(x) == h(x) { FlatTerm(q, e, row, col, bi, x); }
      var hi := bi * q.gran + q.gran;
      SumEq(bi * q.gran, if hi < q.k then hi else q.k, f, h);
    }
    SumEq(0, CeilDiv(q.k, q.gran), RefBlock(g, row, c), GroupedBlock(q, e, row, col));
  }

  lemma FlatTerm(q: Grouped, e: nat, row: int, col: nat, bi: nat, x: int)
    requires q.p.n >= 1 && col < q.p.n
    ensures ScaledTerm(Flat(q), row, e * q.p.n + col, bi)(x) == GroupedTerm(q, e, row, col, bi)(x)
  {
    hide ScaleOf, ByteOf;
    DivModUnique(e * q.p.n + col, q.p.n, e, col);
  }

  // ---------------------------------------------------------------- the kernel

  /** Waves in which a cluster has a tile; the others are a suffix. */
  function ActiveWaves(p: Problem, cluster: nat): (n: nat)
    requires Valid(p) && cluster < Clusters(p)
  {
    var left := CeilDiv(Tiles(p) - cluster, Clusters(p));
    if left < 0 then 0 else left
  }

  lemma SkippedWavesAreSuffix(p: Problem, cluster: nat, w: nat)
    requires Valid(p) && cluster < Clusters(p)
    ensures w < ActiveWaves(p, cluster) <==> Clusters(p) * w + cluster < Tiles(p)
    ensures w < ActiveWaves(p, cluster) ==> w < Waves(p)
  {
    hide CeilDiv, Tiles;
    BelowCeilDiv(w, Tiles(p) - cluster, Clusters(p));
    BelowCeilDiv(w, Tiles(p), Clusters(p));
  }

  /** First row loaded for a CTA in a wave, clamped to the expert's last row block, and first column. */
  function FirstRow(p: Problem, cluster: nat, cta: int, w: int): int
    requires Valid(p)
  {
    if 0 <= cta && 0 <= w && 0 <= Clusters(p) * w + cluster < Tiles(p) then
      var id: nat := Clusters(p) * w + cluster;
      LocalRange(p, id);
      var e := Expert(p, id);
      p.offsets[e] + LoadedBlock(p, e, RowBlock(p, id, cta)) * p.blockM
    else 0
  }

  function FirstCol(p: Problem, cluster: nat, w: int): int
    requires Valid(p)
  {
    if 0 <= w && 0 <= Clusters(p) * w + cluster < Tiles(p) then
      var id: nat := Clusters(p) * w + cluster;
      Expert(p, id) * p.n + TileAt(p, id).pn * p.blockN
    else 0
  }

  function Place(p: Problem, cluster: nat): Origins
    requires Valid(p)
  {
    Origins((cta, w) => FirstRow(p, cluster, cta, w), w => FirstCol(p, cluster, w))
  }

  datatype Slot = Slot(cluster: nat, wave: nat, cta: nat, i: nat, j: nat)

  predicate Writes(p: Problem, s: Slot, row: int, col: int)
    requires Valid(p)
  {
    && s.cluster < Clusters(p) && s.wave < ActiveWaves(p, s.cluster)
    && Stores(p, Clusters(p) * s.wave + s.cluster, s.cta, s.i, s.j, row, col)
  }

  /** What was loaded for a slot that stores an element is the element's row and its expert's column. */
  lemma LoadedIsStored(p: Problem, s: Slot, row: int, col: int)
    requires Valid(p) && Writes(p, s, row, col)
    ensures var e := Expert(p, Clusters(p) * s.wave + s.cluster);
            && 0 <= e < p.experts && p.offsets[e] <= row < p.offsets[e + 1]
            && RowOf(Place(p, s.cluster), s.cta, s.wave, s.i) == row
            && ColOf(Place(p, s.cluster), s.wave, s.j) == e * p.n + col
  {
    hide CeilDiv, Tiles, TileAt, LoadedBlock;
    SkippedWavesAreSuffix(p, s.cluster, s.wave);
    var id: nat := Clusters(p) * s.wave + s.cluster;
    StoredFromOwnTile(p, id, s.cta, s.i, s.j, row, col);
  }

  ghost predicate Written(p: Problem, row: int, col: int)
    requires Valid(p)
  {
    exists s :: Writes(p, s, row, col)
  }

  /** An element is written by at most one slot, by one exactly when its row lies below the launched blocks of its
      expert, and always when no group exceeds max_M_per_E. */
  lemma WrittenOnce(p: Problem, row: int, col: nat, e: int)
    requires Valid(p) && col < p.n && 0 <= e < p.experts && p.offsets[e] <= row < p.offsets[e + 1]
    ensures forall s, t :: Writes(p, s, row, col) && Writes(p, t, row, col) ==> s == t
    ensures Written(p, row, col) <==> row - p.offsets[e] < RowClusters(p) * 2 * p.blockM
    ensures MSize(p, e) <= p.maxM ==> Written(p, row, col)
  {
    hide Stores, Tiles, CeilDiv, RowClusters;
    StoredExactlyOnce(p, row, col, e);
    forall s, t | Writes(p, s, row, col) && Writes(p, t, row, col) ensures s == t {
      DivModUnique(Clusters(p) * s.wave + s.cluster, Clusters(p), s.wave, s.cluster);
      DivModUnique(Clusters(p) * t.wave + t.cluster, Clusters(p), t.wave, t.cluster);
    }
    if Stored(p, row, col) {
      var id: nat, cta: nat, i: nat, j: nat :| Stores(p, id, cta, i, j, row, col);
      StoringSlot(p, id, cta, i, j, row, col);
    }
    if s :| Writes(p, s, row, col) {
      assert Stores(p, Clusters(p) * s.wave + s.cluster, s.cta, s.i, s.j, row, col);
    }
  }

  lemma StoringSlot(p: Problem, id: nat, cta: nat, i: nat, j: nat, row: int, col: int)
    requires Valid(p) && Stores(p, id, cta, i, j, row, col)
    ensures Written(p, row, col)
  {
    hide Tiles, CeilDiv;
    Quotients(id, Clusters(p));
    var s := Slot(id % Clusters(p), id / Clusters(p), cta, i, j);
    assert Clusters(p) * s.wave + s.cluster == id;
    SkippedWavesAreSuffix(p, s.cluster, s.wave);
    assert Writes(p, s, row, col);
  }

  function ClusterParams(q: Grouped, stages: nat, cluster: nat): (r: Params)
    requires Valid(q.p) && ValidGemm(Flat(q)) && cluster < Clusters(q.p) && q.k >= 1 && stages >= 1
    ensures ValidParams(r)
  {
    Quotients(q.k, q.blockK);
    KernelParams(Flat(q), stages, ActiveWaves(q.p, cluster), true)
  }

  /** Every element stored is the reference's value for its row and its own expert, whatever the interleaving. */
  lemma WrittenCorrectly(q: Grouped, stages: nat, s: Slot, row: int, col: nat, acts: seq<Action>, e: nat)
    requires Valid(q.p) && ValidGemm(Flat(q)) && q.blockK == q.gran && q.k >= 1 && stages >= 1
    requires Writes(q.p, s, row, col) && col < q.p.n && e < 8 && e / 4 == s.cta
    requires var r := ClusterParams(q, stages, s.cluster);
             Legal(r, Init(r), acts) && forall a :: !Enabled(r, After(r, Init(r), acts), a)
    ensures var r := ClusterParams(q, stages, s.cluster);
            var out := After(r, Init(r), acts).epi[e].out;
            var x := Expert(q.p, Clusters(q.p) * s.wave + s.cluster);
            && 0 <= x < q.p.experts && q.p.offsets[x] <= row < q.p.offsets[x + 1]
            && s.wave < |out|
            && (forall i :: 0 <= i < |out[s.wave]| ==> Usable(out[s.wave][i]))
            && AccValue(Flat(q), Place(q.p, s.cluster), out[s.wave], s.i, s.j)
                == GroupedReference(q, x, row, col)
  {
    hide After, Legal, Enabled, Init, AccValue, Reference, GroupedReference, Usable, Shape, ActiveWaves, RowOf, ColOf,
        Stores;
    var x := Expert(q.p, Clusters(q.p) * s.wave + s.cluster);
    LoadedIsStored(q.p, s, row, col);
    KernelMatchesReference(Flat(q), ClusterParams(q, stages, s.cluster), Place(q.p, s.cluster), acts, e, s.wave, s.i,
                           s.j);
    FlatReference(q, x, row, col);
  }
}
