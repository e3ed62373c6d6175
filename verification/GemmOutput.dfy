/** The output matrix of the block-scaled GEMM: schedule, pipeline and arithmetic together. */
module GemmOutput {
  import opened Arith
  import opened TileMap
  import opened Pipeline
  import opened PipelineTheorems
  import opened BlockScaled

  /** The tile of a wave of a cluster of the persistent kernel, and where the tiles lie. */
  function WaveTile(g: Grid, cluster: nat, w: int): Tile
    requires TileMap.Valid(g)
  {
    if w < 0 then Tile(0, 0) else TileOf(g, Clusters(g) * w + cluster)
  }

  function Place(g: Grid, cluster: nat): Origins
    requires TileMap.Valid(g)
  {
    Origins((cta, w) => (WaveTile(g, cluster, w).bxCluster * 2 + cta) * g.blockM,
            w => WaveTile(g, cluster, w).nx * g.blockN)
  }

  /** The one tile of a cluster of the other kernel. */
  function OnePlace(g: Grid, x: int, y: int): Origins {
    Origins((cta, _) => (x * 2 + cta) * g.blockM, _ => y * g.blockN)
  }

  /** Who stores an element: element (r, n) of the tile that CTA `cta` of a cluster computes in a wave. */
  datatype Slot = Slot(cluster: nat, wave: nat, cta: nat, r: nat, n: nat)

  /** Clusters work in their active waves only. */
  predicate Writes(g: Gemm, s: Slot, row: int, col: int)
    requires ValidGemm(g) && TileMap.Valid(g.grid)
  {
    && s.cluster < Clusters(g.grid) && s.wave < ActiveWaves(g.grid, s.cluster) && s.cta < 2
    && s.r < g.grid.blockM && s.n < g.grid.blockN
    && row == RowOf(Place(g.grid, s.cluster), s.cta, s.wave, s.r)
    && col == ColOf(Place(g.grid, s.cluster), s.wave, s.n)
  }

  /** A slot of an active wave is a slot of the schedule. */
  lemma WritesComputes(g: Gemm, s: Slot, row: nat, col: nat)
    requires ValidGemm(g) && TileMap.Valid(g.grid) && Writes(g, s, row, col)
    ensures row / g.grid.blockM >= 0 && col / g.grid.blockN >= 0
    ensures Computes(g.grid, s.cluster, s.wave, s.cta, row / g.grid.blockM, col / g.grid.blockN)
    ensures s.r == row % g.grid.blockM && s.n == col % g.grid.blockN
  {
    hide TileAt, CeilDiv, Guard, ActiveWaves, Waves, MClusters, NBlocks;
    var id := Clusters(g.grid) * s.wave + s.cluster;
    var t := TileOf(g.grid, id);
    ActiveInWaves(g.grid, s.cluster);
    SkippedWavesAreSuffix(g.grid, s.cluster, s.wave, s.cta);
    DivModUnique(row, g.grid.blockM, t.bxCluster * 2 + s.cta, s.r);
    DivModUnique(col, g.grid.blockN, t.nx, s.n);
    Quotients(row, g.grid.blockM);
    Quotients(col, g.grid.blockN);
  }

  lemma ActiveInWaves(g: Grid, cluster: nat)
    requires TileMap.Valid(g) && cluster < Clusters(g)
    ensures ActiveWaves(g, cluster) <= Waves(g)
  {
    WavesNonNegative(g);
  }

  lemma ComputesWrites(g: Gemm, s: Slot, row: nat, col: nat)
    requires ValidGemm(g) && TileMap.Valid(g.grid)
    requires row / g.grid.blockM >= 0 && col / g.grid.blockN >= 0
    requires Computes(g.grid, s.cluster, s.wave, s.cta, row / g.grid.blockM, col / g.grid.blockN)
    requires s.r == row % g.grid.blockM && s.n == col % g.grid.blockN
    ensures Writes(g, s, row, col)
  {
    hide TileAt, CeilDiv, Guard;
    SkippedWavesAreSuffix(g.grid, s.cluster, s.wave, s.cta);
    Quotients(row, g.grid.blockM);
    Quotients(col, g.grid.blockN);
  }

  ghost predicate Written(g: Gemm, row: int, col: int)
    requires ValidGemm(g) && TileMap.Valid(g.grid)
  {
    exists s :: Writes(g, s, row, col)
  }

  /** Every element is written by at most one slot, and by one exactly when its block row has a cluster; so all
      elements are written exactly once when the number of block rows is even. */
  lemma WrittenOnce(g: Gemm, row: nat, col: nat)
    requires ValidGemm(g) && TileMap.Valid(g.grid) && g.grid.sms % 2 == 0 && row < g.grid.m && col < g.grid.n
    ensures forall s, t :: Writes(g, s, row, col) && Writes(g, t, row, col) ==> s == t
    ensures Written(g, row, col) <==> row / g.grid.blockM < 2 * MClusters(g.grid)
    ensures MBlocks(g.grid) % 2 == 0 ==> Written(g, row, col)
  {
    hide Writes, Computes, MClusters, NBlocks, MBlocks, Clusters, TileMap.Valid;
    var bx, nx := BlockIndices(g, row, col);
    forall s, t | Writes(g, s, row, col) && Writes(g, t, row, col) ensures s == t {
      WritesComputes(g, s, row, col);
      WritesComputes(g, t, row, col);
      SlotOnce(g.grid, s.cluster, s.wave, s.cta, bx, nx);
      SlotOnce(g.grid, t.cluster, t.wave, t.cta, bx, nx);
    }
    CoveredExactly(g.grid, bx, nx);
    if c: nat, w: nat, cta: nat :| Computes(g.grid, c, w, cta, bx, nx) {
      Quotients(row, g.grid.blockM);
      Quotients(col, g.grid.blockN);
      ComputesWrites(g, Slot(c, w, cta, row % g.grid.blockM, col % g.grid.blockN), row, col);
    }
    if s :| Writes(g, s, row, col) {
      WritesComputes(g, s, row, col);
      assert Computes(g.grid, s.cluster, s.wave, s.cta, bx, nx);
    }
    EvenRows(g.grid, bx);
  }

  lemma BlockIndices(g: Gemm, row: nat, col: nat) returns (bx: nat, nx: nat)
    requires ValidGemm(g) && TileMap.Valid(g.grid) && row < g.grid.m && col < g.grid.n
    ensures bx == row / g.grid.blockM && nx == col / g.grid.blockN
    ensures g.grid.blockM >= 1 && g.grid.blockN >= 1 && bx < MBlocks(g.grid) && nx < NBlocks(g.grid)
  {
    hide CeilDiv;
    Quotients(row, g.grid.blockM);
    Quotients(col, g.grid.blockN);
    bx, nx := row / g.grid.blockM, col / g.grid.blockN;
    BelowCeilDiv(bx, g.grid.m, g.grid.blockM);
    BelowCeilDiv(nx, g.grid.n, g.grid.blockN);
  }

  lemma EvenRows(g: Grid, bx: nat)
    requires TileMap.Valid(g) && bx < MBlocks(g)
    ensures MBlocks(g) % 2 == 0 ==> bx < 2 * MClusters(g)
  {
  }

  /** A run of a cluster over its active waves that cannot be extended. */
  ghost predicate Completed(p: Params, acts: seq<Action>)
    requires ValidParams(p)
  {
    Legal(p, Init(p), acts) && forall a :: !Enabled(p, After(p, Init(p), acts), a)
  }

  /** The persistent kernel's parameters over a cluster's active waves. */
  function ClusterParams(g: Gemm, stages: nat, cluster: nat): (p: Params)
    requires ValidGemm(g) && TileMap.Valid(g.grid) && cluster < Clusters(g.grid) && g.k >= 1 && stages >= 1
    ensures ValidParams(p)
  {
    StepsAlongK(g);
    KernelParams(g, stages, ActiveWaves(g.grid, cluster), true)
  }

  lemma StepsAlongK(g: Gemm)
    requires ValidGemm(g) && g.k >= 1
    ensures g.k / g.blockK >= 1
  {
    Multiple(-(g.k / g.blockK), g.blockK);
    assert g.k == g.k / g.blockK * g.blockK;
  }

  /** What is stored at an element is the reference's value of it, whatever the interleaving of the cluster that stores
      it, and from whichever epilogue warp of the CTA. */
  lemma WrittenCorrectly(g: Gemm, stages: nat, s: Slot, row: nat, col: nat, acts: seq<Action>, e: nat)
    requires ValidGemm(g) && TileMap.Valid(g.grid) && g.blockK == g.gran && g.k >= 1 && stages >= 1
    requires Writes(g, s, row, col) && e < 8 && e / 4 == s.cta
    requires Completed(ClusterParams(g, stages, s.cluster), acts)
    ensures var p := ClusterParams(g, stages, s.cluster);
            var out := After(p, Init(p), acts).epi[e].out;
            && s.wave < |out|
            && (forall i :: 0 <= i < |out[s.wave]| ==> Usable(out[s.wave][i]))
            && AccValue(g, Place(g.grid, s.cluster), out[s.wave], s.r, s.n) == Reference(g, row, col)
  {
    hide After, Legal, Enabled, Init, AccValue, Reference, Usable, Shape, TileMap.Valid, ActiveWaves, RowOf, ColOf;
    KernelMatchesReference(g, ClusterParams(g, stages, s.cluster), Place(g.grid, s.cluster), acts, e, s.wave, s.r, s.n);
  }

  function OneTileParams(g: Gemm, stages: nat): (p: Params)
    requires ValidGemm(g) && g.k >= 1 && stages >= 1
    ensures ValidParams(p)
  {
    StepsAlongK(g);
    KernelParams(g, stages, 1, false)
  }

  /** The one-tile kernel: CTA (2x + cta, y) of the launch computes block row 2x + cta and block column y. */
  lemma OneTileCorrect(g: Gemm, stages: nat, row: nat, col: nat, acts: seq<Action>, e: nat)
    requires ValidGemm(g) && g.blockK == g.gran && g.k >= 1 && stages >= 1 && g.grid.blockM >= 1 && g.grid.blockN >= 1
    requires var p := OneTileParams(g, stages); Completed(p, acts)
    requires e < 8 && e / 4 == row / g.grid.blockM % 2
    ensures var p := OneTileParams(g, stages);
            var at := OnePlace(g.grid, row / g.grid.blockM / 2, col / g.grid.blockN);
            var out := After(p, Init(p), acts).epi[e].out;
            && |out| == 1
            && (forall i :: 0 <= i < |out[0]| ==> Usable(out[0][i]))
            && AccValue(g, at, out[0], row % g.grid.blockM, col % g.grid.blockN) == Reference(g, row, col)
  {
    hide After, Legal, Enabled, Init, AccValue, Reference, Usable, Shape;
    var p := OneTileParams(g, stages);
    var at := OnePlace(g.grid, row / g.grid.blockM / 2, col / g.grid.blockN);
    Quotients(row, g.grid.blockM);
    Quotients(col, g.grid.blockN);
    Quotients(row / g.grid.blockM, 2);
    KernelMatchesReference(g, p, at, acts, e, 0, row % g.grid.blockM, col % g.grid.blockN);
    assert RowOf(at, e / 4, 0, row % g.grid.blockM) == row && ColOf(at, 0, col % g.grid.blockN) == col;
  }
}
