/** Which output tile a cluster of the persistent kernel computes in which wave. */
module TileMap {
  import opened Arith

  const GROUP := 16

  datatype Grid = Grid(m: nat, n: nat, blockM: nat, blockN: nat, sms: nat)

  function MBlocks(g: Grid): int requires g.blockM >= 1 { CeilDiv(g.m, g.blockM) }
  function NBlocks(g: Grid): int requires g.blockN >= 1 { CeilDiv(g.n, g.blockN) }
  function MClusters(g: Grid): int requires g.blockM >= 1 { MBlocks(g) / 2 }
  function Clusters(g: Grid): int { g.sms / 2 }
  function Waves(g: Grid): int
    requires g.blockM >= 1 && g.blockN >= 1 && g.sms >= 1
  {
    CeilDiv(MBlocks(g) * NBlocks(g), g.sms)
  }

  /** The kernel's own assertion on n_blocks, and non-zero divisors. */
  predicate Valid(g: Grid) {
    && g.blockM >= 1 && g.blockN >= 1 && g.sms >= 2
    && NBlocks(g) % (2 * GROUP) == 0 && MClusters(g) >= 1
  }

  datatype Tile = Tile(bxCluster: int, nx: int)

  function TileAt(mc: int, id: int): Tile
    requires mc >= 1
  {
    Tile((id / GROUP) % mc, id % GROUP + id / GROUP / mc * GROUP)
  }

  function IdAt(mc: int, t: Tile): int {
    (t.nx / GROUP * mc + t.bxCluster) * GROUP + t.nx % GROUP
  }

  function TileOf(g: Grid, id: nat): Tile
    requires Valid(g)
  {
    TileAt(MClusters(g), id)
  }

  /** The guard every role evaluates before working on its tile. */
  predicate Guard(g: Grid, id: nat, cta: nat)
    requires Valid(g)
  {
    var t := TileOf(g, id);
    (t.bxCluster * 2 + cta) * g.blockM < g.m && t.nx * g.blockN < g.n
  }

  /** Tile ids and tiles: TileAt and IdAt are inverse ... */
  lemma TileRoundTrip(mc: int, id: nat)
    requires mc >= 1
    ensures IdAt(mc, TileAt(mc, id)) == id
    ensures TileAt(mc, id).nx / GROUP == id / GROUP / mc && 0 <= TileAt(mc, id).bxCluster < mc
  {
    var q, r := id / GROUP, id % GROUP;
    DivModUnique(TileAt(mc, id).nx, GROUP, q / mc, r);
    assert q == q / mc * mc + q % mc;
  }

  /** ... and the ids of the grid are exactly a prefix. */
  lemma TileInGrid(mc: int, nb: int, id: nat)
    requires mc >= 1 && nb % GROUP == 0
    ensures TileAt(mc, id).nx < nb <==> id < mc * nb
    ensures TileAt(mc, id).nx >= 0
  {
    TileRoundTrip(mc, id);
    var h := nb / GROUP;
    assert TileAt(mc, id).nx < nb <==> id / GROUP / mc < h;
    DivBelow(id / GROUP, mc, h);
    assert mc * (h * GROUP) == (h * mc) * GROUP;
  }

  lemma IdRoundTrip(mc: int, nb: int, t: Tile)
    requires mc >= 1 && nb % GROUP == 0 && 0 <= t.bxCluster < mc && 0 <= t.nx < nb
    ensures 0 <= IdAt(mc, t) < mc * nb && TileAt(mc, IdAt(mc, t)) == t
  {
    var s := t.nx / GROUP;
    assert s * mc >= 0;
    DivModUnique(IdAt(mc, t), GROUP, s * mc + t.bxCluster, t.nx % GROUP);
    DivModUnique(s * mc + t.bxCluster, mc, s, t.bxCluster);
    TileInGrid(mc, nb, IdAt(mc, t));
  }

  /** Both CTAs of a cluster take the same decision, and it only depends on the id being in range. */
  lemma GuardExact(g: Grid, id: nat, cta: nat)
    requires Valid(g) && cta < 2
    ensures Guard(g, id, cta) <==> id < MClusters(g) * NBlocks(g)
  {
    var t := TileOf(g, id);
    TileRoundTrip(MClusters(g), id);
    TileInGrid(MClusters(g), NBlocks(g), id);
    BelowCeilDiv(t.bxCluster * 2 + cta, g.m, g.blockM);
    BelowCeilDiv(t.nx, g.n, g.blockN);
  }

  lemma WavesNonNegative(g: Grid)
    requires Valid(g)
    ensures Waves(g) >= 0
  {
    hide CeilDiv;
    BelowCeilDiv(-1, g.m, g.blockM);
    BelowCeilDiv(-1, g.n, g.blockN);
    MulOrder(0, MBlocks(g), NBlocks(g));
    BelowCeilDiv(-1, MBlocks(g) * NBlocks(g), g.sms);
  }

  /** Waves a cluster works in. */
  function ActiveWaves(g: Grid, cluster: nat): nat
    requires Valid(g) && cluster < Clusters(g)
  {
    WavesNonNegative(g);
    var left := CeilDiv(MClusters(g) * NBlocks(g) - cluster, Clusters(g));
    if left < 0 then 0 else if left < Waves(g) then left else Waves(g)
  }

  /** Skipped waves are a suffix: so w * k_iters + k is the number of steps already done. */
  lemma SkippedWavesAreSuffix(g: Grid, cluster: nat, w: nat, cta: nat)
    requires Valid(g) && cluster < Clusters(g) && w < Waves(g) && cta < 2
    ensures Guard(g, Clusters(g) * w + cluster, cta) <==> w < ActiveWaves(g, cluster)
  {
    GuardExact(g, Clusters(g) * w + cluster, cta);
    BelowCeilDiv(w, MClusters(g) * NBlocks(g) - cluster, Clusters(g));
  }

  predicate TileFor(g: Grid, id: nat, cta: nat, bx: nat, nx: nat)
    requires Valid(g)
  {
    cta < 2 && Guard(g, id, cta) && TileOf(g, id).bxCluster * 2 + cta == bx && TileOf(g, id).nx == nx
  }

  predicate Computes(g: Grid, cluster: nat, w: nat, cta: nat, bx: nat, nx: nat)
    requires Valid(g)
  {
    cluster < Clusters(g) && w < Waves(g) && TileFor(g, Clusters(g) * w + cluster, cta, bx, nx)
  }

  /** The slot of the schedule that computes block row `bx`, block column `nx`. */
  function SlotId(g: Grid, bx: nat, nx: nat): int
    requires Valid(g)
  {
    IdAt(MClusters(g), Tile(bx / 2, nx))
  }

  /** The waves suffice for all clusters of tiles when the SM count is even. */
  lemma WavesSuffice(g: Grid, id: nat)
    requires Valid(g) && g.sms % 2 == 0 && id < MClusters(g) * NBlocks(g)
    ensures id / Clusters(g) < Waves(g)
  {
    hide CeilDiv;
    BelowCeilDiv(-1, g.n, g.blockN);
    WavesArithmetic(id, MBlocks(g), NBlocks(g), Clusters(g));
    BelowCeilDiv(id / Clusters(g), MBlocks(g) * NBlocks(g), g.sms);
  }

  lemma WavesArithmetic(id: nat, mb: int, nb: int, nc: int)
    requires nc >= 1 && nb >= 0 && id < mb / 2 * nb
    ensures id / nc * (2 * nc) < mb * nb
  {
    MulOrder(2 * (mb / 2), mb, nb);
    assert 2 * (mb / 2) * nb == 2 * (mb / 2 * nb);
    assert id == id / nc * nc + id % nc;
    assert id / nc * (2 * nc) == 2 * (id / nc * nc);
  }

  lemma SlotComputes(g: Grid, bx: nat, nx: nat)
    requires Valid(g) && g.sms % 2 == 0 && bx < 2 * MClusters(g) && nx < NBlocks(g)
    ensures var id := SlotId(g, bx, nx);
            id >= 0 && id / Clusters(g) >= 0 && Computes(g, id % Clusters(g), id / Clusters(g), bx % 2, bx, nx)
  {
    hide IdAt, TileAt, CeilDiv, Guard, Waves;
    var id, nc := SlotId(g, bx, nx), Clusters(g);
    IdRoundTrip(MClusters(g), NBlocks(g), Tile(bx / 2, nx));
    WavesSuffice(g, id);
    GuardExact(g, id, bx % 2);
    Recompose(id, nc);
  }

  lemma Recompose(x: nat, n: nat)
    requires n >= 1
    ensures n * (x / n) + x % n == x && x / n >= 0
  {
  }

  lemma SlotUnique(g: Grid, id: nat, cta: nat, bx: nat, nx: nat)
    requires Valid(g) && TileFor(g, id, cta, bx, nx)
    ensures bx < 2 * MClusters(g) && nx < NBlocks(g) && SlotId(g, bx, nx) == id && cta == bx % 2
  {
    GuardExact(g, id, cta);
    SlotOfTile(MClusters(g), NBlocks(g), id, cta, TileOf(g, id));
  }

  lemma SlotOfTile(mc: int, nb: int, id: nat, cta: nat, t: Tile)
    requires mc >= 1 && cta < 2 && nb % GROUP == 0 && id < mc * nb && t == TileAt(mc, id)
    ensures var bx := t.bxCluster * 2 + cta;
            0 <= bx < 2 * mc && 0 <= t.nx < nb && cta == bx % 2 && IdAt(mc, Tile(bx / 2, t.nx)) == id
  {
    TileRoundTrip(mc, id);
    TileInGrid(mc, nb, id);
    assert Tile((t.bxCluster * 2 + cta) / 2, t.nx) == t;
  }

  lemma SlotOnce(g: Grid, c: nat, w: nat, cta: nat, bx: nat, nx: nat)
    requires Valid(g) && Computes(g, c, w, cta, bx, nx)
    ensures bx < 2 * MClusters(g) && nx < NBlocks(g)
    ensures var id := SlotId(g, bx, nx); w == id / Clusters(g) && c == id % Clusters(g) && cta == bx % 2
  {
    var id: nat := Clusters(g) * w + c;
    SlotUnique(g, id, cta, bx, nx);
    DivModUnique(id, Clusters(g), w, c);
  }

  ghost predicate Covered(g: Grid, bx: nat, nx: nat)
    requires Valid(g)
  {
    exists c: nat, w: nat, cta: nat :: Computes(g, c, w, cta, bx, nx)
  }

  /** No output tile is computed twice, and every one is computed exactly when the block rows
      pair up: with an odd number of them the last block row has no cluster. */
  lemma EveryTileOnce(g: Grid)
    requires Valid(g) && g.sms % 2 == 0 && g.n >= 1
    ensures forall bx: nat, nx: nat, c: nat, w: nat, cta: nat, c': nat, w': nat, cta': nat ::
              Computes(g, c, w, cta, bx, nx) && Computes(g, c', w', cta', bx, nx) ==>
              c == c' && w == w' && cta == cta'
    ensures MBlocks(g) % 2 == 0 <==>
            forall bx: nat, nx: nat :: bx < MBlocks(g) && nx < NBlocks(g) ==> Covered(g, bx, nx)
  {
    forall bx: nat, nx: nat, c: nat, w: nat, cta: nat, c': nat, w': nat, cta': nat |
      Computes(g, c, w, cta, bx, nx) && Computes(g, c', w', cta', bx, nx)
      ensures c == c' && w == w' && cta == cta'
    {
      SlotOnce(g, c, w, cta, bx, nx);
      SlotOnce(g, c', w', cta', bx, nx);
    }
    forall bx: nat, nx: nat | bx < MBlocks(g) && nx < NBlocks(g)
      ensures Covered(g, bx, nx) <==> bx < 2 * MClusters(g)
    {
      CoveredExactly(g, bx, nx);
    }
    if MBlocks(g) % 2 != 0 {
      BelowCeilDiv(0, g.n, g.blockN);
      assert !Covered(g, MBlocks(g) - 1, 0);
    }
  }

  lemma CoveredExactly(g: Grid, bx: nat, nx: nat)
    requires Valid(g) && g.sms % 2 == 0 && nx < NBlocks(g)
    ensures Covered(g, bx, nx) <==> bx < 2 * MClusters(g)
  {
    forall c: nat, w: nat, cta: nat | Computes(g, c, w, cta, bx, nx) ensures bx < 2 * MClusters(g) {
      SlotOnce(g, c, w, cta, bx, nx);
    }
    if bx < 2 * MClusters(g) {
      SlotComputes(g, bx, nx);
      var id := SlotId(g, bx, nx);
      assert Computes(g, id % Clusters(g), id / Clusters(g), bx % 2, bx, nx);
    }
  }

  /** Three block rows: the last one, rows 256 to 383, is computed by no cluster. */
  lemma OddRowsLost()
    ensures Valid(Grid(384, 8192, 128, 256, 148)) && !Covered(Grid(384, 8192, 128, 256, 148), 2, 0)
  {
    CoveredExactly(Grid(384, 8192, 128, 256, 148), 2, 0);
  }
}
