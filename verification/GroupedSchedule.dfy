/** The tile map of the persistent grouped GEMM: experts, row clusters in groups of eight, columns. */
module GroupedSchedule {
  import opened Arith

  const GROUP := 8

  // ---------------------------------------------------------------- tiles within one expert

  datatype Tile = Tile(pm: int, pn: int)

  /** Row clusters in the group that starts at `first`; the last group may be short. */
  function GroupRows(mc: int, first: int): int {
    if mc - first < GROUP then mc - first else GROUP
  }

  function TileOf(mc: int, nb: int, id: int): Tile
    requires nb >= 1 && 0 <= id / (GROUP * nb) * GROUP < mc
  {
    var first, off := id / (GROUP * nb) * GROUP, id % (GROUP * nb);
    Tile(first + off % GroupRows(mc, first), off / GroupRows(mc, first))
  }

  function IdOf(mc: int, nb: int, t: Tile): int {
    var first := t.pm / GROUP * GROUP;
    t.pm / GROUP * (GROUP * nb) + (t.pn * GroupRows(mc, first) + (t.pm - first))
  }

  /** An id below the tile count falls into a group that starts inside the rows, at an offset
      that the group's own rows cover. */
  lemma GroupOf(mc: int, nb: int, id: nat)
    requires mc >= 1 && nb >= 1 && id < mc * nb
    ensures 0 <= id / (GROUP * nb) * GROUP < mc
    ensures var first := id / (GROUP * nb) * GROUP; id % (GROUP * nb) < nb * GroupRows(mc, first)
  {
    var q, r := id / (GROUP * nb), id % (GROUP * nb);
    var first := q * GROUP;
    assert id == q * (GROUP * nb) + r;
    assert q * (GROUP * nb) == first * nb;
    assert (mc - first) * nb == mc * nb - first * nb;
    if mc - first <= 0 { MulOrder(mc - first, 0, nb); }
    GroupRowsCover(mc - first, nb, r);
  }

  lemma GroupRowsCover(left: int, nb: int, r: int)
    requires r < left * nb && r < GROUP * nb
    ensures r < nb * left && r < nb * GROUP
  {
  }

  lemma TileRoundTrip(mc: int, nb: int, id: nat)
    requires mc >= 1 && nb >= 1 && id < mc * nb
    ensures 0 <= id / (GROUP * nb) * GROUP < mc
    ensures var t := TileOf(mc, nb, id); 0 <= t.pm < mc && 0 <= t.pn < nb && IdOf(mc, nb, t) == id
  {
    GroupOf(mc, nb, id);
    var q, r := id / (GROUP * nb), id % (GROUP * nb);
    var first := q * GROUP;
    var gm, t := GroupRows(mc, first), TileOf(mc, nb, id);
    DivModUnique(t.pm, GROUP, q, r % gm);
    DivBelow(r, gm, nb);
    assert r == r / gm * gm + r % gm;
  }

  lemma IdRoundTrip(mc: int, nb: int, t: Tile)
    requires mc >= 1 && nb >= 1 && 0 <= t.pm < mc && 0 <= t.pn < nb
    ensures 0 <= IdOf(mc, nb, t) < mc * nb && 0 <= IdOf(mc, nb, t) / (GROUP * nb) * GROUP < mc
    ensures TileOf(mc, nb, IdOf(mc, nb, t)) == t
  {
    var q := t.pm / GROUP;
    var first := q * GROUP;
    var gm, r := GroupRows(mc, first), t.pm - first;
    var off := t.pn * gm + r;
    OffsetInGroup(t.pn, nb, gm, r);
    IdInRange(mc, nb, q, gm, off);
    DivModUnique(off, gm, t.pn, r);
  }

  lemma IdInRange(mc: int, nb: int, q: int, gm: int, off: int)
    requires nb >= 1 && q >= 0 && q * GROUP < mc && gm == GroupRows(mc, q * GROUP) && 0 <= off < gm * nb
    ensures 0 <= q * (GROUP * nb) + off < mc * nb
    ensures (q * (GROUP * nb) + off) / (GROUP * nb) == q && (q * (GROUP * nb) + off) % (GROUP * nb) == off
  {
    MulOrder(gm, GROUP, nb);
    MulOrder(gm, mc - q * GROUP, nb);
    assert (mc - q * GROUP) * nb == mc * nb - q * (GROUP * nb);
    MulOrder(0, q, GROUP * nb);
    DivModUnique(q * (GROUP * nb) + off, GROUP * nb, q, off);
  }

  lemma OffsetInGroup(pn: int, nb: int, gm: int, r: int)
    requires 0 <= pn < nb && 0 <= r < gm
    ensures 0 <= pn * gm + r < gm * nb
  {
    Multiple(nb - pn, gm);
    assert (nb - pn) * gm == gm * nb - pn * gm;
    assert pn * gm >= 0;
  }

  // ---------------------------------------------------------------- the schedule

  datatype Problem = Problem(experts: nat, offsets: seq<int>, n: nat, blockM: nat, blockN: nat, maxM: nat, sms: nat)

  /** The kernel's demands: block_N divides N, offsets do not decrease, an even number of SMs. */
  predicate Valid(p: Problem) {
    && p.blockM >= 1 && p.blockN >= 1 && p.n >= 1 && p.n % p.blockN == 0 && p.maxM >= 1
    && p.sms >= 2 && p.sms % 2 == 0
    && |p.offsets| == p.experts + 1
    && forall i, j :: 0 <= i <= j <= p.experts ==> p.offsets[i] <= p.offsets[j]
  }

  function NBlocks(p: Problem): (nb: int)
    requires Valid(p)
    ensures nb >= 1
  {
    assert CeilDiv(p.n, p.blockN) >= 1 by { BelowCeilDiv(0, p.n, p.blockN); }
    CeilDiv(p.n, p.blockN)
  }

  /** Pairs of row blocks launched per expert. */
  function RowClusters(p: Problem): (mc: int)
    requires Valid(p)
    ensures mc >= 1
  {
    assert CeilDiv(p.maxM, p.blockM) >= 1 by { BelowCeilDiv(0, p.maxM, p.blockM); }
    CeilDiv(CeilDiv(p.maxM, p.blockM), 2)
  }

  function PerExpert(p: Problem): (k: int)
    requires Valid(p)
    ensures k >= 1
  {
    Multiple(NBlocks(p), RowClusters(p));
    NBlocks(p) * RowClusters(p)
  }

  function Tiles(p: Problem): int requires Valid(p) { p.experts * PerExpert(p) }
  function Clusters(p: Problem): int { p.sms / 2 }
  function Waves(p: Problem): int requires Valid(p) { CeilDiv(Tiles(p), Clusters(p)) }

  /** The expert and the tile that a cluster works on in a wave. */
  function Expert(p: Problem, id: int): int requires Valid(p) { id / PerExpert(p) }
  function Local(p: Problem, id: int): int requires Valid(p) { id - Expert(p, id) * PerExpert(p) }

  lemma LocalRange(p: Problem, id: nat)
    requires Valid(p) && id < Tiles(p)
    ensures 0 <= Expert(p, id) < p.experts && 0 <= Local(p, id) < RowClusters(p) * NBlocks(p)
    ensures 0 <= Local(p, id) / (GROUP * NBlocks(p)) * GROUP < RowClusters(p)
  {
    DivBelow(id, PerExpert(p), p.experts);
    assert id == id / PerExpert(p) * PerExpert(p) + id % PerExpert(p);
    assert NBlocks(p) * RowClusters(p) == RowClusters(p) * NBlocks(p);
    GroupOf(RowClusters(p), NBlocks(p), Local(p, id));
  }

  function TileAt(p: Problem, id: nat): Tile
    requires Valid(p) && id < Tiles(p)
  {
    LocalRange(p, id);
    TileOf(RowClusters(p), NBlocks(p), Local(p, id))
  }

  /** Row block of a CTA, and the row of the output its epilogue tile starts at. */
  function RowBlock(p: Problem, id: nat, cta: nat): int
    requires Valid(p) && id < Tiles(p)
  {
    TileAt(p, id).pm * 2 + cta
  }

  function MSize(p: Problem, e: int): int requires Valid(p) && 0 <= e < p.experts { p.offsets[e + 1] - p.offsets[e] }

  /** The loader clamps its row block to the expert's last one. */
  function LoadedBlock(p: Problem, e: int, rb: int): int
    requires Valid(p) && 0 <= e < p.experts
  {
    var blocks := CeilDiv(MSize(p, e), p.blockM);
    var last := (if blocks > 1 then blocks else 1) - 1;
    if rb < last then rb else last
  }

  /** Does tile `id`, CTA `cta`, lane (i, j) store output element (row, col)? */
  predicate Stores(p: Problem, id: nat, cta: nat, i: nat, j: nat, row: int, col: int)
    requires Valid(p)
  {
    && id < Tiles(p) && cta < 2 && i < p.blockM && j < p.blockN
    && 0 <= Expert(p, id) < p.experts
    && var e, rb := Expert(p, id), RowBlock(p, id, cta);
       && rb * p.blockM < MSize(p, e)
       && row == p.offsets[e] + rb * p.blockM + i && row < p.offsets[e + 1]
       && col == TileAt(p, id).pn * p.blockN + j
  }

  /** A slot of the launch: cluster and wave to tile id, each used once. */
  predicate Launched(p: Problem, cluster: nat, w: nat, id: nat)
    requires Valid(p)
  {
    cluster < Clusters(p) && w < Waves(p) && id == Clusters(p) * w + cluster && id < Tiles(p)
  }

  lemma LaunchOnce(p: Problem, id: nat)
    requires Valid(p) && id < Tiles(p)
    ensures Launched(p, id % Clusters(p), id / Clusters(p), id)
    ensures forall c: nat, w: nat :: Launched(p, c, w, id) ==> c == id % Clusters(p) && w == id / Clusters(p)
  {
    BelowCeilDiv(id / Clusters(p), Tiles(p), Clusters(p));
    assert id == Clusters(p) * (id / Clusters(p)) + id % Clusters(p);
    forall c: nat, w: nat | Launched(p, c, w, id) ensures c == id % Clusters(p) && w == id / Clusters(p) {
      DivModUnique(id, Clusters(p), w, c);
    }
  }

  /** Whenever something is stored, the operands were loaded from the same row block, and the
      element belongs to the expert whose weights were used. */
  lemma StoredFromOwnTile(p: Problem, id: nat, cta: nat, i: nat, j: nat, row: int, col: int)
    requires Valid(p) && Stores(p, id, cta, i, j, row, col)
    ensures var e := Expert(p, id);
            && LoadedBlock(p, e, RowBlock(p, id, cta)) == RowBlock(p, id, cta)
            && p.offsets[e] <= row < p.offsets[e + 1]
  {
    var e, rb := Expert(p, id), RowBlock(p, id, cta);
    LocalRange(p, id);
    TileRoundTrip(RowClusters(p), NBlocks(p), Local(p, id));
    BelowCeilDiv(rb, MSize(p, e), p.blockM);
    assert rb * p.blockM >= 0;
  }

  /** The only place that can store (row, col), for a row of expert e. */
  function HomeTile(p: Problem, e: int, row: int, col: int): Tile
    requires Valid(p) && 0 <= e < p.experts
  {
    Tile((row - p.offsets[e]) / p.blockM / 2, col / p.blockN)
  }

  function HomeId(p: Problem, e: int, row: int, col: int): int
    requires Valid(p) && 0 <= e < p.experts
  {
    e * PerExpert(p) + IdOf(RowClusters(p), NBlocks(p), HomeTile(p, e, row, col))
  }

  lemma StoreUnique(p: Problem, id: nat, cta: nat, i: nat, j: nat, row: int, col: int, e: int)
    requires Valid(p) && Stores(p, id, cta, i, j, row, col)
    requires 0 <= e < p.experts && p.offsets[e] <= row < p.offsets[e + 1]
    ensures Expert(p, id) == e && id == HomeId(p, e, row, col)
    ensures var r := row - p.offsets[e]; cta == r / p.blockM % 2 && i == r % p.blockM && j == col % p.blockN
    ensures row - p.offsets[e] < RowClusters(p) * 2 * p.blockM
  {
    var f := Expert(p, id);
    StoredFromOwnTile(p, id, cta, i, j, row, col);
    SameExpert(p, row, e, f);
    LocalRange(p, id);
    TileRoundTrip(RowClusters(p), NBlocks(p), Local(p, id));
    var rb, t := RowBlock(p, id, cta), TileAt(p, id);
    DivModUnique(row - p.offsets[e], p.blockM, rb, i);
    DivModUnique(col, p.blockN, t.pn, j);
    assert rb / 2 == t.pm && rb % 2 == cta;
    DivBelow(row - p.offsets[e], p.blockM, RowClusters(p) * 2);
  }

  lemma SameExpert(p: Problem, row: int, e: int, f: int)
    requires Valid(p) && 0 <= e < p.experts && 0 <= f < p.experts
    requires p.offsets[e] <= row < p.offsets[e + 1] && p.offsets[f] <= row < p.offsets[f + 1]
    ensures e == f
  {
  }

  /** The home slot stores the element as long as its row block was launched. */
  lemma HomeStores(p: Problem, row: int, col: nat, e: int)
    requires Valid(p) && col < p.n && 0 <= e < p.experts && p.offsets[e] <= row < p.offsets[e + 1]
    requires row - p.offsets[e] < RowClusters(p) * 2 * p.blockM
    ensures var r := row - p.offsets[e];
            && HomeId(p, e, row, col) >= 0
            && Stores(p, HomeId(p, e, row, col), r / p.blockM % 2, r % p.blockM, col % p.blockN, row, col)
  {
    var r, t := row - p.offsets[e], HomeTile(p, e, row, col);
    HomeInRange(p, r, col);
    HomeIdFacts(p, e, t);
    var id := HomeId(p, e, row, col);
    assert TileAt(p, id) == t;
    var rb := r / p.blockM;
    assert t.pm * 2 + rb % 2 == rb;
    assert RowBlock(p, id, rb % 2) == rb;
    Quotients(r, p.blockM);
    Quotients(col, p.blockN);
  }

  lemma HomeInRange(p: Problem, r: nat, col: nat)
    requires Valid(p) && col < p.n && r < RowClusters(p) * 2 * p.blockM
    ensures 0 <= r / p.blockM / 2 < RowClusters(p) && 0 <= col / p.blockN < NBlocks(p)
  {
    hide RowClusters, NBlocks;
    DivBelow(r, p.blockM, RowClusters(p) * 2);
    Quotients(r, p.blockM);
    ColumnsCovered(p);
    DivBelow(col, p.blockN, NBlocks(p));
    Quotients(col, p.blockN);
  }

  lemma ColumnsCovered(p: Problem)
    requires Valid(p)
    ensures p.n <= NBlocks(p) * p.blockN
  {
    CeilDivBounds(p.n, p.blockN);
  }

  lemma HomeIdFacts(p: Problem, e: int, t: Tile)
    requires Valid(p) && 0 <= e < p.experts && 0 <= t.pm < RowClusters(p) && 0 <= t.pn < NBlocks(p)
    ensures var id := e * PerExpert(p) + IdOf(RowClusters(p), NBlocks(p), t);
            0 <= id < Tiles(p) && Expert(p, id) == e && TileAt(p, id) == t
  {
    var mc, nb, k := RowClusters(p), NBlocks(p), PerExpert(p);
    IdRoundTrip(mc, nb, t);
    var local := IdOf(mc, nb, t);
    assert local < k;
    MulOrder(0, e, k);
    DivModUnique(e * k + local, k, e, local);
    DivBelow(e * k + local, k, p.experts);
  }

  ghost predicate Stored(p: Problem, row: int, col: int)
    requires Valid(p)
  {
    exists id: nat, cta: nat, i: nat, j: nat :: Stores(p, id, cta, i, j, row, col)
  }

  /** Every output element is stored at most once, and it is stored exactly when its row lies
      below the launched blocks of its expert -- so all rows are when no group exceeds max_M_per_E. */
  lemma StoredExactlyOnce(p: Problem, row: int, col: nat, e: int)
    requires Valid(p) && col < p.n && 0 <= e < p.experts && p.offsets[e] <= row < p.offsets[e + 1]
    ensures Stored(p, row, col) <==> row - p.offsets[e] < RowClusters(p) * 2 * p.blockM
    ensures MSize(p, e) <= p.maxM ==> Stored(p, row, col)
    ensures forall id: nat, cta: nat, i: nat, j: nat, id': nat, cta': nat, i': nat, j': nat ::
              Stores(p, id, cta, i, j, row, col) && Stores(p, id', cta', i', j', row, col) ==>
              id == id' && cta == cta' && i == i' && j == j'
  {
    var r := row - p.offsets[e];
    forall id: nat, cta: nat, i: nat, j: nat | Stores(p, id, cta, i, j, row, col)
      ensures id == HomeId(p, e, row, col) && cta == r / p.blockM % 2 && i == r % p.blockM && j == col % p.blockN
      ensures r < RowClusters(p) * 2 * p.blockM
    {
      StoreUnique(p, id, cta, i, j, row, col, e);
    }
    if r < RowClusters(p) * 2 * p.blockM { HomeStores(p, row, col, e); }
    if MSize(p, e) <= p.maxM { LaunchedEnough(p); }
  }

  lemma LaunchedEnough(p: Problem)
    requires Valid(p)
    ensures p.maxM <= RowClusters(p) * 2 * p.blockM
  {
    var b, mc := CeilDiv(p.maxM, p.blockM), RowClusters(p);
    CeilDivBounds(p.maxM, p.blockM);
    CeilDivBounds(b, 2);
    Multiple(mc * 2 - b, p.blockM);
    assert (mc * 2 - b) * p.blockM == mc * 2 * p.blockM - b * p.blockM;
  }

  /** One expert with 1024 rows where max_M_per_E is 256: row 300 is not stored. */
  lemma LongGroupLost()
    ensures var p := Problem(1, [0, 1024], 256, 128, 256, 256, 2); Valid(p) && !Stored(p, 300, 0)
  {
    StoredExactlyOnce(Problem(1, [0, 1024], 256, 128, 256, 256, 2), 300, 0, 0);
  }
}
