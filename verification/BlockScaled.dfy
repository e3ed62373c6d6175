/** What the pipeline computes: packed E8M0 scales, the reference sum, and their agreement. */
module BlockScaled {
  import opened Arith
  import opened Sums
  import opened TileMap
  import opened Pipeline
  import opened PipelineInvariant
  import opened PipelineTheorems

  // ---------------------------------------------------------------- scale factors

  /** 2^e, and the value of an E8M0 exponent byte. */
  function Pow2(e: int): real
    decreases if e < 0 then -e else e
  {
    if e == 0 then 1.0 else if e > 0 then 2.0 * Pow2(e - 1) else Pow2(e + 1) / 2.0
  }

  function ScaleOf(exponent: nat): real { Pow2(exponent - 127) }

  /** `(word >> 8*i) & 0xFF` */
  function ByteOf(word: nat, i: nat): nat {
    (if i == 0 then word else if i == 1 then word / 0x100 else if i == 2 then word / 0x1_0000
     else word / 0x100_0000) % 0x100
  }

  function PackWord(b0: nat, b1: nat, b2: nat, b3: nat): nat {
    b0 + b1 * 0x100 + b2 * 0x1_0000 + b3 * 0x100_0000
  }

  /** Group-major packing of an `[mn, blocks]` byte matrix. */
  function Packed(sf: (int, int) -> nat, mn: nat): int -> nat
    requires mn >= 1
  {
    i => var (r, g) := (i % mn, i / mn); PackWord(sf(r, 4 * g), sf(r, 4 * g + 1), sf(r, 4 * g + 2), sf(r, 4 * g + 3))
  }

  function Unpacked(packed: int -> nat, mn: nat, row: int, block: nat): nat {
    ByteOf(packed(block / 4 * mn + row), block % 4)
  }

  lemma BytesOfWord(b0: nat, b1: nat, b2: nat, b3: nat)
    requires b0 < 0x100 && b1 < 0x100 && b2 < 0x100 && b3 < 0x100
    ensures var w := PackWord(b0, b1, b2, b3);
            ByteOf(w, 0) == b0 && ByteOf(w, 1) == b1 && ByteOf(w, 2) == b2 && ByteOf(w, 3) == b3
  {
    var w := PackWord(b0, b1, b2, b3);
    assert w == (b1 + b2 * 0x100 + b3 * 0x1_0000) * 0x100 + b0;
    assert w / 0x100 == b1 + (b2 + b3 * 0x100) * 0x100;
    assert w / 0x1_0000 == b2 + b3 * 0x100;
    assert w / 0x100_0000 == b3;
  }

  /** The bytes of a 32-bit word, the lowest first. */
  lemma ByteOrder(w: nat)
    requires w < 0x1_0000_0000
    ensures w == ByteOf(w, 0) + 0x100 * ByteOf(w, 1) + 0x1_0000 * ByteOf(w, 2) + 0x100_0000 * ByteOf(w, 3)
    ensures forall i: nat :: i < 4 ==> ByteOf(w, i) < 0x100
  {
    var a := w / 0x100;
    var b := a / 0x100;
    assert w == 0x100 * a + ByteOf(w, 0);
    assert b == w / 0x1_0000 && a == 0x100 * b + ByteOf(w, 1);
    assert b / 0x100 == w / 0x100_0000 && b == 0x100 * (b / 0x100) + ByteOf(w, 2);
    assert b / 0x100 == ByteOf(w, 3);
  }

  /** Unpacking undoes packing, for every row and block. */
  lemma UnpackPack(sf: (int, int) -> nat, mn: nat, row: nat, block: nat)
    requires row < mn && forall r, j :: sf(r, j) < 0x100
    ensures Unpacked(Packed(sf, mn), mn, row, block) == sf(row, block)
  {
    var g, i := block / 4, block % 4;
    var word := Packed(sf, mn)(g * mn + row);
    assert word == PackWord(sf(row, 4 * g), sf(row, 4 * g + 1), sf(row, 4 * g + 2), sf(row, 4 * g + 3)) by {
      DivModUnique(g * mn + row, mn, g, row);
    }
    ByteOfWord(sf(row, 4 * g), sf(row, 4 * g + 1), sf(row, 4 * g + 2), sf(row, 4 * g + 3), i);
    assert block == 4 * g + i;
  }

  lemma ByteOfWord(b0: nat, b1: nat, b2: nat, b3: nat, i: nat)
    requires b0 < 0x100 && b1 < 0x100 && b2 < 0x100 && b3 < 0x100 && i < 4
    ensures ByteOf(PackWord(b0, b1, b2, b3), i)
            == if i == 0 then b0 else if i == 1 then b1 else if i == 2 then b2 else b3
  {
    BytesOfWord(b0, b1, b2, b3);
  }

  /** Fills the unpacked matrix byte lane by byte lane and trims it to `blocks` columns. */
  method UnpackSf(packed: seq<nat>, mn: nat, blocks: nat) returns (u: array2<nat>)
    requires |packed| == (blocks + 3) / 4 * mn
    ensures u.Length0 == mn && u.Length1 == blocks
    ensures forall r, j :: 0 <= r < mn && 0 <= j < blocks ==>
              Word(packed, mn, r, j / 4).0 && u[r, j] == ByteOf(Word(packed, mn, r, j / 4).1, j % 4)
  {
    var groups := (blocks + 3) / 4;
    forall r, g | 0 <= r < mn && 0 <= g < groups ensures Word(packed, mn, r, g).0 {
      WordInRange(mn, groups, r, g);
    }
    var wide := new nat[mn, 4 * groups]((_, _) => 0);
    for i := 0 to 4
      invariant forall r, j :: 0 <= r < mn && 0 <= j < 4 * groups && j % 4 < i ==>
                  wide[r, j] == ByteOf(Word(packed, mn, r, j / 4).1, j % 4)
    {
      forall r, j | 0 <= r < mn && 0 <= j < 4 * groups && j % 4 == i {
        wide[r, j] := ByteOf(Word(packed, mn, r, j / 4).1, i);
      }
    }
    u := new nat[mn, blocks]((r, j) requires 0 <= r < mn && 0 <= j < blocks reads wide => wide[r, j]);
  }

  /** Word of row `r`, group `g` of a group-major buffer, and whether it exists. */
  function Word(packed: seq<nat>, mn: nat, r: nat, g: nat): (bool, nat) {
    if g * mn + r < |packed| then (true, packed[g * mn + r]) else (false, 0)
  }

  lemma WordInRange(mn: nat, groups: nat, r: nat, g: nat)
    requires r < mn && g < groups
    ensures g * mn + r < groups * mn
  {
    assert (groups - g) * mn >= mn by { Multiple(groups - g, mn); }
  }

  // ---------------------------------------------------------------- reference

  datatype Gemm = Gemm(grid: Grid, k: nat, blockK: nat, gran: nat,
                       a: (int, int) -> real, b: (int, int) -> real, sfa: int -> nat, sfb: int -> nat)

  function ScaledProduct(g: Gemm, row: int, col: int, ka: int, kb: int, sa: real, sb: real): real {
    (g.a(row, ka) * sa) * (g.b(kb, col) * sb)
  }

  /** Scaled products along K, read from offsets `ka` and `kb`. */
  function Products(g: Gemm, row: int, col: int, ka: int, kb: int, sa: real, sb: real): int -> real {
    x => ScaledProduct(g, row, col, x + ka, x + kb, sa, sb)
  }

  function ScaledTerm(g: Gemm, row: int, col: int, block: nat): int -> real {
    Products(g, row, col, 0, 0, ScaleOf(Unpacked(g.sfa, g.grid.m, row, block)),
             ScaleOf(Unpacked(g.sfb, g.grid.n, col, block)))
  }

  function RefBlock(g: Gemm, row: int, col: int): int -> real {
    bi => if bi < 0 then 0.0 else
      var hi := bi * g.gran + g.gran;
      Sum(bi * g.gran, if hi < g.k then hi else g.k, ScaledTerm(g, row, col, bi))
  }

  function Reference(g: Gemm, row: int, col: int): real
    requires g.gran >= 1
  {
    Sum(0, CeilDiv(g.k, g.gran), RefBlock(g, row, col))
  }

  /** Byte 127 scales by one, and every further exponent doubles the scale. */
  lemma ScaleSteps(e: nat)
    ensures ScaleOf(127) == 1.0 && ScaleOf(e + 1) == 2.0 * ScaleOf(e)
  {
    assert e < 127 ==> ScaleOf(e) == Pow2(e + 1 - 127) / 2.0;
  }

  function PlainTerm(g: Gemm, row: int, col: int): int -> real { x => g.a(row, x) * g.b(x, col) }

  /** With all scale bytes at 127 the reference is the plain matrix product. */
  lemma NeutralScales(g: Gemm, row: int, col: int)
    requires g.gran >= 1
    requires forall bi: nat :: Unpacked(g.sfa, g.grid.m, row, bi) == 127 && Unpacked(g.sfb, g.grid.n, col, bi) == 127
    ensures Reference(g, row, col) == Sum(0, g.k, PlainTerm(g, row, col))
  {
    hide Unpacked, RefBlock;
    BelowCeilDiv(-1, g.k, g.gran);
    CeilDivBounds(g.k, g.gran);
    NeutralBlocks(g, row, col, CeilDiv(g.k, g.gran));
  }

  lemma {:induction false} NeutralBlocks(g: Gemm, row: int, col: int, c: nat)
    requires g.gran >= 1 && c <= CeilDiv(g.k, g.gran)
    requires forall bi: nat :: Unpacked(g.sfa, g.grid.m, row, bi) == 127 && Unpacked(g.sfb, g.grid.n, col, bi) == 127
    ensures var hi := c * g.gran;
            Sum(0, c, RefBlock(g, row, col)) == Sum(0, if hi < g.k then hi else g.k, PlainTerm(g, row, col))
    decreases c
  {
    hide Unpacked, CeilDiv, Pow2;
    if c > 0 {
      NeutralBlocks(g, row, col, c - 1);
      BelowCeilDiv(c - 1, g.k, g.gran);
      var lo := (c - 1) * g.gran;
      MulOrder(0, c - 1, g.gran);
      assert c * g.gran == lo + g.gran;
      var hi := if lo + g.gran < g.k then lo + g.gran else g.k;
      ScaleSteps(0);
      SumEq(lo, hi, ScaledTerm(g, row, col, c - 1), PlainTerm(g, row, col));
      SumSplit(0, lo, hi, PlainTerm(g, row, col));
    }
  }

  /** One element of the product of two scaled blocks, the last of which may be short. */
  method BlockProduct(g: Gemm, row: int, col: int, bi: nat) returns (x: real)
    ensures x == RefBlock(g, row, col)(bi)
  {
    hide ScaledProduct, ScaleOf, Unpacked;
    var start := bi * g.gran;
    var end := if start + g.gran < g.k then start + g.gran else g.k;
    var sa, sb := ScaleOf(Unpacked(g.sfa, g.grid.m, row, bi)), ScaleOf(Unpacked(g.sfb, g.grid.n, col, bi));
    x := 0.0;
    var k := start;
    while k < end
      invariant start <= k && (start <= end ==> k <= end) && x == Sum(start, k, ScaledTerm(g, row, col, bi))
      invariant start > end ==> k == start
    {
      x := x + ScaledProduct(g, row, col, k, k, sa, sb);
      k := k + 1;
    }
  }

  /** c += a_block @ b_block for one scale block. */
  method AddBlock(g: Gemm, bi: nat, c: array2<real>)
    requires c.Length0 == g.grid.m && c.Length1 == g.grid.n
    modifies c
    ensures forall i, j :: 0 <= i < g.grid.m && 0 <= j < g.grid.n ==> c[i, j] == old(c[i, j]) + RefBlock(g, i, j)(bi)
  {
    hide RefBlock;
    for i := 0 to g.grid.m
      invariant forall x, j :: 0 <= x < i && 0 <= j < g.grid.n ==> c[x, j] == old(c[x, j]) + RefBlock(g, x, j)(bi)
      invariant forall x, j :: i <= x < g.grid.m && 0 <= j < g.grid.n ==> c[x, j] == old(c[x, j])
    {
      for j := 0 to g.grid.n
        invariant forall x, y :: 0 <= x < i && 0 <= y < g.grid.n ==> c[x, y] == old(c[x, y]) + RefBlock(g, x, y)(bi)
        invariant forall y :: 0 <= y < j ==> c[i, y] == old(c[i, y]) + RefBlock(g, i, y)(bi)
        invariant forall y :: j <= y < g.grid.n ==> c[i, y] == old(c[i, y])
        invariant forall x, y :: i < x < g.grid.m && 0 <= y < g.grid.n ==> c[x, y] == old(c[x, y])
      {
        var x := BlockProduct(g, i, j, bi);
        c[i, j] := c[i, j] + x;
      }
    }
  }

  method GemmRef(g: Gemm) returns (c: array2<real>)
    requires g.gran >= 1
    ensures c.Length0 == g.grid.m && c.Length1 == g.grid.n
    ensures forall i, j :: 0 <= i < g.grid.m && 0 <= j < g.grid.n ==> c[i, j] == Reference(g, i, j)
  {
    hide RefBlock;
    c := new real[g.grid.m, g.grid.n]((_, _) => 0.0);
    var blocks := (g.k + g.gran - 1) / g.gran;
    var bi := 0;
    while bi < blocks
      invariant 0 <= bi <= blocks
      invariant forall i, j :: 0 <= i < g.grid.m && 0 <= j < g.grid.n ==> c[i, j] == Sum(0, bi, RefBlock(g, i, j))
    {
      AddBlock(g, bi, c);
      bi := bi + 1;
    }
  }

  // ---------------------------------------------------------------- denotation of an accumulator

  predicate Usable(m: Mma) {
    && m.a.Held? && m.b0.Held? && m.b1.Held? && m.sfa.Held? && m.sfb.Held?
    && !m.a.transposed && !m.b0.transposed && !m.b1.transposed && m.sfa.transposed && m.sfb.transposed
  }

  function Period(g: Gemm): int requires g.blockK >= 1 { g.gran * 4 / g.blockK }

  predicate ValidGemm(g: Gemm) {
    g.blockK >= 1 && g.k % g.blockK == 0 && Period(g) >= 1
  }

  /** Where a cluster's tiles lie: the first row of each CTA's tile in a wave, and the first column. */
  datatype Origins = Origins(row: (int, int) -> int, col: int -> int)

  function RowOf(at: Origins, cta: nat, wave: nat, r: nat): int { at.row(cta, wave) + r }
  function ColOf(at: Origins, wave: nat, n: nat): int { at.col(wave) + n }

  /** First column of the half of B that CTA `cta` loads in a wave. */
  function HalfOf(g: Gemm, at: Origins, cta: nat, wave: nat): int { at.col(wave) + cta * (g.grid.blockN / 2) }

  /** Element (r, n) that one MMA adds, from the operands it read: rows and columns are those that the loader of each
      tile loaded. The left half of the columns multiplies the first B tile, the right half the second. */
  function MmaTerm(g: Gemm, at: Origins, m: Mma, r: nat, n: nat): int -> real
    requires ValidGemm(g) && Usable(m)
  {
    var half := g.grid.blockN / 2;
    var b, j := if n < half then m.b0 else m.b1, if n < half then n else n - half;
    var row, col := RowOf(at, m.a.cta, m.a.wave, r), HalfOf(g, at, b.cta, b.wave) + j;
    var wordA := g.sfa(m.sfa.k / Period(g) * g.grid.m + RowOf(at, m.sfa.cta, m.sfa.wave, r));
    var wordB := g.sfb(m.sfb.k / Period(g) * g.grid.n + ColOf(at, m.sfb.wave, n));
    Products(g, row, col, m.a.k * g.blockK, b.k * g.blockK, ScaleOf(ByteOf(wordA, m.sfId)),
             ScaleOf(ByteOf(wordB, m.sfId)))
  }

  function AccValue(g: Gemm, at: Origins, acc: seq<Mma>, r: nat, n: nat): real
    requires ValidGemm(g) && forall i :: 0 <= i < |acc| ==> Usable(acc[i])
  {
    if acc == [] then 0.0
    else AccValue(g, at, acc[..|acc| - 1], r, n) + Sum(0, g.blockK, MmaTerm(g, at, acc[|acc| - 1], r, n))
  }

  function KernelParams(g: Gemm, stages: nat, waves: nat, persistent: bool): Params
    requires ValidGemm(g)
  {
    Params(stages, g.k / g.blockK, waves, Period(g), persistent)
  }

  /** The intended MMA of (w, k) adds the reference's scale block k, when block_K is the granularity. */
  lemma MmaIsRefBlock(g: Gemm, p: Params, at: Origins, cta: nat, w: nat, k: nat, r: nat, n: nat)
    requires ValidGemm(g) && g.blockK == g.gran && p.period == Period(g) && k < g.k / g.blockK
    ensures Usable(IntendedMma(p, cta, w, k))
    ensures Sum(0, g.blockK, MmaTerm(g, at, IntendedMma(p, cta, w, k), r, n))
            == RefBlock(g, RowOf(at, cta, w, r), ColOf(at, w, n))(k)
  {
    var row, col := RowOf(at, cta, w, r), ColOf(at, w, n);
    var f, h := ScaledTerm(g, row, col, k), MmaTerm(g, at, IntendedMma(p, cta, w, k), r, n);
    forall x ensures h(x) == f(x + k * g.gran) { TermsAgree(g, p, at, cta, w, k, r, n, x); }
    SumShift(0, g.gran, k * g.gran, f, h);
    BlockInside(g.k, g.gran, k);
  }

  lemma BlockInside(k: nat, n: nat, i: nat)
    requires n >= 1 && k % n == 0 && i < k / n
    ensures i * n + n <= k
  {
    Multiple(k / n - i, n);
    assert (k / n - i) * n == k / n * n - i * n;
  }

  lemma TermsAgree(g: Gemm, p: Params, at: Origins, cta: nat, w: nat, k: nat, r: nat, n: nat, x: int)
    requires ValidGemm(g) && g.blockK == g.gran && p.period == Period(g)
    ensures Usable(IntendedMma(p, cta, w, k))
    ensures MmaTerm(g, at, IntendedMma(p, cta, w, k), r, n)(x)
            == ScaledTerm(g, RowOf(at, cta, w, r), ColOf(at, w, n), k)(x + k * g.gran)
  {
    hide RowOf, ScaleOf, Pow2, ByteOf, ScaledProduct;
    var row, col := RowOf(at, cta, w, r), ColOf(at, w, n);
    PeriodFour(g.gran);
    assert (k - k % 4) / 4 == k / 4;
    var sa, sb := ScaleOf(Unpacked(g.sfa, g.grid.m, row, k)), ScaleOf(Unpacked(g.sfb, g.grid.n, col, k));
    assert MmaTerm(g, at, IntendedMma(p, cta, w, k), r, n)
           == Products(g, row, col, k * g.gran, k * g.gran, sa, sb);
  }

  lemma PeriodFour(n: nat)
    requires n >= 1
    ensures n * 4 / n == 4
  {
    DivModUnique(n * 4, n, 4, 0);
  }

  lemma {:induction false} AccIsPartialRef(g: Gemm, p: Params, at: Origins, cta: nat, w: nat, n0: nat, r: nat, n: nat)
    requires ValidGemm(g) && g.blockK == g.gran && p.period == Period(g) && n0 <= g.k / g.blockK
    ensures forall i :: 0 <= i < n0 ==> Usable(IntendedAcc(p, cta, w, n0)[i])
    ensures AccValue(g, at, IntendedAcc(p, cta, w, n0), r, n)
            == Sum(0, n0, RefBlock(g, RowOf(at, cta, w, r), ColOf(at, w, n)))
  {
    hide MmaTerm, RefBlock, RowOf, ColOf, Period;
    if n0 > 0 {
      AccIsPartialRef(g, p, at, cta, w, n0 - 1, r, n);
      MmaIsRefBlock(g, p, at, cta, w, n0 - 1, r, n);
      var acc := IntendedAcc(p, cta, w, n0);
      assert acc[..n0 - 1] == IntendedAcc(p, cta, w, n0 - 1);
    }
  }

  /** The functional result: when a run of either kernel cannot be extended, what every epilogue
      warp of CTA e / 4 copied for wave w is the reference block-scaled product of its tile. */
  lemma KernelMatchesReference(g: Gemm, p: Params, at: Origins, acts: seq<Action>, e: nat, w: nat, r: nat, n: nat)
    requires ValidGemm(g) && g.blockK == g.gran && g.k >= 1
    requires ValidParams(p) && p == KernelParams(g, p.stages, p.waves, p.persistent)
    requires Legal(p, Init(p), acts)
    requires forall a :: !Enabled(p, After(p, Init(p), acts), a)
    requires e < 8 && w < p.waves
    ensures var out := After(p, Init(p), acts).epi[e].out;
            && |out| == p.waves
            && (forall i :: 0 <= i < |out[w]| ==> Usable(out[w][i]))
            && AccValue(g, at, out[w], r, n)
               == Reference(g, RowOf(at, e / 4, w, r), ColOf(at, w, n))
  {
    hide Enabled, Legal, After, Init, AccValue, Reference, RowOf, ColOf, Usable, Shape;
    CompletedRunOutput(p, acts, e, w);
    AccIsReference(g, p, at, e / 4, w, r, n);
  }

  lemma AccIsReference(g: Gemm, p: Params, at: Origins, cta: nat, w: nat, r: nat, n: nat)
    requires ValidGemm(g) && g.blockK == g.gran && p.period == Period(g) && p.kIters == g.k / g.blockK
    ensures forall i :: 0 <= i < p.kIters ==> Usable(IntendedAcc(p, cta, w, p.kIters)[i])
    ensures AccValue(g, at, IntendedAcc(p, cta, w, p.kIters), r, n)
            == Reference(g, RowOf(at, cta, w, r), ColOf(at, w, n))
  {
    AccIsPartialRef(g, p, at, cta, w, p.kIters, r, n);
    CeilDivExact(g.k, g.gran);
  }

  /** The byte and word picked at step x / block_K are those of element x's own scale block, for every element
      along K, exactly when block_K equals the scale granularity. */
  lemma ScalePickExact(blockK: nat, gran: nat, k: nat)
    requires blockK >= 1 && gran >= 1 && gran * 4 / blockK >= 1 && k >= 1 && k % (2 * blockK) == 0
    ensures blockK == gran <==> forall x: nat :: x < k ==> PickedBlock(x, blockK, gran) == x / gran
  {
    var period := gran * 4 / blockK;
    assert 2 * blockK <= k by { Multiple(k / (2 * blockK), 2 * blockK); assert k == k / (2 * blockK) * (2 * blockK); }
    if blockK == gran {
      PeriodFour(gran);
      forall x: nat ensures PickedBlock(x, blockK, gran) == x / gran {
        var s := x / gran;
        assert s / 4 * 4 + s % 4 == s;
      }
    } else if blockK < gran {
      SmallBlockPicksWrong(blockK, gran);
    } else {
      LargeBlockPicksWrong(blockK, gran);
    }
  }

  lemma SmallBlockPicksWrong(blockK: nat, gran: nat)
    requires 1 <= blockK < gran && gran * 4 / blockK >= 1
    ensures PickedBlock(blockK, blockK, gran) != blockK / gran
  {
    var period := gran * 4 / blockK;
    BelowDiv(gran * 4, blockK);
    DivModUnique(blockK, blockK, 1, 0);
    DivModUnique(1, period, 0, 1);
    DivModUnique(blockK, gran, 0, blockK);
  }

  lemma LargeBlockPicksWrong(blockK: nat, gran: nat)
    requires 1 <= gran < blockK && gran * 4 / blockK >= 1
    ensures PickedBlock(gran, blockK, gran) != gran / gran
  {
    DivModUnique(gran, blockK, 0, gran);
    DivModUnique(gran, gran, 1, 0);
    DivModUnique(0, gran * 4 / blockK, 0, 0);
  }

  /** With block_K 64 and granularity 128, element 64 of scale block 0 is scaled as one of block 1. */
  lemma WrongScalePicked()
    ensures PickedBlock(64, 64, 128) == 1 && 64 / 128 == 0
  {
  }

  lemma BelowDiv(x: int, n: int)
    requires n >= 1 && x >= 4 * n
    ensures x / n >= 4
  {
    Multiple(4 - x / n, n);
    assert x == x / n * n + x % n;
    assert (4 - x / n) * n == 4 * n - x / n * n;
  }

  /** Scale block selected for element x: byte k % period of word k / period. */
  function PickedBlock(x: nat, blockK: nat, gran: nat): int
    requires blockK >= 1 && gran * 4 / blockK >= 1
  {
    var period, k := gran * 4 / blockK, x / blockK;
    k / period * 4 + k % period
  }
}
