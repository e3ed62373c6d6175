/** The inductive invariant of the pipeline and its preservation by every action. */
module PipelineInvariant {
  import opened Arith
  import opened Pipeline

  // ---------------------------------------------------------------- arithmetic of the ring

  lemma SameStage(p: Params, g: int)
    requires p.stages >= 1
    ensures Stage(p, g + p.stages) == Stage(p, g) && Round(p, g + p.stages) == Round(p, g) + 1
  {
    var n := p.stages;
    assert g + n == (g / n + 1) * n + g % n;
    DivModUnique(g + n, n, g / n + 1, g % n);
  }

  lemma OtherStage(p: Params, g: int, h: int)
    requires p.stages >= 1 && g != h && g - h < p.stages && h - g < p.stages
    ensures Stage(p, g) != Stage(p, h)
  {
    var n: int := p.stages;
    var d := g / n - h / n;
    assert d * n == g - h - (g % n - h % n);
    Multiple(d, n);
  }

  lemma NextStep(p: Params, g: nat)
    requires p.kIters >= 1
    ensures Iter(p, g) + 1 < p.kIters ==> Wave(p, g + 1) == Wave(p, g) && Iter(p, g + 1) == Iter(p, g) + 1
    ensures Iter(p, g) + 1 == p.kIters ==> Wave(p, g + 1) == Wave(p, g) + 1 && Iter(p, g + 1) == 0
  {
    var n, q, r := p.kIters, g / p.kIters, g % p.kIters;
    if r + 1 < n {
      DivModUnique(g + 1, n, q, r + 1);
    } else {
      assert (q + 1) * n == q * n + n;
      DivModUnique(g + 1, n, q + 1, 0);
    }
  }

  lemma WaveStart(p: Params, w: nat)
    requires p.kIters >= 1
    ensures Wave(p, Start(p, w)) == w && Iter(p, Start(p, w)) == 0
    ensures Start(p, w + 1) == Start(p, w) + p.kIters
  {
    DivModUnique(w * p.kIters, p.kIters, w, 0);
    assert (w + 1) * p.kIters == w * p.kIters + p.kIters;
  }

  lemma StartMonotone(p: Params, v: nat, w: nat)
    requires v <= w
    ensures Start(p, v) <= Start(p, w)
  {
    assert (w - v) * p.kIters >= 0;
    assert w * p.kIters == v * p.kIters + (w - v) * p.kIters;
  }

  // ---------------------------------------------------------------- what each stage holds

  predicate Sized(p: Params, x: Cta) {
    |x.consumed| == p.stages && |x.loaded| == p.stages && |x.smem| == p.stages
  }

  /** Steps whose copies were issued; steps whose `loaded` wait the transposer passed. */
  function Issued(x: Cta): nat { x.loadG + if x.loadIssued then 1 else 0 }
  function Passed(x: Cta): nat { x.xpG + if x.xpSub > 0 then 1 else 0 }

  predicate OperandOk(c: Cell, id: nat, w: nat, k: nat) {
    c == InFlight(id, w, k) || c == Held(id, w, k, false)
  }

  predicate ScaleOk(c: Cell, id: nat, w: nat, k: nat, transposed: bool) {
    (c == InFlight(id, w, k) && !transposed) || c == Held(id, w, k, transposed)
  }

  predicate Contents(p: Params, x: Cta, g: nat)
    requires ValidParams(p) && Sized(p, x)
  {
    var b, w, k := x.smem[Stage(p, g)], Wave(p, g), Iter(p, g);
    && OperandOk(b.a, x.id, w, k)
    && OperandOk(b.b, x.id, w, k)
    && (if SfStep(p, g) then
          && ScaleOk(b.sfa, x.id, w, k, x.xpG > g || (x.xpG == g && x.xpSub >= 2))
          && ScaleOk(b.sfb, x.id, w, k, x.xpG > g || (x.xpG == g && x.xpSub >= 3))
        else !b.sfa.InFlight? && !b.sfb.InFlight?)
  }

  /** The stage of issued step `g` (or, for negative `g`, a stage not used yet). */
  predicate Owned(p: Params, x: Cta, g: int)
    requires ValidParams(p) && Sized(p, x)
  {
    var b, bar := x.smem[Stage(p, g)], x.loaded[Stage(p, g)];
    if g < 0 then b == BlankBuf && bar == MBar(0, 32) && Round(p, g) == -1
    else
      && Contents(p, x, g)
      && (g < Passed(x) ==> !Busy(b))
      && bar == (if g >= x.loadG then MBar(Round(p, g), 32)
                 else if Busy(b) then MBar(Round(p, g), 0)
                 else MBar(Round(p, g) + 1, 32))
  }

  predicate Free(p: Params, x: Cta, g: nat)
    requires ValidParams(p) && Sized(p, x)
  {
    x.consumed[Stage(p, g)] == MBar(Round(p, g), 1)
  }

  ghost predicate CtaInv(p: Params, x: Cta)
    requires ValidParams(p)
  {
    && Sized(p, x)
    && x.delivered <= x.xpG && Passed(x) <= x.loadG && Issued(x) <= x.delivered + p.stages
    && Issued(x) <= Total(p) && x.xpSub <= 3 && (x.xpSub >= 2 ==> SfStep(p, x.xpG))
    && (forall g: nat {:trigger Free(p, x, g)} :: x.delivered <= g < x.delivered + p.stages ==> Free(p, x, g))
    && (forall g: int {:trigger Owned(p, x, g)} :: Issued(x) - p.stages <= g < Issued(x) ==> Owned(p, x, g))
  }

  lemma InitCtaInv(p: Params, id: nat)
    requires ValidParams(p)
    ensures CtaInv(p, InitCta(p, id))
  {
    var x := InitCta(p, id);
    forall g: nat | x.delivered <= g < x.delivered + p.stages ensures Free(p, x, g) {
      DivModUnique(g, p.stages, 0, g);
    }
    forall g: int | Issued(x) - p.stages <= g < Issued(x) ensures Owned(p, x, g) {
      DivModUnique(g, p.stages, -1, g + p.stages);
    }
  }

  /** Parity exactness at the loader: it passes only when the stage's previous step was consumed. */
  lemma LoaderWait(p: Params, x: Cta)
    requires ValidParams(p) && CtaInv(p, x) && !x.loadIssued && x.loadG < Total(p)
    ensures CtaEnabled(p, x, LoadIssue(0)) <==> x.loadG < x.delivered + p.stages
  {
    var g := x.loadG;
    if g < x.delivered + p.stages {
      assert Free(p, x, g);
    } else {
      assert Free(p, x, x.delivered);
      SameStage(p, x.delivered);
    }
  }

  /** Parity exactness at the transposer: it passes only when its own step's copies all landed. */
  lemma TransposerWait(p: Params, x: Cta)
    requires ValidParams(p) && CtaInv(p, x) && x.xpSub == 0 && x.xpG < Total(p)
    ensures CtaEnabled(p, x, XpWait(0)) <==>
            x.xpG < x.loadG && !Busy(x.smem[Stage(p, x.xpG)])
  {
    var g := x.xpG;
    if g < Issued(x) {
      assert Owned(p, x, g);
    } else {
      assert Owned(p, x, g - p.stages);
      SameStage(p, g - p.stages);
    }
  }

  // ---------------------------------------------------------------- actions local to one CTA

  lemma LoadIssueKeeps(p: Params, x: Cta)
    requires ValidParams(p) && CtaInv(p, x) && CtaEnabled(p, x, LoadIssue(0))
    ensures CtaInv(p, DoLoadIssue(p, x))
  {
    LoaderWait(p, x);
    var x', g0 := DoLoadIssue(p, x), x.loadG;
    forall g: nat | x'.delivered <= g < x'.delivered + p.stages ensures Free(p, x', g) {
      assert Free(p, x, g);
    }
    forall g: int | Issued(x') - p.stages <= g < Issued(x') ensures Owned(p, x', g) {
      if g < g0 {
        assert Owned(p, x, g);
        OtherStage(p, g, g0);
      } else {
        assert Owned(p, x, g0 - p.stages);
        SameStage(p, g0 - p.stages);
      }
    }
  }

  lemma LandKeeps(p: Params, x: Cta, s: nat, slot: Slot)
    requires ValidParams(p) && CtaInv(p, x) && CtaEnabled(p, x, Land(0, s, slot))
    ensures CtaInv(p, DoLand(p, x, s, slot))
  {
    var x' := DoLand(p, x, s, slot);
    forall g: nat | x'.delivered <= g < x'.delivered + p.stages ensures Free(p, x', g) {
      assert Free(p, x, g);
    }
    forall g: int | Issued(x') - p.stages <= g < Issued(x') ensures Owned(p, x', g) {
      assert Owned(p, x, g);
    }
  }

  lemma LoadArriveKeeps(p: Params, x: Cta)
    requires ValidParams(p) && CtaInv(p, x) && CtaEnabled(p, x, LoadArrive(0))
    ensures CtaInv(p, DoLoadArrive(p, x))
    ensures x.loaded[Stage(p, x.loadG)].pending == 32
  {
    var x', g0 := DoLoadArrive(p, x), x.loadG;
    assert Owned(p, x, g0);
    forall g: nat | x'.delivered <= g < x'.delivered + p.stages ensures Free(p, x', g) {
      assert Free(p, x, g);
    }
    forall g: int | Issued(x') - p.stages <= g < Issued(x') ensures Owned(p, x', g) {
      assert Owned(p, x, g);
      if g != g0 { OtherStage(p, g, g0); }
    }
  }

  lemma TransposerKeeps(p: Params, x: Cta, a: Action)
    requires ValidParams(p) && CtaInv(p, x) && CtaEnabled(p, x, a)
    requires a.XpWait? || a.XpScaleA? || a.XpScaleB? || a.XpArrive?
    ensures CtaInv(p, DoCta(p, x, a))
  {
    var x', g0 := DoCta(p, x, a), x.xpG;
    if a.XpWait? { TransposerWait(p, x); }
    assert Owned(p, x, g0);
    forall g: nat | x'.delivered <= g < x'.delivered + p.stages ensures Free(p, x', g) {
      assert Free(p, x, g);
    }
    forall g: int | Issued(x') - p.stages <= g < Issued(x') ensures Owned(p, x', g) {
      assert Owned(p, x, g);
      if g != g0 { OtherStage(p, g, g0); }
    }
  }

  lemma DeliverKeeps(p: Params, x: Cta, x': Cta)
    requires ValidParams(p) && CtaInv(p, x) && x.delivered < x.xpG
    requires var s := Stage(p, x.delivered);
             x' == x.(delivered := x.delivered + 1, consumed := x.consumed[s := Arrive(x.consumed[s], 1, 1)])
    ensures CtaInv(p, x')
  {
    var d := x.delivered;
    assert Free(p, x, d);
    forall g: nat | x'.delivered <= g < x'.delivered + p.stages ensures Free(p, x', g) {
      if g < d + p.stages {
        assert Free(p, x, g);
        OtherStage(p, g, d);
      } else {
        SameStage(p, d);
      }
    }
    forall g: int | Issued(x') - p.stages <= g < Issued(x') ensures Owned(p, x', g) {
      assert Owned(p, x, g);
    }
  }

  // ---------------------------------------------------------------- state shared by the cluster

  /** The steps both transposers finished. */
  function Low(st: State): nat
    requires |st.ctas| == 2
  {
    if st.ctas[0].xpG < st.ctas[1].xpG then st.ctas[0].xpG else st.ctas[1].xpG
  }

  predicate Gate(p: Params, st: State, g: nat)
    requires ValidParams(p) && Shape(p, st)
  {
    st.withSf[Stage(p, g)] ==
    MBar(Round(p, g), 64 - (if st.ctas[0].xpG > g then 32 else 0) - (if st.ctas[1].xpG > g then 32 else 0))
  }

  /** What the MMA of wave `w`, iteration `k` must read for the accumulator of CTA `c`: the rows and the scales that CTA
      `c` loaded, and the halves of B that the two CTAs loaded. */
  function IntendedMma(p: Params, c: nat, w: nat, k: nat): Mma
    requires p.period >= 1
  {
    var sf := Held(c, w, k - k % p.period, true);
    Mma(Held(c, w, k, false), Held(0, w, k, false), Held(1, w, k, false), sf, sf, k % p.period)
  }

  function IntendedAcc(p: Params, c: nat, w: nat, n: nat): seq<Mma>
    requires p.period >= 1
  {
    seq(n, k requires 0 <= k < n => IntendedMma(p, c, w, k))
  }

  predicate AccOk(p: Params, t: Tmem, g: nat)
    requires ValidParams(p)
  {
    var w, k := Wave(p, g), Iter(p, g);
    if k > 0 then t.acc == IntendedAcc(p, t.id, w, k)
    else w > 0 ==> t.acc == IntendedAcc(p, t.id, w - 1, p.kIters)
  }

  predicate ScalesOk(p: Params, t: Tmem, eng: Engine)
    requires ValidParams(p)
  {
    var w, k := Wave(p, eng.g), Iter(p, eng.g);
    var sf := Held(t.id, w, k - k % p.period, true);
    && (k % p.period != 0 || eng.sub >= 1 ==> t.sfa == sf)
    && (k % p.period != 0 || eng.sub >= 2 ==> t.sfb == sf)
  }

  predicate TmemOk(p: Params, t: Tmem, iss: Issuer, eng: Engine)
    requires ValidParams(p)
  {
    && t.full == MBar(t.fulls, 1) && t.fulls <= iss.committed && Start(p, t.fulls) <= eng.g
    && AccOk(p, t, eng.g) && ScalesOk(p, t, eng)
  }

  predicate IssuerOk(p: Params, iss: Issuer) {
    && iss.committed <= p.waves
    && Start(p, iss.committed) <= iss.g <= Start(p, iss.committed + 1)
    && (if iss.ready then iss.committed < p.waves else iss.g == Start(p, iss.committed))
  }

  predicate EngineOk(p: Params, iss: Issuer, eng: Engine)
    requires ValidParams(p)
  {
    && eng.g <= iss.g && eng.sub <= 2
    && (eng.sub > 0 ==> eng.g < iss.g && SfStep(p, eng.g))
  }

  predicate EpiOk(p: Params, x: Epi, t: Tmem, iss: Issuer)
    requires ValidParams(p)
  {
    && x.sub <= 2 && x.released <= t.fulls && (x.sub > 0 ==> x.released < t.fulls)
    && iss.committed <= x.released + 1 && (iss.ready ==> x.released == iss.committed)
    && |x.out| == x.released + (if x.sub == 2 then 1 else 0)
    && (forall w :: 0 <= w < |x.out| ==> x.out[w] == IntendedAcc(p, t.id, w, p.kIters))
  }

  /** Epilogue warps that released more than `m` waves. */
  function Ahead(epi: seq<Epi>, m: nat): nat {
    if epi == [] then 0
    else Ahead(epi[..|epi| - 1], m) + if epi[|epi| - 1].released > m then 1 else 0
  }

  predicate EmptyOk(epi: seq<Epi>, bar: MBar) {
    && 0 < bar.pending == 32 * (|epi| - Ahead(epi, bar.phases))
    && (forall e :: 0 <= e < |epi| ==> bar.phases <= epi[e].released <= bar.phases + 1)
  }

  ghost predicate Inv(p: Params, st: State) {
    && ValidParams(p) && Shape(p, st)
    && CtaInv(p, st.ctas[0]) && CtaInv(p, st.ctas[1])
    && (forall c :: 0 <= c < 2 ==> st.ctas[c].delivered <= st.eng.g && st.iss.g <= st.ctas[c].xpG)
    && (forall g: nat {:trigger Gate(p, st, g)} :: Low(st) <= g < Low(st) + p.stages ==> Gate(p, st, g))
    && IssuerOk(p, st.iss) && EngineOk(p, st.iss, st.eng)
    && (forall c :: 0 <= c < 2 ==> TmemOk(p, st.tmem[c], st.iss, st.eng))
    && (forall e :: 0 <= e < 8 ==> EpiOk(p, st.epi[e], st.tmem[e / 4], st.iss))
    && (p.persistent ==> EmptyOk(st.epi, st.tmemEmpty))
  }

  // ---------------------------------------------------------------- counting epilogue warps

  lemma {:induction false} AheadUpdate(epi: seq<Epi>, e: nat, x: Epi, m: nat)
    requires e < |epi|
    ensures Ahead(epi[e := x], m) == Ahead(epi, m) - (if epi[e].released > m then 1 else 0)
                                     + (if x.released > m then 1 else 0)
  {
    var n := |epi| - 1;
    if e == n {
      assert epi[e := x][..n] == epi[..n];
    } else {
      assert epi[e := x][..n] == epi[..n][e := x];
      AheadUpdate(epi[..n], e, x, m);
    }
  }

  /** Everyone is ahead exactly when the count is full. */
  lemma {:induction false} AheadFull(epi: seq<Epi>, m: nat)
    ensures Ahead(epi, m) <= |epi|
    ensures Ahead(epi, m) == |epi| <==> forall e :: 0 <= e < |epi| ==> epi[e].released > m
    ensures (forall e :: 0 <= e < |epi| ==> epi[e].released <= m) ==> Ahead(epi, m) == 0
  {
    if epi != [] {
      var n := |epi| - 1;
      AheadFull(epi[..n], m);
      if forall e :: 0 <= e < n ==> epi[..n][e].released > m {
        assert forall e :: 0 <= e < n ==> epi[e] == epi[..n][e];
      } else {
        var e :| 0 <= e < n && !(epi[..n][e].released > m);
        assert epi[e].released <= m;
      }
    }
  }

  // ---------------------------------------------------------------- initial state

  lemma InitInv(p: Params)
    requires ValidParams(p)
    ensures Inv(p, Init(p))
  {
    var st := Init(p);
    InitCtaInv(p, 0);
    InitCtaInv(p, 1);
    forall g: nat | Low(st) <= g < Low(st) + p.stages ensures Gate(p, st, g) {
      DivModUnique(g, p.stages, 0, g);
    }
    WaveStart(p, 0);
    AheadFull(st.epi, 0);
  }

  // ---------------------------------------------------------------- parity exactness of the shared barriers

  /** The issuer passes `with_sf_full` exactly when both CTAs' scales of its own step are ready. */
  lemma IssuerWait(p: Params, st: State)
    requires Inv(p, st) && st.iss.ready && st.iss.g < Start(p, st.iss.committed + 1)
    ensures Enabled(p, st, IssueStep) <==> st.iss.g < Low(st)
  {
    var g := st.iss.g;
    assert CtaInv(p, st.ctas[0]) && CtaInv(p, st.ctas[1]);
    GateParity(p, st, g);
  }

  lemma GateParity(p: Params, st: State, g: nat)
    requires ValidParams(p) && Shape(p, st) && g <= Low(st) <= g + p.stages
    requires forall h: nat {:trigger Gate(p, st, h)} :: Low(st) <= h < Low(st) + p.stages ==> Gate(p, st, h)
    ensures Passes(st.withSf[Stage(p, g)], Round(p, g) % 2) <==> g < Low(st)
  {
    if g < Low(st) {
      assert Gate(p, st, g + p.stages);
      SameStage(p, g);
    } else {
      assert Gate(p, st, g);
    }
  }

  /** The issuer passes `tmem_empty` exactly when all eight epilogue warps released the last wave. */
  lemma EmptyWait(p: Params, st: State)
    requires Inv(p, st) && !st.iss.ready && st.iss.committed < p.waves
    ensures Enabled(p, st, IssueEmpty) <==> forall e :: 0 <= e < 8 ==> st.epi[e].released == st.iss.committed
  {
    forall e | 0 <= e < 8 ensures st.epi[e].released <= st.iss.committed <= st.epi[e].released + 1 {
      assert EpiOk(p, st.epi[e], st.tmem[e / 4], st.iss);
    }
    if p.persistent { EmptyParity(st.epi, st.tmemEmpty, st.iss.committed); }
  }

  lemma EmptyParity(epi: seq<Epi>, bar: MBar, w: nat)
    requires EmptyOk(epi, bar)
    requires forall e :: 0 <= e < |epi| ==> epi[e].released <= w <= epi[e].released + 1
    ensures Passes(bar, 1 - w % 2) <==> forall e :: 0 <= e < |epi| ==> epi[e].released == w
  {
    AheadFull(epi, bar.phases);
    var e :| 0 <= e < |epi| && epi[e].released <= bar.phases;
    assert bar.phases <= w <= bar.phases + 1;
  }

  /** An epilogue warp passes `tmem_full` exactly when its own wave's completion was delivered. */
  lemma FullWait(p: Params, st: State, e: nat)
    requires Inv(p, st) && e < 8 && st.epi[e].sub == 0 && st.epi[e].released < p.waves
    ensures Enabled(p, st, EpiWait(e)) <==> RoleDone(p, st, e) && st.epi[e].released < st.tmem[e / 4].fulls
  {
    FullParity(p, st.epi[e], st.tmem[e / 4], st.iss);
  }

  lemma FullParity(p: Params, x: Epi, t: Tmem, iss: Issuer)
    requires ValidParams(p) && EpiOk(p, x, t, iss) && t.full == MBar(t.fulls, 1) && t.fulls <= iss.committed
    ensures Passes(t.full, x.released % 2) <==> x.released < t.fulls
  {
  }

  // ---------------------------------------------------------------- preservation

  /** A change inside one CTA that keeps its published step number. */
  lemma CtaFrame(p: Params, st: State, c: nat, x: Cta)
    requires Inv(p, st) && c < 2 && CtaInv(p, x)
    requires x.id == c && x.xpG == st.ctas[c].xpG && x.delivered <= st.eng.g
    ensures Inv(p, st.(ctas := st.ctas[c := x]))
  {
    var st' := st.(ctas := st.ctas[c := x]);
    forall g: nat | Low(st') <= g < Low(st') + p.stages ensures Gate(p, st', g) {
      assert Gate(p, st, g);
    }
  }

  lemma CtaStepKeeps(p: Params, st: State, a: Action)
    requires Inv(p, st) && Enabled(p, st, a)
    requires a.LoadIssue? || a.Land? || a.LoadArrive? || a.XpWait? || a.XpScaleA? || a.XpScaleB?
    ensures Inv(p, Do(p, st, a))
  {
    var x := st.ctas[a.c];
    var x' := DoCta(p, x, a);
    assert CtaInv(p, x') by {
      match a {
        case LoadIssue(_) => LoadIssueKeeps(p, x);
        case Land(_, s, slot) => LandKeeps(p, x, s, slot);
        case LoadArrive(_) => LoadArriveKeeps(p, x);
        case _ => TransposerKeeps(p, x, a);
      }
    }
    CtaFrame(p, st, a.c, x');
  }

  lemma GateKeeps(p: Params, st: State, c: nat, st': State)
    requires Inv(p, st) && c < 2 && Shape(p, st') && st.ctas[c].xpSub > 0
    requires st'.ctas[c].xpG == st.ctas[c].xpG + 1 && st'.ctas[1 - c].xpG == st.ctas[1 - c].xpG
    requires var s := Stage(p, st.ctas[c].xpG); st'.withSf == st.withSf[s := Arrive(st.withSf[s], 32, 64)]
    ensures forall g: nat :: Low(st') <= g < Low(st') + p.stages ==> Gate(p, st', g)
    ensures st.withSf[Stage(p, st.ctas[c].xpG)].pending >= 32
  {
    hide TmemOk, EpiOk, EmptyOk;
    var g0 := st.ctas[c].xpG;
    assert CtaInv(p, st.ctas[c]);
    assert Low(st) <= g0 < Low(st) + p.stages;
    assert Gate(p, st, g0);
    forall g: nat | Low(st') <= g < Low(st') + p.stages ensures Gate(p, st', g) {
      if g < Low(st) + p.stages {
        assert Gate(p, st, g);
        if g != g0 { OtherStage(p, g, g0); }
      } else {
        SameStage(p, g0);
      }
    }
  }

  lemma XpArriveKeeps(p: Params, st: State, c: nat)
    requires Inv(p, st) && Enabled(p, st, XpArrive(c))
    ensures Inv(p, Do(p, st, XpArrive(c)))
    ensures st.withSf[Stage(p, st.ctas[c].xpG)].pending >= 32
  {
    var st' := Do(p, st, XpArrive(c));
    assert CtaInv(p, st'.ctas[c]) by { TransposerKeeps(p, st.ctas[c], XpArrive(c)); }
    GateKeeps(p, st, c, st');
  }

  /** The issuer moves; every barrier and buffer stays. */
  lemma IssuerFrame(p: Params, st: State, iss: Issuer)
    requires Inv(p, st) && IssuerOk(p, iss) && st.iss.g <= iss.g && st.iss.committed <= iss.committed
    requires forall c :: 0 <= c < 2 ==> iss.g <= st.ctas[c].xpG
    requires forall e :: 0 <= e < 8 ==>
               iss.committed <= st.epi[e].released + 1 && (iss.ready ==> st.epi[e].released == iss.committed)
    ensures Inv(p, st.(iss := iss))
  {
    var st' := st.(iss := iss);
    forall g: nat | Low(st') <= g < Low(st') + p.stages ensures Gate(p, st', g) {
      assert Gate(p, st, g);
    }
    forall e | 0 <= e < 8 ensures EpiOk(p, st'.epi[e], st'.tmem[e / 4], st'.iss) {
      assert EpiOk(p, st.epi[e], st.tmem[e / 4], st.iss);
    }
  }

  lemma IssueStepKeeps(p: Params, st: State)
    requires Inv(p, st) && Enabled(p, st, IssueStep)
    ensures Inv(p, Do(p, st, IssueStep))
  {
    IssuerWait(p, st);
    assert forall e :: 0 <= e < 8 ==> EpiOk(p, st.epi[e], st.tmem[e / 4], st.iss);
    IssuerFrame(p, st, st.iss.(g := st.iss.g + 1));
  }

  lemma IssueEmptyKeeps(p: Params, st: State)
    requires Inv(p, st) && Enabled(p, st, IssueEmpty)
    ensures Inv(p, Do(p, st, IssueEmpty))
  {
    EmptyWait(p, st);
    WaveStart(p, st.iss.committed);
    IssuerFrame(p, st, st.iss.(ready := true));
  }

  lemma IssueFullKeeps(p: Params, st: State)
    requires Inv(p, st) && Enabled(p, st, IssueFull)
    ensures Inv(p, Do(p, st, IssueFull))
  {
    WaveStart(p, st.iss.committed + 1);
    assert forall e :: 0 <= e < 8 ==> EpiOk(p, st.epi[e], st.tmem[e / 4], st.iss);
    IssuerFrame(p, st, Issuer(st.iss.g, false, st.iss.committed + 1));
  }

  /** While a step is issued and its completion not delivered, a CTA's stage holds exactly its operands. */
  lemma StageHolds(p: Params, st: State, c: nat, g: nat)
    requires Inv(p, st) && c < 2 && st.ctas[c].delivered <= g < st.iss.g
    ensures var b, w, k := st.ctas[c].smem[Stage(p, g)], Wave(p, g), Iter(p, g);
            && b.a == Held(c, w, k, false) && b.b == Held(c, w, k, false)
            && (SfStep(p, g) ==> b.sfa == Held(c, w, k, true) && b.sfb == Held(c, w, k, true))
  {
    assert CtaInv(p, st.ctas[c]);
    assert Owned(p, st.ctas[c], g);
  }

  lemma ExecCopyKeeps(p: Params, st: State, a: Action)
    requires Inv(p, st) && Enabled(p, st, a) && (a.ExecCopyA? || a.ExecCopyB?)
    ensures Inv(p, Do(p, st, a))
  {
    StageHolds(p, st, 0, st.eng.g);
    StageHolds(p, st, 1, st.eng.g);
    assert TmemOk(p, st.tmem[0], st.iss, st.eng) && TmemOk(p, st.tmem[1], st.iss, st.eng);
    TmemFrame(p, st, Do(p, st, a).tmem, Do(p, st, a).eng);
  }

  /** One MMA extends the intended accumulator by exactly its own step. */
  lemma AccumulateKeeps(p: Params, st: State, c: nat)
    requires Inv(p, st) && c < 2 && Enabled(p, st, ExecMma)
    ensures TmemOk(p, Accumulate(p, st, c), st.iss, Engine(st.eng.g + 1, 0))
  {
    assert TmemOk(p, st.tmem[c], st.iss, st.eng);
    ReadsIntended(p, st, c);
    AccExtends(p, st.tmem[c], st.eng.g, Reads(p, st, c));
  }

  lemma ReadsIntended(p: Params, st: State, c: nat)
    requires Inv(p, st) && c < 2 && Enabled(p, st, ExecMma)
    ensures Reads(p, st, c) == IntendedMma(p, c, Wave(p, st.eng.g), Iter(p, st.eng.g))
    ensures var k := Iter(p, st.eng.g);
            var sf := Held(c, Wave(p, st.eng.g), k - k % p.period, true);
            st.tmem[c].sfa == sf && st.tmem[c].sfb == sf
  {
    assert TmemOk(p, st.tmem[c], st.iss, st.eng);
    StageHolds(p, st, 0, st.eng.g);
    StageHolds(p, st, 1, st.eng.g);
  }

  lemma AccExtends(p: Params, t: Tmem, g: nat, m: Mma)
    requires ValidParams(p) && AccOk(p, t, g) && m == IntendedMma(p, t.id, Wave(p, g), Iter(p, g))
    requires t.sfa == m.sfa && t.sfb == m.sfb
    ensures var t' := t.(acc := (if Iter(p, g) == 0 then [] else t.acc) + [m]);
            AccOk(p, t', g + 1) && ScalesOk(p, t', Engine(g + 1, 0))
  {
    NextStep(p, g);
    AccGrows(p, t.id, Wave(p, g), Iter(p, g));
    GroupCarries(p, t.id, Wave(p, g), Iter(p, g));
  }

  lemma AccGrows(p: Params, c: nat, w: nat, k: nat)
    requires p.period >= 1
    ensures IntendedAcc(p, c, w, k) + [IntendedMma(p, c, w, k)] == IntendedAcc(p, c, w, k + 1)
    ensures IntendedAcc(p, c, w, 0) == []
  {
  }

  /** Until the next scale step, the scales of the group stay the ones to use. */
  lemma GroupCarries(p: Params, c: nat, w: nat, k: nat)
    requires p.period >= 1
    ensures (k + 1) % p.period != 0 ==> IntendedMma(p, c, w, k + 1).sfa == IntendedMma(p, c, w, k).sfa
    ensures 0 % p.period == 0
  {
    if (k + 1) % p.period != 0 { SameGroup(k, p.period); }
  }

  lemma SameGroup(k: nat, n: nat)
    requires n >= 1 && (k + 1) % n != 0
    ensures k + 1 - (k + 1) % n == k - k % n
  {
    var q, r := k / n, k % n;
    if r + 1 == n {
      assert (q + 1) * n == q * n + n;
      DivModUnique(k + 1, n, q + 1, 0);
    } else {
      DivModUnique(k + 1, n, q, r + 1);
    }
  }

  lemma ExecMmaKeeps(p: Params, st: State)
    requires Inv(p, st) && Enabled(p, st, ExecMma)
    ensures Inv(p, Do(p, st, ExecMma))
  {
    AccumulateKeeps(p, st, 0);
    AccumulateKeeps(p, st, 1);
    TmemFrame(p, st, [Accumulate(p, st, 0), Accumulate(p, st, 1)], Engine(st.eng.g + 1, 0));
  }

  /** Tensor memory and the engine move; every ring barrier and buffer stays. */
  lemma TmemFrame(p: Params, st: State, tmem: seq<Tmem>, eng: Engine)
    requires Inv(p, st) && |tmem| == 2 && EngineOk(p, st.iss, eng) && st.eng.g <= eng.g
    requires forall c :: 0 <= c < 2 ==>
               TmemOk(p, tmem[c], st.iss, eng) && tmem[c].id == c && st.tmem[c].fulls <= tmem[c].fulls
    ensures Inv(p, st.(tmem := tmem, eng := eng))
  {
    var st' := st.(tmem := tmem, eng := eng);
    forall g: nat | Low(st') <= g < Low(st') + p.stages ensures Gate(p, st', g) {
      assert Gate(p, st, g);
    }
    forall e | 0 <= e < 8 ensures EpiOk(p, st'.epi[e], st'.tmem[e / 4], st'.iss) {
      assert EpiOk(p, st.epi[e], st.tmem[e / 4], st.iss);
    }
  }

  lemma CommitKeeps(p: Params, st: State, c: nat)
    requires Inv(p, st) && Enabled(p, st, Deliver(c))
    ensures Inv(p, Do(p, st, Deliver(c)))
  {
    var x' := Do(p, st, Deliver(c)).ctas[c];
    DeliverKeeps(p, st.ctas[c], x');
    CtaFrame(p, st, c, x');
  }

  lemma DeliverFullKeeps(p: Params, st: State, c: nat)
    requires Inv(p, st) && Enabled(p, st, DeliverFull(c))
    ensures Inv(p, Do(p, st, DeliverFull(c)))
  {
    assert TmemOk(p, st.tmem[c], st.iss, st.eng);
    TmemFrame(p, st, Do(p, st, DeliverFull(c)).tmem, st.eng);
  }

  /** While a warp is between its wait and its release, the accumulator is the finished wave's. */
  lemma AccumulatorHeld(p: Params, st: State, e: nat)
    requires Inv(p, st) && e < 8 && st.epi[e].sub > 0
    ensures st.tmem[e / 4].acc == IntendedAcc(p, e / 4, st.epi[e].released, p.kIters)
    ensures st.iss.g == Start(p, st.epi[e].released + 1) && !st.iss.ready
  {
    var w, t := st.epi[e].released, st.tmem[e / 4];
    assert EpiOk(p, st.epi[e], t, st.iss);
    assert TmemOk(p, t, st.iss, st.eng);
    StartMonotone(p, w + 1, t.fulls);
    WaveStart(p, w + 1);
  }

  /** One epilogue warp moves; every ring barrier and buffer stays. */
  lemma EpiFrame(p: Params, st: State, e: nat, x: Epi, bar: MBar)
    requires Inv(p, st) && e < 8 && EpiOk(p, x, st.tmem[e / 4], st.iss)
    requires p.persistent ==> EmptyOk(st.epi[e := x], bar)
    ensures Inv(p, st.(epi := st.epi[e := x], tmemEmpty := bar))
  {
    var st' := st.(epi := st.epi[e := x], tmemEmpty := bar);
    forall g: nat | Low(st') <= g < Low(st') + p.stages ensures Gate(p, st', g) {
      assert Gate(p, st, g);
    }
  }

  lemma EpiWaitKeeps(p: Params, st: State, e: nat)
    requires Inv(p, st) && Enabled(p, st, EpiWait(e))
    ensures Inv(p, Do(p, st, EpiWait(e)))
  {
    FullWait(p, st, e);
    var x := st.epi[e].(sub := 1);
    if p.persistent { ReleaseCounted(st.epi, e, x, st.tmemEmpty); }
    EpiFrame(p, st, e, x, st.tmemEmpty);
  }

  lemma EpiCopyKeeps(p: Params, st: State, e: nat)
    requires Inv(p, st) && Enabled(p, st, EpiCopy(e))
    ensures Inv(p, Do(p, st, EpiCopy(e)))
  {
    AccumulatorHeld(p, st, e);
    var x := st.epi[e].(sub := 2, out := st.epi[e].out + [st.tmem[e / 4].acc]);
    assert EpiOk(p, st.epi[e], st.tmem[e / 4], st.iss);
    if p.persistent { ReleaseCounted(st.epi, e, x, st.tmemEmpty); }
    EpiFrame(p, st, e, x, st.tmemEmpty);
  }

  lemma EpiReleaseKeeps(p: Params, st: State, e: nat)
    requires Inv(p, st) && Enabled(p, st, EpiRelease(e))
    ensures Inv(p, Do(p, st, EpiRelease(e)))
  {
    AccumulatorHeld(p, st, e);
    var x := st.epi[e].(released := st.epi[e].released + 1, sub := 0);
    assert EpiOk(p, st.epi[e], st.tmem[e / 4], st.iss);
    if p.persistent {
      ReleaseAwaited(p, st, e);
      ReleaseCounted(st.epi, e, x, st.tmemEmpty);
      EpiFrame(p, st, e, x, Arrive(st.tmemEmpty, 32, 256));
    } else {
      EpiFrame(p, st, e, x, st.tmemEmpty);
    }
  }

  /** The warp about to release is not ahead of the barrier, so its 32 arrivals are awaited. */
  lemma ReleaseAwaited(p: Params, st: State, e: nat)
    requires Inv(p, st) && p.persistent && e < 8 && st.epi[e].sub > 0
    ensures st.epi[e].released == st.tmemEmpty.phases
  {
    var m := st.tmemEmpty.phases;
    AheadFull(st.epi, m);
    var f :| 0 <= f < 8 && st.epi[f].released <= m;
    assert EpiOk(p, st.epi[f], st.tmem[f / 4], st.iss);
    assert EpiOk(p, st.epi[e], st.tmem[e / 4], st.iss);
  }

  /** The 256 arrivals on `tmem_empty` are counted exactly. */
  lemma ReleaseCounted(epi: seq<Epi>, e: nat, x: Epi, bar: MBar)
    requires e < |epi| && EmptyOk(epi, bar)
    ensures x.released == epi[e].released ==> EmptyOk(epi[e := x], bar)
    ensures epi[e].released == bar.phases && x.released == bar.phases + 1 ==>
              bar.pending >= 32 && EmptyOk(epi[e := x], Arrive(bar, 32, 32 * |epi|))
  {
    AheadUpdate(epi, e, x, bar.phases);
    AheadFull(epi[e := x], bar.phases);
    AheadFull(epi[e := x], bar.phases + 1);
  }

  /** Every step of every warp, copy and tensor-core operation keeps the invariant. */
  lemma StepKeeps(p: Params, st: State, a: Action)
    requires Inv(p, st) && Enabled(p, st, a)
    ensures Inv(p, Do(p, st, a))
  {
    hide *;
    match a {
      case IssueEmpty => IssueEmptyKeeps(p, st);
      case IssueStep => IssueStepKeeps(p, st);
      case IssueFull => IssueFullKeeps(p, st);
      case ExecCopyA => ExecCopyKeeps(p, st, a);
      case ExecCopyB => ExecCopyKeeps(p, st, a);
      case ExecMma => ExecMmaKeeps(p, st);
      case Deliver(c) => CommitKeeps(p, st, c);
      case DeliverFull(c) => DeliverFullKeeps(p, st, c);
      case XpArrive(c) => XpArriveKeeps(p, st, c);
      case EpiWait(e) => EpiWaitKeeps(p, st, e);
      case EpiCopy(e) => EpiCopyKeeps(p, st, e);
      case EpiRelease(e) => EpiReleaseKeeps(p, st, e);
      case _ => CtaStepKeeps(p, st, a);
    }
  }
}
