/** What the pipeline invariant means for whole runs of the kernels. */
module PipelineTheorems {
  import opened Arith
  import opened Pipeline
  import opened PipelineInvariant

  // ---------------------------------------------------------------- runs

  predicate Legal(p: Params, st: State, acts: seq<Action>)
    requires ValidParams(p) && Shape(p, st)
    decreases |acts|
  {
    acts == [] || (Enabled(p, st, acts[0]) && Legal(p, Do(p, st, acts[0]), acts[1..]))
  }

  function After(p: Params, st: State, acts: seq<Action>): (st': State)
    requires ValidParams(p) && Shape(p, st) && Legal(p, st, acts)
    ensures Shape(p, st')
    decreases |acts|
  {
    if acts == [] then st else After(p, Do(p, st, acts[0]), acts[1..])
  }

  lemma {:induction false} RunKeepsInv(p: Params, st: State, acts: seq<Action>)
    requires Inv(p, st) && Legal(p, st, acts)
    ensures Inv(p, After(p, st, acts))
    decreases |acts|
  {
    if acts != [] {
      StepKeeps(p, st, acts[0]);
      RunKeepsInv(p, Do(p, st, acts[0]), acts[1..]);
    }
  }

  /** Every state of every interleaving satisfies the invariant. */
  lemma ReachableInv(p: Params, acts: seq<Action>)
    requires ValidParams(p) && Legal(p, Init(p), acts)
    ensures Inv(p, After(p, Init(p), acts))
  {
    InitInv(p);
    RunKeepsInv(p, Init(p), acts);
  }

  // ---------------------------------------------------------------- phase order

  /** The step in `[lo, lo + stages)` that uses stage `s`. */
  function At(p: Params, lo: int, s: nat): int
    requires p.stages >= 1
  {
    lo + (s - lo) % p.stages
  }

  lemma AtStage(p: Params, lo: int, s: nat)
    requires p.stages >= 1 && s < p.stages
    ensures lo <= At(p, lo, s) < lo + p.stages && Stage(p, At(p, lo, s)) == s
  {
    var n, q: int := p.stages, (s - lo) / p.stages;
    assert At(p, lo, s) == (-q) * n + s;
    DivModUnique(At(p, lo, s), n, -q, s);
  }

  /** The step at or after `lo` is determined by its stage. */
  lemma StageStep(p: Params, g: int, h: int)
    requires p.stages >= 1 && Stage(p, g) == Stage(p, h) && g - p.stages < h < g + 2 * p.stages
    ensures if h < g + p.stages then h == g else h == g + p.stages && Round(p, h) == Round(p, g) + 1
  {
    SameStage(p, g);
    if h < g + p.stages {
      if g != h { OtherStage(p, g, h); }
    } else if h != g + p.stages {
      OtherStage(p, g + p.stages, h);
    }
  }

  /** Per stage and CTA: consumed <= with_sf_full <= loaded <= consumed + 1 completed phases. */
  lemma PhaseOrder(p: Params, acts: seq<Action>, c: nat, s: nat)
    requires ValidParams(p) && Legal(p, Init(p), acts) && c < 2 && s < p.stages
    ensures var st := After(p, Init(p), acts);
            var x := st.ctas[c];
            x.consumed[s].phases <= st.withSf[s].phases <= x.loaded[s].phases <= x.consumed[s].phases + 1
  {
    ReachableInv(p, acts);
    PhaseOrderInv(p, After(p, Init(p), acts), c, s);
  }

  lemma PhaseOrderInv(p: Params, st: State, c: nat, s: nat)
    requires Inv(p, st) && c < 2 && s < p.stages
    ensures var x := st.ctas[c];
            x.consumed[s].phases <= st.withSf[s].phases <= x.loaded[s].phases <= x.consumed[s].phases + 1
  {
    var x := st.ctas[c];
    assert CtaInv(p, x) && CtaInv(p, st.ctas[1 - c]);
    var d, lo, hi := x.delivered, Low(st), Issued(x);
    assert d <= lo <= Passed(x) <= x.loadG <= hi <= d + p.stages;
    AtStage(p, d, s);
    AtStage(p, lo, s);
    AtStage(p, hi - p.stages, s);
    hide Stage, Round, At, SfStep, Contents, Wave, Iter;
    var g, h, i := At(p, d, s), At(p, lo, s), At(p, hi - p.stages, s);
    assert Free(p, x, g);
    assert Gate(p, st, h);
    assert Owned(p, x, i);
    StageStep(p, g, h);
    StageStep(p, i, g);
    StageStep(p, i, h);
  }

  /** The accumulator's pair of barriers: tmem_empty <= tmem_full <= tmem_empty + 1 completed phases, in both CTAs. */
  lemma AccumulatorPhaseOrder(p: Params, acts: seq<Action>, c: nat)
    requires ValidParams(p) && p.persistent && Legal(p, Init(p), acts) && c < 2
    ensures var st := After(p, Init(p), acts);
            st.tmemEmpty.phases <= st.tmem[c].full.phases <= st.tmemEmpty.phases + 1
  {
    ReachableInv(p, acts);
    AccumulatorPhaseOrderInv(p, After(p, Init(p), acts), c);
  }

  lemma AccumulatorPhaseOrderInv(p: Params, st: State, c: nat)
    requires Inv(p, st) && p.persistent && c < 2
    ensures st.tmemEmpty.phases <= st.tmem[c].full.phases <= st.tmemEmpty.phases + 1
  {
    hide CtaInv, Gate, IntendedAcc, AccOk, ScalesOk, IssuerOk, EngineOk;
    AheadFull(st.epi, st.tmemEmpty.phases);
    var e :| 0 <= e < |st.epi| && st.epi[e].released <= st.tmemEmpty.phases;
    assert EpiOk(p, st.epi[e], st.tmem[e / 4], st.iss);
    assert EpiOk(p, st.epi[4 * c], st.tmem[4 * c / 4], st.iss);
    assert TmemOk(p, st.tmem[c], st.iss, st.eng);
  }

  // ---------------------------------------------------------------- race freedom

  /** From issue of step `g`'s MMA until its completion reaches a CTA, the CTA's stage holds the operands of
      (wave, k) -- with transposed scales on scale steps -- and no step of any warp or copy touches it. */
  lemma StageRaceFree(p: Params, acts: seq<Action>, a: Action, c: nat, g: nat)
    requires ValidParams(p) && Legal(p, Init(p), acts)
    requires var st := After(p, Init(p), acts); c < 2 && Enabled(p, st, a) && st.ctas[c].delivered <= g < st.iss.g
    ensures var st := After(p, Init(p), acts);
            var b, w, k := st.ctas[c].smem[Stage(p, g)], Wave(p, g), Iter(p, g);
            && b.a == Held(c, w, k, false) && b.b == Held(c, w, k, false)
            && (SfStep(p, g) ==> b.sfa == Held(c, w, k, true) && b.sfb == Held(c, w, k, true))
            && Do(p, st, a).ctas[c].smem[Stage(p, g)] == b
  {
    ReachableInv(p, acts);
    var st := After(p, Init(p), acts);
    StageHolds(p, st, c, g);
    StageUntouched(p, st, a, c, g);
  }

  lemma CtaUntouched(p: Params, x: Cta, a: Action, g: nat)
    requires ValidParams(p) && CtaInv(p, x) && CtaEnabled(p, x, a) && x.delivered <= g < x.xpG
    ensures DoCta(p, x, a).smem[Stage(p, g)] == x.smem[Stage(p, g)]
  {
    assert Owned(p, x, g);
    if a.LoadIssue? {
      LoaderWait(p, x);
      OtherStage(p, g, x.loadG);
    } else if a.XpScaleA? || a.XpScaleB? {
      OtherStage(p, g, x.xpG);
    }
  }

  lemma StageUntouched(p: Params, st: State, a: Action, c: nat, g: nat)
    requires Inv(p, st) && Enabled(p, st, a) && c < 2 && st.ctas[c].delivered <= g < st.iss.g
    ensures Do(p, st, a).ctas[c].smem[Stage(p, g)] == st.ctas[c].smem[Stage(p, g)]
  {
    hide Gate, IssuerOk, EngineOk, TmemOk, EpiOk, EmptyOk, CtaInv, DoCta, Arrive, Accumulate;
    match a {
      case IssueEmpty => case IssueStep => case IssueFull =>
      case ExecCopyA => case ExecCopyB => case ExecMma =>
      case Deliver(_) => case DeliverFull(_) =>
      case EpiWait(_) => case EpiCopy(_) => case EpiRelease(_) =>
      case _ => if a.c == c { CtaUntouched(p, st.ctas[c], a, g); }
    }
  }

  /** The accumulator is cleared for a wave only after all 256 epilogue threads of both CTAs
      released the previous one. */
  lemma ClearAfterRelease(p: Params, acts: seq<Action>, e: nat)
    requires ValidParams(p) && Legal(p, Init(p), acts) && e < 8
    requires var st := After(p, Init(p), acts); st.eng.g < st.iss.g
    ensures var st := After(p, Init(p), acts); st.epi[e].released >= Wave(p, st.eng.g)
  {
    ReachableInv(p, acts);
    var st := After(p, Init(p), acts);
    assert EpiOk(p, st.epi[e], st.tmem[e / 4], st.iss);
    BelowStart(p, st.eng.g, if st.iss.ready then st.iss.committed + 1 else st.iss.committed);
  }

  lemma BelowStart(p: Params, g: nat, w: nat)
    requires p.kIters >= 1 && g < Start(p, w)
    ensures Wave(p, g) < w
  {
    if w <= Wave(p, g) { StartMonotone(p, w, Wave(p, g)); }
  }

  lemma DeliverAwaited(p: Params, x: Cta)
    requires ValidParams(p) && CtaInv(p, x)
    ensures x.consumed[Stage(p, x.delivered)].pending == 1
  {
    assert Free(p, x, x.delivered);
  }

  /** No barrier ever receives an arrival its current phase does not await. */
  lemma NoOverrun(p: Params, acts: seq<Action>, a: Action)
    requires ValidParams(p) && Legal(p, Init(p), acts)
    requires Enabled(p, After(p, Init(p), acts), a)
    ensures var st := After(p, Init(p), acts);
            match a
            case LoadArrive(c) => st.ctas[c].loaded[Stage(p, st.ctas[c].loadG)].pending >= 32
            case XpArrive(c) => st.withSf[Stage(p, st.ctas[c].xpG)].pending >= 32
            case Deliver(c) => st.ctas[c].consumed[Stage(p, st.ctas[c].delivered)].pending >= 1
            case DeliverFull(c) => st.tmem[c].full.pending >= 1
            case EpiRelease(e) => p.persistent ==> st.tmemEmpty.pending >= 32
            case _ => true
  {
    hide CtaInv, Gate, EpiOk, After, Legal, Do, DoCta;
    ReachableInv(p, acts);
    var st := After(p, Init(p), acts);
    match a {
      case LoadArrive(c) => LoadArriveKeeps(p, st.ctas[c]);
      case XpArrive(c) => XpArriveKeeps(p, st, c);
      case Deliver(c) => DeliverAwaited(p, st.ctas[c]);
      case EpiRelease(e) =>
        if p.persistent {
          ReleaseAwaited(p, st, e);
          ReleaseCounted(st.epi, e, st.epi[e].(released := st.epi[e].released + 1), st.tmemEmpty);
        }
      case _ =>
    }
  }

  // ---------------------------------------------------------------- deadlock freedom

  predicate Finished(p: Params, st: State) {
    && (forall c :: 0 <= c < |st.ctas| ==>
          && st.ctas[c].loadG == Total(p) && !st.ctas[c].loadIssued
          && st.ctas[c].xpG == Total(p) && st.ctas[c].xpSub == 0)
    && st.iss.committed == p.waves
    && (forall e :: 0 <= e < |st.epi| ==> st.epi[e].released == p.waves)
  }

  /** No warp of the CTA and no asynchronous unit feeding it is mid-step. */
  predicate Quiet(st: State, c: nat)
    requires |st.ctas| == |st.tmem| == 2 && c < 2
  {
    && !st.ctas[c].loadIssued && st.ctas[c].xpSub == 0
    && st.eng.g == st.iss.g && st.ctas[c].delivered == st.eng.g && st.tmem[c].fulls == st.iss.committed
  }

  lemma QuietOrStep(p: Params, st: State, c: nat) returns (a: Action)
    requires Inv(p, st) && c < 2
    ensures Quiet(st, c) || Enabled(p, st, a)
  {
    var x := st.ctas[c];
    a := IssueEmpty;
    if x.loadIssued {
      a := LoadArrive(c);
    } else if x.xpSub > 0 {
      a := if x.xpSub == 2 then XpScaleB(c) else if x.xpSub == 1 && SfStep(p, x.xpG) then XpScaleA(c) else XpArrive(c);
    } else if st.eng.g < st.iss.g {
      a := if st.eng.sub == 1 then ExecCopyB
           else if st.eng.sub == 0 && SfStep(p, st.eng.g) then ExecCopyA else ExecMma;
    } else if x.delivered < st.eng.g {
      a := Deliver(c);
    } else if st.tmem[c].fulls < st.iss.committed {
      a := DeliverFull(c);
      StartMonotone(p, st.tmem[c].fulls + 1, st.iss.committed);
    }
  }

  lemma EpilogueStep(p: Params, st: State, e: nat) returns (a: Action)
    requires Inv(p, st) && e < 8 && Quiet(st, e / 4) && st.epi[e].released < st.tmem[e / 4].fulls
    ensures Enabled(p, st, a)
  {
    assert EpiOk(p, st.epi[e], st.tmem[e / 4], st.iss);
    if st.epi[e].sub > 0 {
      a := if st.epi[e].sub == 1 then EpiCopy(e) else EpiRelease(e);
    } else {
      a := EpiWait(e);
      StartMonotone(p, 1, st.iss.committed);
      assert CtaInv(p, st.ctas[e / 4]);
      FullWait(p, st, e);
    }
  }

  lemma FeedStep(p: Params, st: State, c: nat) returns (a: Action)
    requires Inv(p, st) && c < 2 && Quiet(st, c) && st.ctas[c].xpG == st.iss.g < Total(p)
    ensures Enabled(p, st, a)
  {
    var x := st.ctas[c];
    assert CtaInv(p, x);
    if x.xpG < x.loadG {
      TransposerWait(p, x);
      a := XpWait(c);
      var s := Stage(p, x.xpG);
      if Busy(x.smem[s]) {
        a := Land(c, s, if x.smem[s].a.InFlight? then SlotA else if x.smem[s].b.InFlight? then SlotB
                        else if x.smem[s].sfa.InFlight? then SlotSfa else SlotSfb);
      }
    } else {
      LoaderWait(p, x);
      a := LoadIssue(c);
    }
  }

  lemma IssuerStep(p: Params, st: State) returns (a: Action)
    requires Inv(p, st) && Quiet(st, 0) && Quiet(st, 1) && st.iss.committed < p.waves
    requires forall e :: 0 <= e < 8 ==> st.epi[e].released == st.iss.committed
    ensures Enabled(p, st, a)
  {
    if !st.iss.ready {
      EmptyWait(p, st);
      a := IssueEmpty;
    } else if st.iss.g == Start(p, st.iss.committed + 1) {
      a := IssueFull;
    } else {
      IssuerWait(p, st);
      StartMonotone(p, st.iss.committed + 1, p.waves);
      if st.iss.g < Low(st) {
        a := IssueStep;
      } else {
        a := FeedStep(p, st, if st.ctas[0].xpG == st.iss.g then 0 else 1);
      }
    }
  }

  /** Deadlock freedom: an unfinished warp implies an enabled step. */
  lemma Progress(p: Params, st: State) returns (a: Action)
    requires Inv(p, st) && !Finished(p, st)
    ensures Enabled(p, st, a)
  {
    a := QuietOrStep(p, st, 0);
    if Quiet(st, 0) {
      a := QuietOrStep(p, st, 1);
      if Quiet(st, 1) {
        assert forall e :: 0 <= e < 8 ==> EpiOk(p, st.epi[e], st.tmem[e / 4], st.iss);
        assert CtaInv(p, st.ctas[0]) && CtaInv(p, st.ctas[1]);
        if e: nat :| e < 8 && st.epi[e].released < st.iss.committed {
          a := EpilogueStep(p, st, e);
        } else if st.iss.committed < p.waves {
          a := IssuerStep(p, st);
        }
      }
    }
  }

  // ---------------------------------------------------------------- termination

  function Flying(b: Buf): nat {
    (if b.a.InFlight? then 1 else 0) + (if b.b.InFlight? then 1 else 0) +
    (if b.sfa.InFlight? then 1 else 0) + (if b.sfb.InFlight? then 1 else 0)
  }

  function FlyingEach(smem: seq<Buf>): seq<int> {
    seq(|smem|, i requires 0 <= i < |smem| => Flying(smem[i]) as int)
  }

  function CtaWork(p: Params, x: Cta): int {
    6 * (Total(p) - x.loadG) - (if x.loadIssued then 5 else 0) + SumInts(FlyingEach(x.smem))
    + 4 * (Total(p) - x.xpG) - x.xpSub + (Total(p) - x.delivered)
  }

  function IssuerWork(p: Params, iss: Issuer): int {
    Total(p) - iss.g + 2 * (p.waves - iss.committed) - if iss.ready then 1 else 0
  }

  function EpiWork(p: Params, x: Epi): int { 3 * (p.waves - x.released) - x.sub }

  function EpiEach(p: Params, epi: seq<Epi>): seq<int> {
    seq(|epi|, e requires 0 <= e < |epi| => EpiWork(p, epi[e]))
  }

  /** Remaining work: warp steps, landings, tensor-core operations and deliveries. */
  function Work(p: Params, st: State): int
    requires |st.ctas| == |st.tmem| == 2
  {
    CtaWork(p, st.ctas[0]) + CtaWork(p, st.ctas[1]) + IssuerWork(p, st.iss)
    + 3 * (Total(p) - st.eng.g) - st.eng.sub
    + (p.waves - st.tmem[0].fulls) + (p.waves - st.tmem[1].fulls)
    + SumInts(EpiEach(p, st.epi))
  }

  lemma FlyingUpdate(smem: seq<Buf>, s: nat, b: Buf)
    requires s < |smem|
    ensures SumInts(FlyingEach(smem[s := b])) == SumInts(FlyingEach(smem)) - Flying(smem[s]) + Flying(b)
  {
    assert FlyingEach(smem[s := b]) == FlyingEach(smem)[s := Flying(b)];
    SumUpdate(FlyingEach(smem), s, Flying(b));
  }

  lemma EpiUpdate(p: Params, epi: seq<Epi>, e: nat, x: Epi)
    requires e < |epi|
    ensures SumInts(EpiEach(p, epi[e := x])) == SumInts(EpiEach(p, epi)) - EpiWork(p, epi[e]) + EpiWork(p, x)
  {
    assert EpiEach(p, epi[e := x]) == EpiEach(p, epi)[e := EpiWork(p, x)];
    SumUpdate(EpiEach(p, epi), e, EpiWork(p, x));
  }

  lemma WorkNonNegative(p: Params, st: State)
    requires Inv(p, st)
    ensures Work(p, st) >= 0
  {
    hide CtaInv, CtaWork, EpiOk, Gate;
    StartMonotone(p, st.iss.committed, p.waves);
    if st.iss.committed < p.waves { StartMonotone(p, st.iss.committed + 1, p.waves); }
    CtaWorkNonNegative(p, st.ctas[0]);
    CtaWorkNonNegative(p, st.ctas[1]);
    forall e | 0 <= e < 8 ensures EpiEach(p, st.epi)[e] >= 0 {
      EpiWorkNonNegative(p, st.epi[e], st.tmem[e / 4], st.iss);
    }
    SumNonNegative(EpiEach(p, st.epi));
  }

  lemma CtaWorkNonNegative(p: Params, x: Cta)
    requires ValidParams(p) && CtaInv(p, x)
    ensures CtaWork(p, x) >= 0
  {
    hide Free, Owned;
    SumNonNegative(FlyingEach(x.smem));
  }

  lemma EpiWorkNonNegative(p: Params, x: Epi, t: Tmem, iss: Issuer)
    requires ValidParams(p) && EpiOk(p, x, t, iss) && t.fulls <= p.waves
    ensures EpiWork(p, x) >= 0
  {
  }

  lemma CtaWorkDecreases(p: Params, x: Cta, a: Action)
    requires ValidParams(p) && Sized(p, x) && CtaEnabled(p, x, a)
    ensures CtaWork(p, DoCta(p, x, a)) < CtaWork(p, x)
  {
    match a {
      case LoadIssue(_) =>
        var s := Stage(p, x.loadG);
        FlyingUpdate(x.smem, s, DoLoadIssue(p, x).smem[s]);
      case Land(_, s, slot) =>
        FlyingUpdate(x.smem, s, DoLand(p, x, s, slot).smem[s]);
      case XpScaleA(_) =>
        var s := Stage(p, x.xpG);
        FlyingUpdate(x.smem, s, x.smem[s].(sfa := Flip(x.smem[s].sfa)));
      case XpScaleB(_) =>
        var s := Stage(p, x.xpG);
        FlyingUpdate(x.smem, s, x.smem[s].(sfb := Flip(x.smem[s].sfb)));
      case _ =>
    }
  }

  lemma EpiWorkDecreases(p: Params, st: State, a: Action)
    requires ValidParams(p) && Shape(p, st) && Enabled(p, st, a) && (a.EpiWait? || a.EpiCopy? || a.EpiRelease?)
    ensures Work(p, Do(p, st, a)) < Work(p, st)
  {
    var x' := Do(p, st, a).epi[a.e];
    assert EpiWork(p, x') < EpiWork(p, st.epi[a.e]);
    EpiUpdate(p, st.epi, a.e, x');
  }

  lemma SharedWorkDecreases(p: Params, st: State, a: Action)
    requires ValidParams(p) && Shape(p, st) && Enabled(p, st, a)
    requires a.IssueEmpty? || a.IssueStep? || a.IssueFull? || a.ExecCopyA? || a.ExecCopyB? || a.ExecMma?
    ensures Work(p, Do(p, st, a)) < Work(p, st)
  {
    assert Do(p, st, a).epi == st.epi && Do(p, st, a).ctas == st.ctas;
  }

  lemma DeliveryWorkDecreases(p: Params, st: State, a: Action)
    requires ValidParams(p) && Shape(p, st) && Enabled(p, st, a) && (a.Deliver? || a.DeliverFull?)
    ensures Work(p, Do(p, st, a)) < Work(p, st)
  {
    assert Do(p, st, a).epi == st.epi;
    if a.Deliver? {
      assert CtaWork(p, Do(p, st, a).ctas[a.c]) < CtaWork(p, st.ctas[a.c]);
    }
  }

  /** Every step of every warp or unit uses up work. */
  lemma WorkDecreases(p: Params, st: State, a: Action)
    requires ValidParams(p) && Shape(p, st) && Enabled(p, st, a)
    ensures Work(p, Do(p, st, a)) < Work(p, st)
  {
    if a.EpiWait? || a.EpiCopy? || a.EpiRelease? {
      EpiWorkDecreases(p, st, a);
    } else if a.IssueEmpty? || a.IssueStep? || a.IssueFull? || a.ExecCopyA? || a.ExecCopyB? || a.ExecMma? {
      SharedWorkDecreases(p, st, a);
    } else if a.Deliver? || a.DeliverFull? {
      DeliveryWorkDecreases(p, st, a);
    } else {
      CtaWorkDecreases(p, st.ctas[a.c], a);
    }
  }

  lemma {:induction false} RunLength(p: Params, st: State, acts: seq<Action>)
    requires Inv(p, st) && Legal(p, st, acts)
    ensures |acts| <= Work(p, st)
    decreases |acts|
  {
    WorkNonNegative(p, st);
    if acts != [] {
      WorkDecreases(p, st, acts[0]);
      StepKeeps(p, st, acts[0]);
      RunLength(p, Do(p, st, acts[0]), acts[1..]);
    }
  }

  /** What an epilogue warp has copied once nothing can happen any more. */
  lemma FinalOutput(p: Params, st: State, e: nat, w: nat)
    requires Inv(p, st) && Finished(p, st) && e < 8 && w < p.waves
    ensures |st.epi[e].out| == p.waves && st.epi[e].out[w] == IntendedAcc(p, e / 4, w, p.kIters)
  {
    assert EpiOk(p, st.epi[e], st.tmem[e / 4], st.iss);
    assert TmemOk(p, st.tmem[e / 4], st.iss, st.eng);
  }

  /** Every run is bounded, and a run that cannot be extended has finished every warp ... */
  lemma Termination(p: Params, acts: seq<Action>)
    requires ValidParams(p) && Legal(p, Init(p), acts)
    ensures |acts| <= Work(p, Init(p))
    ensures var st := After(p, Init(p), acts); (forall a :: !Enabled(p, st, a)) ==> Finished(p, st)
  {
    InitInv(p);
    RunLength(p, Init(p), acts);
    ReachableInv(p, acts);
    var st := After(p, Init(p), acts);
    if !Finished(p, st) {
      var a := Progress(p, st);
    }
  }

  /** ... and has given every epilogue warp, for every wave, exactly that wave's products: of the rows and scales its
      own CTA loaded with the halves of B the two CTAs loaded. */
  lemma CompletedRunOutput(p: Params, acts: seq<Action>, e: nat, w: nat)
    requires ValidParams(p) && Legal(p, Init(p), acts) && e < 8 && w < p.waves
    requires forall a :: !Enabled(p, After(p, Init(p), acts), a)
    ensures var out := After(p, Init(p), acts).epi[e].out;
            |out| == p.waves && out[w] == IntendedAcc(p, e / 4, w, p.kIters)
  {
    Termination(p, acts);
    ReachableInv(p, acts);
    FinalOutput(p, After(p, Init(p), acts), e, w);
  }
}
