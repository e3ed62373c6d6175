/**
 The warp-specialised barrier pipeline of the 2-CTA block-scaled GEMM, as a transition
 system: one action per warp step, per landing copy, per asynchronous tensor-core operation
 and per delivered completion.  `persistent` selects the persistent kernel (a loop over
 waves with a separate epilogue group); otherwise the one-tile kernel is meant, where the
 four role warps run the epilogue after their own loop.
 */
module Pipeline {

  // ---------------------------------------------------------------- barriers

  /** An mbarrier: how many phases completed, and how many arrivals the current one awaits. */
  datatype MBar = MBar(phases: nat, pending: nat)

  /** `n` arrivals; the last awaited one ends the phase and re-arms the barrier. */
  function Arrive(b: MBar, n: nat, count: nat): MBar {
    if n < b.pending then MBar(b.phases, b.pending - n) else MBar(b.phases + 1, count)
  }

  /** The one-bit test: only the parity of the running phase is observable. */
  predicate Passes(b: MBar, parity: nat) {
    b.phases % 2 != parity
  }

  // ---------------------------------------------------------------- parameters and state

  datatype Params = Params(stages: nat, kIters: nat, waves: nat, period: nat, persistent: bool)

  predicate ValidParams(p: Params) {
    p.stages >= 1 && p.kIters >= 1 && p.period >= 1 && (!p.persistent ==> p.waves == 1)
  }

  /** Global step number to wave, k-iteration, stage and ring round. */
  function Wave(p: Params, g: nat): nat requires p.kIters >= 1 { g / p.kIters }
  function Iter(p: Params, g: nat): nat requires p.kIters >= 1 { g % p.kIters }
  function Stage(p: Params, g: int): nat requires p.stages >= 1 { g % p.stages }
  function Round(p: Params, g: int): int requires p.stages >= 1 { g / p.stages }
  function Start(p: Params, w: nat): nat { w * p.kIters }
  function Total(p: Params): nat { Start(p, p.waves) }

  predicate SfStep(p: Params, g: nat)
    requires ValidParams(p)
  {
    Iter(p, g) % p.period == 0
  }

  /** What a shared-memory slot or a scale region holds: the tile that CTA `cta` loads for (wave, k). */
  datatype Cell = Blank | InFlight(cta: nat, wave: nat, k: nat) | Held(cta: nat, wave: nat, k: nat, transposed: bool)

  datatype Buf = Buf(a: Cell, b: Cell, sfa: Cell, sfb: Cell)
  datatype Slot = SlotA | SlotB | SlotSfa | SlotSfb

  function Get(b: Buf, s: Slot): Cell {
    match s case SlotA => b.a case SlotB => b.b case SlotSfa => b.sfa case SlotSfb => b.sfb
  }

  function Put(b: Buf, s: Slot, c: Cell): Buf {
    match s
    case SlotA => b.(a := c)
    case SlotB => b.(b := c)
    case SlotSfa => b.(sfa := c)
    case SlotSfb => b.(sfb := c)
  }

  /** The transaction count of a stage's `loaded` barrier is non-zero. */
  predicate Busy(b: Buf) {
    b.a.InFlight? || b.b.InFlight? || b.sfa.InFlight? || b.sfb.InFlight?
  }

  /** One MMA's contribution to an accumulator: the operands as they were read. */
  datatype Mma = Mma(a: Cell, b0: Cell, b1: Cell, sfa: Cell, sfb: Cell, sfId: nat)

  /** Warps 0 and 2 of one CTA with its ring; `delivered` counts MMA completions that reached it. */
  datatype Cta = Cta(id: nat, loadG: nat, loadIssued: bool, xpG: nat, xpSub: nat, delivered: nat,
                     consumed: seq<MBar>, loaded: seq<MBar>, smem: seq<Buf>)

  /** Tensor memory of one CTA; `fulls` counts the wave completions delivered to its `tmem_full`. */
  datatype Tmem = Tmem(id: nat, sfa: Cell, sfb: Cell, acc: seq<Mma>, fulls: nat, full: MBar)

  /** An epilogue warp: waves it released, position in the current one, accumulators it copied. */
  datatype Epi = Epi(released: nat, sub: nat, out: seq<seq<Mma>>)

  /** MMA issuer (CTA 0, warp 1): steps issued, `tmem_empty` wait passed, waves committed. */
  datatype Issuer = Issuer(g: nat, ready: bool, committed: nat)

  /** The in-order tensor-core queue: MMAs executed and position among the next step's operations. */
  datatype Engine = Engine(g: nat, sub: nat)

  datatype State = State(ctas: seq<Cta>, tmem: seq<Tmem>, epi: seq<Epi>, withSf: seq<MBar>,
                         tmemEmpty: MBar, iss: Issuer, eng: Engine)

  const BlankBuf := Buf(Blank, Blank, Blank, Blank)

  predicate Shape(p: Params, st: State) {
    && |st.ctas| == 2 && |st.tmem| == 2 && |st.epi| == 8 && |st.withSf| == p.stages
    && (forall c :: 0 <= c < 2 ==>
          && st.ctas[c].id == st.tmem[c].id == c
          && |st.ctas[c].consumed| == p.stages && |st.ctas[c].loaded| == p.stages && |st.ctas[c].smem| == p.stages)
  }

  function InitCta(p: Params, id: nat): Cta {
    Cta(id, 0, false, 0, 0, 0, seq(p.stages, _ => MBar(0, 1)), seq(p.stages, _ => MBar(0, 32)),
        seq(p.stages, _ => BlankBuf))
  }

  function Init(p: Params): (st: State)
    ensures Shape(p, st)
  {
    State(seq(2, c requires 0 <= c => InitCta(p, c)),
          seq(2, c requires 0 <= c => Tmem(c, Blank, Blank, [], 0, MBar(0, 1))),
          seq(8, _ => Epi(0, 0, [])), seq(p.stages, _ => MBar(0, 64)), MBar(0, 256),
          Issuer(0, false, 0), Engine(0, 0))
  }

  // ---------------------------------------------------------------- actions

  datatype Action =
    | LoadIssue(c: nat)
    | Land(c: nat, s: nat, slot: Slot)
    | LoadArrive(c: nat)
    | XpWait(c: nat)
    | XpScaleA(c: nat)
    | XpScaleB(c: nat)
    | XpArrive(c: nat)
    | IssueEmpty
    | IssueStep
    | IssueFull
    | ExecCopyA
    | ExecCopyB
    | ExecMma
    | Deliver(c: nat)
    | DeliverFull(c: nat)
    | EpiWait(e: nat)
    | EpiCopy(e: nat)
    | EpiRelease(e: nat)

  predicate CtaEnabled(p: Params, x: Cta, a: Action)
    requires ValidParams(p)
    requires |x.consumed| == |x.loaded| == |x.smem| == p.stages
  {
    match a
    case LoadIssue(_) => x.loadG < Total(p) && !x.loadIssued
        && Passes(x.consumed[Stage(p, x.loadG)], 1 - Round(p, x.loadG) % 2)
    case Land(_, s, slot) => s < p.stages && Get(x.smem[s], slot).InFlight?
    case LoadArrive(_) => x.loadIssued
    case XpWait(_) => x.xpG < Total(p) && x.xpSub == 0
        && Passes(x.loaded[Stage(p, x.xpG)], Round(p, x.xpG) % 2)
    case XpScaleA(_) => x.xpSub == 1 && SfStep(p, x.xpG)
    case XpScaleB(_) => x.xpSub == 2
    case XpArrive(_) => (x.xpSub == 1 && !SfStep(p, x.xpG)) || x.xpSub == 3
    case _ => false
  }

  predicate Enabled(p: Params, st: State, a: Action)
    requires ValidParams(p) && Shape(p, st)
  {
    match a
    case IssueEmpty => !st.iss.ready && st.iss.committed < p.waves
        && (p.persistent ==> Passes(st.tmemEmpty, 1 - st.iss.committed % 2))
    case IssueStep => st.iss.ready && st.iss.g < Start(p, st.iss.committed + 1)
        && Passes(st.withSf[Stage(p, st.iss.g)], Round(p, st.iss.g) % 2)
    case IssueFull => st.iss.ready && st.iss.g == Start(p, st.iss.committed + 1)
    case ExecCopyA => st.eng.g < st.iss.g && st.eng.sub == 0 && SfStep(p, st.eng.g)
    case ExecCopyB => st.eng.g < st.iss.g && st.eng.sub == 1
    case ExecMma => st.eng.g < st.iss.g && (st.eng.sub == 2 || (st.eng.sub == 0 && !SfStep(p, st.eng.g)))
    case Deliver(c) => c < 2 && st.ctas[c].delivered < st.eng.g
    case DeliverFull(c) => c < 2 && st.tmem[c].fulls < st.iss.committed
        && Start(p, st.tmem[c].fulls + 1) <= st.eng.g
    case EpiWait(e) => e < 8 && st.epi[e].sub == 0 && st.epi[e].released < p.waves
        && RoleDone(p, st, e)
        && Passes(st.tmem[e / 4].full, st.epi[e].released % 2)
    case EpiCopy(e) => e < 8 && st.epi[e].sub == 1
    case EpiRelease(e) => e < 8 && st.epi[e].sub == 2
    case _ => a.c < 2 && CtaEnabled(p, st.ctas[a.c], a)
  }

  /** In the one-tile kernel a warp reaches the epilogue only after its own role loop. */
  predicate RoleDone(p: Params, st: State, e: nat)
    requires Shape(p, st) && e < 8
  {
    p.persistent ||
    (&& (e % 4 == 0 ==> st.ctas[e / 4].loadG == Total(p))
     && (e == 1 ==> st.iss.committed == p.waves)
     && (e % 4 == 2 ==> st.ctas[e / 4].xpG == Total(p)))
  }

  /** Arrival on a `loaded` barrier: its phase ends only when no copy is outstanding. */
  function ArriveTx(b: MBar, n: nat, busy: bool): MBar {
    if n >= b.pending && busy then MBar(b.phases, 0) else Arrive(b, n, 32)
  }

  function DoLoadIssue(p: Params, x: Cta): Cta
    requires ValidParams(p) && |x.smem| == p.stages
  {
    var s, w, k := Stage(p, x.loadG), Wave(p, x.loadG), Iter(p, x.loadG);
    var fly := InFlight(x.id, w, k);
    var buf := if SfStep(p, x.loadG) then Buf(fly, fly, fly, fly) else x.smem[s].(a := fly, b := fly);
    x.(loadIssued := true, smem := x.smem[s := buf])
  }

  function DoLand(p: Params, x: Cta, s: nat, slot: Slot): Cta
    requires |x.smem| == |x.loaded| == p.stages && s < p.stages && Get(x.smem[s], slot).InFlight?
  {
    var cell := Get(x.smem[s], slot);
    var buf := Put(x.smem[s], slot, Held(cell.cta, cell.wave, cell.k, false));
    var bar := x.loaded[s];
    x.(smem := x.smem[s := buf],
       loaded := x.loaded[s := if bar.pending == 0 && !Busy(buf) then MBar(bar.phases + 1, 32) else bar])
  }

  function DoLoadArrive(p: Params, x: Cta): Cta
    requires ValidParams(p) && |x.smem| == |x.loaded| == p.stages
  {
    var s := Stage(p, x.loadG);
    x.(loadG := x.loadG + 1, loadIssued := false,
       loaded := x.loaded[s := ArriveTx(x.loaded[s], 32, Busy(x.smem[s]))])
  }

  function Flip(c: Cell): Cell {
    match c case Held(c, w, k, t) => Held(c, w, k, !t) case _ => c
  }

  function DoCta(p: Params, x: Cta, a: Action): (x': Cta)
    requires ValidParams(p)
    requires |x.consumed| == |x.loaded| == |x.smem| == p.stages && CtaEnabled(p, x, a)
    ensures |x'.consumed| == |x'.loaded| == |x'.smem| == p.stages && x'.id == x.id
  {
    match a
    case LoadIssue(_) => DoLoadIssue(p, x)
    case Land(_, s, slot) => DoLand(p, x, s, slot)
    case LoadArrive(_) => DoLoadArrive(p, x)
    case XpWait(_) => x.(xpSub := 1)
    case XpScaleA(_) =>
      var s := Stage(p, x.xpG);
      x.(xpSub := 2, smem := x.smem[s := x.smem[s].(sfa := Flip(x.smem[s].sfa))])
    case XpScaleB(_) =>
      var s := Stage(p, x.xpG);
      x.(xpSub := 3, smem := x.smem[s := x.smem[s].(sfb := Flip(x.smem[s].sfb))])
    case _ => x.(xpG := x.xpG + 1, xpSub := 0)
  }

  /** The operands one MMA reads, for the accumulator of CTA `c`. */
  function Reads(p: Params, st: State, c: nat): Mma
    requires ValidParams(p) && Shape(p, st) && c < 2
  {
    var s := Stage(p, st.eng.g);
    Mma(st.ctas[c].smem[s].a, st.ctas[0].smem[s].b, st.ctas[1].smem[s].b,
        st.tmem[c].sfa, st.tmem[c].sfb, Iter(p, st.eng.g) % p.period)
  }

  function Accumulate(p: Params, st: State, c: nat): Tmem
    requires ValidParams(p) && Shape(p, st) && c < 2
  {
    var t := st.tmem[c];
    t.(acc := (if Iter(p, st.eng.g) == 0 then [] else t.acc) + [Reads(p, st, c)])
  }

  /** The tensor core: the two scale copies and the MMA, on the tensor memory of both CTAs. */
  function DoExec(p: Params, st: State, a: Action): (st': State)
    requires ValidParams(p) && Shape(p, st)
    ensures Shape(p, st')
  {
    match a
    case ExecCopyA =>
      var s := Stage(p, st.eng.g);
      st.(eng := st.eng.(sub := 1),
          tmem := [st.tmem[0].(sfa := st.ctas[0].smem[s].sfa), st.tmem[1].(sfa := st.ctas[1].smem[s].sfa)])
    case ExecCopyB =>
      var s := Stage(p, st.eng.g);
      st.(eng := st.eng.(sub := 2),
          tmem := [st.tmem[0].(sfb := st.ctas[0].smem[s].sfb), st.tmem[1].(sfb := st.ctas[1].smem[s].sfb)])
    case _ =>
      st.(eng := Engine(st.eng.g + 1, 0), tmem := [Accumulate(p, st, 0), Accumulate(p, st, 1)])
  }

  function Do(p: Params, st: State, a: Action): (st': State)
    requires ValidParams(p) && Shape(p, st) && Enabled(p, st, a)
    ensures Shape(p, st')
  {
    match a
    case IssueEmpty => st.(iss := st.iss.(ready := true))
    case IssueStep => st.(iss := st.iss.(g := st.iss.g + 1))
    case IssueFull => st.(iss := Issuer(st.iss.g, false, st.iss.committed + 1))
    case ExecCopyA => DoExec(p, st, a)
    case ExecCopyB => DoExec(p, st, a)
    case ExecMma => DoExec(p, st, a)
    case Deliver(c) =>
      var x := st.ctas[c];
      var s := Stage(p, x.delivered);
      st.(ctas := st.ctas[c := x.(delivered := x.delivered + 1,
                                  consumed := x.consumed[s := Arrive(x.consumed[s], 1, 1)])])
    case DeliverFull(c) =>
      var t := st.tmem[c];
      st.(tmem := st.tmem[c := t.(fulls := t.fulls + 1, full := Arrive(t.full, 1, 1))])
    case EpiWait(e) => st.(epi := st.epi[e := st.epi[e].(sub := 1)])
    case EpiCopy(e) =>
      st.(epi := st.epi[e := st.epi[e].(sub := 2, out := st.epi[e].out + [st.tmem[e / 4].acc])])
    case EpiRelease(e) =>
      st.(epi := st.epi[e := st.epi[e].(released := st.epi[e].released + 1, sub := 0)],
          tmemEmpty := if p.persistent then Arrive(st.tmemEmpty, 32, 256) else st.tmemEmpty)
    case XpArrive(c) =>
      var s := Stage(p, st.ctas[c].xpG);
      st.(ctas := st.ctas[c := DoCta(p, st.ctas[c], a)],
          withSf := st.withSf[s := Arrive(st.withSf[s], 32, 64)])
    case _ => st.(ctas := st.ctas[a.c := DoCta(p, st.ctas[a.c], a)])
  }
}
