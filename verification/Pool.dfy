/** The worker pool of the delta debugger: workers and a driver around one condition variable.
    Every action is one stretch between acquiring the lock and waiting or leaving. */
module Pool {
  import opened Arith

  /** `Idle`: waiting for a run; `Spent`: waiting and counted after the generator ran out. */
  datatype Worker =
    | Ready
    | Idle(notified: bool)
    | Spent(notified: bool)
    | Running(run: nat)
    | Exited

  datatype Driver =
    | Between
    | Started
    | Waiting(notified: bool)
    | StopSet
    | Stopped

  /** `left` is the number of tasks the generator still yields; None is a cleared generator. */
  datatype Generator = None | Tasks(left: nat)

  datatype Pool = Pool(workers: seq<Worker>, driver: Driver, run: nat, finished: bool, stopped: bool,
                       gen: Generator, waiting: int)

  function Init(n: nat): Pool {
    Pool(seq(n, _ => Ready), Between, 0, true, false, None, 0)
  }

  datatype Action =
    | Enter(w: nat)
    | Submit(w: nat, interesting: bool, renewed: nat)
    | Reset(renewed: nat)
    | DriverEnter
    | DriverWake
    | Stop        // between two runs, or in the middle of one when the driver is interrupted
    | StopNotify

  // ---------------------------------------------------------------- steps

  function Woken(w: Worker): Worker {
    match w case Idle(_) => Idle(true) case Spent(_) => Spent(true) case _ => w
  }

  function NotifyAll(p: Pool): Pool {
    p.(workers := seq(|p.workers|, i requires 0 <= i < |p.workers| => Woken(p.workers[i])),
       driver := if p.driver.Waiting? then Waiting(true) else p.driver)
  }

  predicate CanEnter(w: Worker) {
    w.Ready? || w == Idle(true) || w == Spent(true)
  }

  predicate Enabled(p: Pool, a: Action) {
    match a
    case Enter(w) => w < |p.workers| && CanEnter(p.workers[w])
    case Submit(w, _, _) => w < |p.workers| && p.workers[w].Running?
    case Reset(_) => p.driver.Between? && !p.stopped
    case DriverEnter => p.driver.Started?
    case DriverWake => p.driver == Waiting(true)
    case Stop => !p.driver.StopSet? && !p.driver.Stopped?
    case StopNotify => p.driver.StopSet?
  }

  /** The body of `get_next_task` from the loop head, for a worker that holds the lock. */
  function NextTask(p: Pool, w: nat): Pool
    requires w < |p.workers|
  {
    if p.stopped then p.(workers := p.workers[w := Exited])
    else if p.finished || p.gen.None? then p.(workers := p.workers[w := Idle(false)])
    else if p.gen.left > 0 then p.(workers := p.workers[w := Running(p.run)], gen := Tasks(p.gen.left - 1))
    else
      var q := p.(waiting := p.waiting + 1);
      var q' := if q.waiting == |p.workers| then NotifyAll(q.(finished := true, gen := None)) else q;
      q'.(workers := q'.workers[w := Spent(false)])
  }

  /** A worker that got the lock, no longer counted as waiting. */
  function Awake(p: Pool, w: nat): Pool
    requires w < |p.workers|
  {
    p.(workers := p.workers[w := Ready], waiting := if p.workers[w].Spent? then p.waiting - 1 else p.waiting)
  }

  function Step(p: Pool, a: Action): Pool
    requires Enabled(p, a)
  {
    match a
    case Enter(w) =>
      NextTask(Awake(p, w), w)
    case Submit(w, interesting, renewed) =>
      var q := p.(workers := p.workers[w := Ready]);
      if interesting then NotifyAll(q.(gen := Tasks(renewed))) else q
    case Reset(renewed) => p.(driver := Started, run := p.run + 1, finished := false, gen := Tasks(renewed))
    case DriverEnter =>
      var q := NotifyAll(p);
      q.(driver := if p.finished then Between else Waiting(false))
    case DriverWake => p.(driver := if p.finished then Between else Waiting(false))
    case Stop => p.(driver := StopSet, stopped := true)
    case StopNotify => NotifyAll(p).(driver := Stopped)
  }

  // ---------------------------------------------------------------- invariant

  function CountSpent(ws: seq<Worker>): nat {
    if ws == [] then 0 else CountSpent(ws[..|ws| - 1]) + if ws[|ws| - 1].Spent? then 1 else 0
  }

  predicate Parked(w: Worker) { w == Idle(false) || w == Spent(false) }

  ghost predicate Inv(p: Pool) {
    && p.waiting == CountSpent(p.workers)
    && (p.finished <==> p.gen.None?)
    && (p.finished ==> forall i :: 0 <= i < |p.workers| ==> !p.workers[i].Running?)
    && (forall i :: 0 <= i < |p.workers| ==> p.workers[i].Running? ==> p.workers[i].run == p.run)
    && (p.driver.Between? ==> p.finished)
    && (p.driver == Waiting(false) ==> !p.finished)
    && (p.stopped <==> p.driver.StopSet? || p.driver.Stopped?)
    && (!p.stopped ==> forall i :: 0 <= i < |p.workers| ==> !p.workers[i].Exited?)
    && (p.driver.Stopped? ==> forall i :: 0 <= i < |p.workers| ==> !Parked(p.workers[i]))
    && (p.driver.Waiting? && !p.finished ==> Busy(p))
  }

  /** While the driver waits for an unfinished run: nobody sleeps through it, and sleepers that
      ran out of tasks did so because the generator has none. */
  ghost predicate Busy(p: Pool) {
    && (forall i :: 0 <= i < |p.workers| ==> p.workers[i] != Idle(false))
    && (|p.workers| > 0 ==> exists i :: 0 <= i < |p.workers| && p.workers[i] != Spent(false))
    && (forall i :: 0 <= i < |p.workers| && p.workers[i] == Spent(false) ==> p.gen == Tasks(0))
  }

  lemma {:induction false} CountUpdate(ws: seq<Worker>, w: nat, x: Worker)
    requires w < |ws|
    ensures CountSpent(ws[w := x]) == CountSpent(ws) - (if ws[w].Spent? then 1 else 0) + (if x.Spent? then 1 else 0)
  {
    var n := |ws| - 1;
    if w == n {
      assert ws[w := x][..n] == ws[..n];
    } else {
      assert ws[w := x][..n] == ws[..n][w := x];
      CountUpdate(ws[..n], w, x);
    }
  }

  lemma {:induction false} CountSame(a: seq<Worker>, b: seq<Worker>)
    requires |a| == |b| && forall i :: 0 <= i < |a| ==> (a[i].Spent? <==> b[i].Spent?)
    ensures CountSpent(a) == CountSpent(b)
  {
    if a != [] { CountSame(a[..|a| - 1], b[..|b| - 1]); }
  }

  /** The count is full exactly when every worker ran out. */
  lemma {:induction false} CountFull(ws: seq<Worker>)
    ensures CountSpent(ws) <= |ws|
    ensures CountSpent(ws) == |ws| <==> forall i :: 0 <= i < |ws| ==> ws[i].Spent?
  {
    if ws != [] {
      var n := |ws| - 1;
      CountFull(ws[..n]);
      if forall i :: 0 <= i < n ==> ws[..n][i].Spent? {
        assert forall i :: 0 <= i < n ==> ws[i] == ws[..n][i];
      } else {
        var i :| 0 <= i < n && !ws[..n][i].Spent?;
        assert ws[i] == ws[..n][i];
      }
    }
  }

  lemma InitInv(n: nat)
    ensures Inv(Init(n))
  {
    NoneSpent(Init(n).workers);
  }

  lemma {:induction false} NoneSpent(ws: seq<Worker>)
    requires forall i :: 0 <= i < |ws| ==> !ws[i].Spent?
    ensures CountSpent(ws) == 0
  {
    if ws != [] { NoneSpent(ws[..|ws| - 1]); }
  }

  lemma NotifyKeepsCount(p: Pool)
    ensures CountSpent(NotifyAll(p).workers) == CountSpent(p.workers)
  {
    CountSame(NotifyAll(p).workers, p.workers);
  }

  /** After the loop head, for a worker that is not counted. */
  lemma NextTaskKeeps(p: Pool, w: nat)
    requires w < |p.workers| && p.workers[w].Ready? && Inv(p)
    ensures Inv(NextTask(p, w))
  {
    if !p.stopped && !p.finished && p.gen == Tasks(0) {
      if p.waiting + 1 == |p.workers| { LastOneKeeps(p, w); } else { RanOutKeeps(p, w); }
    } else {
      var p' := NextTask(p, w);
      CountUpdate(p.workers, w, p'.workers[w]);
      if p.driver.Waiting? && !p.finished { assert p'.workers[w] != Spent(false); }
    }
  }

  /** The last worker to run out ends the run: nobody else holds a task. */
  lemma LastOneKeeps(p: Pool, w: nat)
    requires w < |p.workers| && p.workers[w].Ready? && Inv(p)
    requires !p.stopped && !p.finished && p.gen == Tasks(0) && p.waiting + 1 == |p.workers|
    ensures Inv(NextTask(p, w))
  {
    var p', ws := NextTask(p, w), p.workers[w := Spent(false)];
    CountUpdate(p.workers, w, Spent(false));
    CountFull(ws);
    CountSame(p'.workers, ws);
    forall i | 0 <= i < |p.workers| ensures p'.workers[i].Spent? { assert ws[i].Spent?; }
  }

  lemma RanOutKeeps(p: Pool, w: nat)
    requires w < |p.workers| && p.workers[w].Ready? && Inv(p)
    requires !p.stopped && !p.finished && p.gen == Tasks(0) && p.waiting + 1 != |p.workers|
    ensures Inv(NextTask(p, w))
  {
    var p' := NextTask(p, w);
    CountUpdate(p.workers, w, Spent(false));
    CountFull(p'.workers);
    if p.driver.Waiting? {
      var i :| 0 <= i < |p.workers| && !p'.workers[i].Spent?;
      assert p'.workers[i] != Spent(false);
    }
  }

  lemma EnterKeeps(p: Pool, w: nat)
    requires Inv(p) && Enabled(p, Enter(w))
    ensures Inv(Step(p, Enter(w)))
  {
    hide Inv, NextTask;
    AwakeKeeps(p, w);
    NextTaskKeeps(Awake(p, w), w);
  }

  lemma AwakeKeeps(p: Pool, w: nat)
    requires Inv(p) && Enabled(p, Enter(w))
    ensures Inv(Awake(p, w))
  {
    var q := Awake(p, w);
    CountUpdate(p.workers, w, Ready);
    if q.driver.Waiting? && !q.finished { assert q.workers[w] != Spent(false); }
  }

  lemma SubmitKeeps(p: Pool, a: Action)
    requires Inv(p) && Enabled(p, a) && a.Submit?
    ensures Inv(Step(p, a))
  {
    var q := p.(workers := p.workers[a.w := Ready]);
    CountUpdate(p.workers, a.w, Ready);
    assert q.workers[a.w] != Spent(false);
    NotifyKeepsCount(q.(gen := Tasks(a.renewed)));
    var p' := Step(p, a);
    assert p'.workers[a.w] != Spent(false);
  }

  lemma DriverKeeps(p: Pool, a: Action)
    requires Inv(p) && Enabled(p, a) && !a.Enter? && !a.Submit?
    ensures Inv(Step(p, a))
  {
    NotifyKeepsCount(p);
    var p' := Step(p, a);
    if a.DriverEnter? && |p.workers| > 0 { assert p'.workers[0] != Spent(false); }
  }

  lemma StepKeeps(p: Pool, a: Action)
    requires Inv(p) && Enabled(p, a)
    ensures Inv(Step(p, a))
  {
    match a {
      case Enter(w) => EnterKeeps(p, w);
      case Submit(_, _, _) => SubmitKeeps(p, a);
      case _ => DriverKeeps(p, a);
    }
  }

  // ---------------------------------------------------------------- runs

  predicate Legal(p: Pool, acts: seq<Action>)
    decreases |acts|
  {
    acts == [] || (Enabled(p, acts[0]) && Legal(Step(p, acts[0]), acts[1..]))
  }

  function After(p: Pool, acts: seq<Action>): Pool
    requires Legal(p, acts)
    decreases |acts|
  {
    if acts == [] then p else After(Step(p, acts[0]), acts[1..])
  }

  lemma {:induction false} RunKeeps(p: Pool, acts: seq<Action>)
    requires Inv(p) && Legal(p, acts)
    ensures Inv(After(p, acts)) && |After(p, acts).workers| == |p.workers|
    decreases |acts|
  {
    if acts != [] {
      StepKeeps(p, acts[0]);
      RunKeeps(Step(p, acts[0]), acts[1..]);
    }
  }

  /** Safety: a finished run has no task in flight, and every result goes to the task manager
      whose generator yielded the task. */
  lemma ResultsReachTheirManager(n: nat, acts: seq<Action>, w: nat)
    requires Legal(Init(n), acts) && w < |After(Init(n), acts).workers|
    ensures var p := After(Init(n), acts);
            (p.finished ==> !p.workers[w].Running?) && (p.workers[w].Running? ==> p.workers[w].run == p.run)
  {
    InitInv(n);
    RunKeeps(Init(n), acts);
  }

  /** A run that nothing but an interruption can move. */
  ghost predicate Stuck(p: Pool) {
    (p.driver.Started? || p.driver.Waiting?) && forall a :: Enabled(p, a) ==> a.Stop?
  }

  lemma NotStuck(p: Pool) returns (a: Action)
    requires Inv(p) && (p.driver.Started? || p.driver.Waiting?) && |p.workers| > 0
    ensures Enabled(p, a) && !a.Stop?
  {
    if p.driver.Started? {
      a := DriverEnter;
    } else if p.driver.notified {
      a := DriverWake;
    } else {
      var i :| 0 <= i < |p.workers| && p.workers[i] != Spent(false);
      a := if p.workers[i].Running? then Submit(i, false, 0) else Enter(i);
    }
  }

  /** Progress: no lost wake-up.  A run is never stuck exactly when there is a worker. */
  lemma ProgressIffWorkers(n: nat)
    ensures n >= 1 <==> NeverStuck(n)
  {
    if n >= 1 {
      forall acts | Legal(Init(n), acts) ensures !Stuck(After(Init(n), acts)) {
        InitInv(n);
        RunKeeps(Init(n), acts);
        var p := After(Init(n), acts);
        if p.driver.Started? || p.driver.Waiting? {
          var a := NotStuck(p);
        }
      }
    } else {
      NoWorkersStuck();
    }
  }

  ghost predicate NeverStuck(n: nat) {
    forall acts :: Legal(Init(n), acts) ==> !Stuck(After(Init(n), acts))
  }

  /** Without workers (`--jobs 0`) the driver waits for ever. */
  lemma NoWorkersStuck()
    ensures !NeverStuck(0)
  {
    var acts := [Reset(0), DriverEnter];
    var p1 := Step(Init(0), Reset(0));
    var p2 := Step(p1, DriverEnter);
    assert acts[1..] == [DriverEnter] && acts[1..][1..] == [];
    assert Legal(p2, []) && Legal(p1, [DriverEnter]);
    assert Legal(Init(0), acts) && After(Init(0), acts) == p2;
    assert p2.workers == [] && Stuck(p2);
  }

  /** Shutdown, between runs or in the middle of one: once stop has notified, no worker sleeps. A worker has left, or
      leaves at its next step, or still runs a task and takes its next step after submitting the result. */
  lemma StopWakesAll(n: nat, acts: seq<Action>, w: nat)
    requires Legal(Init(n), acts) && w < |After(Init(n), acts).workers|
    requires After(Init(n), acts).driver.Stopped?
    ensures var p := After(Init(n), acts);
            || p.workers[w].Exited?
            || (Enabled(p, Enter(w)) && Step(p, Enter(w)).workers[w].Exited?)
            || (&& p.workers[w].Running?
                && forall b, r :: Enabled(p, Submit(w, b, r)) && Step(p, Submit(w, b, r)).workers[w].Ready?)
  {
    InitInv(n);
    RunKeeps(Init(n), acts);
  }

  function LeaveSteps(w: Worker): int { match w case Exited => 0 case Running(_) => 2 case _ => 1 }

  function LeaveEach(ws: seq<Worker>): seq<int> { seq(|ws|, i requires 0 <= i < |ws| => LeaveSteps(ws[i])) }

  lemma LeaveUpdate(ws: seq<Worker>, w: nat, x: Worker)
    requires w < |ws|
    ensures SumInts(LeaveEach(ws[w := x])) == SumInts(LeaveEach(ws)) - LeaveSteps(ws[w]) + LeaveSteps(x)
  {
    assert LeaveEach(ws[w := x]) == LeaveEach(ws)[w := LeaveSteps(x)];
    SumUpdate(LeaveEach(ws), w, LeaveSteps(x));
  }

  lemma LeaveStep(p: Pool, a: Action)
    requires Inv(p) && p.driver.Stopped? && Enabled(p, a)
    ensures Step(p, a).driver.Stopped? && SumInts(LeaveEach(Step(p, a).workers)) < SumInts(LeaveEach(p.workers))
  {
    match a {
      case Enter(w) =>
        assert Awake(p, w).workers[w := Exited] == p.workers[w := Exited];
        LeaveUpdate(p.workers, w, Exited);
      case Submit(w, interesting, _) =>
        LeaveUpdate(p.workers, w, Ready);
        var q := p.workers[w := Ready];
        if interesting { assert LeaveEach(Step(p, a).workers) == LeaveEach(q); }
    }
  }

  /** A shutdown ends: after the notification at most two steps per worker remain, and when none is left every
      worker has left, whatever the results still submitted. */
  lemma {:induction false} StopEnds(p: Pool, acts: seq<Action>)
    requires Inv(p) && p.driver.Stopped? && Legal(p, acts)
    ensures |acts| <= SumInts(LeaveEach(p.workers))
    ensures (forall a :: !Enabled(After(p, acts), a)) ==>
              forall w :: 0 <= w < |After(p, acts).workers| ==> After(p, acts).workers[w].Exited?
    decreases |acts|
  {
    Arith.SumNonNegative(LeaveEach(p.workers));
    RunKeeps(p, acts);
    if acts != [] {
      LeaveStep(p, acts[0]);
      StepKeeps(p, acts[0]);
      StopEnds(Step(p, acts[0]), acts[1..]);
    } else if forall a :: !Enabled(p, a) {
      forall w | 0 <= w < |p.workers| ensures p.workers[w].Exited? {
        assert !Enabled(p, Enter(w)) && !Enabled(p, Submit(w, false, 0));
      }
    }
  }

  // ---------------------------------------------------------------- every task is handed out

  /** Tasks handed out since the generator was last made, and how many it was made with. */
  datatype Tally = Tally(handed: nat, supplied: nat)

  /** Does the step give its worker a task? */
  predicate HandsOut(p: Pool, a: Action)
    requires Enabled(p, a)
  {
    a.Enter? && a.w < |Step(p, a).workers| && Step(p, a).workers[a.w].Running?
  }

  /** A new run and an interesting result start a new generator. */
  function Counted(p: Pool, a: Action, t: Tally): Tally
    requires Enabled(p, a)
  {
    if a.Reset? then Tally(0, a.renewed)
    else if a.Submit? && a.interesting then Tally(0, a.renewed)
    else if HandsOut(p, a) then Tally(t.handed + 1, t.supplied)
    else t
  }

  function TallyAfter(p: Pool, acts: seq<Action>, t: Tally): Tally
    requires Legal(p, acts)
    decreases |acts|
  {
    if acts == [] then t else TallyAfter(Step(p, acts[0]), acts[1..], Counted(p, acts[0], t))
  }

  /** What a generator still yields and what was handed out add up to what it was made with; a finished run handed out
      everything. */
  predicate Balanced(p: Pool, t: Tally) {
    if p.gen.None? then t.handed == t.supplied else p.gen.left + t.handed == t.supplied
  }

  lemma StepBalanced(p: Pool, a: Action, t: Tally)
    requires Inv(p) && Enabled(p, a) && Balanced(p, t)
    ensures Balanced(Step(p, a), Counted(p, a, t))
  {
    hide Inv, CountSpent;
    GenOfRun(p);
  }

  lemma GenOfRun(p: Pool)
    requires Inv(p)
    ensures p.finished <==> p.gen.None?
    ensures p.finished ==> forall i :: 0 <= i < |p.workers| ==> !p.workers[i].Running?
  {
  }

  lemma {:induction false} RunBalanced(p: Pool, acts: seq<Action>, t: Tally)
    requires Inv(p) && Legal(p, acts) && Balanced(p, t)
    ensures Balanced(After(p, acts), TallyAfter(p, acts, t))
    decreases |acts|
  {
    hide Inv, Counted, Balanced;
    if acts != [] {
      StepBalanced(p, acts[0], t);
      StepKeeps(p, acts[0]);
      RunBalanced(Step(p, acts[0]), acts[1..], Counted(p, acts[0], t));
    }
  }

  /** A run finishes only when every task of its last generator was handed out, however many interesting results renewed
      it on the way. */
  lemma FinishedHandedOut(n: nat, acts: seq<Action>)
    requires Legal(Init(n), acts) && After(Init(n), acts).finished
    ensures var t := TallyAfter(Init(n), acts, Tally(0, 0)); t.handed == t.supplied
  {
    InitInv(n);
    RunKeeps(Init(n), acts);
    RunBalanced(Init(n), acts, Tally(0, 0));
  }

  /** An interesting result makes a new generator and leaves nobody asleep, the driver included ... */
  lemma InterestingWakesAll(p: Pool, w: nat, renewed: nat)
    requires Enabled(p, Submit(w, true, renewed))
    ensures var q := Step(p, Submit(w, true, renewed));
            && q.gen == Tasks(renewed) && |q.workers| == |p.workers| && q.workers[w].Ready?
            && (forall i :: 0 <= i < |q.workers| ==> !Parked(q.workers[i]))
            && (p.driver.Waiting? ==> q.driver == Waiting(true))
  {
  }

  /** ... any other result leaves generator and sleepers alone ... */
  lemma OtherResultLeavesAll(p: Pool, w: nat, renewed: nat)
    requires Enabled(p, Submit(w, false, renewed))
    ensures var q := Step(p, Submit(w, false, renewed));
            q == p.(workers := q.workers) && q.workers == p.workers[w := Ready]
  {
  }

  /** ... and a worker that gets the lock takes a task as long as one is left and nobody stopped the run. */
  lemma NextStepTakesTask(p: Pool, w: nat)
    requires Inv(p) && Enabled(p, Enter(w)) && !p.stopped && p.gen.Tasks? && p.gen.left > 0
    ensures var q := Step(p, Enter(w));
            q.workers[w] == Running(p.run) && q.gen == Tasks(p.gen.left - 1)
            && forall i :: 0 <= i < |p.workers| && i != w ==> q.workers[i] == p.workers[i]
  {
  }

  // ---------------------------------------------------------------- a run ends once results stop being interesting

  function WorkerWork(w: Worker): int {
    match w case Running(_) => 4 case Exited => 0 case Ready => 3
    case Idle(b) => if b then 3 else 2 case Spent(b) => if b then 3 else 2
  }

  function WorkEach(ws: seq<Worker>): seq<int> {
    seq(|ws|, i requires 0 <= i < |ws| => WorkerWork(ws[i]))
  }

  function Work(p: Pool): int {
    SumInts(WorkEach(p.workers))
    + (if p.finished then 0 else |p.workers| + 2)
    + (if p.gen.None? then 0 else 2 * p.gen.left)
    + (match p.driver
       case Started => 2 * |p.workers| + 4 case Waiting(b) => |p.workers| + (if b then 4 else 3)
       case StopSet => |p.workers| + 1 case Between => |p.workers| + 2 case Stopped => 0)
  }

  lemma WorkUpdate(ws: seq<Worker>, w: nat, x: Worker)
    requires w < |ws|
    ensures SumInts(WorkEach(ws[w := x])) == SumInts(WorkEach(ws)) - WorkerWork(ws[w]) + WorkerWork(x)
  {
    assert WorkEach(ws[w := x]) == WorkEach(ws)[w := WorkerWork(x)];
    SumUpdate(WorkEach(ws), w, WorkerWork(x));
  }

  lemma {:induction false} SumWithin(a: seq<int>, b: seq<int>)
    requires |a| == |b| && forall i :: 0 <= i < |a| ==> a[i] <= b[i] + 1
    ensures SumInts(a) <= SumInts(b) + |a|
  {
    if a != [] { SumWithin(a[..|a| - 1], b[..|b| - 1]); }
  }

  lemma NotifyWork(p: Pool)
    ensures SumInts(WorkEach(NotifyAll(p).workers)) <= SumInts(WorkEach(p.workers)) + |p.workers|
  {
    SumWithin(WorkEach(NotifyAll(p).workers), WorkEach(p.workers));
  }

  lemma WorkNonNegative(p: Pool)
    ensures Work(p) >= 0
  {
    SumNonNegative(WorkEach(p.workers));
  }

  /** Steps other than interesting results and new runs. */
  predicate Calm(a: Action) { !a.Reset? && (a.Submit? ==> !a.interesting) }

  lemma NextTaskWork(p: Pool, w: nat)
    requires w < |p.workers| && p.workers[w].Ready? && Inv(p)
    ensures Work(NextTask(p, w)) < Work(p)
  {
    var p' := NextTask(p, w);
    if !p.stopped && !p.finished && p.gen == Tasks(0) && p.waiting + 1 == |p.workers| {
      var q := NotifyAll(p.(waiting := p.waiting + 1, finished := true, gen := None));
      NotifyWork(p.(waiting := p.waiting + 1, finished := true, gen := None));
      WorkUpdate(q.workers, w, Spent(false));
    } else {
      WorkUpdate(p.workers, w, p'.workers[w]);
    }
  }

  lemma EnterWork(p: Pool, w: nat)
    requires Inv(p) && Enabled(p, Enter(w))
    ensures Work(Step(p, Enter(w))) < Work(p)
  {
    hide Inv, NextTask, WorkEach;
    AwakeKeeps(p, w);
    WorkUpdate(p.workers, w, Ready);
    NextTaskWork(Awake(p, w), w);
  }

  lemma CalmWork(p: Pool, a: Action)
    requires Inv(p) && Enabled(p, a) && Calm(a)
    ensures Work(Step(p, a)) < Work(p)
  {
    match a {
      case Enter(w) => EnterWork(p, w);
      case Submit(w, _, _) => WorkUpdate(p.workers, w, Ready);
      case _ => DriverWork(p, a);
    }
  }

  lemma DriverWork(p: Pool, a: Action)
    requires Enabled(p, a) && Calm(a) && !a.Enter? && !a.Submit?
    ensures Work(Step(p, a)) < Work(p)
  {
    NotifyWork(p);
  }

  /** Any stretch of steps without an interesting result or a new run is bounded; with
      ProgressIffWorkers, a run whose results stop being interesting finishes. */
  lemma {:induction false} CalmStretchBounded(p: Pool, acts: seq<Action>)
    requires Inv(p) && Legal(p, acts) && forall i :: 0 <= i < |acts| ==> Calm(acts[i])
    ensures |acts| <= Work(p)
    decreases |acts|
  {
    WorkNonNegative(p);
    if acts != [] {
      CalmWork(p, acts[0]);
      StepKeeps(p, acts[0]);
      CalmStretchBounded(Step(p, acts[0]), acts[1..]);
    }
  }
}
