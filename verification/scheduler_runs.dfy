/**
 What every interleaving of scheduler steps keeps: one runner per fiber, exact counters, and each
 queue entry in exactly one place.
 */
module SchedulerRuns {
  import opened Wrappers
  import opened SchedulerState

  ghost function Runs(worker: Worker, f: nat): nat {
    if worker.phase.InSlice? && worker.phase.fiber == f then 1 else 0
  }

  /** On how many workers fiber `f` is running. */
  ghost function Runners(workers: seq<Worker>, f: nat): nat {
    if workers == [] then 0 else Runners(workers[..|workers| - 1], f) + Runs(workers[|workers| - 1], f)
  }

  ghost function InSlices(workers: seq<Worker>): nat {
    if workers == [] then 0
    else InSlices(workers[..|workers| - 1]) + (if workers[|workers| - 1].phase.InSlice? then 1 else 0)
  }

  ghost function InIdles(workers: seq<Worker>): nat {
    if workers == [] then 0
    else InIdles(workers[..|workers| - 1]) + (if workers[|workers| - 1].phase.InIdle? then 1 else 0)
  }

  ghost function Holds(worker: Worker, t: nat): nat {
    if worker.phase.InSlice? && worker.phase.entry.serial == t then 1 else 0
  }

  ghost function HeldAs(workers: seq<Worker>, t: nat): nat {
    if workers == [] then 0 else HeldAs(workers[..|workers| - 1], t) + Holds(workers[|workers| - 1], t)
  }

  ghost function QueuedAs(queue: seq<Entry>, t: nat): nat {
    if queue == [] then 0
    else QueuedAs(queue[..|queue| - 1], t) + (if queue[|queue| - 1].serial == t then 1 else 0)
  }

  ghost function DischargedAs(log: seq<Discharge>, t: nat): nat {
    if log == [] then 0
    else DischargedAs(log[..|log| - 1], t) + (if log[|log| - 1].entry.serial == t then 1 else 0)
  }

  /** A fiber in state EXEC runs on exactly one worker, any other on none. */
  ghost predicate OneRunner(workers: seq<Worker>, fibers: seq<FiberState>) {
    forall f: nat :: RunnerOk(workers, fibers, f)
  }

  ghost predicate RunnerOk(workers: seq<Worker>, fibers: seq<FiberState>, f: nat) {
    Runners(workers, f) == if f < |fibers| && fibers[f] == EXEC then 1 else 0
  }

  ghost predicate Placed(queue: seq<Entry>, workers: seq<Worker>, log: seq<Discharge>, n: nat, t: nat) {
    QueuedAs(queue, t) + HeldAs(workers, t) + DischargedAs(log, t) == if t < n then 1 else 0
  }

  /** Every entry ever queued is in the queue, with one worker, or discharged; never in two places. */
  ghost predicate Conserved(queue: seq<Entry>, workers: seq<Worker>, log: seq<Discharge>, n: nat) {
    forall t: nat :: Placed(queue, workers, log, n, t)
  }

  predicate PinOk(e: Entry, w: nat) {
    e.thread.None? || e.thread.value == w
  }

  ghost predicate WorkerOk(worker: Worker, w: nat, fibers: nat) {
    && (worker.cbFiber.Some? ==> worker.cbFiber.value < fibers)
    && (worker.phase.InSlice? ==>
          && PinOk(worker.phase.entry, w)
          && worker.phase.fiber < fibers
          && (worker.phase.entry.work.CbWork? ==> worker.cbFiber == Some(worker.phase.fiber))
          && (worker.phase.entry.work.FiberWork? ==> worker.phase.entry.work.fiber == worker.phase.fiber))
  }

  ghost predicate WorkersOk(workers: seq<Worker>, fibers: nat) {
    && (forall w :: 0 <= w < |workers| ==> WorkerOk(workers[w], w, fibers))
    && (forall w, v :: 0 <= w < v < |workers| && workers[w].cbFiber.Some? ==> workers[w].cbFiber != workers[v].cbFiber)
  }

  ghost predicate QueueOk(queue: seq<Entry>, fibers: nat) {
    forall i :: 0 <= i < |queue| && queue[i].work.FiberWork? ==> queue[i].work.fiber < fibers
  }

  ghost predicate LogOk(log: seq<Discharge>) {
    forall i :: 0 <= i < |log| ==> PinOk(log[i].entry, log[i].worker)
  }

  ghost predicate Inv(s: Sched) {
    && !s.failed
    && QueueOk(s.queue, |s.fibers|)
    && WorkersOk(s.workers, |s.fibers|)
    && LogOk(s.discharged)
    && OneRunner(s.workers, s.fibers)
    && s.active == InSlices(s.workers)
    && s.idle == InIdles(s.workers)
    && Conserved(s.queue, s.workers, s.discharged, s.issued)
  }

  // ---------------------------------------------------------------------------------------
  // Counting
  // ---------------------------------------------------------------------------------------

  lemma {:induction false} WorkerUpdate(workers: seq<Worker>, w: nat, x: Worker, f: nat, t: nat)
    requires w < |workers|
    ensures Runners(workers[w := x], f) == Runners(workers, f) - Runs(workers[w], f) + Runs(x, f)
    ensures HeldAs(workers[w := x], t) == HeldAs(workers, t) - Holds(workers[w], t) + Holds(x, t)
    ensures InSlices(workers[w := x]) ==
              InSlices(workers) - (if workers[w].phase.InSlice? then 1 else 0) + (if x.phase.InSlice? then 1 else 0)
    ensures InIdles(workers[w := x]) ==
              InIdles(workers) - (if workers[w].phase.InIdle? then 1 else 0) + (if x.phase.InIdle? then 1 else 0)
  {
    var n := |workers| - 1;
    if w == n {
      assert workers[w := x][..n] == workers[..n];
    } else {
      WorkerUpdate(workers[..n], w, x, f, t);
      assert workers[w := x][..n] == workers[..n][w := x];
    }
  }

  lemma {:induction false} WithoutCount(queue: seq<Entry>, k: nat, t: nat)
    requires k < |queue|
    ensures QueuedAs(Without(queue, k), t) == QueuedAs(queue, t) - (if queue[k].serial == t then 1 else 0)
  {
    var n := |queue| - 1;
    if k == n {
      assert Without(queue, k) == queue[..n];
    } else {
      WithoutCount(queue[..n], k, t);
      assert Without(queue, k)[..n - 1] == Without(queue[..n], k);
    }
  }

  /** Worker `w` starts running `f`, which nobody ran. */
  lemma RunnerStarts(workers: seq<Worker>, fibers: seq<FiberState>, w: nat, x: Worker, f: nat)
    requires w < |workers| && f < |fibers| && fibers[f] != EXEC && OneRunner(workers, fibers)
    requires !workers[w].phase.InSlice? && x.phase.InSlice? && x.phase.fiber == f
    ensures OneRunner(workers[w := x], fibers[f := EXEC])
  {
    var workers', fibers' := workers[w := x], fibers[f := EXEC];
    forall g: nat ensures RunnerOk(workers', fibers', g) {
      assert RunnerOk(workers, fibers, g);
      WorkerUpdate(workers, w, x, g, 0);
    }
  }

  /** Worker `w` stops running its fiber, which takes a state other than EXEC. */
  lemma RunnerStops(workers: seq<Worker>, fibers: seq<FiberState>, w: nat, x: Worker, state: FiberState)
    requires w < |workers| && workers[w].phase.InSlice? && workers[w].phase.fiber < |fibers|
    requires OneRunner(workers, fibers) && !x.phase.InSlice? && state != EXEC
    ensures fibers[workers[w].phase.fiber] == EXEC
    ensures OneRunner(workers[w := x], fibers[workers[w].phase.fiber := state])
  {
    var f := workers[w].phase.fiber;
    var workers', fibers' := workers[w := x], fibers[f := state];
    assert RunnerOk(workers, fibers, f);
    WorkerUpdate(workers, w, x, f, 0);
    forall g: nat ensures RunnerOk(workers', fibers', g) {
      assert RunnerOk(workers, fibers, g);
      WorkerUpdate(workers, w, x, g, 0);
    }
  }

  /** Changing a fiber between states other than EXEC, or adding fibers, moves no runner. */
  lemma RunnersUnmoved(workers: seq<Worker>, fibers: seq<FiberState>, workers': seq<Worker>, fibers': seq<FiberState>,
                       w: nat)
    requires OneRunner(workers, fibers) && w < |workers| == |workers'| && workers' == workers[w := workers'[w]]
    requires workers'[w].phase == workers[w].phase
    requires forall g: nat :: (g < |fibers'| && fibers'[g] == EXEC) <==> (g < |fibers| && fibers[g] == EXEC)
    ensures OneRunner(workers', fibers')
    ensures InSlices(workers') == InSlices(workers) && InIdles(workers') == InIdles(workers)
    ensures forall t: nat :: HeldAs(workers', t) == HeldAs(workers, t)
  {
    forall g: nat ensures RunnerOk(workers', fibers', g) {
      assert RunnerOk(workers, fibers, g);
      WorkerUpdate(workers, w, workers'[w], g, 0);
    }
    WorkerUpdate(workers, w, workers'[w], 0, 0);
    forall t: nat ensures HeldAs(workers', t) == HeldAs(workers, t) {
      WorkerUpdate(workers, w, workers'[w], 0, t);
    }
  }

  lemma EntryTaken(queue: seq<Entry>, workers: seq<Worker>, log: seq<Discharge>, n: nat, k: nat, w: nat, x: Worker)
    requires k < |queue| && w < |workers| && Conserved(queue, workers, log, n)
    requires !workers[w].phase.InSlice? && x.phase.InSlice? && x.phase.entry == queue[k]
    ensures Conserved(Without(queue, k), workers[w := x], log, n)
  {
    var queue', workers' := Without(queue, k), workers[w := x];
    forall t: nat ensures Placed(queue', workers', log, n, t) {
      assert Placed(queue, workers, log, n, t);
      WithoutCount(queue, k, t);
      WorkerUpdate(workers, w, x, 0, t);
    }
  }

  lemma EntryDropped(queue: seq<Entry>, workers: seq<Worker>, log: seq<Discharge>, n: nat, k: nat, w: nat)
    requires k < |queue| && Conserved(queue, workers, log, n)
    ensures Conserved(Without(queue, k), workers, log + [Discharge(queue[k], w)], n)
  {
    var queue', log' := Without(queue, k), log + [Discharge(queue[k], w)];
    forall t: nat ensures Placed(queue', workers, log', n, t) {
      assert Placed(queue, workers, log, n, t);
      WithoutCount(queue, k, t);
      assert log'[..|log|] == log;
    }
  }

  lemma EntryDischarged(queue: seq<Entry>, workers: seq<Worker>, log: seq<Discharge>, n: nat, w: nat, x: Worker)
    requires w < |workers| && Conserved(queue, workers, log, n)
    requires workers[w].phase.InSlice? && !x.phase.InSlice?
    ensures Conserved(queue, workers[w := x], log + [Discharge(workers[w].phase.entry, w)], n)
  {
    var workers', log' := workers[w := x], log + [Discharge(workers[w].phase.entry, w)];
    forall t: nat ensures Placed(queue, workers', log', n, t) {
      assert Placed(queue, workers, log, n, t);
      WorkerUpdate(workers, w, x, 0, t);
      assert log'[..|log|] == log;
    }
  }

  lemma EntryQueued(queue: seq<Entry>, workers: seq<Worker>, log: seq<Discharge>, n: nat, e: Entry)
    requires Conserved(queue, workers, log, n) && e.serial == n
    ensures Conserved(queue + [e], workers, log, n + 1)
  {
    var queue', m := queue + [e], n + 1;
    forall t: nat ensures Placed(queue', workers, log, m, t) {
      assert Placed(queue, workers, log, n, t);
      assert queue'[..|queue|] == queue;
    }
  }

  // ---------------------------------------------------------------------------------------
  // Steps
  // ---------------------------------------------------------------------------------------

  lemma EnqueueKeeps(s: Sched, work: Work, thread: Option<nat>)
    requires Inv(s) && (work.FiberWork? ==> work.fiber < |s.fibers|)
    ensures Inv(Enqueue(s, work, thread))
  {
    EntryQueued(s.queue, s.workers, s.discharged, s.issued, Entry(s.issued, work, thread));
  }

  /** Worker `w` swaps fiber `f` in for entry `k` of the queue. */
  lemma SwapInKeeps(s: Sched, w: nat, k: nat, f: nat)
    requires Inv(s) && w < |s.workers| && k < |s.queue| && f < |s.fibers| && s.fibers[f] != EXEC
    requires s.workers[w].phase.Looping? && PinOk(s.queue[k], w)
    requires s.queue[k].work.CbWork? ==> s.workers[w].cbFiber == Some(f)
    requires s.queue[k].work.FiberWork? ==> s.queue[k].work.fiber == f
    ensures Inv(SwapIn(s.(queue := Without(s.queue, k)), w, s.queue[k], f))
  {
    var x := s.workers[w].(phase := InSlice(s.queue[k], f));
    RunnerStarts(s.workers, s.fibers, w, x, f);
    EntryTaken(s.queue, s.workers, s.discharged, s.issued, k, w, x);
    WorkerUpdate(s.workers, w, x, 0, 0);
    assert WorkerOk(s.workers[w], w, |s.fibers|);
  }

  /** Putting the cached callback fiber back to INIT. */
  lemma ResetKeeps(s: Sched, w: nat, c: nat)
    requires Inv(s) && w < |s.workers| && c < |s.fibers| && s.fibers[c] != EXEC
    ensures Inv(s.(fibers := s.fibers[c := INIT]))
  {
    RunnersUnmoved(s.workers, s.fibers, s.workers, s.fibers[c := INIT], w);
  }

  /** Caching a callback fiber that was just created. */
  lemma NewCbFiberKeeps(s: Sched, w: nat)
    requires Inv(s) && w < |s.workers| && s.workers[w].phase.Looping?
    ensures Inv(s.(fibers := s.fibers + [INIT], workers := s.workers[w := s.workers[w].(cbFiber := Some(|s.fibers|))]))
  {
    var workers', fibers' := s.workers[w := s.workers[w].(cbFiber := Some(|s.fibers|))], s.fibers + [INIT];
    RunnersUnmoved(s.workers, s.fibers, workers', fibers', w);
    forall t: nat ensures Placed(s.queue, workers', s.discharged, s.issued, t) {
      assert Placed(s.queue, s.workers, s.discharged, s.issued, t);
    }
    forall v | 0 <= v < |workers'| ensures WorkerOk(workers'[v], v, |fibers'|) {
      assert WorkerOk(s.workers[v], v, |s.fibers|);
    }
  }

  /** The exact guard of the one assertion a run can trip: a worker about to reuse its cached
      callback fiber while that fiber is neither fresh nor ended. */
  predicate Fails(s: Sched, w: nat)
    requires w < |s.workers|
  {
    var k := Pick(s.queue, s.fibers, w);
    && s.workers[w].phase.Looping?
    && k.Some? && s.queue[k.value].work.CbWork?
    && s.workers[w].cbFiber.Some?
    && s.workers[w].cbFiber.value < |s.fibers|
    && !Resettable(s.fibers[s.workers[w].cbFiber.value])
  }

  lemma TakeUpKeeps(s: Sched, w: nat, k: nat)
    requires Inv(s) && w < |s.workers| && s.workers[w].phase.Looping?
    requires Pick(s.queue, s.fibers, w) == Some(k)
    ensures var r := TakeUp(s.(queue := Without(s.queue, k)), w, s.queue[k]);
            if Fails(s, w) then r.failed else Inv(r)
  {
    assert WorkerOk(s.workers[w], w, |s.fibers|);
    match s.queue[k].work
    case FiberWork(f) =>
      if Ended(s.fibers[f]) {
        EntryDropped(s.queue, s.workers, s.discharged, s.issued, k, w);
      } else {
        SwapInKeeps(s, w, k, f);
      }
    case CbWork(_) =>
      match s.workers[w].cbFiber {
        case Some(c) =>
          if Resettable(s.fibers[c]) {
            ResetKeeps(s, w, c);
            SwapInKeeps(s.(fibers := s.fibers[c := INIT]), w, k, c);
          }
        case None =>
          NewCbFiberKeeps(s, w);
          var worker := s.workers[w].(cbFiber := Some(|s.fibers|));
          SwapInKeeps(s.(fibers := s.fibers + [INIT], workers := s.workers[w := worker]), w, k, |s.fibers|);
      }
  }

  /** A worker that finds nothing to run goes idle, comes back, or exits. */
  lemma PhaseKeeps(s: Sched, w: nat, x: Worker)
    requires Inv(s) && w < |s.workers|
    requires !s.workers[w].phase.InSlice? && !x.phase.InSlice? && x.cbFiber == s.workers[w].cbFiber
    ensures Inv(s.(workers := s.workers[w := x],
                   idle := s.idle + (if x.phase.InIdle? then 1 else 0) - (if s.workers[w].phase.InIdle? then 1 else 0)))
  {
    var workers' := s.workers[w := x];
    WorkerUpdate(s.workers, w, x, 0, 0);
    forall f: nat ensures RunnerOk(workers', s.fibers, f) {
      assert RunnerOk(s.workers, s.fibers, f);
      WorkerUpdate(s.workers, w, x, f, 0);
    }
    forall t: nat ensures Placed(s.queue, workers', s.discharged, s.issued, t) {
      assert Placed(s.queue, s.workers, s.discharged, s.issued, t);
      WorkerUpdate(s.workers, w, x, 0, t);
    }
    assert WorkerOk(s.workers[w], w, |s.fibers|);
  }

  lemma StartKeeps(s: Sched, w: nat)
    requires Inv(s) && w < |s.workers|
    ensures if Fails(s, w) then Start(s, w).failed else Inv(Start(s, w))
  {
    if s.workers[w].phase.Looping? {
      match Pick(s.queue, s.fibers, w)
      case Some(k) => TakeUpKeeps(s, w, k);
      case None =>
        PhaseKeeps(s, w, s.workers[w].(phase := if s.workers[w].idleDone then Exited else InIdle));
    }
  }

  /** The slice of worker `w` is settled with its fiber in `state` and the worker as `x`. */
  lemma SettleKeeps(s: Sched, w: nat, x: Worker, state: FiberState)
    requires Inv(s) && w < |s.workers| && s.workers[w].phase.InSlice? && s.workers[w].phase.fiber < |s.fibers|
    requires x.phase.Looping? && (x.cbFiber == s.workers[w].cbFiber || x.cbFiber.None?) && state != EXEC
    ensures Inv(s.(active := s.active - 1, discharged := s.discharged + [Discharge(s.workers[w].phase.entry, w)],
                   fibers := s.fibers[s.workers[w].phase.fiber := state], workers := s.workers[w := x]))
  {
    RunnerStops(s.workers, s.fibers, w, x, state);
    EntryDischarged(s.queue, s.workers, s.discharged, s.issued, w, x);
    WorkerUpdate(s.workers, w, x, 0, 0);
    assert WorkerOk(s.workers[w], w, |s.fibers|);
  }

  lemma EndKeeps(s: Sched, w: nat, how: Ending)
    requires Inv(s) && w < |s.workers|
    ensures Inv(End(s, w, how))
  {
    match s.workers[w].phase
    case InSlice(e, f) =>
      assert WorkerOk(s.workers[w], w, |s.fibers|);
      var worker := s.workers[w].(phase := Looping);
      match how {
        case YieldReady =>
          SettleKeeps(s, w, Settled(worker, e, false), READY);
          var r := s.(active := s.active - 1, discharged := s.discharged + [Discharge(e, w)],
                      fibers := s.fibers[f := READY], workers := s.workers[w := Settled(worker, e, false)]);
          EnqueueKeeps(r, FiberWork(f), None);
        case YieldHold =>
          SettleKeeps(s, w, Settled(worker, e, false), HOLD);
        case Finish =>
          SettleKeeps(s, w, Settled(worker, e, true), if e.work.CbWork? then INIT else TERM);
        case Throw =>
          SettleKeeps(s, w, Settled(worker, e, true), if e.work.CbWork? then INIT else EXCEPT);
      }
    case _ =>
  }

  lemma NewFiberKeeps(s: Sched)
    requires Inv(s)
    ensures Inv(s.(fibers := s.fibers + [INIT]))
  {
    var fibers' := s.fibers + [INIT];
    forall f: nat ensures RunnerOk(s.workers, fibers', f) {
      assert RunnerOk(s.workers, s.fibers, f);
    }
    forall w | 0 <= w < |s.workers| ensures WorkerOk(s.workers[w], w, |fibers'|) {
      assert WorkerOk(s.workers[w], w, |s.fibers|);
    }
  }

  ghost predicate StepFails(s: Sched, step: Step) {
    step.StartSlice? && step.w < |s.workers| && Fails(s, step.w)
  }

  lemma StepKeeps(s: Sched, step: Step)
    requires Inv(s)
    ensures Apply(s, step).failed <==> StepFails(s, step)
    ensures !StepFails(s, step) ==> Inv(Apply(s, step))
  {
    match step
    case Schedule(work, thread) =>
      if work.CbWork? || work.fiber < |s.fibers| { EnqueueKeeps(s, work, thread); }
    case NewFiber => NewFiberKeeps(s);
    case StartSlice(w) => if w < |s.workers| { StartKeeps(s, w); }
    case EndSlice(w, how) => if w < |s.workers| { EndKeeps(s, w, how); }
    case LeaveIdle(w, done) =>
      if w < |s.workers| && s.workers[w].phase.InIdle? {
        PhaseKeeps(s, w, s.workers[w].(phase := Looping, idleDone := done));
      }
  }

  lemma {:induction false} IdleWorkers(threads: nat, f: nat)
    ensures var ws := seq(threads, i => Worker(Looping, None, false));
            Runners(ws, f) == 0 && InSlices(ws) == 0 && InIdles(ws) == 0 && HeldAs(ws, f) == 0
  {
    if threads > 0 {
      IdleWorkers(threads - 1, f);
      assert seq(threads, i => Worker(Looping, None, false))[..threads - 1]
          == seq(threads - 1, i => Worker(Looping, None, false));
    }
  }

  lemma InitOk(threads: nat)
    ensures Inv(Init(threads))
  {
    var s := Init(threads);
    forall f: nat ensures RunnerOk(s.workers, s.fibers, f) { IdleWorkers(threads, f); }
    forall t: nat ensures Placed(s.queue, s.workers, s.discharged, s.issued, t) { IdleWorkers(threads, t); }
    IdleWorkers(threads, 0);
  }

  lemma {:induction false} RunKeeps(s: Sched, steps: seq<Step>)
    requires Inv(s)
    ensures !Run(s, steps).failed ==> Inv(Run(s, steps))
    decreases |steps|
  {
    if steps != [] {
      StepKeeps(s, steps[0]);
      if !Apply(s, steps[0]).failed {
        RunKeeps(Apply(s, steps[0]), steps[1..]);
      }
    }
  }

  // ---------------------------------------------------------------------------------------
  // What holds over every run
  // ---------------------------------------------------------------------------------------

  lemma {:induction false} RunnerCounted(workers: seq<Worker>, w: nat)
    requires w < |workers| && workers[w].phase.InSlice?
    ensures Runners(workers, workers[w].phase.fiber) >= 1
  {
    if w < |workers| - 1 {
      RunnerCounted(workers[..|workers| - 1], w);
    }
  }

  lemma {:induction false} TwoRunnersCounted(workers: seq<Worker>, w: nat, v: nat)
    requires w < v < |workers| && workers[w].phase.InSlice? && workers[v].phase.InSlice?
    requires workers[w].phase.fiber == workers[v].phase.fiber
    ensures Runners(workers, workers[w].phase.fiber) >= 2
  {
    if v < |workers| - 1 {
      TwoRunnersCounted(workers[..|workers| - 1], w, v);
    } else {
      RunnerCounted(workers[..v], w);
    }
  }

  /** No interleaving ever runs one fiber on two workers, even if it is queued twice. */
  lemma NeverTwoRunners(threads: nat, steps: seq<Step>, w: nat, v: nat)
    requires var s := Run(Init(threads), steps);
             !s.failed && w < v < |s.workers| && s.workers[w].phase.InSlice? && s.workers[v].phase.InSlice?
    ensures var s := Run(Init(threads), steps); s.workers[w].phase.fiber != s.workers[v].phase.fiber
  {
    InitOk(threads);
    RunKeeps(Init(threads), steps);
    var s := Run(Init(threads), steps);
    if s.workers[w].phase.fiber == s.workers[v].phase.fiber {
      assert RunnerOk(s.workers, s.fibers, s.workers[w].phase.fiber);
      TwoRunnersCounted(s.workers, w, v);
    }
  }

  /** The counters are exact, every entry ever queued is in exactly one place, and an entry pinned to
      a thread is only ever held or discharged by that thread. */
  lemma EntriesAndCounters(threads: nat, steps: seq<Step>, t: nat)
    requires !Run(Init(threads), steps).failed
    ensures var s := Run(Init(threads), steps);
            && s.active == InSlices(s.workers)
            && s.idle == InIdles(s.workers)
            && QueuedAs(s.queue, t) + HeldAs(s.workers, t) + DischargedAs(s.discharged, t)
            == (if t < s.issued then 1 else 0)
            && (forall w :: 0 <= w < |s.workers| && s.workers[w].phase.InSlice? ==> PinOk(s.workers[w].phase.entry, w))
            && (forall i :: 0 <= i < |s.discharged| ==> PinOk(s.discharged[i].entry, s.discharged[i].worker))
  {
    InitOk(threads);
    RunKeeps(Init(threads), steps);
    var s := Run(Init(threads), steps);
    assert Placed(s.queue, s.workers, s.discharged, s.issued, t);
    forall w | 0 <= w < |s.workers| && s.workers[w].phase.InSlice? ensures PinOk(s.workers[w].phase.entry, w) {
      assert WorkerOk(s.workers[w], w, |s.fibers|);
    }
  }

  // ---------------------------------------------------------------------------------------
  // When the assertion of Fiber::reset holds
  // ---------------------------------------------------------------------------------------

  /** Some worker that still runs may take an entry with this pin. */
  predicate Live(thread: Option<nat>, workers: seq<Worker>) {
    thread.None? || (thread.value < |workers| && !workers[thread.value].phase.Exited?)
  }

  predicate Names(queue: seq<Entry>, workers: seq<Worker>, f: nat) {
    exists i :: 0 <= i < |queue| && queue[i].work == FiberWork(f) && Live(queue[i].thread, workers)
  }

  /** A worker that still runs keeps fiber `f` for its next callback and is not running it now. */
  predicate Keeps(worker: Worker, f: nat) {
    worker.cbFiber == Some(f) && !worker.phase.Exited? && !(worker.phase.InSlice? && worker.phase.fiber == f)
  }

  predicate Kept(workers: seq<Worker>, f: nat) {
    exists w :: 0 <= w < |workers| && Keeps(workers[w], f)
  }

  /** A callback ends, and its worker keeps the fiber. */
  predicate EndsCallback(s: Sched, w: nat, how: Ending) {
    && w < |s.workers| && s.workers[w].phase.InSlice? && s.workers[w].phase.entry.work.CbWork?
    && how in {Finish, Throw}
  }

  /** Nobody schedules a fiber that a worker keeps for its next callback, and a callback does not end
      with its own fiber still queued; entries that no worker will take do not matter. */
  predicate Disciplined(s: Sched, step: Step) {
    match step
    case Schedule(FiberWork(f), thread) => !(Kept(s.workers, f) && Live(thread, s.workers))
    case EndSlice(w, how) => EndsCallback(s, w, how) ==> !Names(s.queue, s.workers, s.workers[w].phase.fiber)
    case _ => true
  }

  /** A kept callback fiber is fresh and nothing in the queue refers to it. */
  ghost predicate CacheClean(worker: Worker, fibers: seq<FiberState>, queue: seq<Entry>, workers: seq<Worker>) {
    && (worker.phase.InSlice? && worker.phase.entry.work.FiberWork? ==> worker.cbFiber != Some(worker.phase.fiber))
    && (worker.cbFiber.Some? && Keeps(worker, worker.cbFiber.value) ==>
          var f := worker.cbFiber.value;
          f < |fibers| && fibers[f] == INIT && !Names(queue, workers, f))
  }

  ghost predicate CachesClean(s: Sched) {
    forall w :: 0 <= w < |s.workers| ==> CacheClean(s.workers[w], s.fibers, s.queue, s.workers)
  }

  lemma CleanNeverFails(s: Sched, step: Step)
    requires Inv(s) && CachesClean(s)
    ensures !StepFails(s, step)
  {
    if step.StartSlice? && step.w < |s.workers| {
      assert CacheClean(s.workers[step.w], s.fibers, s.queue, s.workers);
    }
  }

  /** No worker that has exited runs again. */
  ghost predicate NoneReturns(workers: seq<Worker>, workers': seq<Worker>) {
    |workers| == |workers'| && forall w :: 0 <= w < |workers| && workers[w].phase.Exited? ==> workers'[w].phase.Exited?
  }

  lemma NamesPicked(queue: seq<Entry>, workers: seq<Worker>, workers': seq<Worker>, k: nat, f: nat)
    requires k < |queue| && !Names(queue, workers, f) && NoneReturns(workers, workers')
    ensures !Names(Without(queue, k), workers', f)
    ensures Live(queue[k].thread, workers) ==> queue[k].work != FiberWork(f)
  {
    var rest := Without(queue, k);
    assert forall i :: 0 <= i < |rest| ==> rest[i] == queue[if i < k then i else i + 1];
    assert forall thread :: Live(thread, workers') ==> Live(thread, workers);
  }

  lemma QueuedNames(queue: seq<Entry>, workers: seq<Worker>, workers': seq<Worker>, f: nat)
    requires !Names(queue, workers, f) && NoneReturns(workers, workers')
    ensures !Names(queue, workers', f)
    ensures forall e: Entry :: e.work != FiberWork(f) || !Live(e.thread, workers') ==> !Names(queue + [e], workers', f)
  {
    assert forall thread :: Live(thread, workers') ==> Live(thread, workers);
  }

  lemma TakeUpClean(s: Sched, w: nat, k: nat, v: nat)
    requires Inv(s) && CachesClean(s) && w < |s.workers| && s.workers[w].phase.Looping?
    requires Pick(s.queue, s.fibers, w) == Some(k) && v < |s.workers|
    requires s.queue[k].work.CbWork? && s.workers[w].cbFiber.Some? ==>
               s.workers[w].cbFiber.value < |s.fibers| && Resettable(s.fibers[s.workers[w].cbFiber.value])
    ensures var r := TakeUp(s.(queue := Without(s.queue, k)), w, s.queue[k]);
            |r.workers| == |s.workers| && CacheClean(r.workers[v], r.fibers, r.queue, r.workers)
  {
    assert CacheClean(s.workers[v], s.fibers, s.queue, s.workers);
    assert WorkerOk(s.workers[v], v, |s.fibers|);
    var r := TakeUp(s.(queue := Without(s.queue, k)), w, s.queue[k]);
    assert NoneReturns(s.workers, r.workers);
    if s.workers[v].cbFiber.Some? && Keeps(s.workers[v], s.workers[v].cbFiber.value) {
      NamesPicked(s.queue, s.workers, r.workers, k, s.workers[v].cbFiber.value);
    }
    if s.queue[k].work.CbWork? && s.workers[w].cbFiber.Some? && v != w {
      assert s.workers[v].cbFiber != s.workers[w].cbFiber;
    }
  }

  lemma StartClean(s: Sched, w: nat)
    requires Inv(s) && CachesClean(s) && w < |s.workers|
    ensures CachesClean(Start(s, w))
  {
    CleanNeverFails(s, StartSlice(w));
    assert WorkerOk(s.workers[w], w, |s.fibers|);
    assert CacheClean(s.workers[w], s.fibers, s.queue, s.workers);
    var r := Start(s, w);
    if s.workers[w].phase.Looping? && Pick(s.queue, s.fibers, w).Some? {
      forall v | 0 <= v < |r.workers| ensures CacheClean(r.workers[v], r.fibers, r.queue, r.workers) {
        TakeUpClean(s, w, Pick(s.queue, s.fibers, w).value, v);
      }
    } else {
      PhasesClean(s, r);
    }
  }

  /** Only phases outside a slice change. */
  lemma PhasesClean(s: Sched, r: Sched)
    requires CachesClean(s) && r.queue == s.queue && r.fibers == s.fibers && NoneReturns(s.workers, r.workers)
    requires forall v :: 0 <= v < |s.workers| ==>
               || r.workers[v] == s.workers[v]
               || (r.workers[v].cbFiber == s.workers[v].cbFiber && !r.workers[v].phase.InSlice?
                   && !s.workers[v].phase.InSlice?)
    ensures CachesClean(r)
  {
    forall v | 0 <= v < |r.workers| ensures CacheClean(r.workers[v], r.fibers, r.queue, r.workers) {
      assert CacheClean(s.workers[v], s.fibers, s.queue, s.workers);
      if s.workers[v].cbFiber.Some? && Keeps(s.workers[v], s.workers[v].cbFiber.value) {
        QueuedNames(s.queue, s.workers, r.workers, s.workers[v].cbFiber.value);
      }
    }
  }

  lemma EndClean(s: Sched, w: nat, how: Ending)
    requires Inv(s) && CachesClean(s) && w < |s.workers| && Disciplined(s, EndSlice(w, how))
    ensures CachesClean(End(s, w, how))
  {
    if s.workers[w].phase.InSlice? {
      assert WorkerOk(s.workers[w], w, |s.fibers|);
      var r := End(s, w, how);
      var g := s.workers[w].phase.fiber;
      RunnerStops(s.workers, s.fibers, w, s.workers[w].(phase := Looping), HOLD);
      forall v | 0 <= v < |r.workers| ensures CacheClean(r.workers[v], r.fibers, r.queue, r.workers) {
        assert CacheClean(s.workers[v], s.fibers, s.queue, s.workers);
        assert v != w && s.workers[v].cbFiber.Some? ==> s.workers[v].cbFiber != s.workers[w].cbFiber;
        if s.workers[v].cbFiber.Some? && !Names(s.queue, s.workers, s.workers[v].cbFiber.value) {
          QueuedNames(s.queue, s.workers, r.workers, s.workers[v].cbFiber.value);
        }
      }
    }
  }

  lemma StepClean(s: Sched, step: Step)
    requires Inv(s) && CachesClean(s) && Disciplined(s, step)
    ensures CachesClean(Apply(s, step))
  {
    match step
    case StartSlice(w) => if w < |s.workers| { StartClean(s, w); }
    case EndSlice(w, how) => if w < |s.workers| { EndClean(s, w, how); }
    case Schedule(work, thread) => ScheduleClean(s, work, thread);
    case LeaveIdle(w, done) => PhasesClean(s, Apply(s, step));
    case NewFiber =>
      var r := Apply(s, step);
      forall v | 0 <= v < |r.workers| ensures CacheClean(r.workers[v], r.fibers, r.queue, r.workers) {
        assert CacheClean(s.workers[v], s.fibers, s.queue, s.workers);
      }
  }

  lemma ScheduleClean(s: Sched, work: Work, thread: Option<nat>)
    requires Inv(s) && CachesClean(s) && Disciplined(s, Schedule(work, thread))
    ensures CachesClean(Apply(s, Schedule(work, thread)))
  {
    var r := Apply(s, Schedule(work, thread));
    forall v | 0 <= v < |r.workers| ensures CacheClean(r.workers[v], r.fibers, r.queue, r.workers) {
      assert CacheClean(s.workers[v], s.fibers, s.queue, s.workers);
      if s.workers[v].cbFiber.Some? && Keeps(s.workers[v], s.workers[v].cbFiber.value) {
        assert Kept(s.workers, s.workers[v].cbFiber.value);
        QueuedNames(s.queue, s.workers, r.workers, s.workers[v].cbFiber.value);
      }
    }
  }

  ghost predicate DisciplinedRun(s: Sched, steps: seq<Step>)
    decreases |steps|
  {
    steps == [] || (Disciplined(s, steps[0]) && DisciplinedRun(Apply(s, steps[0]), steps[1..]))
  }

  /** Over every disciplined run no assertion of `swapIn` or `reset` ever fails. */
  lemma {:induction false} DisciplinedRunsNeverFail(s: Sched, steps: seq<Step>)
    requires Inv(s) && CachesClean(s) && DisciplinedRun(s, steps)
    ensures !Run(s, steps).failed && Inv(Run(s, steps))
    decreases |steps|
  {
    if steps != [] {
      CleanNeverFails(s, steps[0]);
      StepKeeps(s, steps[0]);
      StepClean(s, steps[0]);
      DisciplinedRunsNeverFail(Apply(s, steps[0]), steps[1..]);
    }
  }

  /** So none fails over a disciplined run of any number of threads from the start. */
  lemma DisciplinedFromStart(threads: nat, steps: seq<Step>)
    requires DisciplinedRun(Init(threads), steps)
    ensures !Run(Init(threads), steps).failed && Inv(Run(Init(threads), steps))
  {
    InitOk(threads);
    DisciplinedRunsNeverFail(Init(threads), steps);
  }

  /** After a callback that scheduled its own fiber has returned: the fiber is kept and queued. */
  function SelfScheduled(): Sched {
    Sched([Entry(1, FiberWork(0), None)], [INIT], [Worker(Looping, Some(0), false), Worker(Looping, None, false)],
          0, 0, 2, [Discharge(Entry(0, CbWork(1), None), 0)], false)
  }

  lemma CallbackSchedulesItself()
    ensures Run(Init(2), [Schedule(CbWork(1), None), StartSlice(0), Schedule(FiberWork(0), None), EndSlice(0, Finish)])
              == SelfScheduled()
  {
    var idle := Worker(Looping, None, false);
    var e0 := Entry(0, CbWork(1), None);
    var steps := [Schedule(CbWork(1), None), StartSlice(0), Schedule(FiberWork(0), None), EndSlice(0, Finish)];
    var s1 := Sched([e0], [], [idle, idle], 0, 0, 1, [], false);
    assert Init(2).workers == [idle, idle];
    assert Apply(Init(2), steps[0]) == s1;
    var s2 := Sched([], [EXEC], [Worker(InSlice(e0, 0), Some(0), false), idle], 1, 0, 1, [], false);
    assert Without([e0], 0) == [];
    assert Apply(s1, steps[1]) == s2;
    var s3 := Enqueue(s2, FiberWork(0), None);
    assert End(s3, 0, Finish) == SelfScheduled();
    RunStep(Init(2), steps);
    RunStep(s1, steps[1..]);
    RunStep(s2, steps[2..]);
    RunStep(s3, steps[3..]);
  }

  /** Why the discipline is needed: another worker then runs the kept fiber, and the next callback
      trips the assertion of `Fiber::reset`. */
  lemma SelfScheduledCallbackFails()
    ensures Run(SelfScheduled(), [StartSlice(1), Schedule(CbWork(2), None), StartSlice(0)]).failed
  {
    var e1 := Entry(1, FiberWork(0), None);
    var s4, steps := SelfScheduled(), [StartSlice(1), Schedule(CbWork(2), None), StartSlice(0)];
    var s5 := Start(s4, 1);
    assert Without([e1], 0) == [];
    assert s5.queue == [] && s5.fibers == [EXEC] && s5.workers[0] == Worker(Looping, Some(0), false);
    var s6 := Enqueue(s5, CbWork(2), None);
    assert s6.queue == [Entry(2, CbWork(2), None)];
    assert Start(s6, 0).failed;
    RunStep(s4, steps);
    RunStep(s5, steps[1..]);
    RunStep(s6, steps[2..]);
  }

  lemma RunStep(s: Sched, steps: seq<Step>)
    requires steps != [] && !s.failed
    ensures Run(s, steps) == Run(Apply(s, steps[0]), steps[1..])
  {
  }
}
