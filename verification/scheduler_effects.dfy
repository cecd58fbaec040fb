/**
 What the steps of the scheduler do with fibers and entries, spelt out; and, over every run, that a fiber
 which gave way with work left is in the queue.
 */
module SchedulerEffects {
  import opened Wrappers
  import opened SchedulerState
  import opened SchedulerRuns

  /** An entry that worker `w` may take: not pinned elsewhere, and not of a fiber that runs. */
  predicate MayTake(s: Sched, w: nat, e: Entry) {
    && (e.thread == None || e.thread == Some(w))
    && (e.work.FiberWork? ==> e.work.fiber < |s.fibers| && s.fibers[e.work.fiber] != EXEC)
  }

  /** The place of the first entry worker `w` may take. */
  predicate FirstFor(s: Sched, w: nat, k: nat) {
    k < |s.queue| && MayTake(s, w, s.queue[k]) && forall i :: 0 <= i < k ==> !MayTake(s, w, s.queue[i])
  }

  lemma PickFirst(s: Sched, w: nat, k: nat)
    requires FirstFor(s, w, k)
    ensures Pick(s.queue, s.fibers, w) == Some(k)
  {
    assert Eligible(s.queue[k], s.fibers, w);
  }

  lemma PickNone(s: Sched, w: nat)
    requires forall i :: 0 <= i < |s.queue| ==> !MayTake(s, w, s.queue[i])
    ensures Pick(s.queue, s.fibers, w) == None
  {
    assert forall i :: 0 <= i < |s.queue| ==> !Eligible(s.queue[i], s.fibers, w);
  }

  // ---------------------------------------------------------------------------------------
  // Single steps
  // ---------------------------------------------------------------------------------------

  /** A scheduled entry goes to the back of the queue, with its pin, and touches nothing else. */
  lemma ScheduleAppends(s: Sched, work: Work, thread: Option<nat>)
    requires work.FiberWork? ==> work.fiber < |s.fibers|
    ensures var r := Apply(s, Schedule(work, thread));
            && r.queue == s.queue + [Entry(s.issued, work, thread)] && r.issued == s.issued + 1
            && r.fibers == s.fibers && r.workers == s.workers && r.discharged == s.discharged
  {
  }

  /** Worker `w`, and no other, now runs fiber `f` for entry `e`. */
  predicate RunsNow(s: Sched, r: Sched, w: nat, e: Entry, f: nat)
    requires w < |s.workers|
  {
    && |r.workers| == |s.workers| && r.workers == s.workers[w := r.workers[w]]
    && r.workers[w].phase == InSlice(e, f) && r.workers[w].idleDone == s.workers[w].idleDone
    && f < |r.fibers| && r.fibers[f] == EXEC && |s.fibers| <= |r.fibers|
    && (forall g :: 0 <= g < |s.fibers| && g != f ==> r.fibers[g] == s.fibers[g])
    && r.discharged == s.discharged
  }

  /** A worker takes the first entry that it may take out of the queue, leaving the others in order. An entry
      of a fiber that has ended is dropped; any other fiber is run. A callback runs on the fiber the
      worker keeps, or on a new one that it then keeps; and it trips an assert exactly when the fiber kept
      is on HOLD, running or READY. */
  lemma StartTakesFirst(s: Sched, w: nat, k: nat)
    requires Inv(s) && w < |s.workers| && s.workers[w].phase == Looping && FirstFor(s, w, k)
    ensures Apply(s, StartSlice(w)).failed
       <==> && s.queue[k].work.CbWork? && s.workers[w].cbFiber.Some? && s.workers[w].cbFiber.value < |s.fibers|
            && s.fibers[s.workers[w].cbFiber.value] in {HOLD, EXEC, READY}
    ensures var r, e := Apply(s, StartSlice(w)), s.queue[k];
            !r.failed ==>
              && r.queue == s.queue[..k] + s.queue[k + 1..] && r.issued == s.issued
              && (match e.work
                  case FiberWork(f) =>
                    if s.fibers[f] in {TERM, EXCEPT}
                    then r.fibers == s.fibers && r.workers == s.workers && r.discharged == s.discharged + [Discharge(e, w)]
                    else RunsNow(s, r, w, e, f) && |r.fibers| == |s.fibers| && r.workers[w].cbFiber == s.workers[w].cbFiber
                  case CbWork(_) =>
                    var f := if s.workers[w].cbFiber.Some? then s.workers[w].cbFiber.value else |s.fibers|;
                    RunsNow(s, r, w, e, f) && r.workers[w].cbFiber == Some(f)
                    && |r.fibers| == |s.fibers| + (if s.workers[w].cbFiber.Some? then 0 else 1))
  {
    PickFirst(s, w, k);
    assert WorkerOk(s.workers[w], w, |s.fibers|);
  }

  /** A worker that may take nothing goes idle, or leaves for good if its idle fiber has ended; one that
      comes back from its idle fiber looks at the queue again. */
  lemma IdlesWithoutWork(s: Sched, w: nat, done: bool)
    requires w < |s.workers|
    ensures var worker := s.workers[w];
            && (worker.phase == Looping && (forall i :: 0 <= i < |s.queue| ==> !MayTake(s, w, s.queue[i])) ==>
                  Apply(s, StartSlice(w)) ==
                    if worker.idleDone then s.(workers := s.workers[w := worker.(phase := Exited)])
                    else s.(workers := s.workers[w := worker.(phase := InIdle)], idle := s.idle + 1))
            && (worker.phase == InIdle ==>
                  Apply(s, LeaveIdle(w, done)) ==
                    s.(workers := s.workers[w := Worker(Looping, worker.cbFiber, done)], idle := s.idle - 1))
  {
    if forall i :: 0 <= i < |s.queue| ==> !MayTake(s, w, s.queue[i]) {
      PickNone(s, w);
    }
  }

  /** The state a fiber is left in. */
  predicate LeftAs(state: FiberState, how: Ending, callback: bool) {
    match how
    case YieldReady => state == READY
    case YieldHold => state == HOLD
    case Finish => state == if callback then INIT else TERM
    case Throw => state == if callback then INIT else EXCEPT
  }

  /** A slice that ends: the entry is discharged and the worker looks at the queue again. A fiber that gave
      way with work left is READY and goes to the back of the queue, unpinned; one that waits is on HOLD and
      one that has ended is TERM or EXCEPT, and then the queue stays as it is. The fiber of a callback that
      ended is fresh again and stays with its worker; of one that did not, the worker lets go. */
  lemma EndSettles(s: Sched, w: nat, how: Ending)
    requires Inv(s) && w < |s.workers| && s.workers[w].phase.InSlice?
    ensures var r, e, f := Apply(s, EndSlice(w, how)), s.workers[w].phase.entry, s.workers[w].phase.fiber;
            && f < |s.fibers| == |r.fibers| && LeftAs(r.fibers[f], how, e.work.CbWork?)
            && (forall g :: 0 <= g < |s.fibers| && g != f ==> r.fibers[g] == s.fibers[g])
            && (if how == YieldReady
                then r.queue == s.queue + [Entry(s.issued, FiberWork(f), None)] && r.issued == s.issued + 1
                else r.queue == s.queue && r.issued == s.issued)
            && r.discharged == s.discharged + [Discharge(e, w)] && r.active == s.active - 1
            && r.workers == s.workers[w := r.workers[w]]
            && r.workers[w] == Worker(Looping, if e.work.CbWork? && how in {YieldReady, YieldHold} then None
                                               else s.workers[w].cbFiber, s.workers[w].idleDone)
  {
    assert WorkerOk(s.workers[w], w, |s.fibers|);
  }

  // ---------------------------------------------------------------------------------------
  // No READY fiber is forgotten
  // ---------------------------------------------------------------------------------------

  predicate Waits(queue: seq<Entry>, f: nat) {
    exists i :: 0 <= i < |queue| && queue[i].work == FiberWork(f) && queue[i].thread == None
  }

  ghost predicate ReadyWaits(s: Sched) {
    forall f :: 0 <= f < |s.fibers| && s.fibers[f] == READY ==> Waits(s.queue, f)
  }

  lemma WaitsBehind(queue: seq<Entry>, e: Entry, f: nat)
    requires Waits(queue, f) || (e.work == FiberWork(f) && e.thread == None)
    ensures Waits(queue + [e], f)
  {
    var more := queue + [e];
    if Waits(queue, f) {
      var i :| 0 <= i < |queue| && queue[i].work == FiberWork(f) && queue[i].thread == None;
      assert more[i] == queue[i];
    } else {
      assert more[|queue|] == e;
    }
  }

  lemma WaitsBeside(queue: seq<Entry>, k: nat, f: nat)
    requires k < |queue| && queue[k].work != FiberWork(f) && Waits(queue, f)
    ensures Waits(Without(queue, k), f)
  {
    var i :| 0 <= i < |queue| && queue[i].work == FiberWork(f) && queue[i].thread == None;
    assert Without(queue, k)[if i < k then i else i - 1] == queue[i];
  }

  lemma StartReady(s: Sched, w: nat)
    requires Inv(s) && ReadyWaits(s) && w < |s.workers| && !Start(s, w).failed
    ensures ReadyWaits(Start(s, w))
  {
    var r, p := Start(s, w), Pick(s.queue, s.fibers, w);
    if s.workers[w].phase.Looping? && p.Some? {
      var k := p.value;
      assert WorkerOk(s.workers[w], w, |s.fibers|);
      forall f | 0 <= f < |r.fibers| && r.fibers[f] == READY ensures Waits(r.queue, f) {
        assert f < |s.fibers| && s.fibers[f] == READY;
        WaitsBeside(s.queue, k, f);
      }
    }
  }

  lemma StepReady(s: Sched, step: Step)
    requires Inv(s) && ReadyWaits(s) && !Apply(s, step).failed
    ensures ReadyWaits(Apply(s, step))
  {
    match step
    case StartSlice(w) => if w < |s.workers| { StartReady(s, w); }
    case EndSlice(w, how) =>
      if w < |s.workers| && s.workers[w].phase.InSlice? {
        EndSettles(s, w, how);
        var r, g := Apply(s, step), s.workers[w].phase.fiber;
        forall f | 0 <= f < |r.fibers| && r.fibers[f] == READY ensures Waits(r.queue, f) {
          if how == YieldReady {
            WaitsBehind(s.queue, Entry(s.issued, FiberWork(g), None), f);
          }
        }
      }
    case Schedule(work, thread) =>
      var r := Apply(s, step);
      forall f | 0 <= f < |r.fibers| && r.fibers[f] == READY ensures Waits(r.queue, f) {
        if r.queue != s.queue {
          WaitsBehind(s.queue, Entry(s.issued, work, thread), f);
        }
      }
    case NewFiber =>
    case LeaveIdle(_, _) =>
  }

  lemma {:induction false} RunReady(s: Sched, steps: seq<Step>)
    requires Inv(s) && ReadyWaits(s) && !Run(s, steps).failed
    ensures ReadyWaits(Run(s, steps))
    decreases |steps|
  {
    if steps != [] {
      StepKeeps(s, steps[0]);
      assert !Apply(s, steps[0]).failed;
      StepReady(s, steps[0]);
      RunReady(Apply(s, steps[0]), steps[1..]);
    }
  }

  /** Over every interleaving, a fiber that gave way with work left has an entry in the queue that any worker
      may take, until one does. */
  lemma ReadyFibersWait(threads: nat, steps: seq<Step>, f: nat)
    requires var s := Run(Init(threads), steps); !s.failed && f < |s.fibers| && s.fibers[f] == READY
    ensures Waits(Run(Init(threads), steps).queue, f)
  {
    InitOk(threads);
    RunReady(Init(threads), steps);
  }
}
