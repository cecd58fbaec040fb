/**
 The scheduler as the object whose methods update the queue, the fibers and the counters in place:
 the body of the loop of `run`, cut where a fiber has control. Each method is proved to have the
 effect of one step of `SchedulerState`.
 */
module Schedulers {
  import opened Wrappers
  import opened SchedulerState

  class Scheduler {
    var queue: seq<Entry>
    var fibers: seq<FiberState>
    var workers: seq<Worker>
    var active: int
    var idle: int
    var issued: nat
    var discharged: seq<Discharge>
    var failed: bool

    function State(): Sched
      reads this
    {
      Sched(queue, fibers, workers, active, idle, issued, discharged, failed)
    }

    constructor (threads: nat)
      ensures State() == Init(threads)
    {
      queue, fibers, workers := [], [], seq(threads, i => Worker(Looping, None, false));
      active, idle, issued, discharged, failed := 0, 0, 0, [], false;
    }

    /** `scheduleNoLock`: the caller is told to wake a worker iff the queue was empty. */
    method ScheduleNoLock(work: Work, thread: Option<nat>) returns (needTickle: bool)
      modifies this`queue, this`issued
      ensures State() == Enqueue(old(State()), work, thread)
      ensures needTickle <==> old(queue) == []
    {
      needTickle := queue == [];
      queue := queue + [Entry(issued, work, thread)];
      issued := issued + 1;
    }

    /** The scan under the lock: the first entry worker `w` may take, and whether an entry pinned to
        another thread was passed over on the way. */
    method Scan(w: nat) returns (found: Option<nat>, tickleMe: bool)
      ensures found == Pick(queue, fibers, w)
      ensures tickleMe <==> exists i :: 0 <= i < (if found.Some? then found.value else |queue|)
                                        && queue[i].thread.Some? && queue[i].thread.value != w
    {
      tickleMe := false;
      var it := 0;
      while it < |queue|
        invariant 0 <= it <= |queue|
        invariant forall i :: 0 <= i < it ==> !Eligible(queue[i], fibers, w)
        invariant tickleMe <==> exists i :: 0 <= i < it && queue[i].thread.Some? && queue[i].thread.value != w
      {
        if queue[it].thread.Some? && queue[it].thread.value != w {
          tickleMe := true;
        } else if queue[it].work.FiberWork?
                  && (queue[it].work.fiber >= |fibers| || fibers[queue[it].work.fiber] == EXEC) {
          // the fiber is running somewhere: leave the entry for later
        } else {
          return Some(it), tickleMe;
        }
        it := it + 1;
      }
      return None, tickleMe;
    }

    method FiberSwapIn(w: nat, e: Entry, f: nat)
      requires w < |workers| && f < |fibers|
      modifies this
      ensures State() == SwapIn(old(State()), w, e, f)
    {
      if fibers[f] == EXEC {
        failed := true;
        return;
      }
      active := active + 1;
      fibers := fibers[f := EXEC];
      workers := workers[w := workers[w].(phase := InSlice(e, f))];
    }

    /** From the top of the loop to the moment a fiber of the entry has control; another worker is tickled
        iff an entry pinned to another thread was passed over on the way to the first one taken. */
    method StartTurn(w: nat) returns (tickled: bool)
      requires w < |workers|
      requires forall i :: 0 <= i < |queue| && queue[i].work.FiberWork? ==> queue[i].work.fiber < |fibers|
      modifies this
      ensures State() == Start(old(State()), w)
      ensures tickled <==> (&& old(workers)[w].phase == Looping
                            && exists i :: 0 <= i < |old(queue)| && old(queue)[i].thread.Some?
                                           && old(queue)[i].thread.value != w
                                           && forall j :: 0 <= j < i ==> !Eligible(old(queue)[j], old(fibers), w))
    {
      if workers[w].phase != Looping {
        return false;
      }
      var found;
      found, tickled := Scan(w);
      if found.None? {
        if workers[w].idleDone {
          workers := workers[w := workers[w].(phase := Exited)];
        } else {
          idle := idle + 1;
          workers := workers[w := workers[w].(phase := InIdle)];
        }
        return;
      }
      var ft := queue[found.value];
      queue := queue[..found.value] + queue[found.value + 1..];
      match ft.work {
        case FiberWork(f) =>
          if Ended(fibers[f]) {
            discharged := discharged + [Discharge(ft, w)];
          } else {
            FiberSwapIn(w, ft, f);
          }
        case CbWork(_) => StartCallback(w, ft);
      }
    }

    /** Reuse the cached callback fiber, or make one, and give it control. */
    method StartCallback(w: nat, ft: Entry)
      requires w < |workers| && ft.work.CbWork?
      modifies this
      ensures State() == TakeUp(old(State()), w, ft)
    {
      match workers[w].cbFiber {
        case Some(c) =>
          if c >= |fibers| || !Resettable(fibers[c]) {
            failed := true;
            return;
          }
          fibers := fibers[c := INIT];
          FiberSwapIn(w, ft, c);
        case None =>
          var c := |fibers|;
          fibers := fibers + [INIT];
          workers := workers[w := workers[w].(cbFiber := Some(c))];
          FiberSwapIn(w, ft, c);
      }
    }

    /** The bookkeeping after the fiber of worker `w` gave control back in the given way; a worker is tickled
        iff the fiber is put back into an empty queue. */
    method EndTurn(w: nat, how: Ending) returns (tickled: bool)
      requires w < |workers| && workers[w].phase.InSlice? && workers[w].phase.fiber < |fibers|
      modifies this
      ensures State() == End(old(State()), w, how)
      ensures tickled <==> how == YieldReady && old(queue) == []
    {
      tickled := false;
      var e, f := workers[w].phase.entry, workers[w].phase.fiber;
      var left := match how
        case YieldReady => READY
        case YieldHold => HOLD
        case Finish => TERM
        case Throw => EXCEPT;
      active := active - 1;
      discharged := discharged + [Discharge(e, w)];
      workers := workers[w := workers[w].(phase := Looping)];
      fibers := fibers[f := left];
      if left == READY {
        tickled := ScheduleNoLock(FiberWork(f), None);
      }
      if e.work.CbWork? {
        if Ended(left) {
          fibers := fibers[f := INIT];
        } else {
          workers := workers[w := workers[w].(cbFiber := None)];
        }
      }
    }

    method LeaveIdleFiber(w: nat, done: bool)
      requires w < |workers| && workers[w].phase.InIdle?
      modifies this
      ensures State() == EndIdle(old(State()), w, done)
    {
      idle := idle - 1;
      workers := workers[w := workers[w].(phase := Looping, idleDone := done)];
    }
  }
}
