/**
 The fiber scheduler: a shared queue, worker threads, and fibers that run in slices. A slice is two
 atomic steps, `Start` (pick an entry and swap its fiber in) and `End` (the fiber yields or finishes
 and the worker does its bookkeeping). `Run` is the state after any interleaving of such steps.
 */
module SchedulerState {
  import opened Wrappers

  datatype FiberState = INIT | HOLD | EXEC | TERM | READY | EXCEPT

  datatype Work = FiberWork(fiber: nat) | CbWork(cb: nat)

  /** A queue entry; `thread` is None for the source's -1. `serial` numbers the entries ever queued. */
  datatype Entry = Entry(serial: nat, work: Work, thread: Option<nat>)

  datatype Phase = Looping | InSlice(entry: Entry, fiber: nat) | InIdle | Exited

  /** One worker thread in `Scheduler::run`, with its cached callback fiber. */
  datatype Worker = Worker(phase: Phase, cbFiber: Option<nat>, idleDone: bool)

  /** An entry taken off the queue, and the worker that took it. */
  datatype Discharge = Discharge(entry: Entry, worker: nat)

  datatype Sched = Sched(
    queue: seq<Entry>,
    fibers: seq<FiberState>,
    workers: seq<Worker>,
    active: int,
    idle: int,
    issued: nat,
    discharged: seq<Discharge>,
    failed: bool)

  /** How a slice ends: the fiber yields one way or the other, returns, or throws. */
  datatype Ending = YieldReady | YieldHold | Finish | Throw

  predicate Ended(f: FiberState) {
    f == TERM || f == EXCEPT
  }

  /** The assertion of `Fiber::reset`. */
  predicate Resettable(f: FiberState) {
    f == TERM || f == EXCEPT || f == INIT
  }

  // ---------------------------------------------------------------------------------------
  // The queue
  // ---------------------------------------------------------------------------------------

  predicate Eligible(e: Entry, fibers: seq<FiberState>, w: nat) {
    && (e.thread.None? || e.thread.value == w)
    && (e.work.CbWork? || (e.work.fiber < |fibers| && fibers[e.work.fiber] != EXEC))
  }

  /** The scan of the queue: the first entry this worker may take. */
  function Pick(queue: seq<Entry>, fibers: seq<FiberState>, w: nat): (r: Option<nat>)
    ensures r.Some? ==> r.value < |queue| && Eligible(queue[r.value], fibers, w)
    ensures r.Some? ==> forall i :: 0 <= i < r.value ==> !Eligible(queue[i], fibers, w)
    ensures r.None? ==> forall i :: 0 <= i < |queue| ==> !Eligible(queue[i], fibers, w)
  {
    if queue == [] then None
    else if Eligible(queue[0], fibers, w) then Some(0)
    else match Pick(queue[1..], fibers, w)
      case None => None
      case Some(k) => Some(k + 1)
  }

  function Without(queue: seq<Entry>, k: nat): seq<Entry>
    requires k < |queue|
  {
    queue[..k] + queue[k + 1..]
  }

  function Enqueue(s: Sched, work: Work, thread: Option<nat>): Sched {
    s.(queue := s.queue + [Entry(s.issued, work, thread)], issued := s.issued + 1)
  }

  // ---------------------------------------------------------------------------------------
  // The steps
  // ---------------------------------------------------------------------------------------

  /** Swap fiber `f` in on worker `w` for entry `e`; the assertion of `swapIn` may fail. */
  function SwapIn(s: Sched, w: nat, e: Entry, f: nat): Sched
    requires w < |s.workers| && f < |s.fibers|
  {
    if s.fibers[f] == EXEC then s.(failed := true)
    else s.(fibers := s.fibers[f := EXEC],
            workers := s.workers[w := s.workers[w].(phase := InSlice(e, f))],
            active := s.active + 1)
  }

  /** Entry `e`, already off the queue, is taken up by worker `w`. */
  function TakeUp(s: Sched, w: nat, e: Entry): Sched
    requires w < |s.workers| && (e.work.FiberWork? ==> e.work.fiber < |s.fibers|)
  {
    match e.work
    case FiberWork(f) =>
      if Ended(s.fibers[f]) then s.(discharged := s.discharged + [Discharge(e, w)]) else SwapIn(s, w, e, f)
    case CbWork(_) =>
      match s.workers[w].cbFiber
      case Some(c) =>
        if c >= |s.fibers| || !Resettable(s.fibers[c]) then s.(failed := true)
        else SwapIn(s.(fibers := s.fibers[c := INIT]), w, e, c)
      case None =>
        var c := |s.fibers|;
        var worker := s.workers[w].(cbFiber := Some(c));
        SwapIn(s.(fibers := s.fibers + [INIT], workers := s.workers[w := worker]), w, e, c)
  }

  /** One turn of the loop of `run` up to the moment a fiber has control. */
  function Start(s: Sched, w: nat): Sched
    requires w < |s.workers|
  {
    if !s.workers[w].phase.Looping? then s
    else match Pick(s.queue, s.fibers, w)
      case Some(k) => TakeUp(s.(queue := Without(s.queue, k)), w, s.queue[k])
      case None =>
        if s.workers[w].idleDone then s.(workers := s.workers[w := s.workers[w].(phase := Exited)])
        else s.(workers := s.workers[w := s.workers[w].(phase := InIdle)], idle := s.idle + 1)
  }

  /** The fiber gives control back and the worker settles the slice. */
  function End(s: Sched, w: nat, how: Ending): Sched
    requires w < |s.workers|
  {
    match s.workers[w].phase
    case InSlice(e, f) =>
      if f >= |s.fibers| then s
      else
        var worker := s.workers[w].(phase := Looping);
        var kept := s.(active := s.active - 1, discharged := s.discharged + [Discharge(e, w)]);
        (match how
         case YieldReady =>
           Enqueue(kept.(fibers := s.fibers[f := READY], workers := s.workers[w := Settled(worker, e, false)]),
                   FiberWork(f), None)
         case YieldHold =>
           kept.(fibers := s.fibers[f := HOLD], workers := s.workers[w := Settled(worker, e, false)])
         case _ =>
           var state := if e.work.CbWork? then INIT else if how == Finish then TERM else EXCEPT;
           kept.(fibers := s.fibers[f := state], workers := s.workers[w := Settled(worker, e, true)]))
    case _ => s
  }

  /** A callback fiber that yielded now belongs to others; one that ended is kept for reuse. */
  function Settled(worker: Worker, e: Entry, ended: bool): Worker {
    if e.work.CbWork? && !ended then worker.(cbFiber := None) else worker
  }

  function EndIdle(s: Sched, w: nat, done: bool): Sched
    requires w < |s.workers|
  {
    if !s.workers[w].phase.InIdle? then s
    else s.(workers := s.workers[w := s.workers[w].(phase := Looping, idleDone := done)], idle := s.idle - 1)
  }

  datatype Step =
    | Schedule(work: Work, thread: Option<nat>)
    | NewFiber
    | StartSlice(w: nat)
    | EndSlice(w: nat, how: Ending)
    | LeaveIdle(w: nat, done: bool)

  function Apply(s: Sched, step: Step): Sched {
    match step
    case Schedule(work, thread) =>
      if work.FiberWork? && work.fiber >= |s.fibers| then s else Enqueue(s, work, thread)
    case NewFiber => s.(fibers := s.fibers + [INIT])
    case StartSlice(w) => if w < |s.workers| then Start(s, w) else s
    case EndSlice(w, how) => if w < |s.workers| then End(s, w, how) else s
    case LeaveIdle(w, done) => if w < |s.workers| then EndIdle(s, w, done) else s
  }

  function Init(threads: nat): Sched {
    Sched([], [], seq(threads, i => Worker(Looping, None, false)), 0, 0, 0, [], false)
  }

  /** The state a run of steps leads to from `s`; a failed assertion ends the process. */
  function Run(s: Sched, steps: seq<Step>): Sched
    decreases |steps|
  {
    if steps == [] || s.failed then s else Run(Apply(s, steps[0]), steps[1..])
  }
}
