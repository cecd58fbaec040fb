/**
 The discipline that keeps the asserts of `swapIn` and `reset` is exact: whoever breaks it leaves a state
 from which some further run trips one.
 */
module SchedulerDiscipline {
  import opened Wrappers
  import opened SchedulerState
  import opened SchedulerRuns

  lemma {:induction false} RunJoins(s: Sched, a: seq<Step>, b: seq<Step>)
    ensures Run(s, a + b) == Run(Run(s, a), b)
    decreases |a|
  {
    if a == [] {
      assert a + b == b;
    } else if s.failed {
      assert Run(s, a + b) == s;
    } else {
      assert (a + b)[1..] == a[1..] + b;
      RunJoins(Apply(s, a[0]), a[1..], b);
    }
  }

  lemma RunOne(s: Sched, step: Step)
    requires !s.failed
    ensures Run(s, [step]) == Apply(s, step)
  {
    assert [step][1..] == [];
  }

  /** Going on from where some steps lead. */
  lemma FailsOn(s: Sched, a: seq<Step>, r: Sched, b: seq<Step>) returns (steps: seq<Step>)
    requires r == Run(s, a) && Run(r, b).failed
    ensures Run(s, steps).failed
  {
    steps := a + b;
    RunJoins(s, a, b);
  }

  // ---------------------------------------------------------------------------------------
  // A worker's turn
  // ---------------------------------------------------------------------------------------

  /** Everything but what worker `v` does is as before: the other workers, and the fibers nobody ran. */
  ghost predicate Apart(s: Sched, r: Sched, v: nat) {
    && Inv(r) && v < |r.workers| == |s.workers| && |s.fibers| <= |r.fibers|
    && (forall u :: 0 <= u < |s.workers| && u != v ==> r.workers[u] == s.workers[u])
  }

  /** Worker `v` is brought back to its loop. */
  lemma BackToLoop(s: Sched, v: nat) returns (steps: seq<Step>, r: Sched)
    requires Inv(s) && v < |s.workers| && !s.workers[v].phase.Exited?
    ensures r == Run(s, steps) && Apart(s, r, v) && r.workers[v].phase.Looping? && r.queue == s.queue
    ensures forall f :: 0 <= f < |s.fibers| && s.fibers[f] != EXEC ==> r.fibers[f] == s.fibers[f]
    ensures || (s.workers[v].phase.InSlice? && s.workers[v].phase.entry.work.CbWork?)
            || r.workers[v].cbFiber == s.workers[v].cbFiber
  {
    steps, r := [], s;
    if !s.workers[v].phase.Looping? {
      var step := if s.workers[v].phase.InSlice? then EndSlice(v, YieldHold) else LeaveIdle(v, false);
      steps, r := [step], Apply(s, step);
      RunOne(s, step);
      StepKeeps(s, step);
      assert WorkerOk(s.workers[v], v, |s.fibers|);
      if s.workers[v].phase.InSlice? {
        RunnerStops(s.workers, s.fibers, v, s.workers[v].(phase := Looping), HOLD);
      }
    }
  }

  /** How the slice of a turn ends here: a callback returns, a fiber is put on hold. */
  function Ends(e: Entry): Ending {
    if e.work.CbWork? then Finish else YieldHold
  }

  /** The fiber that runs entry `e` on a worker. */
  function RunsOn(e: Entry, worker: Worker, fibers: nat): nat {
    match e.work
    case FiberWork(f) => f
    case CbWork(_) => if worker.cbFiber.Some? then worker.cbFiber.value else fibers
  }

  /** Worker `v` takes entry `k`: nothing more happens if its fiber has ended, else the fiber runs. */
  lemma Takes(s: Sched, v: nat, k: nat) returns (r: Sched)
    requires Inv(s) && v < |s.workers| && s.workers[v].phase.Looping? && Pick(s.queue, s.fibers, v) == Some(k)
    requires !Fails(s, v)
    ensures r == Apply(s, StartSlice(v)) && Inv(r) && r.queue == Without(s.queue, k) && |s.fibers| <= |r.fibers|
    ensures var e, worker := s.queue[k], s.workers[v];
            var f := RunsOn(e, worker, |s.fibers|);
            if e.work.FiberWork? && Ended(s.fibers[f]) then r.workers == s.workers && r.fibers == s.fibers
            else
              && f < |r.fibers| && (forall g :: 0 <= g < |s.fibers| && g != f ==> r.fibers[g] == s.fibers[g])
              && r.workers == s.workers[v := Worker(InSlice(e, f), if e.work.CbWork? then Some(f) else worker.cbFiber,
                                                    worker.idleDone)]
  {
    r := Apply(s, StartSlice(v));
    StepKeeps(s, StartSlice(v));
    assert WorkerOk(s.workers[v], v, |s.fibers|);
  }

  /** And gives control back. */
  lemma GivesBack(s: Sched, v: nat) returns (r: Sched)
    requires Inv(s) && v < |s.workers| && s.workers[v].phase.InSlice?
    ensures var e, f := s.workers[v].phase.entry, s.workers[v].phase.fiber;
            && r == Apply(s, EndSlice(v, Ends(e))) && Inv(r) && r.queue == s.queue && f < |s.fibers|
            && r.workers == s.workers[v := s.workers[v].(phase := Looping)]
            && r.fibers == s.fibers[f := if e.work.CbWork? then INIT else HOLD]
  {
    var step := EndSlice(v, Ends(s.workers[v].phase.entry));
    r := Apply(s, step);
    StepKeeps(s, step);
    assert WorkerOk(s.workers[v], v, |s.fibers|);
  }

  /** Both, in one turn. */
  lemma Turn(s: Sched, v: nat, k: nat) returns (steps: seq<Step>, r: Sched)
    requires Inv(s) && v < |s.workers| && s.workers[v].phase.Looping? && Pick(s.queue, s.fibers, v) == Some(k)
    requires !Fails(s, v)
    ensures r == Run(s, steps) && Apart(s, r, v) && r.workers[v].phase.Looping? && r.queue == Without(s.queue, k)
    ensures s.workers[v].cbFiber.Some? ==> r.workers[v].cbFiber == s.workers[v].cbFiber
    ensures forall f :: 0 <= f < |s.fibers| && s.queue[k].work != FiberWork(f) ==>
              r.fibers[f] == (if s.queue[k].work.CbWork? && s.workers[v].cbFiber == Some(f) then INIT else s.fibers[f])
    ensures s.queue[k].work.FiberWork? && !Ended(s.fibers[s.queue[k].work.fiber]) ==>
              r.fibers[s.queue[k].work.fiber] == HOLD
  {
    r := Takes(s, v, k);
    RunOne(s, StartSlice(v));
    steps := [StartSlice(v)];
    if r.workers[v].phase.InSlice? {
      var s1, step := r, EndSlice(v, Ends(s.queue[k]));
      r := GivesBack(s1, v);
      RunOne(s1, step);
      RunJoins(s, steps, [step]);
      steps := steps + [step];
    }
  }

  lemma StillThere(queue: seq<Entry>, k: nat, i: nat) returns (j: nat)
    requires k < |queue| && i < |queue| && i != k
    ensures j < |Without(queue, k)| && Without(queue, k)[j] == queue[i]
  {
    j := if i < k then i else i - 1;
  }

  // ---------------------------------------------------------------------------------------
  // To the failure
  // ---------------------------------------------------------------------------------------

  /** Worker `w` keeps a fiber that is on hold, and a callback it may take is queued at `i`. */
  lemma {:induction false} HeldFails(s: Sched, w: nat, f: nat, i: nat) returns (steps: seq<Step>)
    requires Inv(s) && w < |s.workers| && s.workers[w].phase.Looping? && s.workers[w].cbFiber == Some(f)
    requires f < |s.fibers| && s.fibers[f] == HOLD
    requires i < |s.queue| && s.queue[i].work.CbWork? && s.queue[i].thread == Some(w)
    ensures Run(s, steps).failed
    decreases |s.queue|
  {
    assert Eligible(s.queue[i], s.fibers, w);
    var k := Pick(s.queue, s.fibers, w).value;
    if s.queue[k].work.CbWork? {
      StepKeeps(s, StartSlice(w));
      RunOne(s, StartSlice(w));
      steps := [StartSlice(w)];
    } else {
      var a, r := Turn(s, w, k);
      var j := StillThere(s.queue, k, i);
      var b := HeldFails(r, w, f, j);
      steps := FailsOn(s, a, r, b);
    }
  }

  /** Worker `w` keeps a fiber that is on hold: give it a callback. */
  lemma HoldsKept(s: Sched, w: nat, f: nat) returns (steps: seq<Step>)
    requires Inv(s) && w < |s.workers| && Keeps(s.workers[w], f) && f < |s.fibers| && s.fibers[f] == HOLD
    ensures Run(s, steps).failed
  {
    assert WorkerOk(s.workers[w], w, |s.fibers|);
    var a, r := BackToLoop(s, w);
    var call := Schedule(CbWork(0), Some(w));
    StepKeeps(r, call);
    RunOne(r, call);
    var b := HeldFails(Apply(r, call), w, f, |r.queue|);
    var c := FailsOn(r, [call], Apply(r, call), b);
    steps := FailsOn(s, a, r, c);
  }

  /** Worker `w` keeps a fresh fiber, and an entry for it that worker `v` may take is queued at `i`. */
  lemma {:induction false} QueuedFails(s: Sched, v: nat, w: nat, f: nat, i: nat) returns (steps: seq<Step>)
    requires Inv(s) && v < |s.workers| && w < |s.workers| && s.workers[v].phase.Looping? && Keeps(s.workers[w], f)
    requires f < |s.fibers| && s.fibers[f] == INIT
    requires i < |s.queue| && s.queue[i].work == FiberWork(f) && PinOk(s.queue[i], v)
    ensures Run(s, steps).failed
    decreases |s.queue|
  {
    assert Eligible(s.queue[i], s.fibers, v);
    var k := Pick(s.queue, s.fibers, v).value;
    if Fails(s, v) {
      StepKeeps(s, StartSlice(v));
      RunOne(s, StartSlice(v));
      steps := [StartSlice(v)];
    } else {
      var a, r := Turn(s, v, k);
      var b;
      if s.queue[k].work == FiberWork(f) {
        b := HoldsKept(r, w, f);
      } else {
        assert v != w && s.workers[v].cbFiber.Some? ==> s.workers[v].cbFiber != s.workers[w].cbFiber;
        var j := StillThere(s.queue, k, i);
        b := QueuedFails(r, v, w, f, j);
      }
      steps := FailsOn(s, a, r, b);
    }
  }

  /** A kept and fresh fiber with a live entry: some run fails. */
  lemma BreachFails(s: Sched, w: nat, f: nat, i: nat) returns (steps: seq<Step>)
    requires Inv(s) && w < |s.workers| && Keeps(s.workers[w], f) && f < |s.fibers| && s.fibers[f] == INIT
    requires i < |s.queue| && s.queue[i].work == FiberWork(f) && Live(s.queue[i].thread, s.workers)
    ensures Run(s, steps).failed
  {
    var v := if s.queue[i].thread.None? then w else s.queue[i].thread.value;
    assert WorkerOk(s.workers[w], w, |s.fibers|);
    var a, r := BackToLoop(s, v);
    var b := QueuedFails(r, v, w, f, i);
    steps := FailsOn(s, a, r, b);
  }

  /** Whoever breaks the discipline in a state it was kept up to leaves one from which a run fails. */
  lemma BreachCanFail(s: Sched, step: Step) returns (more: seq<Step>)
    requires Inv(s) && CachesClean(s) && !Disciplined(s, step)
    ensures Run(s, [step] + more).failed
  {
    var r := Apply(s, step);
    CleanNeverFails(s, step);
    StepKeeps(s, step);
    RunOne(s, step);
    if step.Schedule? {
      var f := step.work.fiber;
      var w :| 0 <= w < |s.workers| && Keeps(s.workers[w], f);
      assert CacheClean(s.workers[w], s.fibers, s.queue, s.workers);
      more := BreachFails(r, w, f, |s.queue|);
    } else {
      var w, f := step.w, s.workers[step.w].phase.fiber;
      assert WorkerOk(s.workers[w], w, |s.fibers|);
      var i :| 0 <= i < |s.queue| && s.queue[i].work == FiberWork(f) && Live(s.queue[i].thread, s.workers);
      more := BreachFails(r, w, f, i);
    }
    RunJoins(s, [step], more);
  }

  lemma {:induction false} BreachIn(s: Sched, steps: seq<Step>) returns (k: nat, more: seq<Step>)
    requires Inv(s) && CachesClean(s) && !DisciplinedRun(s, steps)
    ensures k < |steps| && DisciplinedRun(s, steps[..k]) && Run(s, steps[..k + 1] + more).failed
    decreases |steps|
  {
    if !Disciplined(s, steps[0]) {
      k := 0;
      more := BreachCanFail(s, steps[0]);
      assert steps[..1] == [steps[0]];
    } else {
      CleanNeverFails(s, steps[0]);
      StepKeeps(s, steps[0]);
      StepClean(s, steps[0]);
      var n;
      n, more := BreachIn(Apply(s, steps[0]), steps[1..]);
      k := n + 1;
      assert (steps[..k + 1] + more)[1..] == steps[1..][..n + 1] + more;
      assert steps[..k][1..] == steps[1..][..n];
    }
  }

  /** The discipline is exact, for any number of threads: no assert fails over a run that keeps it, and after
      the first step that breaks it some further run trips one. */
  lemma DisciplineIsExact(threads: nat, steps: seq<Step>) returns (k: nat, more: seq<Step>)
    ensures DisciplinedRun(Init(threads), steps) ==> !Run(Init(threads), steps).failed
    ensures !DisciplinedRun(Init(threads), steps) ==>
              && k < |steps| && DisciplinedRun(Init(threads), steps[..k])
              && Run(Init(threads), steps[..k + 1] + more).failed
  {
    InitOk(threads);
    k, more := 0, [];
    if DisciplinedRun(Init(threads), steps) {
      DisciplinedFromStart(threads, steps);
    } else {
      k, more := BreachIn(Init(threads), steps);
    }
  }

  /** When the process is brought down: exactly when, at some step of the run, a worker picks a callback
      while the fiber it keeps is neither fresh nor ended. */
  lemma {:induction false} RunFailsIff(s: Sched, steps: seq<Step>)
    requires Inv(s)
    ensures Run(s, steps).failed <==> exists k :: 0 <= k < |steps| && StepFails(Run(s, steps[..k]), steps[k])
    decreases |steps|
  {
    if steps != [] {
      var r, rest := Apply(s, steps[0]), steps[1..];
      StepKeeps(s, steps[0]);
      assert Run(s, steps[..0]) == s;
      if !r.failed {
        RunFailsIff(r, rest);
        forall k | 0 <= k < |rest| ensures Run(s, steps[..k + 1]) == Run(r, rest[..k]) {
          assert steps[..k + 1][1..] == rest[..k];
        }
        if exists k :: 0 <= k < |rest| && StepFails(Run(r, rest[..k]), rest[k]) {
          var k :| 0 <= k < |rest| && StepFails(Run(r, rest[..k]), rest[k]);
          assert StepFails(Run(s, steps[..k + 1]), steps[k + 1]);
        }
        if exists k :: 0 <= k < |steps| && StepFails(Run(s, steps[..k]), steps[k]) {
          var k :| 0 <= k < |steps| && StepFails(Run(s, steps[..k]), steps[k]);
          assert StepFails(Run(r, rest[..k - 1]), rest[k - 1]);
        }
      } else {
        assert StepFails(Run(s, steps[..0]), steps[0]);
      }
    }
  }

  /** The same for every run from the start. */
  lemma FailsFromStartIff(threads: nat, steps: seq<Step>)
    ensures Run(Init(threads), steps).failed <==>
              exists k :: 0 <= k < |steps| && StepFails(Run(Init(threads), steps[..k]), steps[k])
  {
    InitOk(threads);
    RunFailsIff(Init(threads), steps);
  }
}
