/**
 What the steps of the hooked I/O call do in every reachable state, at whatever stage the calls are: who
 is queued and by what, that the timeout of a wait is never lost, and how a call came to its result.
 */
module HookEffects {
  import EventTable
  import opened HookedIo

  lemma {:induction false} QueuedInside(queue: seq<nat>, c: nat)
    ensures Queued(queue, c) == 0 <==> c !in queue
  {
    if queue != [] {
      var n := |queue| - 1;
      QueuedInside(queue[..n], c);
      assert queue == queue[..n] + [queue[n]];
    }
  }

  lemma {:induction false} LastStep(s: Io, steps: seq<Step>, r: Io) returns (p: Io)
    requires steps != [] && Reaches(s, steps, r)
    ensures Reaches(s, steps[..|steps| - 1], p)
    ensures Enabled(p, steps[|steps| - 1]) && r == Apply(p, steps[|steps| - 1])
    decreases |steps|
  {
    if |steps| == 1 {
      p := s;
      assert steps[1..] == [];
    } else {
      p := LastStep(Apply(s, steps[0]), steps[1..], r);
      assert steps[1..][..|steps| - 2] == steps[..|steps| - 1][1..];
    }
  }

  // ---------------------------------------------------------------------------------------
  // Who is woken
  // ---------------------------------------------------------------------------------------

  /** Slots, run queue and wakes are left alone. */
  predicate Quiet(s: Io, r: Io) {
    r.slots == s.slots && r.queue == s.queue && r.wakes == s.wakes
  }

  /** The fiber that waits in the slot of `key`, and is not queued yet, goes to the back of the run queue. */
  predicate Queues(s: Io, r: Io, key: Key)
    requires key in s.slots
  {
    var d := s.slots[key].call;
    && d < |s.calls| && d !in s.queue && s.calls[d].key == key && s.calls[d].stage in {Registered, Parked}
    && s.slots[key].round == s.calls[d].round
    && r.slots == s.slots - {key} && r.queue == s.queue + [d] && r.wakes == s.wakes + [s.slots[key]]
  }

  /** Who is found in a slot. */
  lemma SlotHolds(s: Io, key: Key, c: nat)
    requires Inv(s) && key in s.slots && c < |s.calls| && s.calls[c].key == key
    ensures s.slots[key].call < |s.calls|
    ensures s.slots[key].call == c <==> s.calls[c].stage in {Registered, Parked} && c !in s.queue
  {
    assert SlotOk(s, key) && PlacedOnce(s, c) && PlacedOnce(s, s.slots[key].call);
    QueuedInside(s.queue, c);
  }

  lemma WakeQueues(s: Io, key: Key)
    requires Inv(s) && key in s.slots
    ensures Queues(s, Wake(s, key), key)
  {
    var d := s.slots[key].call;
    assert SlotOk(s, key) && PlacedOnce(s, d);
    QueuedInside(s.queue, d);
  }

  /** A timeout callback that ends, whatever its call does meanwhile, queues a fiber exactly when no
      callback of that call ended before, something is armed in its slot, and the kernel lets it be
      cancelled. It is the fiber in that slot, and that one belongs to the call itself exactly when the
      call waits and has not been queued. Nothing else changes but the callback's own bookkeeping. */
  lemma FinishIff(steps: seq<Step>, s: Io, w: Wait, luck: bool)
    requires Reaches(Init(), steps, s) && Enabled(s, Finish(w, luck))
    ensures var r, key := Apply(s, Finish(w, luck)), s.calls[w.call].key;
            && r.calls == s.calls && r.timers == s.timers && r.handed == s.handed && r.running == s.running - {w}
            && !r.aborted
            && (if luck && !TimedOutIn(steps, w.call) && key in s.slots then Queues(s, r, key) else Quiet(s, r))
            && (key in s.slots ==>
                  (s.slots[key].call == w.call
                   <==> s.calls[w.call].stage in {Registered, Parked} && w.call !in s.queue))
  {
    ReachableOk(steps, s);
    RunMarks(Init(), steps, s, w.call);
    var key := s.calls[w.call].key;
    if key in s.slots {
      WakeQueues(s, key);
      SlotHolds(s, key, w.call);
    }
  }

  /** Readiness or cancellation of a descriptor queues the fiber that waits there, if there is one. */
  lemma FireQueues(steps: seq<Step>, s: Io, key: Key)
    requires Reaches(Init(), steps, s) && Enabled(s, Fire(key))
    ensures var r := Apply(s, Fire(key));
            && r == s.(slots := r.slots, queue := r.queue, wakes := r.wakes)
            && (if key in s.slots then Queues(s, r, key) else Quiet(s, r))
  {
    ReachableOk(steps, s);
    if key in s.slots {
      WakeQueues(s, key);
    }
  }

  /** No other step queues a fiber or makes a wake; only a resumption takes one out, and it takes the one
      that then runs on. */
  lemma OthersQueueNobody(s: Io, step: Step)
    requires Enabled(s, step) && !step.Fire? && !step.Finish?
    ensures var r := Apply(s, step);
            && r.wakes == s.wakes
            && (if step.Resume? then
                  && s.queue == r.queue[..step.i] + [s.queue[step.i]] + r.queue[step.i..]
                  && r.calls[s.queue[step.i]].stage == Resumed
                else r.queue == s.queue)
  {
    if step.Resume? {
      var r := Apply(s, step);
      assert r.queue[..step.i] == s.queue[..step.i] && r.queue[step.i..] == s.queue[step.i + 1..];
    }
  }

  /** A registration that is refused returns at once and disarms the timeout; one that is accepted puts the
      call, in its current wait, into the slot; one that finds the slot taken brings the process down. */
  lemma RegisterExact(s: Io, c: nat, luck: bool)
    requires Enabled(s, Register(c, luck))
    ensures var r, key, w := Apply(s, Register(c, luck)), s.calls[c].key, Wait(c, s.calls[c].round);
            && (r.aborted <==> key in s.slots)
            && (!r.aborted ==>
                  && r.calls == s.calls[c := Call(key, s.calls[c].timeout, if luck then Registered else Returned(Refused),
                                                  w.round)]
                  && r.slots == (if luck then s.slots[key := w] else s.slots)
                  && r.timers == (if luck then s.timers else s.timers - {w}))
  {
  }

  // ---------------------------------------------------------------------------------------
  // The timeout of a wait
  // ---------------------------------------------------------------------------------------

  /** The timeout of wait `w` is armed, has expired, runs, or has run. */
  ghost predicate TimeoutKnown(steps: seq<Step>, s: Io, w: Wait) {
    w in s.timers || w in s.handed || w in s.running || Ran(steps, w)
  }

  predicate Ran(steps: seq<Step>, w: Wait) {
    exists k :: 0 <= k < |steps| && steps[k].Finish? && steps[k].w == w
  }

  ghost predicate TimeoutsTrue(steps: seq<Step>, s: Io) {
    && (forall w :: TimeoutKnown(steps, s, w) ==> w.call < |s.calls| && s.calls[w.call].timeout)
    && (forall c :: 0 <= c < |s.calls| && s.calls[c].stage in {Timing, Registered, Parked} && s.calls[c].timeout ==>
          TimeoutKnown(steps, s, Wait(c, s.calls[c].round)))
  }

  lemma RanMore(steps: seq<Step>, step: Step, w: Wait)
    ensures Ran(steps + [step], w) <==> Ran(steps, w) || (step.Finish? && step.w == w)
  {
    var more := steps + [step];
    if Ran(steps, w) {
      var k :| 0 <= k < |steps| && steps[k].Finish? && steps[k].w == w;
      assert more[k] == steps[k];
    }
    assert more[|steps|] == step;
  }

  lemma KnownBefore(steps: seq<Step>, p: Io, step: Step, w: Wait)
    requires Enabled(p, step) && TimeoutKnown(steps + [step], Apply(p, step), w)
    ensures TimeoutKnown(steps, p, w) || (step.Attempt? && w == Current(p, step.c) && p.calls[step.c].timeout)
  {
    RanMore(steps, step, w);
  }

  lemma KnownAfter(steps: seq<Step>, p: Io, step: Step, c: nat)
    requires Inv(p) && Enabled(p, step) && c < |p.calls| && TimeoutKnown(steps, p, Current(p, c))
    requires Apply(p, step).calls[c].stage in {Timing, Registered, Parked}
    ensures TimeoutKnown(steps + [step], Apply(p, step), Current(p, c))
  {
    RanMore(steps, step, Current(p, c));
    assert Owned(p, c);
  }

  lemma StepTimeouts(steps: seq<Step>, p: Io, step: Step)
    requires Inv(p) && Enabled(p, step) && TimeoutsTrue(steps, p)
    ensures TimeoutsTrue(steps + [step], Apply(p, step))
  {
    var s, more := Apply(p, step), steps + [step];
    forall w | TimeoutKnown(more, s, w) ensures w.call < |s.calls| && s.calls[w.call].timeout {
      KnownBefore(steps, p, step, w);
      CallsStay(p, step, w.call);
    }
    forall c | 0 <= c < |s.calls| && s.calls[c].stage in {Timing, Registered, Parked} && s.calls[c].timeout
      ensures TimeoutKnown(more, s, Wait(c, s.calls[c].round))
    {
      if step != Attempt(c, true) {
        CallsStay(p, step, c);
        KnownAfter(steps, p, step, c);
      }
    }
  }

  /** No call disappears, or changes its timeout; and only an attempt arms the timer of a wait. */
  lemma CallsStay(p: Io, step: Step, c: nat)
    requires Enabled(p, step)
    ensures var s := Apply(p, step);
            && (c < |p.calls| ==> c < |s.calls| && s.calls[c].timeout == p.calls[c].timeout)
            && (c < |s.calls| && s.calls[c].stage in {Timing, Registered, Parked} && step != Attempt(c, true) ==>
                  && c < |p.calls| && p.calls[c].stage in {Timing, Registered, Parked}
                  && s.calls[c].round == p.calls[c].round)
  {
  }

  lemma {:induction false} RunTimeouts(steps: seq<Step>, s: Io)
    requires Reaches(Init(), steps, s)
    ensures TimeoutsTrue(steps, s)
    decreases |steps|
  {
    if steps != [] {
      var n := |steps| - 1;
      var p := LastStep(Init(), steps, s);
      ReachableOk(steps[..n], p);
      RunTimeouts(steps[..n], p);
      StepTimeouts(steps[..n], p, steps[n]);
      assert steps[..n] + [steps[n]] == steps;
    }
  }

  /** While a call waits, from arming its timer to its resumption, the timeout of that wait is armed, has
      expired, is running or has run, exactly when the call has a timeout at all. */
  lemma TimeoutNeverLost(steps: seq<Step>, s: Io, c: nat)
    requires Reaches(Init(), steps, s) && c < |s.calls| && s.calls[c].stage in {Timing, Registered, Parked}
    ensures s.calls[c].timeout <==> TimeoutKnown(steps, s, Wait(c, s.calls[c].round))
  {
    RunTimeouts(steps, s);
  }

  // ---------------------------------------------------------------------------------------
  // How a call came to its result
  // ---------------------------------------------------------------------------------------

  predicate HasResult(s: Io, c: nat, result: Result) {
    c < |s.calls| && s.calls[c].stage == Returned(result)
  }

  /** The call was checked after a timeout callback of it had run to its end. */
  predicate FoundTimeout(steps: seq<Step>, c: nat) {
    exists k :: 0 <= k < |steps| && steps[k] == Decide(c) && TimedOutIn(steps[..k], c)
  }

  lemma FoundMore(steps: seq<Step>, step: Step, c: nat)
    ensures FoundTimeout(steps + [step], c) <==> FoundTimeout(steps, c) || (step == Decide(c) && TimedOutIn(steps, c))
  {
    var more, n := steps + [step], |steps|;
    assert more[..n] == steps && more[n] == step;
    assert forall k :: 0 <= k < n ==> more[k] == steps[k] && more[..k] == steps[..k];
    if FoundTimeout(steps, c) {
      var k :| 0 <= k < n && steps[k] == Decide(c) && TimedOutIn(steps[..k], c);
      assert more[k] == Decide(c) && TimedOutIn(more[..k], c);
    }
    if FoundTimeout(more, c) {
      var k :| 0 <= k < |more| && more[k] == Decide(c) && TimedOutIn(more[..k], c);
    }
  }

  /** A call has returned the system call's result exactly when an attempt of it did not block, a refusal
      exactly when a registration of it failed, and ETIMEDOUT exactly when it was checked after a timeout
      callback of it had run. */
  lemma {:induction false} ResultIff(steps: seq<Step>, s: Io, c: nat)
    requires Reaches(Init(), steps, s) && !s.aborted
    ensures HasResult(s, c, Finished) <==> Attempt(c, false) in steps
    ensures HasResult(s, c, Refused) <==> Register(c, false) in steps
    ensures HasResult(s, c, TimedOut) <==> FoundTimeout(steps, c)
    decreases |steps|
  {
    if steps != [] {
      var n := |steps| - 1;
      var before, step := steps[..n], steps[n];
      var p := LastStep(Init(), steps, s);
      assert steps == before + [step];
      ReachableOk(before, p);
      ResultIff(before, p, c);
      RunMarks(Init(), before, p, c);
      FoundMore(before, step, c);
      StepResult(p, step, c);
    }
  }

  lemma StepResult(p: Io, step: Step, c: nat)
    requires Inv(p) && Enabled(p, step) && !Apply(p, step).aborted
    ensures var s := Apply(p, step);
            && (HasResult(s, c, Finished) <==> HasResult(p, c, Finished) || step == Attempt(c, false))
            && (HasResult(s, c, Refused) <==> HasResult(p, c, Refused) || step == Register(c, false))
            && (HasResult(s, c, TimedOut) <==> HasResult(p, c, TimedOut) || (step == Decide(c) && Marked(p, c)))
  {
    match step
    case Resume(i) =>
    case Decide(_) =>
    case Attempt(_, _) =>
    case _ =>
  }
}
