/**
 Shutdown: when `IOManager::stopping` holds, can work still appear without an outside call? Here the
 scheduler's bookkeeping and the idle loop are cut finer than a slice, at each change of a counter
 that `stopping` reads, because between two of them a worker may hold work no counter shows.
 */
module Quiescence {

  /** Where a worker is: between turns, giving control to a fiber, past the decrement of the active
      count but before re-queueing a READY fiber, in the idle fiber, there with expired callbacks in
      hand, or there between triggering an event and decrementing the pending count. */
  datatype Place =
    | Scanning
    | InSlice
    | Leaving(ready: bool)
    | Idling
    | Collected(callbacks: nat)
    | Triggered
    | Gone

  /** The counters `stopping` reads, plus `armed`, the number of set event bits, and `owing`, the number of
      outside threads between triggering an event they cancel and decrementing the pending count. `ended`
      are the workers whose idle fiber has ended: they take what they still find in the queue, and leave
      when they find nothing. */
  datatype Core = Core(
    places: seq<Place>,
    queued: nat,
    active: int,
    timers: nat,
    armed: nat,
    pending: int,
    owing: nat,
    ended: set<nat>,
    autoStop: bool,
    stopping: bool)

  /** The verdict of `IOManager::stopping`. */
  predicate Stopping(s: Core) {
    && s.timers == 0
    && s.pending == 0
    && s.autoStop && s.stopping
    && s.queued == 0
    && s.active == 0
  }

  /** Steps the workers take by themselves. A fiber in a slice may schedule, arm and cancel at will. */
  datatype Step =
    | Take(w: nat)
    | Call(w: nat, queued: nat, timers: nat, armed: nat)
    | Yield(w: nat, ready: bool)
    | Settle(w: nat)
    | GoIdle(w: nat)
    | Collect(w: nat, expired: nat, rearmed: nat)
    | Deliver(w: nat)
    | Trigger(w: nat)
    | CountDown(w: nat)
    | LeaveIdle(w: nat)
    | Exit(w: nat)
    | Quit(w: nat)

  function At(s: Core, w: nat, p: Place): Core
    requires w < |s.places|
  {
    s.(places := s.places[w := p])
  }

  /** Whether worker `step.w` can take the step now. */
  predicate Enabled(s: Core, step: Step) {
    step.w < |s.places| &&
    var p := s.places[step.w];
    match step
    case Take(_) => p == Scanning && s.queued > 0
    case Call(_, queued, timers, armed) => p == InSlice && s.queued <= queued
    case Yield(_, _) => p == InSlice
    case Settle(_) => p.Leaving?
    case GoIdle(_) => p == Scanning && step.w !in s.ended
    case Collect(_, expired, rearmed) => p == Idling && 0 < expired <= s.timers && rearmed <= expired
    case Deliver(_) => p.Collected?
    case Trigger(_) => p == Idling && s.armed > 0
    case CountDown(_) => p == Triggered
    case LeaveIdle(_) => p == Idling
    case Exit(_) => p == Idling && Stopping(s)
    case Quit(_) => p == Scanning && step.w in s.ended
  }

  function Apply(s: Core, step: Step): Core
    requires Enabled(s, step)
  {
    match step
    case Take(w) => At(s, w, InSlice).(queued := s.queued - 1, active := s.active + 1)
    case Call(w, queued, timers, armed) =>
      s.(queued := queued, timers := timers, armed := armed, pending := s.pending + armed - s.armed)
    case Yield(w, ready) => At(s, w, Leaving(ready)).(active := s.active - 1)
    case Settle(w) => At(s, w, Scanning).(queued := if s.places[w].ready then s.queued + 1 else s.queued)
    case GoIdle(w) => At(s, w, Idling)
    case Collect(w, expired, rearmed) => At(s, w, Collected(expired)).(timers := s.timers - expired + rearmed)
    case Deliver(w) => At(s, w, Idling).(queued := s.queued + s.places[w].callbacks)
    case Trigger(w) => At(s, w, Triggered).(armed := s.armed - 1, queued := s.queued + 1)
    case CountDown(w) => At(s, w, Idling).(pending := s.pending - 1)
    case LeaveIdle(w) => At(s, w, Scanning)
    case Exit(w) => At(s, w, Scanning).(ended := s.ended + {w})
    case Quit(w) => At(s, w, Gone)
  }

  ghost predicate InternalRun(s: Core, steps: seq<Step>)
    decreases |steps|
  {
    steps == [] || (Enabled(s, steps[0]) && InternalRun(Apply(s, steps[0]), steps[1..]))
  }

  ghost function After(s: Core, steps: seq<Step>): Core
    requires InternalRun(s, steps)
    decreases |steps|
  {
    if steps == [] then s else After(Apply(s, steps[0]), steps[1..])
  }

  /** Calls from outside: scheduling, arming a timer or an event, taking one back, and `stop`. Cancelling
      an event is two moves, since it triggers the event before it counts it down. */
  datatype Outside = Submit | ArmTimer | CancelTimer | ArmEvent | DeleteEvent | CancelEvent | CountCancelled | Stop

  function External(s: Core, call: Outside): Core {
    match call
    case Submit => s.(queued := s.queued + 1)
    case ArmTimer => s.(timers := s.timers + 1)
    case CancelTimer => if s.timers == 0 then s else s.(timers := s.timers - 1)
    case ArmEvent => s.(armed := s.armed + 1, pending := s.pending + 1)
    case DeleteEvent => if s.armed == 0 then s else s.(armed := s.armed - 1, pending := s.pending - 1)
    case CancelEvent =>
      if s.armed == 0 then s else s.(armed := s.armed - 1, queued := s.queued + 1, owing := s.owing + 1)
    case CountCancelled => if s.owing == 0 then s else s.(owing := s.owing - 1, pending := s.pending - 1)
    case Stop => s.(autoStop := true, stopping := true)
  }

  function Init(threads: nat): Core {
    Core(seq(threads, i => Scanning), 0, 0, 0, 0, 0, 0, {}, false, false)
  }

  // ---------------------------------------------------------------------------------------
  // Invariant: the counters count what they claim
  // ---------------------------------------------------------------------------------------

  ghost function Count(places: seq<Place>, p: Place): nat {
    if places == [] then 0
    else Count(places[..|places| - 1], p) + (if places[|places| - 1] == p then 1 else 0)
  }

  ghost predicate Inv(s: Core) {
    && s.active == Count(s.places, InSlice)
    && s.pending == s.armed + Count(s.places, Triggered) + s.owing
    && (forall w :: 0 <= w < |s.places| && s.places[w].Collected? ==> s.places[w].callbacks > 0)
  }

  lemma {:induction false} CountUpdate(places: seq<Place>, w: nat, x: Place, p: Place)
    requires w < |places|
    ensures Count(places[w := x], p) ==
              Count(places, p) - (if places[w] == p then 1 else 0) + (if x == p then 1 else 0)
  {
    var n := |places| - 1;
    if w == n {
      assert places[w := x][..n] == places[..n];
    } else {
      CountUpdate(places[..n], w, x, p);
      assert places[w := x][..n] == places[..n][w := x];
    }
  }

  lemma {:induction false} CountZero(places: seq<Place>, p: Place)
    ensures Count(places, p) == 0 <==> p !in places
  {
    if places != [] {
      var n := |places| - 1;
      CountZero(places[..n], p);
      assert places == places[..n] + [places[n]];
    }
  }

  lemma StepKeeps(s: Core, step: Step)
    requires Inv(s) && Enabled(s, step)
    ensures Inv(Apply(s, step))
  {
    var r := Apply(s, step);
    CountUpdate(s.places, step.w, r.places[step.w], InSlice);
    CountUpdate(s.places, step.w, r.places[step.w], Triggered);
    assert r.places == s.places[step.w := r.places[step.w]];
  }

  lemma {:induction false} InitOk(threads: nat)
    ensures Inv(Init(threads))
  {
    CountZero(Init(threads).places, InSlice);
    CountZero(Init(threads).places, Triggered);
  }

  /** Reachable states: any mix of internal steps and outside calls from the start. */
  datatype Move = Internal(step: Step) | FromOutside(call: Outside)

  ghost predicate Reaches(s: Core, moves: seq<Move>, r: Core)
    decreases |moves|
  {
    if moves == [] then s == r
    else match moves[0]
      case Internal(step) => Enabled(s, step) && Reaches(Apply(s, step), moves[1..], r)
      case FromOutside(call) => Reaches(External(s, call), moves[1..], r)
  }

  lemma CallKeeps(s: Core, call: Outside)
    requires Inv(s)
    ensures Inv(External(s, call))
  {
  }

  lemma {:induction false} ReachableOk(s: Core, moves: seq<Move>, r: Core)
    requires Inv(s) && Reaches(s, moves, r)
    ensures Inv(r)
    decreases |moves|
  {
    if moves != [] {
      match moves[0]
      case Internal(step) =>
        StepKeeps(s, step);
        ReachableOk(Apply(s, step), moves[1..], r);
      case FromOutside(call) =>
        CallKeeps(s, call);
        ReachableOk(External(s, call), moves[1..], r);
    }
  }

  // ---------------------------------------------------------------------------------------
  // No work is lost or made by the bookkeeping
  // ---------------------------------------------------------------------------------------

  /** The tasks a worker has in its hands: a running fiber, one it has to put back, or expired callbacks. */
  function InHand(p: Place): nat {
    match p
    case InSlice => 1
    case Leaving(ready) => if ready then 1 else 0
    case Collected(callbacks) => callbacks
    case _ => 0
  }

  ghost function AllInHand(places: seq<Place>): nat {
    if places == [] then 0 else AllInHand(places[..|places| - 1]) + InHand(places[|places| - 1])
  }

  /** All the tasks there are, queued or in some worker's hands. */
  ghost function Tasks(s: Core): nat {
    s.queued + AllInHand(s.places)
  }

  lemma {:induction false} InHandUpdate(places: seq<Place>, w: nat, x: Place)
    requires w < |places|
    ensures AllInHand(places[w := x]) == AllInHand(places) - InHand(places[w]) + InHand(x)
  {
    var n := |places| - 1;
    if w == n {
      assert places[w := x][..n] == places[..n];
    } else {
      InHandUpdate(places[..n], w, x);
      assert places[w := x][..n] == places[..n][w := x];
    }
  }

  /** The workers lose no task and make none up: a task appears when a fiber queues it, when a timer expires
      and when an event fires, and disappears when a fiber gives way and is not ready; every other step only
      moves tasks. Timers and armed events go down by those that expire for good and that fire. */
  lemma StepAccounts(s: Core, step: Step)
    requires Enabled(s, step)
    ensures Tasks(Apply(s, step)) == Tasks(s) +
              match step
              case Call(_, queued, _, _) => queued - s.queued
              case Yield(_, ready) => if ready then 0 else -1
              case Collect(_, expired, _) => expired
              case Trigger(_) => 1
              case _ => 0
    ensures !step.Call? ==>
              && Apply(s, step).timers == s.timers - (if step.Collect? then step.expired - step.rearmed else 0)
              && Apply(s, step).armed == s.armed - (if step.Trigger? then 1 else 0)
  {
    var r := Apply(s, step);
    InHandUpdate(s.places, step.w, r.places[step.w]);
    assert r.places == s.places[step.w := r.places[step.w]];
  }

  // ---------------------------------------------------------------------------------------
  // When quiescence is stable
  // ---------------------------------------------------------------------------------------

  /** A worker holds work no counter shows: expired callbacks it has not scheduled yet, or a READY
      fiber it has not put back. */
  predicate Hides(p: Place) {
    p == Leaving(true) || p.Collected?
  }

  predicate HiddenWork(s: Core) {
    exists w :: 0 <= w < |s.places| && Hides(s.places[w])
  }

  /** No enabled step can queue or run anything. */
  ghost predicate Dead(s: Core) {
    && Stopping(s)
    && s.armed == 0
    && !HiddenWork(s)
    && InSlice !in s.places
    && Triggered !in s.places
  }

  lemma DeadStays(s: Core, step: Step)
    requires Dead(s) && Enabled(s, step)
    ensures Dead(Apply(s, step))
  {
    assert s.places[step.w] in s.places;
    assert !Hides(s.places[step.w]);
    var r := Apply(s, step);
    forall w | 0 <= w < |r.places| ensures !Hides(r.places[w]) && r.places[w] != InSlice && r.places[w] != Triggered {
      assert s.places[w] in s.places && !Hides(s.places[w]);
    }
  }

  lemma {:induction false} DeadForever(s: Core, steps: seq<Step>)
    requires Dead(s) && InternalRun(s, steps)
    ensures Dead(After(s, steps))
    decreases |steps|
  {
    if steps != [] {
      DeadStays(s, steps[0]);
      DeadForever(Apply(s, steps[0]), steps[1..]);
    }
  }

  /** Nothing is queued and no fiber runs. */
  predicate AtRest(s: Core) {
    s.queued == 0 && InSlice !in s.places
  }

  ghost predicate StaysAtRest(s: Core) {
    forall steps: seq<Step> :: InternalRun(s, steps) ==> AtRest(After(s, steps))
  }

  /** In every reachable state where `stopping` answers yes, the answer is final, no step of the
      workers alone can ever queue or run a fiber again, exactly when no worker hides work. */
  lemma StoppingIsFinalIff(threads: nat, moves: seq<Move>, s: Core)
    requires Reaches(Init(threads), moves, s) && Stopping(s)
    ensures StaysAtRest(s) <==> !HiddenWork(s)
  {
    InitOk(threads);
    ReachableOk(Init(threads), moves, s);
    CountZero(s.places, InSlice);
    CountZero(s.places, Triggered);
    if HiddenWork(s) {
      var w :| 0 <= w < |s.places| && Hides(s.places[w]);
      var step := if s.places[w].Leaving? then Settle(w) else Deliver(w);
      assert Enabled(s, step) && Apply(s, step).queued > 0;
      assert InternalRun(Apply(s, step), [step][1..]);
      assert InternalRun(s, [step]);
      assert After(s, [step]) == After(Apply(s, step), [step][1..]) == Apply(s, step);
      assert !AtRest(After(s, [step]));
    } else {
      assert Dead(s);
      forall steps: seq<Step> | InternalRun(s, steps) ensures AtRest(After(s, steps)) {
        DeadForever(s, steps);
      }
    }
  }

  lemma ThenStep(s: Core, step: Step, moves: seq<Move>, r: Core)
    requires Enabled(s, step) && Reaches(Apply(s, step), moves, r)
    ensures Reaches(s, [Internal(step)] + moves, r)
  {
    assert ([Internal(step)] + moves)[1..] == moves;
  }

  lemma ThenCall(s: Core, call: Outside, moves: seq<Move>, r: Core)
    requires Reaches(External(s, call), moves, r)
    ensures Reaches(s, [FromOutside(call)] + moves, r)
  {
    assert ([FromOutside(call)] + moves)[1..] == moves;
  }

  /** Two outside calls, the second of them `stop`, then two steps of the only worker. */
  lemma FourMoves(call: Outside, first: Step, second: Step, s2: Core, s3: Core, s: Core) returns (moves: seq<Move>)
    requires External(External(Init(1), call), Stop) == s2
    requires Enabled(s2, first) && Apply(s2, first) == s3
    requires Enabled(s3, second) && Apply(s3, second) == s
    ensures Reaches(Init(1), moves, s)
  {
    assert Reaches(s, [], s);
    ThenStep(s3, second, [], s);
    moves := [Internal(second)] + [];
    ThenStep(s2, first, moves, s);
    moves := [Internal(first)] + moves;
    ThenCall(External(Init(1), call), Stop, moves, s);
    moves := [FromOutside(Stop)] + moves;
    ThenCall(Init(1), call, moves, s);
    moves := [FromOutside(call)] + moves;
  }

  /** And `stopping` does answer yes too early: one worker has taken an expired callback out of the
      timer set and not scheduled it yet, and nothing any counter shows is left. */
  lemma StoppingWithCallbackInHand() returns (moves: seq<Move>, s: Core)
    ensures Reaches(Init(1), moves, s) && Stopping(s) && s.places == [Collected(1)] && !StaysAtRest(s)
  {
    assert Init(1).places == [Scanning];
    var s2 := Core([Scanning], 0, 0, 1, 0, 0, 0, {}, true, true);
    var s3 := Core([Idling], 0, 0, 1, 0, 0, 0, {}, true, true);
    s := Core([Collected(1)], 0, 0, 0, 0, 0, 0, {}, true, true);
    moves := FourMoves(ArmTimer, GoIdle(0), Collect(0, 1, 0), s2, s3, s);
    assert Hides(s.places[0]);
    StoppingIsFinalIff(1, moves, s);
  }

  /** Likewise between the decrement of the active count and the re-queueing of a READY fiber. */
  lemma StoppingWithReadyFiberInHand() returns (moves: seq<Move>, s: Core)
    ensures Reaches(Init(1), moves, s) && Stopping(s) && s.places == [Leaving(true)] && !StaysAtRest(s)
  {
    assert Init(1).places == [Scanning];
    var s2 := Core([Scanning], 1, 0, 0, 0, 0, 0, {}, true, true);
    var s3 := Core([InSlice], 0, 1, 0, 0, 0, 0, {}, true, true);
    s := Core([Leaving(true)], 0, 0, 0, 0, 0, 0, {}, true, true);
    moves := FourMoves(Submit, Take(0), Yield(0, true), s2, s3, s);
    assert Hides(s.places[0]);
    StoppingIsFinalIff(1, moves, s);
  }
}
