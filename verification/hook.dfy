/**
 The hooked I/O call `do_io`: try, arm a timeout, register for readiness, park, be woken by readiness,
 a cancellation or the timeout, then report a timeout or retry. Any number of calls run at once; the
 environment fires events, expires timers and runs handed-out timeout callbacks in any order. A callback
 is two steps: it locks the `timer_info` of its call, then marks it and cancels the event.
 */
module HookedIo {
  import EventTable

  datatype Key = Key(fd: nat, dir: EventTable.Dir)

  datatype Result = Finished | Refused | TimedOut

  /** Where a call is: before the system call, with its timer armed but not its event, registered but
      still running, parked, resumed but not yet past its check, or back in the caller. */
  datatype Stage = Trying | Timing | Registered | Parked | Resumed | Returned(result: Result)

  /** One call of `do_io`; `round` counts its waits. */
  datatype Call = Call(key: Key, timeout: bool, stage: Stage, round: nat)

  /** The `timer_info` of a call: how many shared pointers own it, and its `cancelled` field. */
  datatype Info = Info(owners: nat, cancelled: bool)

  /** The wait number `round` of call `call`. */
  datatype Wait = Wait(call: nat, round: nat)

  /** `infos` has one `timer_info` per call, `slots` are the armed events, `timers` the armed timers,
      `handed` the expired callbacks waiting to run, `running` those that hold the `timer_info` of
      their call, `queue` the fibers waiting to run. `wakes` is history: the waits whose fiber was
      queued. */
  datatype Io = Io(
    calls: seq<Call>,
    infos: seq<Info>,
    slots: map<Key, Wait>,
    timers: set<Wait>,
    handed: set<Wait>,
    running: set<Wait>,
    queue: seq<nat>,
    wakes: seq<Wait>,
    aborted: bool)

  datatype Step =
    | Enter(key: Key, timeout: bool)
    | Attempt(c: nat, wouldBlock: bool)
    | Register(c: nat, luck: bool)
    | Park(c: nat)
    | Fire(key: Key)
    | Expire(w: Wait)
    | Lock(w: Wait)
    | Finish(w: Wait, luck: bool)
    | Resume(i: nat)
    | Decide(c: nat)

  function SetStage(s: Io, c: nat, stage: Stage): Io
    requires c < |s.calls|
  {
    s.(calls := s.calls[c := s.calls[c].(stage := stage)])
  }

  /** `triggerEvent` on an armed slot: the waiting fiber goes to the run queue. */
  function Wake(s: Io, key: Key): Io {
    if key !in s.slots then s
    else s.(slots := s.slots - {key},
            queue := s.queue + [s.slots[key].call],
            wakes := s.wakes + [s.slots[key]])
  }

  function Current(s: Io, c: nat): Wait
    requires c < |s.calls|
  {
    Wait(c, s.calls[c].round)
  }

  predicate Enabled(s: Io, step: Step) {
    !s.aborted &&
    match step
    case Enter(_, _) => true
    case Attempt(c, _) => c < |s.calls| && s.calls[c].stage == Trying
    case Register(c, _) => c < |s.calls| && s.calls[c].stage == Timing
    case Park(c) => c < |s.calls| && s.calls[c].stage == Registered
    case Fire(_) => true
    case Expire(w) => w in s.timers
    case Lock(w) => w in s.handed && w.call < |s.infos|
    case Finish(w, _) => w in s.running && w.call < |s.calls| && w.call < |s.infos| && s.infos[w.call].owners > 0
    case Resume(i) => i < |s.queue| && s.queue[i] < |s.calls| && s.calls[s.queue[i]].stage == Parked
    case Decide(c) => c < |s.calls| && c < |s.infos| && s.calls[c].stage == Resumed
  }

  /** The call gives its result and drops its shared pointer. */
  function Return(s: Io, c: nat, result: Result): Io
    requires c < |s.calls|
  {
    SetStage(s, c, Returned(result)).(infos := Dropped(s.infos, c))
  }

  function Dropped(infos: seq<Info>, c: nat): seq<Info> {
    if c < |infos| && infos[c].owners > 0 then infos[c := infos[c].(owners := infos[c].owners - 1)] else infos
  }

  /** The callback starts: `weak_ptr::lock` makes it an owner if the `timer_info` still has one. */
  function LockInfo(s: Io, w: Wait): Io
    requires w.call < |s.infos|
  {
    var info := s.infos[w.call];
    var s1 := s.(handed := s.handed - {w});
    if info.owners == 0 then s1
    else s1.(running := s.running + {w}, infos := s.infos[w.call := info.(owners := info.owners + 1)])
  }

  /** The rest of the callback: unless it is set already, set the mark and cancel whatever is armed in
      the slot of its call; then drop the `timer_info`. */
  function FinishTimeout(s: Io, w: Wait, luck: bool): Io
    requires w.call < |s.infos| && w.call < |s.calls| && s.infos[w.call].owners > 0
  {
    var info := s.infos[w.call];
    var s1 := s.(running := s.running - {w}, infos := s.infos[w.call := Info(info.owners - 1, true)]);
    if info.cancelled || !luck then s1 else Wake(s1, s.calls[w.call].key)
  }

  function Apply(s: Io, step: Step): Io
    requires Enabled(s, step)
  {
    match step
    case Enter(key, timeout) =>
      s.(calls := s.calls + [Call(key, timeout, Trying, 0)], infos := s.infos + [Info(1, false)])
    case Attempt(c, wouldBlock) =>
      if !wouldBlock then Return(s, c, Finished)
      else if s.calls[c].timeout then SetStage(s, c, Timing).(timers := s.timers + {Current(s, c)})
      else SetStage(s, c, Timing)
    case Register(c, luck) =>
      if s.calls[c].key in s.slots then s.(aborted := true)
      else if luck then SetStage(s, c, Registered).(slots := s.slots[s.calls[c].key := Current(s, c)])
      else Return(s, c, Refused).(timers := s.timers - {Current(s, c)})
    case Park(c) => SetStage(s, c, Parked)
    case Fire(key) => Wake(s, key)
    case Expire(w) => s.(timers := s.timers - {w}, handed := s.handed + {w})
    case Lock(w) => LockInfo(s, w)
    case Finish(w, luck) => FinishTimeout(s, w, luck)
    case Resume(i) =>
      var c := s.queue[i];
      SetStage(s, c, Resumed).(queue := s.queue[..i] + s.queue[i + 1..], timers := s.timers - {Current(s, c)})
    case Decide(c) =>
      if s.infos[c].cancelled then Return(s, c, TimedOut)
      else s.(calls := s.calls[c := s.calls[c].(stage := Trying, round := s.calls[c].round + 1)])
  }

  function Init(): Io {
    Io([], [], map[], {}, {}, {}, [], [], false)
  }

  // ---------------------------------------------------------------------------------------
  // The invariant
  // ---------------------------------------------------------------------------------------

  ghost function Queued(queue: seq<nat>, c: nat): nat {
    if queue == [] then 0
    else Queued(queue[..|queue| - 1], c) + (if queue[|queue| - 1] == c then 1 else 0)
  }

  ghost function Woken(wakes: seq<Wait>, w: Wait): nat {
    if wakes == [] then 0
    else Woken(wakes[..|wakes| - 1], w) + (if wakes[|wakes| - 1] == w then 1 else 0)
  }

  ghost function InSlot(slots: map<Key, Wait>, call: Call, w: Wait): nat {
    if call.key in slots && slots[call.key] == w then 1 else 0
  }

  predicate Waiting(stage: Stage) {
    stage == Registered || stage == Parked
  }

  /** A waiting fiber is in its slot or in the run queue, never both, and any other fiber in neither. */
  ghost predicate PlacedOnce(s: Io, c: nat)
    requires c < |s.calls|
  {
    InSlot(s.slots, s.calls[c], Current(s, c)) + Queued(s.queue, c) == if Waiting(s.calls[c].stage) then 1 else 0
  }

  /** How often the wait `w` has put its fiber in the run queue, against where its call is. */
  ghost predicate WokenOnce(s: Io, w: Wait) {
    if w.call >= |s.calls| || w.round > s.calls[w.call].round then Woken(s.wakes, w) == 0
    else if w.round < s.calls[w.call].round then Woken(s.wakes, w) <= 1
    else match s.calls[w.call].stage
      case Trying => Woken(s.wakes, w) == 0
      case Timing => Woken(s.wakes, w) == 0
      case Resumed => Woken(s.wakes, w) == 1
      case Returned(_) => Woken(s.wakes, w) <= 1
      case _ => Woken(s.wakes, w) == Queued(s.queue, w.call)
  }

  ghost predicate SlotOk(s: Io, key: Key)
    requires key in s.slots
  {
    && s.slots[key].call < |s.calls| && s.calls[s.slots[key].call].key == key
    && s.slots[key] == Current(s, s.slots[key].call)
  }

  /** Armed timers belong to the current wait of a call that is between arming and resuming. */
  ghost predicate TimerOk(s: Io, w: Wait) {
    && w.call < |s.calls| && w == Current(s, w.call)
    && (s.calls[w.call].stage == Timing || Waiting(s.calls[w.call].stage))
  }

  /** A callback that was handed out belongs to a wait whose timer was armed. */
  ghost predicate Handed(s: Io, w: Wait) {
    && w.call < |s.calls| && w.round <= s.calls[w.call].round
    && (w.round == s.calls[w.call].round ==> s.calls[w.call].stage != Trying)
  }

  /** How many running callbacks hold the `timer_info` of call `c`. */
  ghost function Holders(running: set<Wait>, c: nat): nat {
    |set w | w in running && w.call == c|
  }

  /** The `timer_info` is owned by its call until that returns, and by the callbacks that locked it. */
  ghost predicate Owned(s: Io, c: nat)
    requires c < |s.calls| == |s.infos|
  {
    s.infos[c].owners == (if s.calls[c].stage.Returned? then 0 else 1) + Holders(s.running, c)
  }

  ghost predicate InfosOk(s: Io) {
    && |s.infos| == |s.calls|
    && (forall c :: 0 <= c < |s.calls| ==> Owned(s, c))
    && (forall w :: w in s.handed ==> Handed(s, w))
    && (forall w :: w in s.running ==> Handed(s, w))
    && s.handed !! s.running && s.timers !! s.handed && s.timers !! s.running
  }

  ghost predicate RefsOk(s: Io) {
    && (forall key :: key in s.slots ==> SlotOk(s, key))
    && (forall w :: w in s.timers ==> TimerOk(s, w))
    && (forall i :: 0 <= i < |s.queue| ==> s.queue[i] < |s.calls|)
  }

  /** Waiting fibers, wakes and references. */
  ghost predicate WaitsOk(s: Io) {
    && (forall c :: 0 <= c < |s.calls| ==> PlacedOnce(s, c))
    && (forall w: Wait :: WokenOnce(s, w))
    && RefsOk(s)
  }

  ghost predicate Inv(s: Io) {
    WaitsOk(s) && InfosOk(s)
  }

  // ---------------------------------------------------------------------------------------
  // Every step keeps it
  // ---------------------------------------------------------------------------------------

  lemma {:induction false} QueuedWithout(queue: seq<nat>, i: nat, c: nat)
    requires i < |queue|
    ensures Queued(queue[..i] + queue[i + 1..], c) == Queued(queue, c) - (if queue[i] == c then 1 else 0)
  {
    var n := |queue| - 1;
    if i == n {
      assert queue[..i] + queue[i + 1..] == queue[..n];
    } else {
      QueuedWithout(queue[..n], i, c);
      assert (queue[..i] + queue[i + 1..])[..n - 1] == queue[..n][..i] + queue[..n][i + 1..];
    }
  }

  lemma {:induction false} UnqueuedOutside(queue: seq<nat>, c: nat)
    requires c !in queue
    ensures Queued(queue, c) == 0
  {
    if queue != [] {
      UnqueuedOutside(queue[..|queue| - 1], c);
    }
  }

  lemma WakeKeeps(s: Io, key: Key)
    requires WaitsOk(s)
    ensures WaitsOk(Wake(s, key))
  {
    if key in s.slots {
      var r := Wake(s, key);
      assert r.queue[..|s.queue|] == s.queue && r.wakes[..|s.wakes|] == s.wakes;
      assert SlotOk(s, key);
      var d := s.slots[key].call;
      assert PlacedOnce(s, d);
      forall c | 0 <= c < |r.calls| ensures PlacedOnce(r, c) {
        assert PlacedOnce(s, c);
      }
      forall w: Wait ensures WokenOnce(r, w) {
        assert WokenOnce(s, w);
      }
      forall k | k in r.slots ensures SlotOk(r, k) {
        assert SlotOk(s, k);
      }
      forall w | w in r.timers ensures TimerOk(r, w) {
        assert TimerOk(s, w);
      }
    }
  }

  /** A call changes stage while it is neither in a slot nor in the queue, before or after. */
  lemma UnplacedKeeps(s: Io, c: nat, stage: Stage)
    requires WaitsOk(s) && c < |s.calls| && !Waiting(s.calls[c].stage) && !Waiting(stage)
    requires s.calls[c].stage == Trying ==> stage == Timing || stage.Returned?
    requires s.calls[c].stage == Timing ==> stage.Returned?
    requires s.calls[c].stage == Resumed ==> stage.Returned?
    requires !s.calls[c].stage.Returned?
    requires stage.Returned? ==> Current(s, c) !in s.timers
    ensures WaitsOk(SetStage(s, c, stage))
  {
    var r := SetStage(s, c, stage);
    forall d | 0 <= d < |r.calls| ensures PlacedOnce(r, d) {
      assert PlacedOnce(s, d);
    }
    forall w: Wait ensures WokenOnce(r, w) {
      assert WokenOnce(s, w);
    }
    forall k | k in r.slots ensures SlotOk(r, k) {
      assert SlotOk(s, k);
    }
    forall w | w in r.timers ensures TimerOk(r, w) {
      assert TimerOk(s, w);
    }
  }

  lemma EnterKeeps(s: Io, key: Key, timeout: bool)
    requires WaitsOk(s)
    ensures WaitsOk(s.(calls := s.calls + [Call(key, timeout, Trying, 0)], infos := s.infos + [Info(1, false)]))
  {
    var n := |s.calls|;
    var r := s.(calls := s.calls + [Call(key, timeout, Trying, 0)], infos := s.infos + [Info(1, false)]);
    UnqueuedOutside(s.queue, n);
    forall c | 0 <= c < |r.calls| ensures PlacedOnce(r, c) {
      assert c < n ==> PlacedOnce(s, c);
      assert key in s.slots ==> SlotOk(s, key);
    }
    forall w: Wait ensures WokenOnce(r, w) {
      assert WokenOnce(s, w);
    }
    forall k | k in r.slots ensures SlotOk(r, k) {
      assert SlotOk(s, k);
    }
    forall w | w in r.timers ensures TimerOk(r, w) {
      assert TimerOk(s, w);
    }
  }

  lemma AttemptKeeps(s: Io, c: nat, wouldBlock: bool)
    requires WaitsOk(s) && Enabled(s, Attempt(c, wouldBlock))
    ensures WaitsOk(Apply(s, Attempt(c, wouldBlock)))
  {
    assert Current(s, c) in s.timers ==> TimerOk(s, Current(s, c));
    if wouldBlock {
      UnplacedKeeps(s, c, Timing);
      var s1 := SetStage(s, c, Timing);
      assert TimerOk(s1, Current(s1, c));
      FrameKeeps(s1, s1.(timers := s1.timers + {Current(s1, c)}));
    } else {
      ReturnKeeps(s, c, Finished);
    }
  }

  /** A step that moves no fiber between slots, queue and calls only has to account for the timers. */
  lemma FrameKeeps(s: Io, r: Io)
    requires WaitsOk(s) && r.slots == s.slots && r.queue == s.queue && r.wakes == s.wakes && |r.calls| == |s.calls|
    requires forall c :: 0 <= c < |s.calls| ==> SameWait(s.calls[c], r.calls[c])
    requires forall w :: w in r.timers ==> TimerOk(s, w)
    ensures WaitsOk(r)
  {
    forall c | 0 <= c < |r.calls| ensures PlacedOnce(r, c) {
      assert PlacedOnce(s, c) && SameWait(s.calls[c], r.calls[c]);
    }
    forall w: Wait ensures WokenOnce(r, w) {
      assert WokenOnce(s, w);
      assert w.call < |s.calls| ==> SameWait(s.calls[w.call], r.calls[w.call]);
    }
    forall k | k in r.slots ensures SlotOk(r, k) {
      assert SlotOk(s, k) && SameWait(s.calls[s.slots[k].call], r.calls[s.slots[k].call]);
    }
    forall w | w in r.timers ensures TimerOk(r, w) {
      assert TimerOk(s, w) && SameWait(s.calls[w.call], r.calls[w.call]);
    }
  }

  predicate SameWait(a: Call, b: Call) {
    b.key == a.key && b.round == a.round && (b.stage == a.stage || (Waiting(a.stage) && Waiting(b.stage)))
  }

  lemma RegisterKeeps(s: Io, c: nat, luck: bool)
    requires WaitsOk(s) && Enabled(s, Register(c, luck)) && s.calls[c].key !in s.slots
    ensures WaitsOk(Apply(s, Register(c, luck)))
  {
    if !luck {
      var s1 := s.(timers := s.timers - {Current(s, c)});
      FrameKeeps(s, s1);
      ReturnKeeps(s1, c, Refused);
      assert Apply(s, Register(c, luck)) == Return(s1, c, Refused);
    } else {
      var r := Apply(s, Register(c, luck));
      assert PlacedOnce(s, c);
      forall d | 0 <= d < |r.calls| ensures PlacedOnce(r, d) {
        assert PlacedOnce(s, d);
      }
      forall w: Wait ensures WokenOnce(r, w) {
        assert WokenOnce(s, w);
      }
      forall k | k in r.slots ensures SlotOk(r, k) {
        assert k in s.slots ==> SlotOk(s, k);
      }
      forall w | w in r.timers ensures TimerOk(r, w) {
        assert TimerOk(s, w);
      }
    }
  }

  lemma ResumeKeeps(s: Io, i: nat)
    requires WaitsOk(s) && Enabled(s, Resume(i))
    ensures WaitsOk(Apply(s, Resume(i)))
  {
    var c := s.queue[i];
    var r := Apply(s, Resume(i));
    forall d ensures Queued(r.queue, d) == Queued(s.queue, d) - (if d == c then 1 else 0) {
      QueuedWithout(s.queue, i, d);
    }
    assert PlacedOnce(s, c);
    forall d | 0 <= d < |r.calls| ensures PlacedOnce(r, d) {
      assert PlacedOnce(s, d);
    }
    forall w: Wait ensures WokenOnce(r, w) {
      assert WokenOnce(s, w);
    }
    forall k | k in r.slots ensures SlotOk(r, k) {
      assert SlotOk(s, k);
    }
    forall w | w in r.timers ensures TimerOk(r, w) {
      assert TimerOk(s, w);
    }
  }

  lemma RetryKeeps(s: Io, c: nat)
    requires WaitsOk(s) && c < |s.calls| && s.calls[c].stage == Resumed
    ensures WaitsOk(s.(calls := s.calls[c := s.calls[c].(stage := Trying, round := s.calls[c].round + 1)]))
  {
    var r := s.(calls := s.calls[c := s.calls[c].(stage := Trying, round := s.calls[c].round + 1)]);
    assert PlacedOnce(s, c);
    forall d | 0 <= d < |r.calls| ensures PlacedOnce(r, d) {
      assert PlacedOnce(s, d);
      assert r.calls[d].key in s.slots ==> SlotOk(s, r.calls[d].key);
    }
    forall w: Wait ensures WokenOnce(r, w) {
      assert WokenOnce(s, w);
    }
    forall k | k in r.slots ensures SlotOk(r, k) {
      assert SlotOk(s, k);
    }
    forall w | w in r.timers ensures TimerOk(r, w) {
      assert TimerOk(s, w);
    }
  }

  lemma ReturnKeeps(s: Io, c: nat, result: Result)
    requires WaitsOk(s) && c < |s.calls| && Current(s, c) !in s.timers
    requires s.calls[c].stage == Trying || s.calls[c].stage == Timing || s.calls[c].stage == Resumed
    ensures WaitsOk(Return(s, c, result))
  {
    UnplacedKeeps(s, c, Returned(result));
    FrameKeeps(SetStage(s, c, Returned(result)), Return(s, c, result));
  }

  lemma TimeoutKeeps(s: Io, w: Wait, luck: bool)
    requires WaitsOk(s) && Enabled(s, Finish(w, luck))
    ensures WaitsOk(FinishTimeout(s, w, luck))
  {
    var info := s.infos[w.call];
    var s1 := s.(running := s.running - {w}, infos := s.infos[w.call := Info(info.owners - 1, true)]);
    FrameKeeps(s, s1);
    WakeKeeps(s1, s.calls[w.call].key);
  }

  lemma DecideKeeps(s: Io, c: nat)
    requires WaitsOk(s) && Enabled(s, Decide(c))
    ensures WaitsOk(Apply(s, Decide(c)))
  {
    if s.infos[c].cancelled {
      assert Current(s, c) in s.timers ==> TimerOk(s, Current(s, c));
      ReturnKeeps(s, c, TimedOut);
    } else {
      RetryKeeps(s, c);
    }
  }

  lemma StepKeepsWaits(s: Io, step: Step)
    requires WaitsOk(s) && Enabled(s, step)
    ensures WaitsOk(Apply(s, step))
  {
    match step
    case Enter(key, timeout) => EnterKeeps(s, key, timeout);
    case Attempt(c, wouldBlock) => AttemptKeeps(s, c, wouldBlock);
    case Register(c, luck) =>
      if s.calls[c].key !in s.slots { RegisterKeeps(s, c, luck); } else { FrameKeeps(s, Apply(s, step)); }
    case Park(c) => FrameKeeps(s, Apply(s, step));
    case Fire(key) => WakeKeeps(s, key);
    case Expire(w) =>
      assert TimerOk(s, w);
      FrameKeeps(s, Apply(s, step));
    case Lock(w) => FrameKeeps(s, Apply(s, step));
    case Finish(w, luck) => TimeoutKeeps(s, w, luck);
    case Resume(i) => ResumeKeeps(s, i);
    case Decide(c) => DecideKeeps(s, c);
  }

  // ---------------------------------------------------------------------------------------
  // Who owns a timer_info
  // ---------------------------------------------------------------------------------------

  lemma HoldersMore(running: set<Wait>, w: Wait, c: nat)
    requires w !in running
    ensures Holders(running + {w}, c) == Holders(running, c) + (if w.call == c then 1 else 0)
  {
    var before := set v | v in running && v.call == c;
    var after := set v | v in running + {w} && v.call == c;
    assert after == if w.call == c then before + {w} else before;
  }

  lemma HoldersFewer(running: set<Wait>, w: Wait, c: nat)
    requires w in running
    ensures Holders(running - {w}, c) == Holders(running, c) - (if w.call == c then 1 else 0)
  {
    HoldersMore(running - {w}, w, c);
    assert running - {w} + {w} == running;
  }

  /** A step that leaves the callbacks and the owners alone, and only moves calls on. */
  lemma CallsMoveOn(s: Io, r: Io)
    requires InfosOk(s) && r.infos == s.infos && r.running == s.running && r.handed == s.handed
    requires |r.calls| == |s.calls|
    requires forall c :: 0 <= c < |s.calls| ==> MovesOn(s.calls[c], r.calls[c])
    requires r.timers !! r.handed && r.timers !! r.running
    ensures InfosOk(r)
  {
    forall c | 0 <= c < |r.calls| ensures Owned(r, c) {
      assert Owned(s, c) && MovesOn(s.calls[c], r.calls[c]);
    }
    forall w | w in r.handed ensures Handed(r, w) {
      assert Handed(s, w) && MovesOn(s.calls[w.call], r.calls[w.call]);
    }
    forall w | w in r.running ensures Handed(r, w) {
      assert Handed(s, w) && MovesOn(s.calls[w.call], r.calls[w.call]);
    }
  }

  predicate MovesOn(a: Call, b: Call) {
    && (a.stage.Returned? <==> b.stage.Returned?)
    && ((b.round == a.round && (b.stage == Trying ==> a.stage == Trying)) || b.round == a.round + 1)
  }

  lemma ReturnKeepsInfos(s: Io, c: nat, result: Result)
    requires InfosOk(s) && c < |s.calls| && !s.calls[c].stage.Returned?
    ensures InfosOk(Return(s, c, result))
  {
    var r := Return(s, c, result);
    assert Owned(s, c);
    forall d | 0 <= d < |r.calls| ensures Owned(r, d) {
      assert Owned(s, d);
    }
    forall w | w in r.handed ensures Handed(r, w) {
      assert Handed(s, w);
    }
    forall w | w in r.running ensures Handed(r, w) {
      assert Handed(s, w);
    }
  }

  lemma EnterKeepsInfos(s: Io, key: Key, timeout: bool)
    requires InfosOk(s)
    ensures InfosOk(s.(calls := s.calls + [Call(key, timeout, Trying, 0)], infos := s.infos + [Info(1, false)]))
  {
    var r := s.(calls := s.calls + [Call(key, timeout, Trying, 0)], infos := s.infos + [Info(1, false)]);
    var n := |s.calls|;
    forall w | w in r.handed ensures Handed(r, w) {
      assert Handed(s, w);
    }
    forall w | w in r.running ensures Handed(r, w) {
      assert Handed(s, w);
    }
    assert (set w | w in s.running && w.call == n) == {};
    forall d | 0 <= d < |r.calls| ensures Owned(r, d) {
      assert d < n ==> Owned(s, d);
    }
  }

  lemma LockKeepsInfos(s: Io, w: Wait)
    requires InfosOk(s) && Enabled(s, Lock(w))
    ensures InfosOk(LockInfo(s, w))
  {
    var r := LockInfo(s, w);
    assert Handed(s, w);
    forall d | 0 <= d < |r.calls| ensures Owned(r, d) {
      assert Owned(s, d);
      HoldersMore(s.running, w, d);
    }
    forall v | v in r.handed ensures Handed(r, v) {
      assert Handed(s, v);
    }
    forall v | v in r.running ensures Handed(r, v) {
      assert Handed(s, v);
    }
  }

  lemma FinishKeepsInfos(s: Io, w: Wait, luck: bool)
    requires InfosOk(s) && Enabled(s, Finish(w, luck))
    ensures InfosOk(FinishTimeout(s, w, luck))
  {
    var r := FinishTimeout(s, w, luck);
    forall d | 0 <= d < |r.calls| ensures Owned(r, d) {
      assert Owned(s, d);
      HoldersFewer(s.running, w, d);
    }
    forall v | v in r.handed ensures Handed(r, v) {
      assert Handed(s, v);
    }
    forall v | v in r.running ensures Handed(r, v) {
      assert Handed(s, v);
    }
  }

  lemma ExpireKeepsInfos(s: Io, w: Wait)
    requires Inv(s) && Enabled(s, Expire(w))
    ensures InfosOk(Apply(s, Expire(w)))
  {
    var r := Apply(s, Expire(w));
    assert TimerOk(s, w);
    forall d | 0 <= d < |r.calls| ensures Owned(r, d) {
      assert Owned(s, d);
    }
    forall v | v in r.handed ensures Handed(r, v) {
      assert v == w || Handed(s, v);
    }
    forall v | v in r.running ensures Handed(r, v) {
      assert Handed(s, v);
    }
  }

  lemma AttemptKeepsInfos(s: Io, c: nat, wouldBlock: bool)
    requires Inv(s) && Enabled(s, Attempt(c, wouldBlock))
    ensures InfosOk(Apply(s, Attempt(c, wouldBlock)))
  {
    if wouldBlock {
      var w := Current(s, c);
      assert w in s.handed ==> Handed(s, w);
      assert w in s.running ==> Handed(s, w);
      CallsMoveOn(s, Apply(s, Attempt(c, wouldBlock)));
    } else {
      ReturnKeepsInfos(s, c, Finished);
    }
  }

  lemma RegisterKeepsInfos(s: Io, c: nat, luck: bool)
    requires Inv(s) && Enabled(s, Register(c, luck))
    ensures InfosOk(Apply(s, Register(c, luck)))
  {
    var s1 := s.(timers := s.timers - {Current(s, c)});
    CallsMoveOn(s, s1);
    if s.calls[c].key in s.slots || luck {
      CallsMoveOn(s, Apply(s, Register(c, luck)));
    } else {
      ReturnKeepsInfos(s1, c, Refused);
      assert Apply(s, Register(c, luck)) == Return(s1, c, Refused);
    }
  }

  lemma DecideKeepsInfos(s: Io, c: nat)
    requires Inv(s) && Enabled(s, Decide(c))
    ensures InfosOk(Apply(s, Decide(c)))
  {
    if s.infos[c].cancelled {
      ReturnKeepsInfos(s, c, TimedOut);
    } else {
      CallsMoveOn(s, Apply(s, Decide(c)));
    }
  }

  lemma StepKeeps(s: Io, step: Step)
    requires Inv(s) && Enabled(s, step)
    ensures Inv(Apply(s, step))
  {
    StepKeepsWaits(s, step);
    match step
    case Enter(key, timeout) => EnterKeepsInfos(s, key, timeout);
    case Attempt(c, wouldBlock) => AttemptKeepsInfos(s, c, wouldBlock);
    case Register(c, luck) => RegisterKeepsInfos(s, c, luck);
    case Park(c) => CallsMoveOn(s, Apply(s, step));
    case Fire(key) => CallsMoveOn(s, Apply(s, step));
    case Expire(w) => ExpireKeepsInfos(s, w);
    case Lock(w) => LockKeepsInfos(s, w);
    case Finish(w, luck) => FinishKeepsInfos(s, w, luck);
    case Resume(i) => CallsMoveOn(s, Apply(s, step));
    case Decide(c) => DecideKeepsInfos(s, c);
  }

  // ---------------------------------------------------------------------------------------
  // What holds over every run
  // ---------------------------------------------------------------------------------------

  ghost predicate Reaches(s: Io, steps: seq<Step>, r: Io)
    decreases |steps|
  {
    if steps == [] then s == r else Enabled(s, steps[0]) && Reaches(Apply(s, steps[0]), steps[1..], r)
  }

  lemma {:induction false} RunKeeps(s: Io, steps: seq<Step>, r: Io)
    requires Inv(s) && Reaches(s, steps, r)
    ensures Inv(r)
    decreases |steps|
  {
    if steps != [] {
      StepKeeps(s, steps[0]);
      RunKeeps(Apply(s, steps[0]), steps[1..], r);
    }
  }

  lemma ReachableOk(steps: seq<Step>, s: Io)
    requires Reaches(Init(), steps, s)
    ensures Inv(s)
  {
    RunKeeps(Init(), steps, s);
  }

  /** Under any order of readiness, timeouts and cancellations, one wait puts its fiber in the run
      queue at most once, and a call has at most one entry there, none once it is past its wait. */
  lemma WaitWakesAtMostOnce(steps: seq<Step>, s: Io, w: Wait)
    requires Reaches(Init(), steps, s)
    ensures Woken(s.wakes, w) <= 1
    ensures Queued(s.queue, w.call) <= 1
    ensures w.call < |s.calls| && Queued(s.queue, w.call) == 1 ==> Waiting(s.calls[w.call].stage)
  {
    ReachableOk(steps, s);
    assert WokenOnce(s, w);
    if w.call < |s.calls| {
      assert PlacedOnce(s, w.call);
      assert PlacedOnce(s, w.call) && WokenOnce(s, w);
    } else {
      UnqueuedOutside(s.queue, w.call);
    }
  }

  /** The `timer_info` of a call is dead exactly when the call has returned and no callback that locked
      it before is still running. */
  lemma InfoDeadIff(steps: seq<Step>, s: Io, c: nat)
    requires Reaches(Init(), steps, s) && c < |s.calls|
    ensures |s.infos| == |s.calls|
    ensures s.infos[c].owners == 0 <==> HasReturned(s, c) && !Held(s, c)
  {
    ReachableOk(steps, s);
    OwnersByCall(s, c);
  }

  /** Some callback of call `c` holds its `timer_info`. */
  predicate Held(s: Io, c: nat) {
    exists w :: w in s.running && w.call == c
  }

  predicate HasReturned(s: Io, c: nat) {
    c < |s.calls| && s.calls[c].stage.Returned?
  }

  /** A callback that starts when its call has returned and no other callback of it holds a lock. */
  predicate Late(s: Io, step: Step) {
    step.Lock? && HasReturned(s, step.w.call) && !Held(s, step.w.call)
  }

  /** The run without its late callbacks. */
  ghost function WithoutLate(s: Io, steps: seq<Step>): seq<Step>
    decreases |steps|
  {
    if steps == [] || !Enabled(s, steps[0]) then []
    else (if Late(s, steps[0]) then [] else [steps[0]]) + WithoutLate(Apply(s, steps[0]), steps[1..])
  }

  /** All but the callbacks waiting to run. */
  ghost predicate SameButHanded(s: Io, r: Io) {
    r == s.(handed := r.handed) && s.handed <= r.handed
  }

  lemma StepSame(s: Io, r: Io, step: Step)
    requires SameButHanded(s, r) && Enabled(s, step)
    ensures Enabled(r, step) && SameButHanded(Apply(s, step), Apply(r, step))
  {
  }

  lemma OwnersByCall(s: Io, c: nat)
    requires InfosOk(s) && c < |s.calls|
    ensures s.infos[c].owners == 0 <==> HasReturned(s, c) && !Held(s, c)
  {
    assert Owned(s, c);
    var holding := set w | w in s.running && w.call == c;
    if Held(s, c) {
      var w :| w in s.running && w.call == c;
      assert w in holding;
    } else {
      assert holding == {};
    }
  }

  /** Of a call that has returned, in any reachable state: a callback that starts does nothing but leave
      the list of those handed out, exactly when no other callback of that call holds a lock. */
  lemma LateLockIff(steps: seq<Step>, s: Io, w: Wait)
    requires Reaches(Init(), steps, s) && Enabled(s, Lock(w)) && HasReturned(s, w.call)
    ensures Apply(s, Lock(w)) == s.(handed := s.handed - {w}) <==> !Held(s, w.call)
  {
    ReachableOk(steps, s);
    OwnersByCall(s, w.call);
    assert w !in s.running;
  }

  /** Leaving the late callbacks out of any run changes no call, slot, timer, queue or wake. */
  lemma {:induction false} LateCallbacksVanish(s: Io, r: Io, steps: seq<Step>, end: Io) returns (end': Io)
    requires Inv(s) && SameButHanded(s, r) && Reaches(s, steps, end)
    ensures Reaches(r, WithoutLate(s, steps), end') && SameButHanded(end, end')
    decreases |steps|
  {
    if steps == [] {
      end' := r;
    } else {
      var step, rest := steps[0], WithoutLate(Apply(s, steps[0]), steps[1..]);
      StepKeeps(s, step);
      if Late(s, step) {
        OwnersByCall(s, step.w.call);
        end' := LateCallbacksVanish(Apply(s, step), r, steps[1..], end);
        assert WithoutLate(s, steps) == rest;
      } else {
        StepSame(s, r, step);
        end' := LateCallbacksVanish(Apply(s, step), Apply(r, step), steps[1..], end);
        assert WithoutLate(s, steps)[1..] == rest;
      }
    }
  }

  /** Some step of the run is the end of a timeout callback of call `c`. */
  predicate TimedOutIn(steps: seq<Step>, c: nat) {
    exists k :: 0 <= k < |steps| && IsFinish(steps[k], c)
  }

  predicate IsFinish(step: Step, c: nat) {
    step.Finish? && step.w.call == c
  }

  predicate Marked(s: Io, c: nat) {
    c < |s.infos| && s.infos[c].cancelled
  }

  lemma StepMarks(s: Io, step: Step, c: nat)
    requires Enabled(s, step) && |s.infos| == |s.calls|
    ensures |Apply(s, step).infos| == |Apply(s, step).calls|
    ensures Marked(Apply(s, step), c) <==> Marked(s, c) || IsFinish(step, c)
  {
  }

  lemma {:induction false} RunMarks(s: Io, steps: seq<Step>, r: Io, c: nat)
    requires Reaches(s, steps, r) && |s.infos| == |s.calls|
    ensures Marked(r, c) <==> Marked(s, c) || TimedOutIn(steps, c)
    decreases |steps|
  {
    if steps != [] {
      StepMarks(s, steps[0], c);
      RunMarks(Apply(s, steps[0]), steps[1..], r, c);
      var rest := steps[1..];
      assert forall k :: 0 <= k < |rest| ==> rest[k] == steps[k + 1];
      if TimedOutIn(rest, c) {
        var k :| 0 <= k < |rest| && IsFinish(rest[k], c);
        assert IsFinish(steps[k + 1], c);
      }
      if TimedOutIn(steps, c) && !IsFinish(steps[0], c) {
        var k :| 0 <= k < |steps| && IsFinish(steps[k], c);
        assert IsFinish(rest[k - 1], c);
      }
    }
  }

  /** A resumed call reports ETIMEDOUT exactly when, earlier in the run, a timeout callback of that same
      call ran to its end; the call being alive now, it was alive then. Otherwise it retries. */
  lemma ResumedTimesOutIff(steps: seq<Step>, s: Io, c: nat)
    requires Reaches(Init(), steps, s) && Enabled(s, Decide(c))
    ensures Apply(s, Decide(c)).calls[c].stage == (if TimedOutIn(steps, c) then Returned(TimedOut) else Trying)
  {
    RunMarks(Init(), steps, s, c);
  }

  /** Once returned, a call stays returned with the same result, over every further run. */
  lemma {:induction false} ReturnedStays(s: Io, steps: seq<Step>, r: Io, c: nat)
    requires Reaches(s, steps, r) && c < |s.calls| && s.calls[c].stage.Returned?
    ensures c < |r.calls| && r.calls[c] == s.calls[c]
    decreases |steps|
  {
    if steps != [] {
      ReturnedStays(Apply(s, steps[0]), steps[1..], r, c);
    }
  }

  // ---------------------------------------------------------------------------------------
  // A callback that is neither early nor late
  // ---------------------------------------------------------------------------------------

  lemma {:induction false} ReachesOn(s: Io, steps: seq<Step>, r: Io, step: Step)
    requires Reaches(s, steps, r) && Enabled(r, step)
    ensures Reaches(s, steps + [step], Apply(r, step))
    decreases |steps|
  {
    if steps == [] {
      assert steps + [step] == [step] && [step][1..] == [];
    } else {
      ReachesOn(Apply(s, steps[0]), steps[1..], r, step);
      assert (steps + [step])[1..] == steps[1..] + [step];
    }
  }

  /** One more step. */
  lemma Then(steps: seq<Step>, s: Io, step: Step, r: Io) returns (steps': seq<Step>)
    requires Reaches(Init(), steps, s) && Enabled(s, step) && r == Apply(s, step)
    ensures Reaches(Init(), steps', r)
  {
    ReachesOn(Init(), steps, s, step);
    steps' := steps + [step];
  }

  /** A second call parks on the descriptor. */
  function WithSecond(s: Io, key: Key): Io {
    s.(calls := s.calls + [Call(key, false, Parked, 0)], infos := s.infos + [Info(1, false)],
       slots := map[key := Wait(1, 0)])
  }

  lemma SecondParks(steps: seq<Step>, s: Io, key: Key) returns (steps': seq<Step>)
    requires Reaches(Init(), steps, s) && !s.aborted && |s.calls| == |s.infos| == 1 && s.slots == map[]
    ensures Reaches(Init(), steps', WithSecond(s, key))
  {
    var s1 := Apply(s, Enter(key, false));
    steps' := Then(steps, s, Enter(key, false), s1);
    var s2 := Apply(s1, Attempt(1, true));
    steps' := Then(steps', s1, Attempt(1, true), s2);
    var s3 := Apply(s2, Register(1, true));
    steps' := Then(steps', s2, Register(1, true), s3);
    steps' := Then(steps', s3, Park(1), WithSecond(s, key));
  }

  /** The only call waited, was made ready while its timeout callback held its `timer_info`, and returned. */
  function Overtaken(key: Key): Io {
    Alone(key, Returned(Finished), 1, 1, {}, {}, {Wait(0, 0)})
  }

  /** One call alone, with its timer, its callback or neither. */
  function Alone(key: Key, stage: Stage, round: nat, owners: nat, timers: set<Wait>, handed: set<Wait>,
                 running: set<Wait>): Io {
    var w := Wait(0, 0);
    Io([Call(key, true, stage, round)], [Info(owners, false)], if Waiting(stage) then map[key := w] else map[],
       timers, handed, running, [], if round > 0 then [w] else [], false)
  }

  lemma ParksFirst(key: Key) returns (steps: seq<Step>)
    ensures Reaches(Init(), steps, Alone(key, Parked, 0, 1, {Wait(0, 0)}, {}, {}))
  {
    var w := Wait(0, 0);
    ReachesOn(Init(), [], Init(), Enter(key, true));
    var s1 := Alone(key, Trying, 0, 1, {}, {}, {});
    assert Apply(Init(), Enter(key, true)) == s1;
    steps := [] + [Enter(key, true)];
    var s2 := Alone(key, Timing, 0, 1, {w}, {}, {});
    assert Apply(s1, Attempt(0, true)) == s2;
    ReachesOn(Init(), steps, s1, Attempt(0, true));
    steps := steps + [Attempt(0, true)];
    var s3 := Alone(key, Registered, 0, 1, {w}, {}, {});
    assert Apply(s2, Register(0, true)) == s3;
    ReachesOn(Init(), steps, s2, Register(0, true));
    steps := steps + [Register(0, true)];
    assert Apply(s3, Park(0)) == Alone(key, Parked, 0, 1, {w}, {}, {});
    ReachesOn(Init(), steps, s3, Park(0));
    steps := steps + [Park(0)];
  }

  lemma LocksNext(key: Key) returns (steps: seq<Step>)
    ensures Reaches(Init(), steps, Alone(key, Parked, 0, 2, {}, {}, {Wait(0, 0)}))
  {
    var w := Wait(0, 0);
    steps := ParksFirst(key);
    var s1, s2 := Alone(key, Parked, 0, 1, {w}, {}, {}), Alone(key, Parked, 0, 1, {}, {w}, {});
    assert Apply(s1, Expire(w)) == s2;
    ReachesOn(Init(), steps, s1, Expire(w));
    steps := steps + [Expire(w)];
    assert Apply(s2, Lock(w)) == Alone(key, Parked, 0, 2, {}, {}, {w});
    ReachesOn(Init(), steps, s2, Lock(w));
    steps := steps + [Lock(w)];
  }

  lemma WakesNext(key: Key) returns (steps: seq<Step>, s: Io)
    ensures Reaches(Init(), steps, s)
    ensures s == Alone(key, Resumed, 0, 2, {}, {}, {Wait(0, 0)}).(wakes := [Wait(0, 0)])
  {
    var w := Wait(0, 0);
    steps := LocksNext(key);
    var s1 := Alone(key, Parked, 0, 2, {}, {}, {w});
    var s2 := s1.(slots := map[], queue := [0], wakes := [w]);
    assert Apply(s1, Fire(key)) == s2;
    ReachesOn(Init(), steps, s1, Fire(key));
    steps := steps + [Fire(key)];
    s := Apply(s2, Resume(0));
    ReachesOn(Init(), steps, s2, Resume(0));
    steps := steps + [Resume(0)];
  }

  lemma ReturnsFirst(key: Key) returns (steps: seq<Step>)
    ensures Reaches(Init(), steps, Overtaken(key))
  {
    var w := Wait(0, 0);
    var s1;
    steps, s1 := WakesNext(key);
    var s2 := Alone(key, Trying, 1, 2, {}, {}, {w});
    assert Apply(s1, Decide(0)) == s2;
    ReachesOn(Init(), steps, s1, Decide(0));
    steps := steps + [Decide(0)];
    assert Apply(s2, Attempt(0, false)) == Overtaken(key);
    ReachesOn(Init(), steps, s2, Attempt(0, false));
    steps := steps + [Attempt(0, false)];
  }

  /** A callback that locked its `timer_info` before its call returned and ends after a second call on the
      same descriptor has parked: it wakes that call, whose check then finds no timeout of its own. */
  lemma OvertakenCallbackWakesAnother(key: Key) returns (steps: seq<Step>, s: Io, r: Io)
    ensures Reaches(Init(), steps, s) && Enabled(s, Finish(Wait(0, 0), true)) && s.calls[0].stage == Returned(Finished)
    ensures r == Apply(s, Finish(Wait(0, 0), true)) && s.queue == [] && r.queue == [1] && !Marked(r, 1)
  {
    steps := ReturnsFirst(key);
    steps := SecondParks(steps, Overtaken(key), key);
    s := WithSecond(Overtaken(key), key);
    r := Apply(s, Finish(Wait(0, 0), true));
  }

  // ---------------------------------------------------------------------------------------
  // A callback that locks after its call returned, and is not late
  // ---------------------------------------------------------------------------------------

  /** The call while the callback of its first wait holds its `timer_info` throughout: in its second wait, or
      past it. */
  function Again(key: Key, stage: Stage, round: nat, timers: set<Wait>, handed: set<Wait>): Io {
    var w0, w1 := Wait(0, 0), Wait(0, 1);
    Io([Call(key, true, stage, round)], [Info(if stage.Returned? then 1 else 2, false)],
       if Waiting(stage) then map[key := w1] else map[],
       timers, handed, {w0}, [], if round > 1 then [w0, w1] else [w0], false)
  }

  lemma WaitsAgain(key: Key) returns (steps: seq<Step>)
    ensures Reaches(Init(), steps, Again(key, Parked, 1, {}, {Wait(0, 1)}))
  {
    var w1 := Wait(0, 1);
    var s0;
    steps, s0 := WakesNext(key);
    steps := Then(steps, s0, Decide(0), Again(key, Trying, 1, {}, {}));
    steps := Then(steps, Again(key, Trying, 1, {}, {}), Attempt(0, true), Again(key, Timing, 1, {w1}, {}));
    steps := Then(steps, Again(key, Timing, 1, {w1}, {}), Register(0, true), Again(key, Registered, 1, {w1}, {}));
    steps := Then(steps, Again(key, Registered, 1, {w1}, {}), Park(0), Again(key, Parked, 1, {w1}, {}));
    steps := Then(steps, Again(key, Parked, 1, {w1}, {}), Expire(w1), Again(key, Parked, 1, {}, {w1}));
  }

  lemma WakesAgain(key: Key) returns (steps: seq<Step>, s: Io)
    ensures s == Again(key, Resumed, 1, {}, {Wait(0, 1)}).(wakes := [Wait(0, 0), Wait(0, 1)])
    ensures Reaches(Init(), steps, s)
  {
    var w0, w1 := Wait(0, 0), Wait(0, 1);
    steps := WaitsAgain(key);
    var s0 := Again(key, Parked, 1, {}, {w1});
    var s1 := s0.(slots := map[], queue := [0], wakes := [w0, w1]);
    steps := Then(steps, s0, Fire(key), s1);
    s := Again(key, Resumed, 1, {}, {w1}).(wakes := [w0, w1]);
    steps := Then(steps, s1, Resume(0), s);
  }

  lemma ReturnsAgain(key: Key) returns (steps: seq<Step>)
    ensures Reaches(Init(), steps, Again(key, Returned(Finished), 2, {}, {Wait(0, 1)}))
  {
    var s0;
    steps, s0 := WakesAgain(key);
    var s1 := Again(key, Trying, 2, {}, {Wait(0, 1)});
    steps := Then(steps, s0, Decide(0), s1);
    steps := Then(steps, s1, Attempt(0, false), Again(key, Returned(Finished), 2, {}, {Wait(0, 1)}));
  }

  /** The callback of the second wait starts after the call returned, finds the `timer_info` alive because
      that of the first wait still holds it, and wakes a second call that has parked on the descriptor. */
  lemma LateLockWakesAnother(key: Key) returns (steps: seq<Step>, s: Io, s': Io, r: Io)
    ensures Reaches(Init(), steps, s) && HasReturned(s, 0) && s.queue == []
    ensures Enabled(s, Lock(Wait(0, 1))) && s' == Apply(s, Lock(Wait(0, 1)))
    ensures Enabled(s', Finish(Wait(0, 1), true)) && r == Apply(s', Finish(Wait(0, 1), true)) && r.queue == [1]
  {
    steps := ReturnsAgain(key);
    var s0 := Again(key, Returned(Finished), 2, {}, {Wait(0, 1)});
    steps := SecondParks(steps, s0, key);
    s := WithSecond(s0, key);
    s' := Apply(s, Lock(Wait(0, 1)));
    r := Apply(s', Finish(Wait(0, 1), true));
  }
}
