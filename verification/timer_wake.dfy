/**
 The wake-up protocol between the timer manager and the thread sleeping in `epoll_wait`: whenever
 the earliest deadline is below the one the last `getNextTimer` saw, `onTimerInsertedAtFront` has
 been called since. It needs a clock that does not go back, deadlines that do not wrap, and no expiry that,
 having taken an old clock for a rollover, re-arms a timer below what was seen.
 */
module TimerWake {
  import opened Wrappers
  import opened TimerState
  import opened TimerRuns

  /** A call and the clock at the moment it holds the lock. */
  datatype Tick = Tick(op: Op, now: U64)

  /** An expiry that re-arms a recurring timer below the deadline last seen, or though none was seen, when
      no signal is outstanding. */
  predicate Undercuts(s: Timers, now: U64) {
    && !s.tickled
    && exists a :: a in s.order && a in s.objects && UndercutBy(s, a, now)
  }

  predicate UndercutBy(s: Timers, a: nat, now: U64)
    requires a in s.objects
  {
    && s.objects[a].recurring && IsDue(s, a, now)
    && (s.seen.None? || Add64(now, s.objects[a].ms) < s.seen.value)
  }

  /** Periods are at most `span`, the clock plus `span` fits 64 bits, calls that read the clock under
      the lock read `now`, the others read at most `now`, and no expiry undercuts what was seen. */
  predicate Regular(s: Timers, tick: Tick, span: nat) {
    && tick.now + span < WORD
    && match tick.op
       case Add(_, at, ms, _, _) => at <= tick.now && ms <= span
       case Cancel(_) => true
       case Refresh(_, now) => now == tick.now
       case Reset(_, now, ms, _) => now == tick.now && ms <= span
       case GetNext(now) => now == tick.now
       case Expire(now, _) => now <= tick.now && !Undercuts(s, now)
  }

  /** The deadline did not wrap and the timer was armed at or before `now`. */
  predicate ArmedBy(t: Timer, now: U64, span: nat) {
    t.ms <= span && t.ms <= t.next && t.next - t.ms <= now
  }

  ghost predicate Unwrapped(objects: map<nat, Timer>, order: seq<nat>, now: U64, span: nat) {
    forall a :: a in order && a in objects ==> ArmedBy(objects[a], now, span)
  }

  ghost predicate NotBelow(objects: map<nat, Timer>, order: seq<nat>, seen: Option<U64>) {
    forall a :: a in order && a in objects ==> seen.Some? && seen.value <= objects[a].next
  }

  ghost predicate Awake(s: Timers, now: U64, span: nat) {
    && Unwrapped(s.objects, s.order, now, span)
    && s.signalsAtLook <= s.signals
    && (s.tickled ==> s.signalsAtLook < s.signals)
    && (!s.tickled ==> NotBelow(s.objects, s.order, s.seen))
  }

  /** A timer put at or behind the front cannot undercut what was seen; one put in front signals. */
  lemma PublishAwake(s: Timers, a: nat, now: U64, span: nat)
    requires Known(s.objects, s.order) && Sorted(s.objects, s.order) && a in s.objects && a !in s.order
    requires Awake(s, now, span) && ArmedBy(s.objects[a], now, span)
    ensures Awake(Publish(s, a), now, span)
  {
    Inserted(s.objects, s.order, a);
    var r := Publish(s, a);
    if !r.tickled {
      var front := r.order[0];
      assert front in s.order;
      assert s.objects[front].next <= s.objects[a].next by {
        var j :| 0 <= j < |r.order| && r.order[j] == a;
        assert Before(s.objects[r.order[0]].next, r.order[0], s.objects[r.order[j]].next, r.order[j]);
      }
    }
  }

  lemma AddAwake(s: Timers, a: nat, at: U64, ms: U64, cb: nat, recurring: bool, now: U64, span: nat)
    requires Inv(s) && a !in s.objects && Awake(s, now, span)
    requires at <= now && ms <= span && now + span < WORD
    ensures Awake(AddTimer(s, a, at, ms, cb, recurring), now, span)
  {
    var s1 := s.(objects := s.objects[a := Timer(recurring, ms, Add64(at, ms), Some(cb))]);
    SortedFrame(s.objects, s1.objects, s.order);
    PublishAwake(s1, a, now, span);
  }

  /** Taking timer `a` out of the set and giving it the value `t`. */
  function Detached(s: Timers, a: nat, t: Timer, k: nat): Timers
    requires k < |s.order|
  {
    s.(objects := s.objects[a := t], order := Erase(s.order, k))
  }

  lemma DetachAwake(s: Timers, a: nat, t: Timer, now: U64, span: nat)
    requires Inv(s) && a in s.objects && s.objects[a].cb.Some? && Awake(s, now, span)
    ensures Find(s.objects, s.order, a).Some? && a in s.order
    ensures var s1 := Detached(s, a, t, Find(s.objects, s.order, a).value);
            a !in s1.order && Known(s1.objects, s1.order) && Sorted(s1.objects, s1.order) && Awake(s1, now, span)
  {
    FindFinds(s.objects, s.order, a);
    var k := Find(s.objects, s.order, a).value;
    Erased(s.objects, s.order, k);
    SortedFrame(s.objects, s.objects[a := t], Erase(s.order, k));
  }

  lemma RefreshAwake(s: Timers, a: nat, now: U64, span: nat)
    requires Inv(s) && a in s.objects && Awake(s, now, span) && now + span < WORD
    ensures Awake(RefreshTimer(s, a, now), now, span)
  {
    if s.objects[a].cb.Some? {
      var t := s.objects[a].(next := Add64(now, s.objects[a].ms));
      DetachAwake(s, a, t, now, span);
      assert ArmedBy(s.objects[a], now, span);
      var s1 := Detached(s, a, t, Find(s.objects, s.order, a).value);
      Inserted(s1.objects, s1.order, a);
      assert !s.tickled ==> NotBelow(s.objects, [a], s.seen);
    }
  }

  lemma ResetAwake(s: Timers, a: nat, now: U64, ms: U64, fromNow: bool, span: nat)
    requires Inv(s) && a in s.objects && Awake(s, now, span) && now + span < WORD && ms <= span
    ensures Awake(ResetTimer(s, a, now, ms, fromNow), now, span)
  {
    if s.objects[a].cb.Some? && !(ms == s.objects[a].ms && !fromNow) {
      var t := s.objects[a];
      var start := if fromNow then now else Sub64(t.next, t.ms);
      var t' := t.(ms := ms, next := Add64(start, ms));
      DetachAwake(s, a, t', now, span);
      assert ArmedBy(t, now, span);
      PublishAwake(Detached(s, a, t', Find(s.objects, s.order, a).value), a, now, span);
    }
  }

  /** An expiry keeps the protocol going exactly when it does not undercut what was seen. */
  lemma ExpireAwakeIff(s: Timers, at: U64, sentinel: nat, now: U64, span: nat)
    requires Inv(s) && Awake(s, now, span) && at <= now && now + span < WORD
    ensures Awake(ListExpired(s, at, sentinel), now, span) <==> !Undercuts(s, at)
  {
    ExpireExact(s, at, sentinel);
    DueMembers(s, s.order, at);
    var r := ListExpired(s, at, sentinel);
    var due := Due(s, s.order, at);
    forall a | a in r.order && a in r.objects
      ensures ArmedBy(r.objects[a], now, span) && a in s.order && a in s.objects
      ensures if a in due then r.objects[a].next == Add64(at, s.objects[a].ms) && s.objects[a].recurring
              else r.objects[a].next == s.objects[a].next
    {
      assert ArmedBy(s.objects[a], now, span);
      if a in due {
        assert r.objects[a] == After(s.objects[a], at);
      }
    }
    if !s.tickled {
      if exists a :: a in s.order && a in s.objects && UndercutBy(s, a, at) {
        var a :| a in s.order && a in s.objects && UndercutBy(s, a, at);
        assert a in due && a in r.order && r.objects[a] == After(s.objects[a], at);
        assert !NotBelow(r.objects, r.order, r.seen);
      } else {
        forall a | a in r.order && a in r.objects ensures r.seen.Some? && r.seen.value <= r.objects[a].next {
          assert a in s.order && a in s.objects && !UndercutBy(s, a, at);
        }
      }
    }
  }

  /** Without a rollover it never does: what is due was seen, and comes back later. */
  lemma OnlyRolloverUndercuts(s: Timers, at: U64, now: U64, span: nat)
    requires Inv(s) && Awake(s, now, span) && at <= now && now + span < WORD && Undercuts(s, at)
    ensures Rollover(s.previous, at)
  {
    var a :| a in s.order && a in s.objects && UndercutBy(s, a, at);
    assert ArmedBy(s.objects[a], now, span);
  }

  lemma LookAwake(s: Timers, now: U64, span: nat)
    requires Inv(s) && Awake(s, now, span)
    ensures Awake(Look(s), now, span)
  {
    forall a | a in s.order ensures s.objects[s.order[0]].next <= s.objects[a].next {
      var j :| 0 <= j < |s.order| && s.order[j] == a;
      if j > 0 {
        assert Before(s.objects[s.order[0]].next, s.order[0], s.objects[s.order[j]].next, s.order[j]);
      }
    }
  }

  lemma CancelAwake(s: Timers, a: nat, now: U64, span: nat)
    requires Inv(s) && a in s.objects && Awake(s, now, span)
    ensures Awake(CancelTimer(s, a), now, span)
  {
    if s.objects[a].cb.Some? {
      var objects := s.objects[a := s.objects[a].(cb := None)];
      SortedFrame(s.objects, objects, s.order);
      FindFinds(objects, s.order, a);
      Erased(objects, s.order, Find(objects, s.order, a).value);
    }
  }

  lemma StepAwake(s: Timers, tick: Tick, before: U64, span: nat)
    requires Inv(s) && Awake(s, before, span) && before <= tick.now && Regular(s, tick, span)
    ensures Inv(Apply(s, tick.op)) && Awake(Apply(s, tick.op), tick.now, span)
  {
    StepKeeps(s, tick.op);
    assert Awake(s, tick.now, span) by {
      forall a | a in s.order && a in s.objects ensures ArmedBy(s.objects[a], tick.now, span) {
        assert ArmedBy(s.objects[a], before, span);
      }
    }
    match tick.op
    case Add(a, at, ms, cb, recurring) =>
      if a !in s.objects { AddAwake(s, a, at, ms, cb, recurring, tick.now, span); }
    case Cancel(a) => if a in s.objects { CancelAwake(s, a, tick.now, span); }
    case Refresh(a, now) => if a in s.objects { RefreshAwake(s, a, now, span); }
    case Reset(a, now, ms, fromNow) => if a in s.objects { ResetAwake(s, a, now, ms, fromNow, span); }
    case GetNext(_) => LookAwake(s, tick.now, span);
    case Expire(now, sentinel) => ExpireAwakeIff(s, now, sentinel, tick.now, span);
  }

  ghost function Ops(ticks: seq<Tick>): (ops: seq<Op>)
    ensures |ops| == |ticks|
  {
    seq(|ticks|, i requires 0 <= i < |ticks| => ticks[i].op)
  }

  /** A run whose clock never goes back and whose calls are all regular where they are made. */
  ghost predicate RegularRun(s: Timers, ticks: seq<Tick>, now: U64, span: nat)
    requires Inv(s)
    decreases |ticks|
  {
    ticks != [] ==>
      && now <= ticks[0].now
      && Regular(s, ticks[0], span)
      && (StepKeeps(s, ticks[0].op); RegularRun(Apply(s, ticks[0].op), ticks[1..], ticks[0].now, span))
  }

  lemma {:induction false} RunAwake(s: Timers, ticks: seq<Tick>, now: U64, span: nat) returns (end: U64)
    requires Inv(s) && Awake(s, now, span) && RegularRun(s, ticks, now, span)
    ensures Awake(Run(s, Ops(ticks)), end, span)
    decreases |ticks|
  {
    if ticks == [] {
      end := now;
    } else {
      StepAwake(s, ticks[0], now, span);
      end := RunAwake(Apply(s, ticks[0].op), ticks[1..], ticks[0].now, span);
      assert Ops(ticks)[1..] == Ops(ticks[1..]);
    }
  }

  /** The protocol: over every regular run, if some armed deadline is below the one the last
      `getNextTimer` saw (or it saw none), the sleeper has been signalled since that look. */
  lemma EarlierDeadlineIsSignalled(start: U64, ticks: seq<Tick>, span: nat, a: nat)
    requires Inv(Init(start)) && RegularRun(Init(start), ticks, start, span)
    requires var s := Run(Init(start), Ops(ticks));
             a in s.order && a in s.objects && (s.seen.None? || s.objects[a].next < s.seen.value)
    ensures var s := Run(Init(start), Ops(ticks)); s.signalsAtLook < s.signals
  {
    var end := RunAwake(Init(start), ticks, start, span);
  }

  /** Why the deadlines must not wrap: a refresh moves a timer's deadline earlier exactly when the
      clock plus the period leaves 64 bits. */
  lemma RefreshMovesEarlierIff(t: Timer, now: U64)
    requires t.ms <= t.next && t.next - t.ms <= now
    ensures Add64(now, t.ms) < t.next <==> WORD <= now + t.ms
  {
    if WORD <= now + t.ms {
      assert Add64(now, t.ms) == now + t.ms - WORD;
    }
  }

  /** And then the sleeper misses the wake-up: armed for the last representable instant, looked at,
      refreshed one millisecond later, the timer is due at once and nobody was told. */
  lemma WrappedRefreshIsSilent()
    ensures var ops := [Add(1, 1, WORD - 2, 7, false), GetNext(1), Refresh(1, 2)];
            Inv(Init(1)) &&
            var s := Run(Init(1), ops);
            s.order == [1] && s.objects[1].next == 0 && s.seen == Some(WORD - 1) && s.signals == s.signalsAtLook
  {
    var add, look, refresh := Add(1, 1, WORD - 2, 7, false), GetNext(1), Refresh(1, 2);
    var s0 := Init(1);
    assert Inv(s0);
    var s1 := Apply(s0, add);
    assert s1.order == [1] && s1.objects == map[1 := Timer(false, WORD - 2, WORD - 1, Some(7))];
    StepKeeps(s0, add);
    var s2 := Apply(s1, look);
    StepKeeps(s1, look);
    var s3 := Apply(s2, refresh);
    StepKeeps(s2, refresh);
    FindFinds(s2.objects, s2.order, 1);
    assert Erase(s2.order, 0) == [];
    assert s3.order == [1];
    assert [add, look, refresh][1..] == [look, refresh] && [look, refresh][1..] == [refresh] && [refresh][1..] == [];
    assert Run(s2, [refresh]) == s3;
    assert Run(s1, [look, refresh]) == s3;
  }

  /** Why an expiry must not undercut: one whose clock is more than an hour behind hands out every
      timer, and a recurring one is armed again from that clock, earlier than it was seen, and nobody was
      told. */
  lemma RolloverExpiryIsSilent(late: U64, early: U64)
    requires HOUR <= late && early < late - HOUR && late + 10 < WORD
    ensures var ops := [Add(1, late, 10, 7, true), GetNext(late), Expire(early, 2)];
            Inv(Init(late)) &&
            var s := Run(Init(late), ops);
            && s.order == [1] && s.objects[1].next == early + 10
            && s.seen == Some(late + 10) && s.signals == s.signalsAtLook
  {
    var add, look, expire := Add(1, late, 10, 7, true), GetNext(late), Expire(early, 2);
    var s2 := AddAndLook(late);
    StepKeeps(s2, expire);
    DrainedAll(s2, early);
    assert [add, look, expire] == [add, look] + [expire];
    RunOneMore(Init(late), [add, look], expire);
  }

  /** A recurring timer is armed and looked at. */
  lemma AddAndLook(late: U64) returns (s: Timers)
    requires HOUR <= late && late + 10 < WORD
    ensures Inv(Init(late)) && s == Run(Init(late), [Add(1, late, 10, 7, true), GetNext(late)]) && Inv(s)
    ensures s.order == [1] && s.objects == map[1 := Timer(true, 10, late + 10, Some(7))] && s.previous == late
    ensures s.seen == Some(late + 10) && s.signals == s.signalsAtLook
  {
    var add, look := Add(1, late, 10, 7, true), GetNext(late);
    var s0 := Init(late);
    assert Inv(s0);
    var s1 := Apply(s0, add);
    StepKeeps(s0, add);
    assert s1.order == [1];
    s := Apply(s1, look);
    StepKeeps(s1, look);
    assert [add, look][1..] == [look] && [look][1..] == [];
    assert Run(s1, [look]) == s;
  }

  lemma {:induction false} RunOneMore(s: Timers, ops: seq<Op>, op: Op)
    requires Inv(s)
    ensures Inv(Run(s, ops)) && Run(s, ops + [op]) == Apply(Run(s, ops), op)
    decreases |ops|
  {
    if ops == [] {
      StepKeeps(s, op);
      assert ops + [op] == [op] && [op][1..] == [];
    } else {
      StepKeeps(s, ops[0]);
      assert (ops + [op])[1..] == ops[1..] + [op];
      RunOneMore(Apply(s, ops[0]), ops[1..], op);
    }
  }

  lemma OnlyOne(order: seq<nat>, a: nat)
    requires Distinct(order) && a in order && forall x :: x in order ==> x == a
    ensures order == [a]
  {
    var last := |order| - 1;
    assert order[0] in order && order[last] in order;
    assert order[0] == order[last] == a;
  }

  /** The one timer, expired because of a rollover. */
  lemma DrainedAll(s: Timers, now: U64)
    requires Inv(s) && s.order == [1] && s.objects.Keys == {1}
    requires s.objects[1] == Timer(true, 10, s.objects[1].next, Some(7))
    requires Rollover(s.previous, now) && now + 10 < WORD
    ensures var r := ListExpired(s, now, 2);
            && r.order == [1] && r.objects[1].next == now + 10
            && r.signals == s.signals && r.signalsAtLook == s.signalsAtLook && r.seen == s.seen
  {
    ExpireExact(s, now, 2);
    DueMembers(s, s.order, now);
    var r := ListExpired(s, now, 2);
    assert 1 in s.order && 1 in r.order;
    SplitSorted(r.objects, r.order, |r.order|);
    assert r.order[..|r.order|] == r.order;
    OnlyOne(r.order, 1);
  }
}
