/**
 What each call of the timer manager does, in terms of the armed timers, those with a callback, and of their
 deadlines, with every wrap-around of the 64-bit clock spelt out.
 */
module TimerEffects {
  import opened Wrappers
  import opened TimerState
  import opened TimerRuns

  predicate Armed(s: Timers, a: nat) {
    a in s.objects && s.objects[a].cb != None
  }

  /** Timer `a` comes before every other armed one: by deadline, then by address. */
  ghost predicate Earliest(s: Timers, a: nat)
    requires a in s.objects
  {
    forall b :: Armed(s, b) && b != a ==>
      s.objects[a].next < s.objects[b].next || (s.objects[a].next == s.objects[b].next && a < b)
  }

  const LIMIT := 0x1_0000_0000_0000_0000

  /** A sum or difference as a 64-bit word. */
  function Word(x: int): U64
    requires -LIMIT <= x < 2 * LIMIT
  {
    if x < 0 then x + LIMIT else if x >= LIMIT then x - LIMIT else x
  }

  lemma Words(x: U64, y: U64)
    ensures Add64(x, y) == Word(x + y)
  {
  }

  lemma WordsFrom(x: U64, y: U64, z: U64)
    ensures Add64(Sub64(x, y), z) == Word(x - y + z)
  {
  }

  // ---------------------------------------------------------------------------------------
  // How long to sleep
  // ---------------------------------------------------------------------------------------

  ghost predicate SomeDue(s: Timers, now: U64) {
    exists a :: Armed(s, a) && s.objects[a].next <= now
  }

  ghost predicate SomeAt(s: Timers, at: int) {
    exists a :: Armed(s, a) && s.objects[a].next == at
  }

  lemma FrontFirst(s: Timers)
    requires Inv(s) && s.order != []
    ensures s.order[0] in s.objects && Armed(s, s.order[0])
    ensures forall a :: Armed(s, a) ==> s.objects[s.order[0]].next <= s.objects[a].next
  {
    assert s.order[0] in s.order;
    forall a | Armed(s, a) ensures s.objects[s.order[0]].next <= s.objects[a].next {
      assert a in s.order;
    }
  }

  /** `getNextTimer` answers nothing at all, all ones, when no timer is armed; 0 exactly when one is due; and
      otherwise a wait that ends at the earliest deadline: no later than any, and at one of them. */
  lemma WaitExact(s: Timers, now: U64)
    requires Inv(s)
    ensures var wait := Wait(s, now);
            if forall a :: !Armed(s, a) then wait == 0xffff_ffff_ffff_ffff
            else
              && (wait == 0 <==> SomeDue(s, now))
              && (wait != 0 ==> SomeAt(s, now + wait) && forall a :: Armed(s, a) ==> now + wait <= s.objects[a].next)
  {
    if s.order == [] {
      assert forall a :: Armed(s, a) ==> a in s.order;
    } else {
      FrontFirst(s);
      assert Armed(s, s.order[0]);
    }
  }

  /** And it takes back the tickle and changes no timer. */
  lemma LookOnly(s: Timers, now: U64)
    requires Inv(s)
    ensures var r := Apply(s, GetNext(now));
            && !r.tickled && r.objects == s.objects && r.order == s.order && r.previous == s.previous
            && r.handed == s.handed && r.signals == s.signals && r.signalsAtLook == s.signals
            && (r.seen == None <==> forall a :: !Armed(s, a))
            && (r.seen != None ==> SomeAt(s, r.seen.value) && forall a :: Armed(s, a) ==> r.seen.value <= s.objects[a].next)
  {
    if s.order == [] {
      assert forall a :: Armed(s, a) ==> a in s.order;
    } else {
      FrontFirst(s);
      assert Armed(s, s.order[0]);
    }
  }

  // ---------------------------------------------------------------------------------------
  // Setting deadlines
  // ---------------------------------------------------------------------------------------

  /** Only timer `a` has changed, to `t`, and nothing has been handed out. */
  predicate OnlyTimer(s: Timers, r: Timers, a: nat, t: Timer) {
    r.objects == s.objects[a := t] && r.handed == s.handed && r.previous == s.previous && r.seen == s.seen
  }

  /** The sleeper is signalled exactly when it has not been since it last looked and `a` is now the earliest. */
  ghost predicate SignalsIffEarliest(s: Timers, r: Timers, a: nat)
    requires a in r.objects
  {
    && (r.tickled <==> s.tickled || Earliest(r, a))
    && r.signals == s.signals + (if !s.tickled && Earliest(r, a) then 1 else 0)
  }

  lemma PublishSignals(s: Timers, a: nat)
    requires Known(s.objects, s.order) && Sorted(s.objects, s.order) && a in s.objects && a !in s.order
    requires forall x :: x in s.objects && x != a ==> (s.objects[x].cb.Some? <==> x in s.order)
    ensures SignalsIffEarliest(s, Publish(s, a), a)
  {
    var order := Insert(s.objects, s.order, a);
    Inserted(s.objects, s.order, a);
    if order[0] == a {
      forall b | Armed(s, b) && b != a ensures Before(s.objects[a].next, a, s.objects[b].next, b) {
        assert b in order;
      }
    } else {
      var b := order[0];
      assert b in order && b in s.order && Armed(s, b);
      var i :| 0 <= i < |order| && order[i] == a;
      assert Before(s.objects[b].next, b, s.objects[a].next, a);
    }
  }

  /** A new timer is due its period after the clock it was made with. */
  lemma AddExact(s: Timers, a: nat, at: U64, ms: U64, cb: nat, recurring: bool)
    requires Inv(s) && a !in s.objects
    ensures var r := Apply(s, Add(a, at, ms, cb, recurring));
            OnlyTimer(s, r, a, Timer(recurring, ms, Word(at + ms), Some(cb))) && SignalsIffEarliest(s, r, a)
  {
    var s1 := s.(objects := s.objects[a := Timer(recurring, ms, Add64(at, ms), Some(cb))]);
    Words(at, ms);
    SortedFrame(s.objects, s1.objects, s.order);
    PublishSignals(s1, a);
  }

  /** `refresh` moves the deadline of an armed timer to its period from now, and tells nobody. */
  lemma RefreshExact(s: Timers, a: nat, now: U64)
    requires Inv(s) && a in s.objects
    ensures var r, t := Apply(s, Refresh(a, now)), s.objects[a];
            if !Armed(s, a) then r == s
            else OnlyTimer(s, r, a, t.(next := Word(now + t.ms))) && r.signals == s.signals && r.tickled == s.tickled
  {
    if Armed(s, a) {
      FindFinds(s.objects, s.order, a);
      Words(now, s.objects[a].ms);
    }
  }

  /** `reset` gives an armed timer a new period, counted from now or from where its last one began, and
      signals an earliest deadline; asked for the period it has, and not from now, it does nothing. */
  lemma ResetExact(s: Timers, a: nat, now: U64, ms: U64, fromNow: bool)
    requires Inv(s) && a in s.objects
    ensures var r, t := Apply(s, Reset(a, now, ms, fromNow)), s.objects[a];
            if !Armed(s, a) || (ms == t.ms && !fromNow) then r == s
            else
              var next := if fromNow then Word(now + ms) else Word(t.next - t.ms + ms);
              OnlyTimer(s, r, a, Timer(t.recurring, ms, next, t.cb)) && SignalsIffEarliest(s, r, a)
  {
    var t := s.objects[a];
    if Armed(s, a) && !(ms == t.ms && !fromNow) {
      var next := NextAfterReset(t, now, ms, fromNow);
      var r := RearmSignals(s, a, Timer(t.recurring, ms, next, t.cb));
    }
  }

  lemma NextAfterReset(t: Timer, now: U64, ms: U64, fromNow: bool) returns (next: U64)
    ensures next == if fromNow then Word(now + ms) else Word(t.next - t.ms + ms)
    ensures next == Add64(if fromNow then now else Sub64(t.next, t.ms), ms)
  {
    Words(now, ms);
    WordsFrom(t.next, t.ms, ms);
    next := if fromNow then Word(now + ms) else Word(t.next - t.ms + ms);
  }

  /** Taking an armed timer out, changing it and publishing it again. */
  lemma RearmSignals(s: Timers, a: nat, t: Timer) returns (r: Timers)
    requires Inv(s) && Armed(s, a) && t.recurring == s.objects[a].recurring && t.cb == s.objects[a].cb
    ensures Find(s.objects, s.order, a).Some?
    ensures var objects, order := s.objects[a := t], Erase(s.order, Find(s.objects, s.order, a).value);
            Known(objects, order) && r == Publish(s.(objects := objects, order := order), a)
    ensures OnlyTimer(s, r, a, t) && SignalsIffEarliest(s, r, a)
  {
    RekeyKeeps(s, a, t);
    var k := Find(s.objects, s.order, a).value;
    Erased(s.objects, s.order, k);
    var s1 := s.(objects := s.objects[a := t], order := Erase(s.order, k));
    PublishSignals(s1, a);
    r := Publish(s1, a);
  }

  /** `cancel` takes the callback of an armed timer away. */
  lemma CancelExact(s: Timers, a: nat)
    requires Inv(s) && a in s.objects
    ensures var r := Apply(s, Cancel(a));
            OnlyTimer(s, r, a, s.objects[a].(cb := None)) && r.signals == s.signals && r.tickled == s.tickled
  {
    CancelKeeps(s, a);
    assert s.objects[a].cb == None ==> s.objects == s.objects[a := s.objects[a].(cb := None)];
  }

  // ---------------------------------------------------------------------------------------
  // Expiry
  // ---------------------------------------------------------------------------------------

  /** The clock has gone back by more than an hour of 3,600,000 ms; a last time within the first hour of the
      64-bit clock counts as such whenever the clock is behind it. */
  predicate WentBack(previous: U64, now: U64) {
    now < previous && (previous < 3_600_000 || now < previous - 3_600_000)
  }

  predicate IsOver(s: Timers, a: nat, now: U64)
    requires a in s.objects
  {
    Armed(s, a) && (WentBack(s.previous, now) || s.objects[a].next <= now)
  }

  ghost predicate HandedSince(s: Timers, r: Timers, a: nat) {
    exists i :: |s.handed| <= i < |r.handed| && r.handed[i].timer == a
  }

  /** Timer `a` after an expiry. */
  function AfterExpiry(s: Timers, a: nat, now: U64): Timer
    requires a in s.objects
  {
    var t := s.objects[a];
    if !IsOver(s, a, now) then t else if t.recurring then t.(next := Word(now + t.ms)) else t.(cb := None)
  }

  predicate HandedBefore(s: Timers, a: nat, b: nat)
    requires a in s.objects && b in s.objects
  {
    s.objects[a].next < s.objects[b].next || (s.objects[a].next == s.objects[b].next && a < b)
  }

  /** The callbacks of exactly the timers that are over are appended to the log, by deadline, then address. */
  ghost predicate LogsExpired(s: Timers, r: Timers, now: U64) {
    && s.handed <= r.handed
    && (forall i :: |s.handed| <= i < |r.handed| ==>
          && r.handed[i].timer in s.objects && IsOver(s, r.handed[i].timer, now)
          && r.handed[i].cb == s.objects[r.handed[i].timer].cb)
    && (forall a :: a in s.objects && IsOver(s, a, now) ==> HandedSince(s, r, a))
    && (forall i, j :: |s.handed| <= i < j < |r.handed| ==> HandedBefore(s, r.handed[i].timer, r.handed[j].timer))
  }

  ghost predicate RearmsExpired(s: Timers, r: Timers, now: U64) {
    r.objects.Keys == s.objects.Keys && forall a :: a in s.objects ==> r.objects[a] == AfterExpiry(s, a, now)
  }

  /** Nobody is told, and the clock is remembered unless there was nothing to look at. */
  ghost predicate StampsExpiry(s: Timers, r: Timers, now: U64) {
    && r.signals == s.signals && r.tickled == s.tickled && r.seen == s.seen
    && (r.previous == if forall a :: !Armed(s, a) then s.previous else now)
  }

  /** `listExpiredCb` hands out the callbacks of exactly the timers that are over, each once and by deadline,
      then address, and appends them to what was handed out before. A recurring one is armed again for its
      period from now, a one-shot loses its callback, every other timer is as it was, and nobody is told. */
  lemma ExpireHandsOut(s: Timers, now: U64, sentinel: nat)
    requires Inv(s)
    ensures LogsExpired(s, Apply(s, Expire(now, sentinel)), now)
    ensures RearmsExpired(s, Apply(s, Expire(now, sentinel)), now)
    ensures StampsExpiry(s, Apply(s, Expire(now, sentinel)), now)
  {
    var r := Apply(s, Expire(now, sentinel));
    assert LogsExpired(s, r, now) && RearmsExpired(s, r, now) by {
      ExpiryLogsAndRearms(s, now, sentinel);
    }
    ExpiryStamps(s, now, sentinel);
  }

  lemma ExpiryLogsAndRearms(s: Timers, now: U64, sentinel: nat)
    requires Inv(s)
    ensures LogsExpired(s, ListExpired(s, now, sentinel), now) && RearmsExpired(s, ListExpired(s, now, sentinel), now)
  {
    ExpireExact(s, now, sentinel);
    ExpiredLogs(s, now, sentinel, ListExpired(s, now, sentinel));
    ExpiredRearms(s, now, ListExpired(s, now, sentinel));
  }

  lemma ExpiredRearms(s: Timers, now: U64, r: Timers)
    requires Inv(s) && Known(s.objects, Due(s, s.order, now)) && Expired(s, r, Due(s, s.order, now), now)
    ensures RearmsExpired(s, r, now)
  {
    DueIsOver(s, now);
    forall a | a in s.objects ensures r.objects[a] == AfterExpiry(s, a, now) {
      Words(now, s.objects[a].ms);
    }
  }

  lemma ExpiryStamps(s: Timers, now: U64, sentinel: nat)
    requires Inv(s)
    ensures StampsExpiry(s, ListExpired(s, now, sentinel), now)
  {
    DueIsOver(s, now);
  }

  lemma ExpiredLogs(s: Timers, now: U64, sentinel: nat, r: Timers)
    requires Inv(s) && Known(s.objects, Due(s, s.order, now)) && Expired(s, r, Due(s, s.order, now), now)
    ensures LogsExpired(s, r, now)
  {
    DueIsOver(s, now);
    DueInOrder(s, now, sentinel);
    HandOutsOf(s, r, Due(s, s.order, now));
  }

  lemma DueIsOver(s: Timers, now: U64)
    requires Inv(s)
    ensures forall a :: a in Due(s, s.order, now) <==> a in s.objects && IsOver(s, a, now)
    ensures s.order == [] <==> forall a :: !Armed(s, a)
  {
    DueMembers(s, s.order, now);
    WentBackIff(s.previous, now);
    if s.order != [] {
      assert s.order[0] in s.order && Armed(s, s.order[0]);
    }
  }

  /** The hand-outs of the timers `due`, behind the earlier ones. */
  lemma HandOutsOf(s: Timers, r: Timers, due: seq<nat>)
    requires Known(s.objects, due) && Sorted(s.objects, due) && r.handed == s.handed + HandOuts(s.objects, due)
    ensures s.handed <= r.handed
    ensures forall i :: |s.handed| <= i < |r.handed| ==>
              && r.handed[i].timer in due && r.handed[i].timer in s.objects
              && r.handed[i].cb == s.objects[r.handed[i].timer].cb
    ensures forall a :: a in due ==> HandedSince(s, r, a)
    ensures forall i, j :: |s.handed| <= i < j < |r.handed| ==> HandedBefore(s, r.handed[i].timer, r.handed[j].timer)
  {
    var n := |s.handed|;
    assert forall i :: n <= i < |r.handed| ==> r.handed[i] == Handed(due[i - n], s.objects[due[i - n]].cb);
    forall a | a in due ensures HandedSince(s, r, a) {
      var k :| 0 <= k < |due| && due[k] == a;
      assert r.handed[n + k].timer == a;
    }
  }

  lemma WentBackIff(previous: U64, now: U64)
    ensures Rollover(previous, now) <==> WentBack(previous, now)
  {
  }

  lemma DueInOrder(s: Timers, now: U64, sentinel: nat)
    requires Inv(s)
    ensures var due := Due(s, s.order, now); Known(s.objects, due) && Sorted(s.objects, due)
  {
    var k := DueCount(s, now, sentinel);
    if !Rollover(s.previous, now) {
      DueExact(s, now, sentinel);
    }
    DuePrefix(s, s.order, k, now);
  }
}
