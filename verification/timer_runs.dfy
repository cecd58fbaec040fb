/**
 What every run of the timer manager keeps: the set stays strictly ordered, a timer has a callback
 iff it is in the set, callbacks are handed out exactly when due, and the sleeper is woken whenever
 a deadline gets earlier than the one it saw.
 */
module TimerRuns {
  import opened Wrappers
  import opened TimerState

  /** How often timer `a` appears in the hand-out log. */
  ghost function Times(handed: seq<Handed>, a: nat): nat {
    if handed == [] then 0
    else Times(handed[..|handed| - 1], a) + (if handed[|handed| - 1].timer == a then 1 else 0)
  }

  ghost predicate CallbackIffArmed(objects: map<nat, Timer>, order: seq<nat>) {
    forall a :: a in objects ==> (objects[a].cb.Some? <==> a in order)
  }

  /** What is left of a one-shot timer's single hand-out. */
  ghost predicate OneShotOnce(objects: map<nat, Timer>, handed: seq<Handed>) {
    forall a :: (a !in objects ==> Times(handed, a) == 0)
             && (a in objects && !objects[a].recurring ==>
                   Times(handed, a) + (if objects[a].cb.Some? then 1 else 0) <= 1)
  }

  ghost predicate SetOk(objects: map<nat, Timer>, order: seq<nat>) {
    Known(objects, order) && Sorted(objects, order) && CallbackIffArmed(objects, order)
  }

  ghost predicate Inv(s: Timers) {
    !s.broken && SetOk(s.objects, s.order) && OneShotOnce(s.objects, s.handed)
  }

  // ---------------------------------------------------------------------------------------
  // The ordered set
  // ---------------------------------------------------------------------------------------

  lemma SortedFrame(objects: map<nat, Timer>, objects': map<nat, Timer>, order: seq<nat>)
    requires Known(objects, order) && Sorted(objects, order) && Known(objects', order)
    requires forall i :: 0 <= i < |order| ==> objects'[order[i]].next == objects[order[i]].next
    ensures Sorted(objects', order)
  {
  }

  /** `find` never misses an element of the set. */
  lemma FindFinds(objects: map<nat, Timer>, order: seq<nat>, a: nat)
    requires Known(objects, order) && Sorted(objects, order) && a in objects && a in order
    ensures Find(objects, order, a).Some?
  {
    var k := LowerBound(objects, order, objects[a].next, a);
    var j :| 0 <= j < |order| && order[j] == a;
    assert k <= j;
  }

  lemma Erased(objects: map<nat, Timer>, order: seq<nat>, k: nat)
    requires Known(objects, order) && Sorted(objects, order) && k < |order|
    ensures Known(objects, Erase(order, k)) && Sorted(objects, Erase(order, k))
    ensures forall x :: x in Erase(order, k) <==> x in order && x != order[k]
  {
    var r := Erase(order, k);
    forall x ensures x in r <==> x in order && x != order[k] {
      if x in order && x != order[k] {
        var j :| 0 <= j < |order| && order[j] == x;
        assert r[if j < k then j else j - 1] == x;
      }
      if x in r {
        var j :| 0 <= j < |r| && r[j] == x;
        assert x == order[if j < k then j else j + 1];
      }
    }
  }

  /** The elements from the lower bound of an absent key on come after it. */
  lemma BehindBound(objects: map<nat, Timer>, order: seq<nat>, a: nat, k: nat, i: nat)
    requires Known(objects, order) && Sorted(objects, order) && a in objects && a !in order && k <= i < |order|
    requires !Before(objects[order[k]].next, order[k], objects[a].next, a)
    ensures Before(objects[a].next, a, objects[order[i]].next, order[i])
  {
    assert order[k] in order;
    if k < i {
      assert Before(objects[order[k]].next, order[k], objects[order[i]].next, order[i]);
    }
  }

  /** A sequence with one more element: what is at each place. */
  lemma MiddleAt(order: seq<nat>, k: nat, a: nat, i: nat)
    requires k <= |order| && i <= |order|
    ensures (order[..k] + [a] + order[k..])[i] == if i < k then order[i] else if i == k then a else order[i - 1]
  {
  }

  lemma MiddleMembers(order: seq<nat>, k: nat, a: nat)
    requires k <= |order|
    ensures forall x :: x in order[..k] + [a] + order[k..] <==> x in order || x == a
  {
    assert order == order[..k] + order[k..];
    assert forall x :: x in order <==> x in order[..k] || x in order[k..];
  }

  /** Two elements of the sequence with `a` in its place. */
  lemma InsertedPair(objects: map<nat, Timer>, order: seq<nat>, r: seq<nat>, a: nat, k: nat, i: nat, j: nat)
    requires Known(objects, order) && Sorted(objects, order) && a in objects && a !in order && k <= |order|
    requires forall i :: 0 <= i < k ==> Before(objects[order[i]].next, order[i], objects[a].next, a)
    requires k < |order| ==> !Before(objects[order[k]].next, order[k], objects[a].next, a)
    requires r == order[..k] + [a] + order[k..] && i < j < |r|
    ensures r[i] in objects && r[j] in objects && Before(objects[r[i]].next, r[i], objects[r[j]].next, r[j])
  {
    MiddleAt(order, k, a, i);
    MiddleAt(order, k, a, j);
    if i == k {
      BehindBound(objects, order, a, k, j - 1);
    }
  }

  lemma Inserted(objects: map<nat, Timer>, order: seq<nat>, a: nat)
    requires Known(objects, order) && Sorted(objects, order) && a in objects && a !in order
    ensures Sorted(objects, Insert(objects, order, a))
    ensures forall x :: x in Insert(objects, order, a) <==> x in order || x == a
  {
    var k := LowerBound(objects, order, objects[a].next, a);
    var r := order[..k] + [a] + order[k..];
    MiddleMembers(order, k, a);
    forall i, j | 0 <= i < j < |r| ensures Before(objects[r[i]].next, r[i], objects[r[j]].next, r[j]) {
      InsertedPair(objects, order, r, a, k, i, j);
    }
  }

  // ---------------------------------------------------------------------------------------
  // Single calls
  // ---------------------------------------------------------------------------------------

  lemma PublishKeeps(s: Timers, a: nat)
    requires Known(s.objects, s.order) && Sorted(s.objects, s.order) && a in s.objects && a !in s.order
    requires forall x :: x in s.objects && x != a ==> (s.objects[x].cb.Some? <==> x in s.order)
    requires s.objects[a].cb.Some?
    ensures SetOk(Publish(s, a).objects, Publish(s, a).order)
  {
    Inserted(s.objects, s.order, a);
  }

  lemma AddKeeps(s: Timers, a: nat, at: U64, ms: U64, cb: nat, recurring: bool)
    requires Inv(s) && a !in s.objects
    ensures Inv(AddTimer(s, a, at, ms, cb, recurring))
  {
    var s1 := s.(objects := s.objects[a := Timer(recurring, ms, Add64(at, ms), Some(cb))]);
    SortedFrame(s.objects, s1.objects, s.order);
    PublishKeeps(s1, a);
  }

  lemma CancelKeeps(s: Timers, a: nat)
    requires Inv(s) && a in s.objects
    ensures Inv(CancelTimer(s, a))
  {
    if s.objects[a].cb.Some? {
      var objects := s.objects[a := s.objects[a].(cb := None)];
      SortedFrame(s.objects, objects, s.order);
      FindFinds(objects, s.order, a);
      Erased(objects, s.order, Find(objects, s.order, a).value);
    }
  }

  /** Taking a timer out, changing its deadline outside the set and putting it back. */
  lemma RekeyKeeps(s: Timers, a: nat, t: Timer)
    requires Inv(s) && a in s.objects && s.objects[a].cb.Some?
    requires t.recurring == s.objects[a].recurring && t.cb == s.objects[a].cb
    ensures Find(s.objects, s.order, a).Some?
    ensures var objects := s.objects[a := t];
            var order := Erase(s.order, Find(s.objects, s.order, a).value);
            && a !in order
            && Known(objects, order) && Sorted(objects, order)
            && SetOk(objects, Insert(objects, order, a))
            && OneShotOnce(objects, s.handed)
  {
    FindFinds(s.objects, s.order, a);
    var k := Find(s.objects, s.order, a).value;
    Erased(s.objects, s.order, k);
    var objects := s.objects[a := t];
    var order := Erase(s.order, k);
    SortedFrame(s.objects, objects, order);
    Inserted(objects, order, a);
  }

  lemma RefreshKeeps(s: Timers, a: nat, now: U64)
    requires Inv(s) && a in s.objects
    ensures Inv(RefreshTimer(s, a, now))
  {
    if s.objects[a].cb.Some? {
      RekeyKeeps(s, a, s.objects[a].(next := Add64(now, s.objects[a].ms)));
    }
  }

  lemma ResetKeeps(s: Timers, a: nat, now: U64, ms: U64, fromNow: bool)
    requires Inv(s) && a in s.objects
    ensures Inv(ResetTimer(s, a, now, ms, fromNow))
  {
    if s.objects[a].cb.Some? {
      var t := s.objects[a];
      var start := if fromNow then now else Sub64(t.next, t.ms);
      RekeyKeeps(s, a, t.(ms := ms, next := Add64(start, ms)));
    }
  }

  // ---------------------------------------------------------------------------------------
  // Expiry
  // ---------------------------------------------------------------------------------------

  /** Whatever address the sentinel gets, the search selects exactly the timers that are due. */
  lemma DueExact(s: Timers, now: U64, sentinel: nat)
    requires Known(s.objects, s.order) && Sorted(s.objects, s.order) && !Rollover(s.previous, now)
    ensures var k := DueCount(s, now, sentinel);
            && (forall i :: 0 <= i < k ==> s.objects[s.order[i]].next <= now)
            && (forall i :: k <= i < |s.order| ==> now < s.objects[s.order[i]].next)
  {
    var b := LowerBound(s.objects, s.order, now, sentinel);
    var k := DueCount(s, now, sentinel);
    forall i | k <= i < |s.order| ensures now < s.objects[s.order[i]].next {
      if b < k {
        assert s.objects[s.order[b]].next == now;
        assert Before(s.objects[s.order[b]].next, s.order[b], s.objects[s.order[k]].next, s.order[k]);
      }
      if k < i {
        assert Before(s.objects[s.order[k]].next, s.order[k], s.objects[s.order[i]].next, s.order[i]);
      }
    }
  }

  ghost predicate Distinct(s: seq<nat>) {
    forall i, j :: 0 <= i < j < |s| ==> s[i] != s[j]
  }

  ghost predicate Apart(s: seq<nat>, t: seq<nat>) {
    forall x :: x in s ==> x !in t
  }

  lemma {:induction false} DrainExact(objects: map<nat, Timer>, order: seq<nat>, expired: seq<nat>, now: U64)
    requires Known(objects, order) && Sorted(objects, order)
    requires Known(objects, expired) && Distinct(expired) && Apart(expired, order)
    ensures var r := Drain(objects, order, expired, now);
            && Sorted(r.objects, r.order)
            && (forall x :: x in r.order <==> x in order || (x in expired && objects[x].recurring))
            && (forall x :: x in objects ==>
                  r.objects[x] == if x in expired then After(objects[x], now) else objects[x])
            && |r.handed| == |expired|
            && (forall i :: 0 <= i < |expired| ==> r.handed[i] == Handed(expired[i], objects[expired[i]].cb))
    decreases |expired|
  {
    if expired != [] {
      var a := expired[0];
      var rest := expired[1..];
      var objects' := objects[a := After(objects[a], now)];
      assert forall x :: x in expired <==> x == a || x in rest;
      SortedFrame(objects, objects', order);
      var order' := order;
      if objects[a].recurring {
        Inserted(objects', order, a);
        order' := Insert(objects', order, a);
      }
      DrainExact(objects', order', rest, now);
    }
  }

  predicate IsDue(s: Timers, a: nat, now: U64)
    requires a in s.objects
  {
    Rollover(s.previous, now) || s.objects[a].next <= now
  }

  /** The due timers of the set, in set order: the reference the sentinel search is compared with. */
  ghost function Due(s: Timers, order: seq<nat>, now: U64): seq<nat>
    requires Known(s.objects, order)
  {
    if order == [] then []
    else
      var n := |order| - 1;
      Due(s, order[..n], now) + (if IsDue(s, order[n], now) then [order[n]] else [])
  }

  lemma {:induction false} DuePrefix(s: Timers, order: seq<nat>, k: nat, now: U64)
    requires Known(s.objects, order) && k <= |order|
    requires forall i :: 0 <= i < k ==> IsDue(s, order[i], now)
    requires forall i :: k <= i < |order| ==> !IsDue(s, order[i], now)
    ensures Due(s, order, now) == order[..k]
    decreases |order|
  {
    if order != [] {
      var n := |order| - 1;
      if k == |order| {
        DuePrefix(s, order[..n], n, now);
        assert order[..n][..n] + [order[n]] == order[..k];
      } else {
        DuePrefix(s, order[..n], k, now);
        assert order[..n][..k] == order[..k];
      }
    }
  }

  lemma {:induction false} DueMembers(s: Timers, order: seq<nat>, now: U64)
    requires Known(s.objects, order)
    ensures forall a :: a in Due(s, order, now) <==> a in order && IsDue(s, a, now)
  {
    if order != [] {
      var n := |order| - 1;
      DueMembers(s, order[..n], now);
      assert order == order[..n] + [order[n]];
      assert forall a :: a in order <==> a in order[..n] || a == order[n];
    }
  }

  ghost function HandOuts(objects: map<nat, Timer>, due: seq<nat>): seq<Handed>
    requires Known(objects, due)
  {
    seq(|due|, i requires 0 <= i < |due| => Handed(due[i], objects[due[i]].cb))
  }

  lemma DueKnown(s: Timers, now: U64)
    requires Known(s.objects, s.order)
    ensures Known(s.objects, Due(s, s.order, now))
  {
    DueMembers(s, s.order, now);
    forall i | 0 <= i < |Due(s, s.order, now)| ensures Due(s, s.order, now)[i] in s.objects {
      assert Due(s, s.order, now)[i] in s.order;
    }
  }

  /** What one expiry does to the timers `due` and to the rest. */
  ghost predicate Expired(s: Timers, r: Timers, due: seq<nat>, now: U64)
    requires Known(s.objects, due)
  {
    && Known(r.objects, r.order) && Sorted(r.objects, r.order)
    && r.handed == s.handed + HandOuts(s.objects, due)
    && r.objects.Keys == s.objects.Keys
    && (forall a :: a in s.objects ==> r.objects[a] == if a in due then After(s.objects[a], now) else s.objects[a])
    && (forall a :: a in r.order <==> a in s.order && (a in due ==> s.objects[a].recurring))
  }

  lemma SplitSorted(objects: map<nat, Timer>, order: seq<nat>, k: nat)
    requires Known(objects, order) && Sorted(objects, order) && k <= |order|
    ensures Known(objects, order[..k]) && Known(objects, order[k..]) && Sorted(objects, order[k..])
    ensures Distinct(order[..k]) && Apart(order[..k], order[k..])
    ensures forall a :: a in order <==> a in order[..k] || a in order[k..]
  {
    assert order == order[..k] + order[k..];
    forall i, j | 0 <= i < j < |order| ensures order[i] != order[j] {
      assert Before(objects[order[i]].next, order[i], objects[order[j]].next, order[j]);
    }
  }

  lemma DrainPrefix(s: Timers, k: nat, now: U64)
    requires Known(s.objects, s.order) && Sorted(s.objects, s.order) && k <= |s.order|
    ensures var d := Drain(s.objects, s.order[k..], s.order[..k], now);
            Expired(s, s.(previous := now, objects := d.objects, order := d.order, handed := s.handed + d.handed),
                    s.order[..k], now)
  {
    var due, later := s.order[..k], s.order[k..];
    SplitSorted(s.objects, s.order, k);
    DrainExact(s.objects, later, due, now);
    assert Drain(s.objects, later, due, now).handed == HandOuts(s.objects, due);
  }

  /** `listExpiredCb` hands out the callbacks of exactly the due timers, in deadline order; due
      recurring timers come back at `now` plus their period, due one-shots are disarmed and leave
      the set, and every other timer is untouched. */
  lemma ExpireExact(s: Timers, now: U64, sentinel: nat)
    requires Inv(s)
    ensures Known(s.objects, Due(s, s.order, now))
    ensures Expired(s, ListExpired(s, now, sentinel), Due(s, s.order, now), now)
  {
    DueKnown(s, now);
    var k := DueCount(s, now, sentinel);
    if !Rollover(s.previous, now) {
      DueExact(s, now, sentinel);
    }
    DuePrefix(s, s.order, k, now);
    if s.order == [] || (!Rollover(s.previous, now) && s.objects[s.order[0]].next > now) {
      assert s.handed == s.handed + HandOuts(s.objects, []);
    } else {
      DrainPrefix(s, k, now);
    }
  }

  lemma {:induction false} TimesConcat(h: seq<Handed>, more: seq<Handed>, a: nat)
    ensures Times(h + more, a) == Times(h, a) + Times(more, a)
    decreases |more|
  {
    if more == [] {
      assert h + more == h;
    } else {
      var n := |more| - 1;
      TimesConcat(h, more[..n], a);
      assert (h + more)[..|h| + n] == h + more[..n];
    }
  }

  lemma {:induction false} TimesHandOuts(objects: map<nat, Timer>, due: seq<nat>, a: nat)
    requires Known(objects, due) && Distinct(due)
    ensures Times(HandOuts(objects, due), a) == if a in due then 1 else 0
    decreases |due|
  {
    if due != [] {
      var n := |due| - 1;
      assert due == due[..n] + [due[n]];
      TimesHandOuts(objects, due[..n], a);
      assert HandOuts(objects, due)[..n] == HandOuts(objects, due[..n]);
      assert due[n] !in due[..n];
    }
  }

  lemma DueDistinct(s: Timers, now: U64)
    requires Known(s.objects, s.order) && Sorted(s.objects, s.order)
    ensures Known(s.objects, Due(s, s.order, now)) && Distinct(Due(s, s.order, now))
  {
    DueKnown(s, now);
    var k := DueCount(s, now, 0);
    if !Rollover(s.previous, now) {
      DueExact(s, now, 0);
    }
    DuePrefix(s, s.order, k, now);
    forall i, j | 0 <= i < j < k ensures s.order[i] != s.order[j] {
      assert Before(s.objects[s.order[i]].next, s.order[i], s.objects[s.order[j]].next, s.order[j]);
    }
  }

  lemma ExpireHandsOutOnce(s: Timers, now: U64, sentinel: nat)
    requires Inv(s)
    ensures OneShotOnce(ListExpired(s, now, sentinel).objects, ListExpired(s, now, sentinel).handed)
  {
    ExpireExact(s, now, sentinel);
    DueDistinct(s, now);
    DueMembers(s, s.order, now);
    var due := Due(s, s.order, now);
    forall a
      ensures Times(s.handed + HandOuts(s.objects, due), a) == Times(s.handed, a) + (if a in due then 1 else 0)
    {
      TimesConcat(s.handed, HandOuts(s.objects, due), a);
      TimesHandOuts(s.objects, due, a);
    }
  }

  lemma ExpireKeeps(s: Timers, now: U64, sentinel: nat)
    requires Inv(s)
    ensures Inv(ListExpired(s, now, sentinel))
  {
    ExpireExact(s, now, sentinel);
    ExpireHandsOutOnce(s, now, sentinel);
    DueMembers(s, s.order, now);
  }

  // ---------------------------------------------------------------------------------------
  // Runs
  // ---------------------------------------------------------------------------------------

  lemma StepKeeps(s: Timers, op: Op)
    requires Inv(s)
    ensures Inv(Apply(s, op))
  {
    match op
    case Add(a, at, ms, cb, recurring) => if a !in s.objects { AddKeeps(s, a, at, ms, cb, recurring); }
    case Cancel(a) => if a in s.objects { CancelKeeps(s, a); }
    case Refresh(a, now) => if a in s.objects { RefreshKeeps(s, a, now); }
    case Reset(a, now, ms, fromNow) => if a in s.objects { ResetKeeps(s, a, now, ms, fromNow); }
    case GetNext(_) =>
    case Expire(now, sentinel) => ExpireKeeps(s, now, sentinel);
  }

  /** The state a run of calls leads to from `s`. */
  ghost function Run(s: Timers, ops: seq<Op>): (r: Timers)
    requires Inv(s)
    ensures Inv(r)
    decreases |ops|
  {
    if ops == [] then s
    else
      StepKeeps(s, ops[0]);
      Run(Apply(s, ops[0]), ops[1..])
  }

  /** Over every run from the start: the set is strictly ordered, a published timer has a callback
      iff it is in the set, `cancel` never erased a missing element, and a one-shot is handed out at
      most once. */
  lemma RunSafe(start: U64, ops: seq<Op>, a: nat)
    ensures Inv(Init(start))
    ensures var s := Run(Init(start), ops);
            && !s.broken
            && Sorted(s.objects, s.order)
            && (a in s.objects ==> (s.objects[a].cb.Some? <==> a in s.order))
            && (a in s.objects && !s.objects[a].recurring ==> Times(s.handed, a) <= 1)
  {
    assert Inv(Init(start));
  }

  predicate Disarmed(s: Timers, a: nat) {
    a in s.objects && s.objects[a].cb.None?
  }

  /** A successful cancel disarms; a one-shot hand-out disarms. */
  lemma CancelDisarms(s: Timers, a: nat)
    requires Inv(s) && a in s.objects
    ensures Disarmed(CancelTimer(s, a), a)
    ensures CancelTimer(s, a).handed == s.handed
    ensures forall x :: x in s.objects && x != a ==> CancelTimer(s, a).objects[x] == s.objects[x]
  {
    CancelKeeps(s, a);
  }

  lemma StepKeepsDisarmed(s: Timers, op: Op, a: nat)
    requires Inv(s) && Disarmed(s, a)
    ensures Disarmed(Apply(s, op), a) && Times(Apply(s, op).handed, a) == Times(s.handed, a)
  {
    if op.Expire? {
      ExpireExact(s, op.now, op.sentinel);
      DueDistinct(s, op.now);
      DueMembers(s, s.order, op.now);
      var due := Due(s, s.order, op.now);
      TimesConcat(s.handed, HandOuts(s.objects, due), a);
      TimesHandOuts(s.objects, due, a);
    } else if op.Cancel? && op.addr in s.objects {
      CancelDisarms(s, op.addr);
    }
  }

  /** Once a timer is disarmed, by a successful cancel or by its only hand-out, no later call ever
      hands its callback out again or arms it. */
  lemma {:induction false} DisarmedForever(s: Timers, ops: seq<Op>, a: nat)
    requires Inv(s) && Disarmed(s, a)
    ensures Disarmed(Run(s, ops), a)
    ensures Times(Run(s, ops).handed, a) == Times(s.handed, a)
    decreases |ops|
  {
    if ops != [] {
      StepKeeps(s, ops[0]);
      StepKeepsDisarmed(s, ops[0], a);
      DisarmedForever(Apply(s, ops[0]), ops[1..], a);
    }
  }
}
