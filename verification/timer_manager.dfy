/**
 The timer manager as the object whose methods update the ordered set, the timers and the tickle
 flag in place. Timers are named by address; each method is proved to have the effect of one call
 on `TimerState.Timers`.
 */
module TimerManagers {
  import opened Wrappers
  import opened TimerState

  class TimerManager {
    var objects: map<nat, Timer>
    var order: seq<nat>
    var tickled: bool
    var previous: U64
    var handed: seq<Handed>
    var signals: nat
    var signalsAtLook: nat
    var seen: Option<U64>
    var broken: bool

    function State(): Timers
      reads this
    {
      Timers(objects, order, tickled, previous, handed, signals, signalsAtLook, seen, broken)
    }

    constructor (now: U64)
      ensures State() == Init(now)
    {
      objects, order, tickled, previous := map[], [], false, now;
      handed, signals, signalsAtLook, seen, broken := [], 0, 0, None, false;
    }

    /** The walk of the set up to the first element that is not before the key. */
    method Search(next: U64, addr: nat) returns (k: nat)
      requires Known(objects, order)
      ensures k == LowerBound(objects, order, next, addr)
    {
      k := 0;
      while k < |order| && Before(objects[order[k]].next, order[k], next, addr)
        invariant k <= |order|
        invariant LowerBound(objects, order, next, addr) == k + LowerBound(objects, order[k..], next, addr)
      {
        assert order[k..][1..] == order[k + 1..];
        k := k + 1;
      }
    }

    method InsertTimer(addr: nat) returns (front: bool)
      requires Known(objects, order) && addr in objects
      modifies this`order
      ensures order == Insert(objects, old(order), addr)
      ensures front <==> order[0] == addr
    {
      var k := Search(objects[addr].next, addr);
      order := order[..k] + [addr] + order[k..];
      front := order[0] == addr;
    }

    method PublishTimer(addr: nat)
      requires Known(objects, order) && addr in objects
      modifies this`order, this`tickled, this`signals
      ensures State() == Publish(old(State()), addr)
    {
      var front := InsertTimer(addr);
      var atFront := front && !tickled;
      if atFront {
        tickled := true;
      }
      if atFront {
        signals := signals + 1;
      }
    }

    method AddTimer(addr: nat, at: U64, ms: U64, cb: nat, recurring: bool)
      requires Known(objects, order) && addr !in objects
      modifies this
      ensures State() == TimerState.AddTimer(old(State()), addr, at, ms, cb, recurring)
    {
      objects := objects[addr := Timer(recurring, ms, Add64(at, ms), Some(cb))];
      PublishTimer(addr);
    }

    method FindTimer(addr: nat) returns (found: Option<nat>)
      requires Known(objects, order) && addr in objects
      ensures found == Find(objects, order, addr)
    {
      var k := Search(objects[addr].next, addr);
      if k < |order| && !Before(objects[addr].next, addr, objects[order[k]].next, order[k]) {
        return Some(k);
      }
      return None;
    }

    method Cancel(addr: nat) returns (done: bool)
      requires Known(objects, order) && addr in objects
      modifies this
      ensures State() == CancelTimer(old(State()), addr)
      ensures done <==> old(objects)[addr].cb.Some?
      ensures !done ==> unchanged(this)
    {
      if objects[addr].cb.Some? {
        var before := objects;
        objects := objects[addr := objects[addr].(cb := None)];
        var it := FindTimer(addr);
        if it.None? {
          objects := before;
          broken := true;
        } else {
          order := order[..it.value] + order[it.value + 1..];
        }
        return true;
      }
      return false;
    }

    method Refresh(addr: nat, now: U64) returns (done: bool)
      requires Known(objects, order) && addr in objects
      modifies this
      ensures State() == RefreshTimer(old(State()), addr, now)
      ensures done <==> old(objects)[addr].cb.Some? && Find(old(objects), old(order), addr).Some?
      ensures !done ==> unchanged(this)
    {
      if objects[addr].cb.None? {
        return false;
      }
      var it := FindTimer(addr);
      if it.None? {
        return false;
      }
      order := order[..it.value] + order[it.value + 1..];
      objects := objects[addr := objects[addr].(next := Add64(now, objects[addr].ms))];
      var _ := InsertTimer(addr);
      return true;
    }

    method Reset(addr: nat, now: U64, ms: U64, fromNow: bool) returns (done: bool)
      requires Known(objects, order) && addr in objects
      modifies this
      ensures State() == ResetTimer(old(State()), addr, now, ms, fromNow)
      ensures done <==> || (ms == old(objects)[addr].ms && !fromNow)
                        || (old(objects)[addr].cb.Some? && Find(old(objects), old(order), addr).Some?)
      ensures !done ==> unchanged(this)
    {
      if ms == objects[addr].ms && !fromNow {
        return true;
      }
      if objects[addr].cb.None? {
        return false;
      }
      var it := FindTimer(addr);
      if it.None? {
        return false;
      }
      order := order[..it.value] + order[it.value + 1..];
      var t := objects[addr];
      var start: U64 := 0;
      if fromNow {
        start := now;
      } else {
        start := Sub64(t.next, t.ms);
      }
      objects := objects[addr := t.(ms := ms, next := Add64(start, ms))];
      assert State() == old(State()).(objects := objects, order := order);
      PublishTimer(addr);
      return true;
    }

    method GetNextTimer(now: U64) returns (wait: U64)
      requires Known(objects, order)
      modifies this`tickled, this`signalsAtLook, this`seen
      ensures State() == Look(old(State()))
      ensures wait == Wait(State(), now)
    {
      tickled := false;
      signalsAtLook := signals;
      if order == [] {
        seen := None;
        return WORD - 1;
      }
      var next := objects[order[0]].next;
      seen := Some(next);
      if now >= next {
        return 0;
      } else {
        return next - now;
      }
    }

    /** Where the expired prefix of the set ends. */
    method ExpiredEnd(now: U64, sentinel: nat, rollover: bool) returns (it: nat)
      requires Known(objects, order)
      ensures it == if rollover then |order|
                    else SkipEqual(objects, order, LowerBound(objects, order, now, sentinel), now)
    {
      it := |order|;
      if !rollover {
        it := Search(now, sentinel);
        ghost var from := it;
        while it < |order| && objects[order[it]].next == now
          invariant from <= it <= |order|
          invariant SkipEqual(objects, order, from, now) == SkipEqual(objects, order, it, now)
        {
          it := it + 1;
        }
      }
    }

    /** One turn of the loop over the expired timers. */
    method DrainOne(a: nat, now: U64)
      requires Known(objects, order) && a in objects
      modifies this`objects, this`order
      ensures objects == old(objects)[a := After(old(objects)[a], now)]
      ensures order == if old(objects)[a].recurring then Insert(objects, old(order), a) else old(order)
    {
      if objects[a].recurring {
        objects := objects[a := objects[a].(next := Add64(now, objects[a].ms))];
        var _ := InsertTimer(a);
      } else {
        objects := objects[a := objects[a].(cb := None)];
      }
    }

    /** The loop that collects the callbacks and re-arms or disarms their timers. */
    method DrainExpired(expired: seq<nat>, now: U64) returns (cbs: seq<Handed>)
      requires Known(objects, order) && Known(objects, expired)
      modifies this`objects, this`order
      ensures Drained(objects, order, cbs) == Drain(old(objects), old(order), expired, now)
    {
      cbs := [];
      ghost var goal := Drain(objects, order, expired, now);
      var rest := expired;
      while rest != []
        invariant Known(objects, order) && Known(objects, rest)
        invariant var d := Drain(objects, order, rest, now);
                  goal == Drained(d.objects, d.order, cbs + d.handed)
        decreases |rest|
      {
        ghost var before := cbs;
        cbs := cbs + [Handed(rest[0], objects[rest[0]].cb)];
        DrainOne(rest[0], now);
        rest := rest[1..];
        HandedMore(before, cbs[|before|], Drain(objects, order, rest, now).handed);
      }
    }

    /** The expired timers leave the set, and their callbacks are collected. */
    method Collect(now: U64, it: nat) returns (cbs: seq<Handed>)
      requires Known(objects, order) && it <= |order|
      modifies this`objects, this`order, this`handed
      ensures var d := Drain(old(objects), old(order)[it..], old(order)[..it], now);
              objects == d.objects && order == d.order && cbs == d.handed && handed == old(handed) + cbs
    {
      var expired := order[..it];
      order := order[it..];
      cbs := DrainExpired(expired, now);
      handed := handed + cbs;
    }

    method ListExpiredCb(now: U64, sentinel: nat) returns (cbs: seq<Handed>)
      requires Known(objects, order)
      modifies this
      ensures State() == ListExpired(old(State()), now, sentinel)
      ensures handed == old(handed) + cbs
    {
      cbs := [];
      if order == [] {
        return;
      }
      var rollover := now < previous && now < Sub64(previous, HOUR);
      previous := now;
      if !rollover && objects[order[0]].next > now {
        return;
      }
      var it := ExpiredEnd(now, sentinel, rollover);
      cbs := Collect(now, it);
    }
  }

  lemma HandedMore(cbs: seq<Handed>, h: Handed, more: seq<Handed>)
    ensures cbs + ([h] + more) == cbs + [h] + more
  {
  }
}
