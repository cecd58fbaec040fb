/**
 The timer manager: an ordered set of timers keyed by (deadline, address). Times are the source's
 64-bit unsigned milliseconds, so additions and subtractions wrap explicitly. `Timers` is the
 whole state, `Apply` the effect of one call, `Run` the state after any sequence of calls.
 */
module TimerState {

  import opened Wrappers

  const WORD := 0x1_0000_0000_0000_0000
  const HOUR := 60 * 60 * 1000

  /** The source's `uint64_t`. */
  type U64 = n: int | 0 <= n < WORD

  function Add64(x: U64, y: U64): U64 {
    if x + y < WORD then x + y else x + y - WORD
  }

  function Sub64(x: U64, y: U64): U64 {
    if y <= x then x - y else x - y + WORD
  }

  datatype Timer = Timer(recurring: bool, ms: U64, next: U64, cb: Option<nat>)

  /** A callback handed out by `listExpiredCb`, with the timer it came from. */
  datatype Handed = Handed(timer: nat, cb: Option<nat>)

  /** `objects` are the timers ever published, by address; `order` is the content of `m_timers` in
      iteration order. The last four fields are history: the callbacks handed out, the calls of
      `onTimerInsertedAtFront`, and what the last `getNextTimer` saw. */
  datatype Timers = Timers(
    objects: map<nat, Timer>,
    order: seq<nat>,
    tickled: bool,
    previous: U64,
    handed: seq<Handed>,
    signals: nat,
    signalsAtLook: nat,
    seen: Option<U64>,
    broken: bool)

  // ---------------------------------------------------------------------------------------
  // The ordered set
  // ---------------------------------------------------------------------------------------

  /** `Timer::Comparator` on two timers: by deadline, then by address. */
  predicate Before(next1: U64, addr1: nat, next2: U64, addr2: nat) {
    next1 < next2 || (next1 == next2 && addr1 < addr2)
  }

  ghost predicate Known(objects: map<nat, Timer>, order: seq<nat>) {
    forall i :: 0 <= i < |order| ==> order[i] in objects
  }

  ghost predicate Sorted(objects: map<nat, Timer>, order: seq<nat>)
    requires Known(objects, order)
  {
    forall i, j :: 0 <= i < j < |order| ==>
      Before(objects[order[i]].next, order[i], objects[order[j]].next, order[j])
  }

  /** `std::set::lower_bound`: the place of the first element that is not before the key. */
  function LowerBound(objects: map<nat, Timer>, order: seq<nat>, next: U64, addr: nat): (k: nat)
    requires Known(objects, order)
    ensures k <= |order|
    ensures forall i :: 0 <= i < k ==> Before(objects[order[i]].next, order[i], next, addr)
    ensures k < |order| ==> !Before(objects[order[k]].next, order[k], next, addr)
  {
    if order != [] && Before(objects[order[0]].next, order[0], next, addr)
    then 1 + LowerBound(objects, order[1..], next, addr)
    else 0
  }

  /** `std::set::find`: an element equivalent to the key under the comparator. */
  function Find(objects: map<nat, Timer>, order: seq<nat>, addr: nat): (r: Option<nat>)
    requires Known(objects, order) && addr in objects
    ensures r.Some? ==> r.value < |order| && order[r.value] == addr
  {
    var k := LowerBound(objects, order, objects[addr].next, addr);
    if k < |order| && !Before(objects[addr].next, addr, objects[order[k]].next, order[k]) then Some(k) else None
  }

  function Erase(order: seq<nat>, k: nat): seq<nat>
    requires k < |order|
  {
    order[..k] + order[k + 1..]
  }

  function Insert(objects: map<nat, Timer>, order: seq<nat>, addr: nat): (r: seq<nat>)
    requires Known(objects, order) && addr in objects
    ensures Known(objects, r)
  {
    var k := LowerBound(objects, order, objects[addr].next, addr);
    order[..k] + [addr] + order[k..]
  }

  // ---------------------------------------------------------------------------------------
  // The calls
  // ---------------------------------------------------------------------------------------

  /** `addTimer(val, lock)`: insert, and signal when the timer lands in front for the first time
      since the last look. */
  function Publish(s: Timers, addr: nat): Timers
    requires Known(s.objects, s.order) && addr in s.objects
  {
    var order := Insert(s.objects, s.order, addr);
    var atFront := order[0] == addr && !s.tickled;
    s.(order := order,
       tickled := s.tickled || atFront,
       signals := if atFront then s.signals + 1 else s.signals)
  }

  function AddTimer(s: Timers, addr: nat, at: U64, ms: U64, cb: nat, recurring: bool): Timers
    requires Known(s.objects, s.order) && addr !in s.objects
  {
    Publish(s.(objects := s.objects[addr := Timer(recurring, ms, Add64(at, ms), Some(cb))]), addr)
  }

  /** `Timer::cancel` erases without looking at whether it found anything. */
  function CancelTimer(s: Timers, addr: nat): Timers
    requires Known(s.objects, s.order) && addr in s.objects
  {
    if s.objects[addr].cb.None? then s
    else
      var objects := s.objects[addr := s.objects[addr].(cb := None)];
      var found := Find(objects, s.order, addr);
      if found.None? then s.(broken := true)
      else s.(objects := objects, order := Erase(s.order, found.value))
  }

  function RefreshTimer(s: Timers, addr: nat, now: U64): Timers
    requires Known(s.objects, s.order) && addr in s.objects
  {
    var t := s.objects[addr];
    var found := Find(s.objects, s.order, addr);
    if t.cb.None? || found.None? then s
    else
      var objects := s.objects[addr := t.(next := Add64(now, t.ms))];
      s.(objects := objects, order := Insert(objects, Erase(s.order, found.value), addr))
  }

  function ResetTimer(s: Timers, addr: nat, now: U64, ms: U64, fromNow: bool): Timers
    requires Known(s.objects, s.order) && addr in s.objects
  {
    var t := s.objects[addr];
    var found := Find(s.objects, s.order, addr);
    if (ms == t.ms && !fromNow) || t.cb.None? || found.None? then s
    else
      var start := if fromNow then now else Sub64(t.next, t.ms);
      var objects := s.objects[addr := t.(ms := ms, next := Add64(start, ms))];
      Publish(s.(objects := objects, order := Erase(s.order, found.value)), addr)
  }

  /** The bookkeeping of `getNextTimer`. */
  function Look(s: Timers): Timers
    requires Known(s.objects, s.order)
  {
    s.(tickled := false,
       signalsAtLook := s.signals,
       seen := if s.order == [] then None else Some(s.objects[s.order[0]].next))
  }

  /** What `getNextTimer` returns: the wait until the front deadline, all ones when there is none. */
  function Wait(s: Timers, now: U64): U64
    requires Known(s.objects, s.order)
  {
    if s.order == [] then WORD - 1
    else if now >= s.objects[s.order[0]].next then 0
    else s.objects[s.order[0]].next - now
  }

  predicate Rollover(previous: U64, now: U64) {
    now < previous && now < Sub64(previous, HOUR)
  }

  /** How many timers, from the front, the sentinel search selects; `sentinel` is the address the
      temporary timer happens to get. */
  function DueCount(s: Timers, now: U64, sentinel: nat): (k: nat)
    requires Known(s.objects, s.order)
    ensures k <= |s.order|
  {
    if Rollover(s.previous, now) then |s.order|
    else SkipEqual(s.objects, s.order, LowerBound(s.objects, s.order, now, sentinel), now)
  }

  function SkipEqual(objects: map<nat, Timer>, order: seq<nat>, k: nat, now: U64): (r: nat)
    requires Known(objects, order) && k <= |order|
    ensures k <= r <= |order|
    ensures forall i :: k <= i < r ==> objects[order[i]].next == now
    ensures r < |order| ==> objects[order[r]].next != now
    decreases |order| - k
  {
    if k < |order| && objects[order[k]].next == now then SkipEqual(objects, order, k + 1, now) else k
  }

  /** An expired timer afterwards: re-armed one period from now, or disarmed for good. */
  function After(t: Timer, now: U64): Timer {
    if t.recurring then t.(next := Add64(now, t.ms)) else t.(cb := None)
  }

  datatype Drained = Drained(objects: map<nat, Timer>, order: seq<nat>, handed: seq<Handed>)

  /** The loop over the expired timers: hand the callback out, re-arm or disarm. */
  function Drain(objects: map<nat, Timer>, order: seq<nat>, expired: seq<nat>, now: U64): (r: Drained)
    requires Known(objects, order) && Known(objects, expired)
    ensures Known(r.objects, r.order)
    ensures r.objects.Keys == objects.Keys
    decreases |expired|
  {
    if expired == [] then Drained(objects, order, [])
    else
      var a := expired[0];
      var t := objects[a];
      var objects' := objects[a := After(t, now)];
      var order' := if t.recurring then Insert(objects', order, a) else order;
      var rest := Drain(objects', order', expired[1..], now);
      rest.(handed := [Handed(a, t.cb)] + rest.handed)
  }

  function ListExpired(s: Timers, now: U64, sentinel: nat): Timers
    requires Known(s.objects, s.order)
  {
    if s.order == [] then s
    else
      var stamped := s.(previous := now);
      if !Rollover(s.previous, now) && s.objects[s.order[0]].next > now then stamped
      else
        var k := DueCount(s, now, sentinel);
        var d := Drain(s.objects, s.order[k..], s.order[..k], now);
        stamped.(objects := d.objects, order := d.order, handed := s.handed + d.handed)
  }

  // ---------------------------------------------------------------------------------------
  // Runs
  // ---------------------------------------------------------------------------------------

  /** A call together with the clock it reads. `Add` reads its clock before taking the lock. */
  datatype Op =
    | Add(addr: nat, at: U64, ms: U64, cb: nat, recurring: bool)
    | Cancel(addr: nat)
    | Refresh(addr: nat, now: U64)
    | Reset(addr: nat, now: U64, ms: U64, fromNow: bool)
    | GetNext(now: U64)
    | Expire(now: U64, sentinel: nat)

  function Init(now: U64): Timers {
    Timers(map[], [], false, now, [], 0, 0, None, false)
  }

  /** A caller can only name a published timer, and the allocator only gives out unused addresses. */
  function Apply(s: Timers, op: Op): Timers
    requires Known(s.objects, s.order)
  {
    match op
    case Add(addr, at, ms, cb, recurring) => if addr in s.objects then s else AddTimer(s, addr, at, ms, cb, recurring)
    case Cancel(addr) => if addr in s.objects then CancelTimer(s, addr) else s
    case Refresh(addr, now) => if addr in s.objects then RefreshTimer(s, addr, now) else s
    case Reset(addr, now, ms, fromNow) => if addr in s.objects then ResetTimer(s, addr, now, ms, fromNow) else s
    case GetNext(_) => Look(s)
    case Expire(now, sentinel) => ListExpired(s, now, sentinel)
  }
}
