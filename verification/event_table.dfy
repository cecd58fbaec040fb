/**
 The event table of the I/O manager: one context per file descriptor, each with a read and a
 write slot, mirrored by the kernel's epoll set. `Io` is the whole state, the functions on it give
 the effect of one public call, `Run` the state after any sequence of calls, and the lemmas say
 what every run keeps. The imperative form is the class `IOManager` of iomanager.dfy.
 */
module EventTable {

  import opened Wrappers

  datatype Dir = Read | Write

  /** An event mask: the READ and WRITE bits. */
  datatype Mask = Mask(read: bool, write: bool)
  {
    predicate Has(d: Dir) {
      if d == Read then read else write
    }

    function With(d: Dir): Mask {
      if d == Read then this.(read := true) else this.(write := true)
    }

    function Minus(m: Mask): Mask {
      Mask(read && !m.read, write && !m.write)
    }

    predicate Meets(m: Mask) {
      (read && m.read) || (write && m.write)
    }

    predicate Within(m: Mask) {
      (read ==> m.read) && (write ==> m.write)
    }

    function Bits(): nat {
      (if read then 1 else 0) + (if write then 1 else 0)
    }
  }

  const NOTHING := Mask(false, false)

  function Only(d: Dir): Mask {
    NOTHING.With(d)
  }

  /** What a registration wakes: a parked fiber or a callback. */
  datatype Task = RunFiber(fiber: nat) | RunCallback(callback: nat)

  /** `ticket` numbers the successful registrations; it is the model's own bookkeeping. */
  datatype EventContext = EventContext(scheduler: Option<nat>, fiber: Option<nat>, cb: Option<nat>, ticket: nat)

  const VACANT := EventContext(None, None, None, 0)

  datatype FdContext = FdContext(fd: nat, read: EventContext, write: EventContext, events: Mask)
  {
    function Context(d: Dir): EventContext {
      if d == Read then read else write
    }

    function WithContext(d: Dir, c: EventContext): FdContext {
      if d == Read then this.(read := c) else this.(write := c)
    }
  }

  /** One successful `addEvent`: where it was armed, what it wakes and through which scheduler. */
  datatype Registration = Registration(fd: nat, dir: Dir, task: Task, scheduler: nat)

  /** One task handed to a scheduler on behalf of a registration. */
  datatype Firing = Firing(ticket: nat, scheduler: nat, task: Task)

  datatype CtlOp = CtlAdd | CtlMod | CtlDel

  datatype Io = Io(
    fds: seq<FdContext>,
    kernel: map<nat, Mask>,
    pending: int,
    registered: seq<Registration>,
    deleted: seq<nat>,
    fired: seq<Firing>,
    aborted: bool)

  /** The kernel refuses ADD on a watched descriptor and MOD or DEL on an unwatched one. */
  predicate CtlLegal(kernel: map<nat, Mask>, op: CtlOp, fd: nat) {
    op == CtlAdd <==> fd !in kernel
  }

  /** `epoll_ctl`: an illegal request always fails, a legal one succeeds when `luck` says so. */
  function EpollCtl(kernel: map<nat, Mask>, op: CtlOp, fd: nat, mask: Mask, luck: bool)
    : (r: (map<nat, Mask>, bool))
  {
    if !luck || !CtlLegal(kernel, op, fd) then (kernel, false)
    else if op == CtlDel then (kernel - {fd}, true)
    else (kernel[fd := mask], true)
  }

  // ---------------------------------------------------------------------------------------
  // The table
  // ---------------------------------------------------------------------------------------

  function Fresh(fd: nat): FdContext {
    FdContext(fd, VACANT, VACANT, NOTHING)
  }

  /** `std::vector::resize` followed by the loop that fills the new places. */
  function Resized(fds: seq<FdContext>, size: nat): (r: seq<FdContext>)
    ensures |r| == size
    ensures forall i :: 0 <= i < size ==> r[i] == if i < |fds| then fds[i] else Fresh(i)
  {
    seq(size, i requires 0 <= i => if i < |fds| then fds[i] else Fresh(i))
  }

  /** The table `addEvent` works on: grown to one and a half times `fd` when it is too short. */
  function Reached(fds: seq<FdContext>, fd: nat): seq<FdContext> {
    if fd < |fds| then fds else Resized(fds, fd * 3 / 2)
  }

  function TaskOf(c: EventContext): Option<Task> {
    match c.cb
    case Some(cb) => Some(RunCallback(cb))
    case None => match c.fiber
      case Some(f) => Some(RunFiber(f))
      case None => None
  }

  function Filled(ticket: nat, task: Task, scheduler: nat): EventContext {
    match task
    case RunFiber(f) => EventContext(Some(scheduler), Some(f), None, ticket)
    case RunCallback(c) => EventContext(Some(scheduler), None, Some(c), ticket)
  }

  // ---------------------------------------------------------------------------------------
  // The calls
  // ---------------------------------------------------------------------------------------

  datatype Call =
    | Add(fd: nat, dir: Dir, task: Task, scheduler: nat, luck: bool)
    | Del(fd: nat, dir: Dir, luck: bool)
    | Cancel(fd: nat, dir: Dir, luck: bool)
    | CancelAll(fd: nat, luck: bool)
    | Ready(fd: nat, flags: EpollFlags, luck: bool)

  /** The bits of one event returned by `epoll_wait`. */
  datatype EpollFlags = EpollFlags(readable: bool, writable: bool, errorOrHangup: bool)

  /** An error or a hang-up counts as readiness in both directions. */
  function RealEvents(flags: EpollFlags): Mask {
    Mask(flags.readable || flags.errorOrHangup, flags.writable || flags.errorOrHangup)
  }

  /** `triggerEvent`: clears the bit, hands the task over (which empties the slot) and forgets
      the scheduler. The assertion on the bit aborts. */
  function Trigger(s: Io, fd: nat, d: Dir): (r: Io)
    requires fd < |s.fds|
    ensures |r.fds| == |s.fds|
    ensures s.fired <= r.fired && r.deleted == s.deleted && r.registered == s.registered
  {
    var ctx := s.fds[fd];
    var slot := ctx.Context(d);
    if s.aborted || !ctx.events.Has(d) || slot.scheduler.None? || TaskOf(slot).None? then s.(aborted := true)
    else
      var drained := if slot.cb.Some? then slot.(cb := None, scheduler := None)
                                      else slot.(fiber := None, scheduler := None);
      s.(fds := s.fds[fd := Cleared(ctx, d, drained)],
         fired := s.fired + [Firing(slot.ticket, slot.scheduler.value, TaskOf(slot).value)],
         pending := s.pending - 1)
  }

  function TriggerBoth(s: Io, fd: nat, ds: Mask): (r: Io)
    requires fd < |s.fds|
    ensures |r.fds| == |s.fds|
    ensures s.fired <= r.fired && r.deleted == s.deleted && r.registered == s.registered
  {
    var s1 := if ds.Has(Read) then Trigger(s, fd, Read) else s;
    if ds.Has(Write) && !s1.aborted then Trigger(s1, fd, Write) else s1
  }

  function AddOp(events: Mask): CtlOp {
    if events == NOTHING then CtlAdd else CtlMod
  }

  function DropOp(left: Mask): CtlOp {
    if left == NOTHING then CtlDel else CtlMod
  }

  /** The part of `addEvent` under the lock of the context. */
  function Arm(s: Io, fd: nat, d: Dir, task: Task, scheduler: nat, luck: bool): Io
    requires fd < |s.fds|
  {
    var ctx := s.fds[fd];
    var (kernel, ok) := EpollCtl(s.kernel, AddOp(ctx.events), fd, ctx.events.With(d), luck);
    if ctx.events.Has(d) then s.(aborted := true)
    else if !ok then s
    else if ctx.Context(d).(ticket := 0) != VACANT then s.(kernel := kernel, aborted := true)
    else
      s.(fds := s.fds[fd := Occupied(ctx, d, Filled(|s.registered|, task, scheduler))],
         kernel := kernel,
         pending := s.pending + 1,
         registered := s.registered + [Registration(fd, d, task, scheduler)])
  }

  function Occupied(c: FdContext, d: Dir, slot: EventContext): FdContext {
    c.WithContext(d, slot).(events := c.events.With(d))
  }

  function Cleared(c: FdContext, d: Dir, slot: EventContext): FdContext {
    c.WithContext(d, slot).(events := c.events.Minus(Only(d)))
  }

  function AddEvent(s: Io, fd: nat, d: Dir, task: Task, scheduler: nat, luck: bool): Io
    requires 32 <= |s.fds|
  {
    Arm(s.(fds := Reached(s.fds, fd)), fd, d, task, scheduler, luck)
  }

  function DelEvent(s: Io, fd: nat, d: Dir, luck: bool): Io {
    if |s.fds| <= fd || !s.fds[fd].events.Has(d) then s
    else
      var ctx := s.fds[fd];
      var left := ctx.events.Minus(Only(d));
      var (kernel, ok) := EpollCtl(s.kernel, DropOp(left), fd, left, luck);
      if !ok then s
      else
        s.(fds := s.fds[fd := Cleared(ctx, d, VACANT)],
           kernel := kernel,
           pending := s.pending - 1,
           deleted := s.deleted + [ctx.Context(d).ticket])
  }

  function CancelEvent(s: Io, fd: nat, d: Dir, luck: bool): Io {
    if |s.fds| <= fd || !s.fds[fd].events.Has(d) then s
    else
      var left := s.fds[fd].events.Minus(Only(d));
      var (kernel, ok) := EpollCtl(s.kernel, DropOp(left), fd, left, luck);
      if !ok then s else Trigger(s.(kernel := kernel), fd, d)
  }

  function CancelAllEvents(s: Io, fd: nat, luck: bool): Io {
    if |s.fds| <= fd || s.fds[fd].events == NOTHING then s
    else
      var (kernel, ok) := EpollCtl(s.kernel, CtlDel, fd, NOTHING, luck);
      if !ok then s else TriggerBoth(s.(kernel := kernel), fd, s.fds[fd].events)
  }

  /** One turn of the dispatch loop of `idle`. It triggers every ready direction, armed or not. */
  function DispatchOne(s: Io, fd: nat, flags: EpollFlags, luck: bool): Io {
    var ready := RealEvents(flags);
    if |s.fds| <= fd || !s.fds[fd].events.Meets(ready) then s
    else
      var left := s.fds[fd].events.Minus(ready);
      var (kernel, ok) := EpollCtl(s.kernel, DropOp(left), fd, left, luck);
      if !ok then s else TriggerBoth(s.(kernel := kernel), fd, ready)
  }

  function Apply(s: Io, c: Call): Io
    requires 32 <= |s.fds|
  {
    match c
    case Add(fd, d, task, scheduler, luck) => AddEvent(s, fd, d, task, scheduler, luck)
    case Del(fd, d, luck) => DelEvent(s, fd, d, luck)
    case Cancel(fd, d, luck) => CancelEvent(s, fd, d, luck)
    case CancelAll(fd, luck) => CancelAllEvents(s, fd, luck)
    case Ready(fd, flags, luck) => DispatchOne(s, fd, flags, luck)
  }

  function Init(): Io {
    Io(Resized([], 32), map[], 0, [], [], [], false)
  }

  /** The state after a run of calls; an aborted process makes no further step. */
  ghost function Run(calls: seq<Call>): Io
  {
    if calls == [] then Init()
    else
      var s := Run(calls[..|calls| - 1]);
      if s.aborted || |s.fds| < 32 then s else Apply(s, calls[|calls| - 1])
  }

  // ---------------------------------------------------------------------------------------
  // The invariant
  // ---------------------------------------------------------------------------------------

  /** How many of the two slots of `c` are armed under ticket `t`. */
  ghost function ArmedIn(c: FdContext, t: nat): nat {
    (if c.events.read && c.read.ticket == t then 1 else 0) +
    (if c.events.write && c.write.ticket == t then 1 else 0)
  }

  ghost function ArmedAs(fds: seq<FdContext>, t: nat): nat {
    if fds == [] then 0 else ArmedAs(fds[..|fds| - 1], t) + ArmedIn(fds[|fds| - 1], t)
  }

  ghost function DeletedAs(deleted: seq<nat>, t: nat): nat {
    if deleted == [] then 0
    else DeletedAs(deleted[..|deleted| - 1], t) + (if deleted[|deleted| - 1] == t then 1 else 0)
  }

  ghost function FiredAs(fired: seq<Firing>, t: nat): nat {
    if fired == [] then 0
    else FiredAs(fired[..|fired| - 1], t) + (if fired[|fired| - 1].ticket == t then 1 else 0)
  }

  /** The number of set bits in the whole table. */
  ghost function TotalBits(fds: seq<FdContext>): nat {
    if fds == [] then 0 else TotalBits(fds[..|fds| - 1]) + fds[|fds| - 1].events.Bits()
  }

  /** An armed slot holds exactly what was registered under its ticket, a clear one nothing. */
  ghost predicate SlotOk(c: FdContext, d: Dir, registered: seq<Registration>) {
    if c.events.Has(d) then
      var slot := c.Context(d);
      && slot.ticket < |registered|
      && registered[slot.ticket].fd == c.fd
      && registered[slot.ticket].dir == d
      && slot == Filled(slot.ticket, registered[slot.ticket].task, registered[slot.ticket].scheduler)
    else
      c.Context(d).(ticket := 0) == VACANT
  }

  /** Kernel interest mirrors the masks: a descriptor is watched iff it has an armed direction,
      and then for exactly the armed directions. */
  ghost predicate Mirrors(fds: seq<FdContext>, kernel: map<nat, Mask>) {
    && (forall i :: 0 <= i < |fds| ==> (i in kernel <==> fds[i].events != NOTHING))
    && (forall fd :: fd in kernel ==> fd < |fds| && kernel[fd] == fds[fd].events)
  }

  ghost predicate ContextOk(c: FdContext, i: nat, registered: seq<Registration>) {
    c.fd == i && SlotOk(c, Read, registered) && SlotOk(c, Write, registered)
  }

  ghost predicate FiringOk(f: Firing, registered: seq<Registration>) {
    && f.ticket < |registered|
    && f.task == registered[f.ticket].task
    && f.scheduler == registered[f.ticket].scheduler
  }

  /** In how many places ticket `t` is found: armed, deleted or handed to a scheduler. */
  ghost function Places(fds: seq<FdContext>, deleted: seq<nat>, fired: seq<Firing>, t: nat): nat {
    ArmedAs(fds, t) + DeletedAs(deleted, t) + FiredAs(fired, t)
  }

  /** Each of the `n` tickets issued so far is in exactly one place, and no other ticket exists. */
  ghost predicate Conserved(fds: seq<FdContext>, deleted: seq<nat>, fired: seq<Firing>, n: nat) {
    forall t: nat :: Settled(fds, deleted, fired, n, t)
  }

  ghost predicate Settled(fds: seq<FdContext>, deleted: seq<nat>, fired: seq<Firing>, n: nat, t: nat) {
    Places(fds, deleted, fired, t) == if t < n then 1 else 0
  }

  ghost predicate SlotsOk(fds: seq<FdContext>, registered: seq<Registration>) {
    forall i :: 0 <= i < |fds| ==> ContextOk(fds[i], i, registered)
  }

  ghost predicate FiringsOk(fired: seq<Firing>, registered: seq<Registration>) {
    forall k :: 0 <= k < |fired| ==> FiringOk(fired[k], registered)
  }

  /** Slots, firings, the pending counter and the conservation of tickets. */
  ghost predicate TableOk(s: Io) {
    && !s.aborted
    && 32 <= |s.fds|
    && SlotsOk(s.fds, s.registered)
    && FiringsOk(s.fired, s.registered)
    && s.pending == TotalBits(s.fds)
    && Conserved(s.fds, s.deleted, s.fired, |s.registered|)
  }

  ghost predicate Inv(s: Io) {
    TableOk(s) && Mirrors(s.fds, s.kernel)
  }

  // ---------------------------------------------------------------------------------------
  // Every call keeps the invariant or aborts
  // ---------------------------------------------------------------------------------------

  lemma {:induction false} TableUpdate(fds: seq<FdContext>, i: nat, c: FdContext, t: nat)
    requires i < |fds|
    ensures ArmedAs(fds[i := c], t) == ArmedAs(fds, t) - ArmedIn(fds[i], t) + ArmedIn(c, t)
    ensures TotalBits(fds[i := c]) == TotalBits(fds) - fds[i].events.Bits() + c.events.Bits()
  {
    var n := |fds| - 1;
    if i == n {
      assert fds[i := c][..n] == fds[..n];
    } else {
      TableUpdate(fds[..n], i, c, t);
      assert fds[i := c][..n] == fds[..n][i := c];
    }
  }

  lemma {:induction false} TableResized(fds: seq<FdContext>, size: nat, t: nat)
    requires |fds| <= size
    ensures ArmedAs(Resized(fds, size), t) == ArmedAs(fds, t)
    ensures TotalBits(Resized(fds, size)) == TotalBits(fds)
    decreases size
  {
    if size == |fds| {
      assert Resized(fds, size) == fds;
    } else {
      TableResized(fds, size - 1, t);
      assert Resized(fds, size)[..size - 1] == Resized(fds, size - 1);
    }
  }

  /** Taking a ticket out of its slot and putting it with the fired ones keeps the tickets. */
  lemma FireConserves(fds: seq<FdContext>, fd: nat, d: Dir, slot: EventContext, deleted: seq<nat>, fired: seq<Firing>,
                      f: Firing, n: nat)
    requires fd < |fds| && fds[fd].events.Has(d) && f.ticket == fds[fd].Context(d).ticket
    requires Conserved(fds, deleted, fired, n)
    ensures Conserved(fds[fd := Cleared(fds[fd], d, slot)], deleted, fired + [f], n)
  {
    var c := Cleared(fds[fd], d, slot);
    var after := fds[fd := c];
    forall t: nat ensures Settled(after, deleted, fired + [f], n, t) {
      assert Settled(fds, deleted, fired, n, t);
      TableUpdate(fds, fd, c, t);
      assert (fired + [f])[..|fired|] == fired;
    }
  }

  lemma TriggerKeeps(s: Io, fd: nat, d: Dir)
    requires TableOk(s) && fd < |s.fds| && s.fds[fd].events.Has(d)
    ensures TableOk(Trigger(s, fd, d))
    ensures Trigger(s, fd, d).kernel == s.kernel
    ensures Trigger(s, fd, d).fds == s.fds[fd := Trigger(s, fd, d).fds[fd]]
    ensures Trigger(s, fd, d).fds[fd].events == s.fds[fd].events.Minus(Only(d))
  {
    var r := Trigger(s, fd, d);
    assert ContextOk(s.fds[fd], fd, s.registered);
    assert SlotOk(s.fds[fd], d, s.registered);
    var slot := s.fds[fd].Context(d);
    var f := Firing(slot.ticket, slot.scheduler.value, TaskOf(slot).value);
    assert r.fired == s.fired + [f] && FiringOk(f, s.registered);
    TableUpdate(s.fds, fd, r.fds[fd], 0);
    FireConserves(s.fds, fd, d, r.fds[fd].Context(d), s.deleted, s.fired, f, |s.registered|);
    assert ContextOk(r.fds[fd], fd, r.registered);
  }

  lemma TriggerBothKeeps(s: Io, fd: nat, ds: Mask)
    requires TableOk(s) && fd < |s.fds| && ds.Within(s.fds[fd].events)
    ensures TableOk(TriggerBoth(s, fd, ds))
    ensures TriggerBoth(s, fd, ds).kernel == s.kernel
    ensures TriggerBoth(s, fd, ds).fds == s.fds[fd := TriggerBoth(s, fd, ds).fds[fd]]
    ensures TriggerBoth(s, fd, ds).fds[fd].events == s.fds[fd].events.Minus(ds)
  {
    var s1 := s;
    if ds.Has(Read) {
      TriggerKeeps(s, fd, Read);
      s1 := Trigger(s, fd, Read);
    }
    if ds.Has(Write) {
      TriggerKeeps(s1, fd, Write);
    }
  }

  lemma GrowthKeeps(s: Io, size: nat)
    requires Inv(s) && |s.fds| <= size
    ensures Inv(s.(fds := Resized(s.fds, size)))
  {
    var fds := Resized(s.fds, size);
    TableResized(s.fds, size, 0);
    forall t: nat ensures Settled(fds, s.deleted, s.fired, |s.registered|, t) {
      assert Settled(s.fds, s.deleted, s.fired, |s.registered|, t);
      TableResized(s.fds, size, t);
    }
  }

  lemma ArmConserves(fds: seq<FdContext>, fd: nat, d: Dir, slot: EventContext, deleted: seq<nat>, fired: seq<Firing>,
                     n: nat)
    requires fd < |fds| && !fds[fd].events.Has(d) && slot.ticket == n
    requires Conserved(fds, deleted, fired, n)
    ensures Conserved(fds[fd := Occupied(fds[fd], d, slot)], deleted, fired, n + 1)
  {
    var c := Occupied(fds[fd], d, slot);
    var after := fds[fd := c];
    var m := n + 1;
    forall t: nat ensures Settled(after, deleted, fired, m, t) {
      assert Settled(fds, deleted, fired, n, t);
      TableUpdate(fds, fd, c, t);
    }
  }

  /** Registering one more waiter leaves the record of the earlier ones valid. */
  lemma RegisteredGrows(fds: seq<FdContext>, fired: seq<Firing>, registered: seq<Registration>, r: Registration)
    requires SlotsOk(fds, registered) && FiringsOk(fired, registered)
    ensures SlotsOk(fds, registered + [r]) && FiringsOk(fired, registered + [r])
  {
    forall i | 0 <= i < |fds| ensures ContextOk(fds[i], i, registered + [r]) {
      assert ContextOk(fds[i], i, registered);
    }
    forall k | 0 <= k < |fired| ensures FiringOk(fired[k], registered + [r]) {
      assert FiringOk(fired[k], registered);
    }
  }

  lemma ArmKeeps(s: Io, fd: nat, d: Dir, task: Task, scheduler: nat, luck: bool)
    requires Inv(s) && fd < |s.fds| && !s.fds[fd].events.Has(d)
    ensures Inv(Arm(s, fd, d, task, scheduler, luck))
  {
    var r := Arm(s, fd, d, task, scheduler, luck);
    assert ContextOk(s.fds[fd], fd, s.registered);
    if luck {
      var slot := Filled(|s.registered|, task, scheduler);
      ArmedTable(s, r, fd, d, slot, Registration(fd, d, task, scheduler));
    }
  }

  lemma ArmedTable(s: Io, r: Io, fd: nat, d: Dir, slot: EventContext, entry: Registration)
    requires TableOk(s) && fd < |s.fds| && !s.fds[fd].events.Has(d)
    requires slot == Filled(|s.registered|, entry.task, entry.scheduler) && entry.fd == fd && entry.dir == d
    requires r == s.(fds := s.fds[fd := Occupied(s.fds[fd], d, slot)], kernel := r.kernel,
                     pending := s.pending + 1, registered := s.registered + [entry])
    ensures TableOk(r)
  {
    TableUpdate(s.fds, fd, r.fds[fd], 0);
    ArmConserves(s.fds, fd, d, slot, s.deleted, s.fired, |s.registered|);
    RegisteredGrows(s.fds, s.fired, s.registered, entry);
    assert ContextOk(s.fds[fd], fd, r.registered);
    assert ContextOk(r.fds[fd], fd, r.registered);
  }

  lemma AddKeeps(s: Io, fd: nat, d: Dir, task: Task, scheduler: nat, luck: bool)
    requires Inv(s)
    ensures var r := AddEvent(s, fd, d, task, scheduler, luck);
            if fd < |s.fds| && s.fds[fd].events.Has(d) then r.aborted else Inv(r)
  {
    if |s.fds| <= fd {
      GrowthKeeps(s, fd * 3 / 2);
      ArmKeeps(s.(fds := Resized(s.fds, fd * 3 / 2)), fd, d, task, scheduler, luck);
    } else if !s.fds[fd].events.Has(d) {
      ArmKeeps(s, fd, d, task, scheduler, luck);
    }
  }

  lemma DeleteConserves(fds: seq<FdContext>, fd: nat, d: Dir, deleted: seq<nat>, fired: seq<Firing>, n: nat)
    requires fd < |fds| && fds[fd].events.Has(d) && Conserved(fds, deleted, fired, n)
    ensures Conserved(fds[fd := Cleared(fds[fd], d, VACANT)], deleted + [fds[fd].Context(d).ticket], fired, n)
  {
    var c := Cleared(fds[fd], d, VACANT);
    var more := deleted + [fds[fd].Context(d).ticket];
    var after := fds[fd := c];
    forall t: nat ensures Settled(after, more, fired, n, t) {
      assert Settled(fds, deleted, fired, n, t);
      TableUpdate(fds, fd, c, t);
      assert more[..|deleted|] == deleted;
    }
  }

  lemma DeletedTable(s: Io, r: Io, fd: nat, d: Dir)
    requires TableOk(s) && fd < |s.fds| && s.fds[fd].events.Has(d)
    requires r == s.(fds := s.fds[fd := Cleared(s.fds[fd], d, VACANT)], kernel := r.kernel,
                     pending := s.pending - 1, deleted := s.deleted + [s.fds[fd].Context(d).ticket])
    ensures TableOk(r)
  {
    assert ContextOk(s.fds[fd], fd, s.registered);
    TableUpdate(s.fds, fd, r.fds[fd], 0);
    DeleteConserves(s.fds, fd, d, s.deleted, s.fired, |s.registered|);
    assert ContextOk(r.fds[fd], fd, r.registered);
  }

  lemma DelKeeps(s: Io, fd: nat, d: Dir, luck: bool)
    requires Inv(s)
    ensures Inv(DelEvent(s, fd, d, luck))
  {
    if fd < |s.fds| && s.fds[fd].events.Has(d) && luck {
      MirrorFollows(s.fds, s.kernel, fd, Cleared(s.fds[fd], d, VACANT));
      DeletedTable(s, DelEvent(s, fd, d, luck), fd, d);
    }
  }

  /** Asking the kernel for the mask the table is about to hold keeps the mirror. */
  lemma MirrorFollows(fds: seq<FdContext>, kernel: map<nat, Mask>, fd: nat, c: FdContext)
    requires fd < |fds| && fds[fd].events != NOTHING && Mirrors(fds, kernel)
    ensures EpollCtl(kernel, DropOp(c.events), fd, c.events, true).1
    ensures Mirrors(fds[fd := c], EpollCtl(kernel, DropOp(c.events), fd, c.events, true).0)
  {
  }

  lemma CancelKeeps(s: Io, fd: nat, d: Dir, luck: bool)
    requires Inv(s)
    ensures Inv(CancelEvent(s, fd, d, luck))
  {
    if fd < |s.fds| && s.fds[fd].events.Has(d) && luck {
      var left := s.fds[fd].events.Minus(Only(d));
      var s1 := s.(kernel := EpollCtl(s.kernel, DropOp(left), fd, left, luck).0);
      TriggerKeeps(s1, fd, d);
      MirrorFollows(s.fds, s.kernel, fd, Trigger(s1, fd, d).fds[fd]);
    }
  }

  lemma CancelAllKeeps(s: Io, fd: nat, luck: bool)
    requires Inv(s)
    ensures Inv(CancelAllEvents(s, fd, luck))
  {
    if fd < |s.fds| && s.fds[fd].events != NOTHING && luck {
      var s1 := s.(kernel := EpollCtl(s.kernel, CtlDel, fd, NOTHING, luck).0);
      TriggerBothKeeps(s1, fd, s.fds[fd].events);
      MirrorFollows(s.fds, s.kernel, fd, TriggerBoth(s1, fd, s.fds[fd].events).fds[fd]);
    }
  }

  /** The dispatch of one readiness report keeps the invariant, except that it aborts exactly when
      the report touches an armed direction, the kernel accepts the change and some reported
      direction is not armed. */
  lemma DispatchKeeps(s: Io, fd: nat, flags: EpollFlags, luck: bool)
    requires Inv(s)
    ensures var r := DispatchOne(s, fd, flags, luck);
            if DispatchAborts(s, fd, flags, luck) then r.aborted else Inv(r)
  {
    var ready := RealEvents(flags);
    if fd < |s.fds| && s.fds[fd].events.Meets(ready) && luck {
      AcceptedDispatch(s, fd, ready);
    }
  }

  lemma AcceptedDispatch(s: Io, fd: nat, ready: Mask)
    requires Inv(s) && fd < |s.fds| && s.fds[fd].events.Meets(ready)
    ensures var left := s.fds[fd].events.Minus(ready);
            var (kernel, ok) := EpollCtl(s.kernel, DropOp(left), fd, left, true);
            var r := TriggerBoth(s.(kernel := kernel), fd, ready);
            ok && if ready.Within(s.fds[fd].events) then Inv(r) else r.aborted
  {
    var left := s.fds[fd].events.Minus(ready);
    var s1 := s.(kernel := EpollCtl(s.kernel, DropOp(left), fd, left, true).0);
    MirrorFollows(s.fds, s.kernel, fd, s.fds[fd].(events := left));
    if ready.Within(s.fds[fd].events) {
      TriggerBothKeeps(s1, fd, ready);
      MirrorFollows(s.fds, s.kernel, fd, TriggerBoth(s1, fd, ready).fds[fd]);
    } else {
      UnarmedTriggerAborts(s1, fd, ready);
    }
  }

  predicate DispatchAborts(s: Io, fd: nat, flags: EpollFlags, luck: bool) {
    && luck
    && fd < |s.fds|
    && s.fds[fd].events.Meets(RealEvents(flags))
    && !RealEvents(flags).Within(s.fds[fd].events)
  }

  lemma UnarmedTriggerAborts(s: Io, fd: nat, ready: Mask)
    requires TableOk(s) && fd < |s.fds| && !ready.Within(s.fds[fd].events)
    ensures TriggerBoth(s, fd, ready).aborted
  {
    if ready.Has(Read) && s.fds[fd].events.Has(Read) {
      TriggerKeeps(s, fd, Read);
    }
  }

  /** The exact guard under which a call trips one of the asserts of the event table. */
  predicate Aborts(s: Io, c: Call) {
    match c
    case Add(fd, d, _, _, _) => fd < |s.fds| && s.fds[fd].events.Has(d)
    case Ready(fd, flags, luck) => DispatchAborts(s, fd, flags, luck)
    case _ => false
  }

  lemma StepKeeps(s: Io, c: Call)
    requires Inv(s)
    ensures Apply(s, c).aborted <==> Aborts(s, c)
    ensures !Aborts(s, c) ==> Inv(Apply(s, c))
  {
    match c
    case Add(fd, d, task, scheduler, luck) => AddKeeps(s, fd, d, task, scheduler, luck);
    case Del(fd, d, luck) => DelKeeps(s, fd, d, luck);
    case Cancel(fd, d, luck) => CancelKeeps(s, fd, d, luck);
    case CancelAll(fd, luck) => CancelAllKeeps(s, fd, luck);
    case Ready(fd, flags, luck) => DispatchKeeps(s, fd, flags, luck);
  }

  lemma InitOk()
    ensures Inv(Init())
  {
    forall t: nat ensures Settled(Init().fds, [], [], 0, t) {
      TableResized([], 32, t);
    }
    TableResized([], 32, 0);
  }

  lemma {:induction false} RunKeeps(calls: seq<Call>)
    ensures !Run(calls).aborted ==> Inv(Run(calls))
  {
    if calls == [] {
      InitOk();
    } else {
      var before := calls[..|calls| - 1];
      RunKeeps(before);
      if !Run(before).aborted {
        StepKeeps(Run(before), calls[|calls| - 1]);
      }
    }
  }

  // ---------------------------------------------------------------------------------------
  // What holds over every run
  // ---------------------------------------------------------------------------------------

  /** The kernel request a call makes in state `s`, if it gets as far as making one. */
  function Request(s: Io, c: Call): Option<CtlOp> {
    match c
    case Add(fd, d, _, _, _) =>
      if |s.fds| <= fd then Some(CtlAdd)
      else if s.fds[fd].events.Has(d) then None
      else Some(AddOp(s.fds[fd].events))
    case Del(fd, d, _) =>
      if |s.fds| <= fd || !s.fds[fd].events.Has(d) then None
      else Some(DropOp(s.fds[fd].events.Minus(Only(d))))
    case Cancel(fd, d, _) =>
      if |s.fds| <= fd || !s.fds[fd].events.Has(d) then None
      else Some(DropOp(s.fds[fd].events.Minus(Only(d))))
    case CancelAll(fd, _) =>
      if |s.fds| <= fd || s.fds[fd].events == NOTHING then None else Some(CtlDel)
    case Ready(fd, flags, _) =>
      if |s.fds| <= fd || !s.fds[fd].events.Meets(RealEvents(flags)) then None
      else Some(DropOp(s.fds[fd].events.Minus(RealEvents(flags))))
  }

  /** After any run, kernel interest equals the masks, a slot is filled iff its bit is set, and the
      pending counter is the number of set bits. */
  lemma RunMirrorsKernel(calls: seq<Call>)
    requires !Run(calls).aborted
    ensures var s := Run(calls);
            && Mirrors(s.fds, s.kernel)
            && s.pending == TotalBits(s.fds)
            && (forall i :: 0 <= i < |s.fds| ==> SlotsFollowBits(s.fds[i]))
  {
    RunKeeps(calls);
    var s := Run(calls);
    forall i | 0 <= i < |s.fds| ensures SlotsFollowBits(s.fds[i]) {
      assert ContextOk(s.fds[i], i, s.registered);
    }
  }

  /** A bit is set iff its slot has a scheduler, and iff it has a task to wake. */
  predicate SlotsFollowBits(c: FdContext) {
    && (c.events.read <==> c.read.scheduler.Some?) && (c.events.read <==> TaskOf(c.read).Some?)
    && (c.events.write <==> c.write.scheduler.Some?) && (c.events.write <==> TaskOf(c.write).Some?)
  }

  /** So no request is ever refused as illegal: ADD goes to unwatched descriptors only, MOD and DEL
      to watched ones only. */
  lemma RunRequestsLegal(calls: seq<Call>, c: Call)
    requires !Run(calls).aborted && Request(Run(calls), c).Some?
    ensures CtlLegal(Run(calls).kernel, Request(Run(calls), c).value, c.fd)
  {
    RunKeeps(calls);
  }

  /** Each successful registration is in exactly one of three conditions: still armed in its own
      slot, deleted, or handed once to its own scheduler with its own task. */
  lemma RunConservesWaiters(calls: seq<Call>, t: nat)
    requires !Run(calls).aborted && t < |Run(calls).registered|
    ensures var s := Run(calls);
            && ArmedAs(s.fds, t) + DeletedAs(s.deleted, t) + FiredAs(s.fired, t) == 1
            && (ArmedAs(s.fds, t) == 1 ==> ArmedAtHome(s, t))
            && (forall k :: 0 <= k < |s.fired| && s.fired[k].ticket == t ==>
                  s.fired[k] == Firing(t, s.registered[t].scheduler, s.registered[t].task))
  {
    RunKeeps(calls);
    var s := Run(calls);
    assert Settled(s.fds, s.deleted, s.fired, |s.registered|, t);
    forall k | 0 <= k < |s.fired| && s.fired[k].ticket == t
      ensures s.fired[k] == Firing(t, s.registered[t].scheduler, s.registered[t].task)
    {
      assert FiringOk(s.fired[k], s.registered);
    }
    if ArmedAs(s.fds, t) == 1 {
      var i, d := ArmedWhere(s.fds, t);
      assert ContextOk(s.fds[i], i, s.registered);
      assert SlotOk(s.fds[i], d, s.registered);
    }
  }

  /** The slot this ticket was registered for is armed with what was registered. */
  ghost predicate ArmedAtHome(s: Io, t: nat)
    requires t < |s.registered|
  {
    var w := s.registered[t];
    && w.fd < |s.fds|
    && s.fds[w.fd].events.Has(w.dir)
    && s.fds[w.fd].Context(w.dir) == Filled(t, w.task, w.scheduler)
  }

  lemma {:induction false} ArmedWhere(fds: seq<FdContext>, t: nat) returns (i: nat, d: Dir)
    requires ArmedAs(fds, t) > 0
    ensures i < |fds| && fds[i].events.Has(d) && fds[i].Context(d).ticket == t
  {
    var n := |fds| - 1;
    if ArmedIn(fds[n], t) > 0 {
      i := n;
      d := if fds[n].events.read && fds[n].read.ticket == t then Read else Write;
    } else {
      i, d := ArmedWhere(fds[..n], t);
    }
  }

  /** What is logged stays logged, and a ticket that is no longer armed stays as it is. */
  ghost predicate Final(s: Io, r: Io, t: nat) {
    && s.fired <= r.fired && s.deleted <= r.deleted && s.registered <= r.registered
    && (ArmedAs(s.fds, t) == 0 ==>
          && ArmedAs(r.fds, t) == 0
          && FiredAs(r.fired, t) == FiredAs(s.fired, t) && DeletedAs(r.deleted, t) == DeletedAs(s.deleted, t))
  }

  /** Firing is final: nothing that happens later takes a firing back or adds one for a ticket
      that was deleted or has fired. */
  lemma {:induction false} FiringIsFinal(calls: seq<Call>, more: seq<Call>, t: nat)
    requires !Run(calls + more).aborted && t < |Run(calls).registered|
    ensures Final(Run(calls), Run(calls + more), t)
    decreases |more|
  {
    if more == [] {
      assert calls + more == calls;
    } else {
      var c, before := more[|more| - 1], calls + more[..|more| - 1];
      assert calls + more == before + [c];
      assert (before + [c])[..|before|] == before;
      FiringIsFinal(calls, more[..|more| - 1], t);
      FinalOneMore(before, c, t);
    }
  }

  /** The same for one further call. */
  lemma FinalOneMore(calls: seq<Call>, c: Call, t: nat)
    requires !Run(calls + [c]).aborted && t < |Run(calls).registered|
    ensures Final(Run(calls), Run(calls + [c]), t)
  {
    assert (calls + [c])[..|calls|] == calls;
    var s, r := Run(calls), Run(calls + [c]);
    if s.aborted {
      return;
    }
    RunKeeps(calls);
    StepKeeps(s, c);
    LogsGrow(s, c);
    LogPrefix(s.fired, r.fired, s.deleted, r.deleted, t);
    assert Settled(s.fds, s.deleted, s.fired, |s.registered|, t);
    assert Settled(r.fds, r.deleted, r.fired, |r.registered|, t);
  }

  lemma LogsGrow(s: Io, c: Call)
    requires Inv(s) && !Aborts(s, c)
    ensures var r := Apply(s, c); s.fired <= r.fired && s.deleted <= r.deleted && s.registered <= r.registered
  {
    match c
    case Add(fd, d, task, scheduler, luck) =>
    case Del(fd, d, luck) =>
    case Cancel(fd, d, luck) =>
    case CancelAll(fd, luck) =>
    case Ready(fd, flags, luck) =>
  }

  lemma {:induction false} LogPrefix(fired: seq<Firing>, fired': seq<Firing>, deleted: seq<nat>, deleted': seq<nat>,
                                     t: nat)
    requires fired <= fired' && deleted <= deleted'
    ensures FiredAs(fired, t) <= FiredAs(fired', t)
    ensures DeletedAs(deleted, t) <= DeletedAs(deleted', t)
    decreases |fired'| + |deleted'|
  {
    if |fired| < |fired'| {
      LogPrefix(fired, fired'[..|fired'| - 1], deleted, deleted', t);
    } else if |deleted| < |deleted'| {
      LogPrefix(fired, fired', deleted, deleted'[..|deleted'| - 1], t);
    } else {
      assert fired == fired' && deleted == deleted';
    }
  }

  // ---------------------------------------------------------------------------------------
  // Where the shipped code falls short
  // ---------------------------------------------------------------------------------------

  /** A hang-up on a descriptor armed for reading only makes the dispatch trigger the unarmed write
      direction and trip the assertion of `triggerEvent`. */
  lemma HangupOnReaderAborts()
    ensures Run([Add(7, Read, RunFiber(1), 0, true)] + [Ready(7, EpollFlags(false, false, true), true)]).aborted
  {
    var add := Add(7, Read, RunFiber(1), 0, true);
    FirstCall(add);
    RunKeeps([add]);
    StepKeeps(Run([add]), Ready(7, EpollFlags(false, false, true), true));
    RunExtends([add], Ready(7, EpollFlags(false, false, true), true));
  }

  lemma RunExtends(calls: seq<Call>, c: Call)
    requires !Run(calls).aborted
    ensures Inv(Run(calls)) && Run(calls + [c]) == Apply(Run(calls), c)
  {
    RunKeeps(calls);
    assert (calls + [c])[..|calls|] == calls;
  }

  lemma FirstCall(c: Call)
    ensures 32 <= |Init().fds| && Run([c]) == Apply(Init(), c)
  {
    assert [] + [c] == [c];
    RunExtends([], c);
  }

  /** `contextResize` run on a stale size check may shrink the table. It keeps the invariant exactly
      when every context it drops is unarmed. */
  lemma ResizeKeepsIff(s: Io, size: nat)
    requires Inv(s) && 32 <= size
    ensures Inv(s.(fds := Resized(s.fds, size))) <==>
              (forall i :: size <= i < |s.fds| ==> s.fds[i].events == NOTHING)
  {
    var r := s.(fds := Resized(s.fds, size));
    if |s.fds| <= size {
      GrowthKeeps(s, size);
    } else if forall i :: size <= i < |s.fds| ==> s.fds[i].events == NOTHING {
      assert r.fds == s.fds[..size];
      DroppedUnarmed(s.fds, size, 0);
      forall t: nat ensures Settled(r.fds, s.deleted, s.fired, |s.registered|, t) {
        assert Settled(s.fds, s.deleted, s.fired, |s.registered|, t);
        DroppedUnarmed(s.fds, size, t);
      }
      forall i | 0 <= i < |r.fds| ensures ContextOk(r.fds[i], i, r.registered) {
        assert ContextOk(s.fds[i], i, s.registered);
      }
    } else {
      var i :| size <= i < |s.fds| && s.fds[i].events != NOTHING;
      assert i in s.kernel;
    }
  }

  lemma {:induction false} DroppedUnarmed(fds: seq<FdContext>, size: nat, t: nat)
    requires size <= |fds|
    requires forall i :: size <= i < |fds| ==> fds[i].events == NOTHING
    ensures ArmedAs(fds[..size], t) == ArmedAs(fds, t)
    ensures TotalBits(fds[..size]) == TotalBits(fds)
    decreases |fds|
  {
    if size == |fds| {
      assert fds[..size] == fds;
    } else {
      var n := |fds| - 1;
      DroppedUnarmed(fds[..n], size, t);
      assert fds[..n][..size] == fds[..size];
    }
  }

  /** A descriptor no call can reach any more: deleting and cancelling are refused and change nothing, and
      registering again finds an empty context and is refused by the kernel, which still watches it. */
  ghost predicate OutOfReach(s: Io, fd: nat) {
    && fd in s.kernel && 32 <= |s.fds|
    && (forall d, luck :: DelEvent(s, fd, d, luck) == s && CancelEvent(s, fd, d, luck) == s)
    && (forall luck :: CancelAllEvents(s, fd, luck) == s)
    && (forall d, task, scheduler, luck ::
          AddEvent(s, fd, d, task, scheduler, luck) == s.(fds := Reached(s.fds, fd)))
  }

  /** Every armed context that a resize drops is out of reach. */
  lemma DroppedOutOfReach(s: Io, size: nat, fd: nat)
    requires Inv(s) && 32 <= size <= fd < |s.fds| && s.fds[fd].events != NOTHING
    ensures OutOfReach(s.(fds := Resized(s.fds, size)), fd)
  {
    var r := s.(fds := Resized(s.fds, size));
    assert fd in s.kernel;
    forall d, task, scheduler, luck
      ensures AddEvent(r, fd, d, task, scheduler, luck) == r.(fds := Reached(r.fds, fd))
    {
      assert Reached(r.fds, fd)[fd] == Fresh(fd);
      assert !CtlLegal(r.kernel, CtlAdd, fd);
    }
  }

  /** Two registrations racing past the size check: the second resize drops the context the first one
      armed, and no call reaches it any more. */
  lemma StaleResizeLosesWaiter()
    ensures var s := Run([Add(100, Read, RunFiber(1), 0, true)]);
            var r := s.(fds := Resized(s.fds, 32 * 3 / 2));
            !s.aborted && !Inv(r) && OutOfReach(r, 100)
  {
    var add := Add(100, Read, RunFiber(1), 0, true);
    FirstCall(add);
    InitOk();
    StepKeeps(Init(), add);
    var s := Run([add]);
    assert s.fds[100].events == Only(Read);
    ResizeKeepsIff(s, 48);
    DroppedOutOfReach(s, 48, 100);
  }
}
