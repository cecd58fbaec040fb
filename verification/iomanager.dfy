/**
 The I/O manager as the object whose methods update the table, the masks and the pending counter
 in place. Each method is proved to have the effect of one call on the state of `EventTable`, so
 everything proved there about runs holds of sequences of these methods.
 */
module IOManagers {
  import opened Wrappers
  import opened EventTable

  /** What the caller sees: success, a refusal (-1 or false), or a failed assertion. */
  datatype Outcome = Accepted | Refused | AssertFailed

  /** One entry of the array filled by `epoll_wait`: the wake-up pipe or a descriptor. */
  datatype Report = Tickled | Reported(fd: nat, flags: EpollFlags, luck: bool)

  /** The dispatch of a whole batch; an aborted process handles nothing more. */
  function DispatchAll(s: Io, reports: seq<Report>): Io {
    if reports == [] then s
    else
      var before := DispatchAll(s, reports[..|reports| - 1]);
      match reports[|reports| - 1]
      case Tickled => before
      case Reported(fd, flags, luck) => if before.aborted then before else DispatchOne(before, fd, flags, luck)
  }

  class IOManager {
    var fds: seq<FdContext>
    var kernel: map<nat, Mask>
    var pending: int
    var registered: seq<Registration>
    var deleted: seq<nat>
    var fired: seq<Firing>
    var aborted: bool

    function State(): Io
      reads this
    {
      Io(fds, kernel, pending, registered, deleted, fired, aborted)
    }

    constructor ()
      ensures State() == Init()
    {
      fds, kernel, pending, registered, deleted, fired, aborted := [], map[], 0, [], [], [], false;
      new;
      ContextResize(32);
    }

    method ContextResize(size: nat)
      modifies this`fds
      ensures fds == Resized(old(fds), size)
    {
      if size <= |fds| {
        fds := fds[..size];
      }
      while |fds| < size
        invariant |fds| <= size
        invariant forall i :: 0 <= i < |fds| ==> fds[i] == if i < |old(fds)| then old(fds)[i] else Fresh(i)
        invariant |old(fds)| <= size ==> |old(fds)| <= |fds|
        invariant size < |old(fds)| ==> |fds| == size
      {
        fds := fds + [Fresh(|fds|)];
      }
    }

    method EpollControl(op: CtlOp, fd: nat, mask: Mask, luck: bool) returns (ok: bool)
      modifies this`kernel
      ensures (kernel, ok) == EpollCtl(old(kernel), op, fd, mask, luck)
    {
      var r := EpollCtl(kernel, op, fd, mask, luck);
      kernel := r.0;
      ok := r.1;
    }

    method TriggerEvent(fd: nat, d: Dir)
      requires fd < |fds| && !aborted
      modifies this
      ensures State() == Trigger(old(State()), fd, d)
    {
      var ctx := fds[fd];
      var slot := ctx.Context(d);
      var task := TaskOf(slot);
      if !ctx.events.Has(d) || slot.scheduler.None? || task.None? {
        aborted := true;
        return;
      }
      ctx := ctx.(events := ctx.events.Minus(Only(d)));
      fired := fired + [Firing(slot.ticket, slot.scheduler.value, task.value)];
      if slot.cb.Some? {
        slot := slot.(cb := None);
      } else {
        slot := slot.(fiber := None);
      }
      slot := slot.(scheduler := None);
      fds := fds[fd := ctx.WithContext(d, slot)];
      pending := pending - 1;
    }

    method Add(fd: nat, d: Dir, task: Task, scheduler: nat, luck: bool) returns (r: Outcome)
      requires 32 <= |fds| && !aborted
      modifies this
      ensures State() == AddEvent(old(State()), fd, d, task, scheduler, luck)
      ensures r == Accepted <==> !aborted && registered == old(registered) + [Registration(fd, d, task, scheduler)]
      ensures r == AssertFailed <==> aborted
    {
      if |fds| <= fd {
        ContextResize(fd * 3 / 2);
      }
      var ctx := fds[fd];
      if ctx.events.Has(d) {
        aborted := true;
        return AssertFailed;
      }
      var op := if ctx.events != NOTHING then CtlMod else CtlAdd;
      var ok := EpollControl(op, fd, ctx.events.With(d), luck);
      if !ok {
        return Refused;
      }
      if ctx.Context(d).scheduler.Some? || ctx.Context(d).fiber.Some? || ctx.Context(d).cb.Some? {
        aborted := true;
        return AssertFailed;
      }
      pending := pending + 1;
      ctx := ctx.(events := ctx.events.With(d));
      var slot := EventContext(Some(scheduler), None, None, |registered|);
      match task {
        case RunCallback(cb) => slot := slot.(cb := Some(cb));
        case RunFiber(f) => slot := slot.(fiber := Some(f));
      }
      fds := fds[fd := ctx.WithContext(d, slot)];
      registered := registered + [Registration(fd, d, task, scheduler)];
      return Accepted;
    }

    method Del(fd: nat, d: Dir, luck: bool) returns (r: Outcome)
      modifies this
      ensures State() == DelEvent(old(State()), fd, d, luck)
      ensures r == Accepted <==> |deleted| == |old(deleted)| + 1
      ensures r != Accepted ==> unchanged(this)
    {
      if |fds| <= fd || !fds[fd].events.Has(d) {
        return Refused;
      }
      var ctx := fds[fd];
      var left := ctx.events.Minus(Only(d));
      var op := if left != NOTHING then CtlMod else CtlDel;
      var ok := EpollControl(op, fd, left, luck);
      if !ok {
        return Refused;
      }
      pending := pending - 1;
      deleted := deleted + [ctx.Context(d).ticket];
      fds := fds[fd := ctx.(events := left).WithContext(d, VACANT)];
      return Accepted;
    }

    method Cancel(fd: nat, d: Dir, luck: bool) returns (r: Outcome)
      requires !aborted
      modifies this
      ensures State() == CancelEvent(old(State()), fd, d, luck)
      ensures r == Refused ==> unchanged(this)
      ensures r == AssertFailed <==> aborted
    {
      if |fds| <= fd || !fds[fd].events.Has(d) {
        return Refused;
      }
      var left := fds[fd].events.Minus(Only(d));
      var op := if left != NOTHING then CtlMod else CtlDel;
      var ok := EpollControl(op, fd, left, luck);
      if !ok {
        return Refused;
      }
      TriggerEvent(fd, d);
      return if aborted then AssertFailed else Accepted;
    }

    method CancelAll(fd: nat, luck: bool) returns (r: Outcome)
      requires !aborted
      modifies this
      ensures State() == CancelAllEvents(old(State()), fd, luck)
      ensures r == Refused ==> unchanged(this)
      ensures r == AssertFailed <==> aborted
    {
      if |fds| <= fd || fds[fd].events == NOTHING {
        return Refused;
      }
      var ok := EpollControl(CtlDel, fd, NOTHING, luck);
      if !ok {
        return Refused;
      }
      if fds[fd].events.Has(Read) {
        TriggerEvent(fd, Read);
      }
      if !aborted && fds[fd].events.Has(Write) {
        TriggerEvent(fd, Write);
      }
      return if aborted then AssertFailed else Accepted;
    }

    method DispatchReport(fd: nat, flags: EpollFlags, luck: bool)
      requires !aborted
      modifies this
      ensures State() == DispatchOne(old(State()), fd, flags, luck)
    {
      if |fds| <= fd {
        return;
      }
      var flags := if flags.errorOrHangup then flags.(readable := true, writable := true) else flags;
      var ready := NOTHING;
      if flags.readable {
        ready := ready.With(Read);
      }
      if flags.writable {
        ready := ready.With(Write);
      }
      if !fds[fd].events.Meets(ready) {
        return;
      }
      var left := fds[fd].events.Minus(ready);
      var op := if left != NOTHING then CtlMod else CtlDel;
      var ok := EpollControl(op, fd, left, luck);
      if !ok {
        return;
      }
      if ready.Has(Read) {
        TriggerEvent(fd, Read);
      }
      if !aborted && ready.Has(Write) {
        TriggerEvent(fd, Write);
      }
    }

    /** The loop of `idle` over the events returned by one `epoll_wait`. */
    method Dispatch(reports: seq<Report>)
      requires !aborted
      modifies this
      ensures State() == DispatchAll(old(State()), reports)
    {
      var i := 0;
      while i < |reports|
        invariant 0 <= i <= |reports|
        invariant State() == DispatchAll(old(State()), reports[..i])
      {
        assert reports[..i + 1][..i] == reports[..i];
        match reports[i] {
          case Tickled =>
          case Reported(fd, flags, luck) =>
            if !aborted {
              DispatchReport(fd, flags, luck);
            }
        }
        i := i + 1;
      }
      assert reports[..i] == reports;
    }
  }

  lemma {:induction false} BatchKeeps(s: Io, reports: seq<Report>)
    requires Inv(s)
    ensures !DispatchAll(s, reports).aborted ==> Inv(DispatchAll(s, reports))
  {
    if reports != [] {
      var n := |reports| - 1;
      BatchKeeps(s, reports[..n]);
      var before := DispatchAll(s, reports[..n]);
      if !before.aborted && reports[n].Reported? {
        DispatchKeeps(before, reports[n].fd, reports[n].flags, reports[n].luck);
      }
    }
  }

  /** A batch brings the process down exactly when one of its reports, met while the process is up,
      names a direction that is not armed beside one that is. */
  lemma {:induction false} BatchAbortsIff(s: Io, reports: seq<Report>)
    requires Inv(s)
    ensures DispatchAll(s, reports).aborted <==> exists k :: 0 <= k < |reports| && AbortsAt(s, reports, k)
  {
    if reports != [] {
      var n := |reports| - 1;
      BatchAbortsIff(s, reports[..n]);
      forall k | 0 <= k < n ensures AbortsAt(s, reports, k) <==> AbortsAt(s, reports[..n], k) {
        assert reports[..n][..k] == reports[..k];
      }
      BatchKeeps(s, reports[..n]);
      LastReport(s, reports);
    }
  }

  lemma LastReport(s: Io, reports: seq<Report>)
    requires reports != []
    requires var before := DispatchAll(s, reports[..|reports| - 1]); before.aborted || Inv(before)
    ensures DispatchAll(s, reports).aborted <==>
              DispatchAll(s, reports[..|reports| - 1]).aborted || AbortsAt(s, reports, |reports| - 1)
  {
    var n := |reports| - 1;
    var before := DispatchAll(s, reports[..n]);
    if !before.aborted && reports[n].Reported? {
      DispatchKeeps(before, reports[n].fd, reports[n].flags, reports[n].luck);
    }
  }

  /** The process is still up after the first `k` reports and report `k` brings it down. */
  ghost predicate AbortsAt(s: Io, reports: seq<Report>, k: nat)
    requires k < |reports|
  {
    var before := DispatchAll(s, reports[..k]);
    && !before.aborted
    && reports[k].Reported?
    && DispatchAborts(before, reports[k].fd, reports[k].flags, reports[k].luck)
  }
}
