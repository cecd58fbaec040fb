/**
 What each call of the event table does, in terms of the two directions of its descriptor, the bits of the
 report and the registrations: which waiter is handed over, deleted or armed, and that no other is touched.
 */
module EventEffects {
  import opened Wrappers
  import opened EventTable

  /** The task registered under ticket `t`, handed to the scheduler it was registered with. */
  function Handover(s: Io, t: nat): Firing
    requires t < |s.registered|
  {
    Firing(t, s.registered[t].scheduler, s.registered[t].task)
  }

  /** In any state with the invariant the waiter of an armed direction is a registration of that direction. */
  lemma ArmedIsRegistered(s: Io, fd: nat)
    requires Inv(s) && fd < |s.fds|
    ensures var c := s.fds[fd];
            && (c.events.read ==> c.read.ticket < |s.registered| && s.registered[c.read.ticket].fd == fd
                                  && s.registered[c.read.ticket].dir == Read)
            && (c.events.write ==> c.write.ticket < |s.registered| && s.registered[c.write.ticket].fd == fd
                                   && s.registered[c.write.ticket].dir == Write)
  {
    assert ContextOk(s.fds[fd], fd, s.registered);
  }

  ghost predicate OthersSame(s: Io, r: Io, fd: nat) {
    && |s.fds| <= |r.fds|
    && (forall i :: 0 <= i < |r.fds| && i != fd ==>
          if i < |s.fds| then r.fds[i] == s.fds[i] else r.fds[i].events == Mask(false, false))
  }

  /** The given directions of `fd` are clear, the other ones and their waiters as they were. */
  ghost predicate Clears(s: Io, r: Io, fd: nat, read: bool, write: bool)
    requires fd < |s.fds|
  {
    && |r.fds| == |s.fds| && OthersSame(s, r, fd)
    && r.fds[fd].events == Mask(s.fds[fd].events.read && !read, s.fds[fd].events.write && !write)
    && (!read ==> r.fds[fd].read == s.fds[fd].read) && (!write ==> r.fds[fd].write == s.fds[fd].write)
  }

  /** The waiters of the given armed directions of `fd` are handed to their schedulers, the reader first,
      and nobody else's. */
  ghost predicate Fires(s: Io, r: Io, fd: nat, read: bool, write: bool)
    requires Inv(s) && fd < |s.fds|
    requires (read ==> s.fds[fd].events.read) && (write ==> s.fds[fd].events.write)
  {
    ArmedIsRegistered(s, fd);
    && r.fired == s.fired + (if read then [Handover(s, s.fds[fd].read.ticket)] else [])
                          + (if write then [Handover(s, s.fds[fd].write.ticket)] else [])
    && r.deleted == s.deleted && r.registered == s.registered
    && Clears(s, r, fd, read, write)
  }

  lemma TriggerRead(s: Io, fd: nat)
    requires TableOk(s) && fd < |s.fds| && s.fds[fd].events.read
    ensures s.fds[fd].read.ticket < |s.registered|
    ensures var r := Trigger(s, fd, Read);
            && r.fired == s.fired + [Handover(s, s.fds[fd].read.ticket)]
            && r.deleted == s.deleted && r.registered == s.registered && Clears(s, r, fd, true, false)
  {
    assert ContextOk(s.fds[fd], fd, s.registered);
  }

  lemma TriggerWrite(s: Io, fd: nat)
    requires TableOk(s) && fd < |s.fds| && s.fds[fd].events.write
    ensures s.fds[fd].write.ticket < |s.registered|
    ensures var r := Trigger(s, fd, Write);
            && r.fired == s.fired + [Handover(s, s.fds[fd].write.ticket)]
            && r.deleted == s.deleted && r.registered == s.registered && Clears(s, r, fd, false, true)
  {
    assert ContextOk(s.fds[fd], fd, s.registered);
  }

  /** Triggering armed directions, after the kernel has been asked. */
  lemma TriggersFire(s: Io, kernel: map<nat, Mask>, fd: nat, ds: Mask)
    requires Inv(s) && fd < |s.fds| && ds.Within(s.fds[fd].events)
    ensures Fires(s, TriggerBoth(s.(kernel := kernel), fd, ds), fd, ds.read, ds.write)
  {
    var s0 := s.(kernel := kernel);
    var s1 := s0;
    if ds.read {
      TriggerRead(s0, fd);
      TriggerKeeps(s0, fd, Read);
      s1 := Trigger(s0, fd, Read);
    }
    if ds.write {
      TriggerWrite(s1, fd);
    }
  }

  /** The kernel accepts a change of interest in a watched descriptor whenever it can. */
  lemma AcceptedIff(s: Io, fd: nat, left: Mask, luck: bool)
    requires Inv(s) && fd < |s.fds| && s.fds[fd].events != NOTHING
    ensures EpollCtl(s.kernel, DropOp(left), fd, left, luck).1 <==> luck
    ensures EpollCtl(s.kernel, CtlDel, fd, NOTHING, luck).1 <==> luck
  {
    assert fd in s.kernel;
  }

  /** `reading` and `writing` are the directions a report is about: an error or a hang-up is about both. A
      report that the kernel lets be handled hands over the reader exactly if one is armed and the report
      is about reading, the writer likewise, and nobody else; it brings the process down exactly when it is
      about an armed direction and about one that is not. */
  lemma ReportFires(s: Io, fd: nat, flags: EpollFlags, luck: bool)
    requires Inv(s)
    ensures var r := Apply(s, Ready(fd, flags, luck));
            var reading, writing := flags.readable || flags.errorOrHangup, flags.writable || flags.errorOrHangup;
            if !luck || |s.fds| <= fd then r == s
            else
              var armed := s.fds[fd].events;
              && (r.aborted <==> (reading && armed.read && writing && !armed.write)
                                 || (writing && armed.write && reading && !armed.read))
              && (!r.aborted ==> Fires(s, r, fd, reading && armed.read, writing && armed.write))
  {
    StepKeeps(s, Ready(fd, flags, luck));
    if luck && fd < |s.fds| {
      var ready, armed := RealEvents(flags), s.fds[fd].events;
      if armed.Meets(ready) && ready.Within(armed) {
        var left := armed.Minus(ready);
        AcceptedIff(s, fd, left, luck);
        TriggersFire(s, EpollCtl(s.kernel, DropOp(left), fd, left, luck).0, fd, ready);
      }
    }
  }

  /** `cancelEvent` hands over the waiter of the direction it names, if one is armed and the kernel accepts,
      and nobody else's. */
  lemma CancelFires(s: Io, fd: nat, d: Dir, luck: bool)
    requires Inv(s)
    ensures var r := Apply(s, Cancel(fd, d, luck));
            if !luck || |s.fds| <= fd then r == s
            else Fires(s, r, fd, d == Read && s.fds[fd].events.read, d == Write && s.fds[fd].events.write)
  {
    if luck && fd < |s.fds| && s.fds[fd].events.Has(d) {
      var left := s.fds[fd].events.Minus(Only(d));
      AcceptedIff(s, fd, left, luck);
      TriggerFires(s, EpollCtl(s.kernel, DropOp(left), fd, left, luck).0, fd, d);
    }
  }

  lemma TriggerFires(s: Io, kernel: map<nat, Mask>, fd: nat, d: Dir)
    requires Inv(s) && fd < |s.fds| && s.fds[fd].events.Has(d)
    ensures Fires(s, Trigger(s.(kernel := kernel), fd, d), fd, d == Read, d == Write)
  {
    TriggersFire(s, kernel, fd, Only(d));
    assert TriggerBoth(s.(kernel := kernel), fd, Only(d)) == Trigger(s.(kernel := kernel), fd, d);
  }

  /** `cancelAll` hands over whoever is armed on the descriptor, if the kernel accepts. */
  lemma CancelAllFires(s: Io, fd: nat, luck: bool)
    requires Inv(s)
    ensures var r := Apply(s, CancelAll(fd, luck));
            if !luck || |s.fds| <= fd then r == s
            else Fires(s, r, fd, s.fds[fd].events.read, s.fds[fd].events.write)
  {
    if luck && fd < |s.fds| && s.fds[fd].events != NOTHING {
      AcceptedIff(s, fd, NOTHING, luck);
      TriggersFire(s, EpollCtl(s.kernel, CtlDel, fd, NOTHING, luck).0, fd, s.fds[fd].events);
    }
  }

  /** `delEvent` deletes the waiter of the direction it names, if one is armed and the kernel accepts, and
      hands nobody over. */
  lemma DelDeletes(s: Io, fd: nat, d: Dir, luck: bool)
    requires Inv(s)
    ensures var r := Apply(s, Del(fd, d, luck));
            if !luck || |s.fds| <= fd || !(if d == Read then s.fds[fd].events.read else s.fds[fd].events.write)
            then r == s
            else
              && r.deleted == s.deleted + [if d == Read then s.fds[fd].read.ticket else s.fds[fd].write.ticket]
              && r.fired == s.fired && r.registered == s.registered && !r.aborted
              && Clears(s, r, fd, d == Read, d == Write)
  {
    if luck && fd < |s.fds| && s.fds[fd].events.Has(d) {
      AcceptedIff(s, fd, s.fds[fd].events.Minus(Only(d)), luck);
    }
  }

  /** Direction `d` of `fd` is armed for the next ticket, and the other one is as it was. */
  ghost predicate Arms(s: Io, r: Io, fd: nat, d: Dir) {
    var was := if fd < |s.fds| then s.fds[fd].events else Mask(false, false);
    && fd < |r.fds|
    && r.fds[fd].events == (if d == Read then Mask(true, was.write) else Mask(was.read, true))
    && (if d == Read then r.fds[fd].read.ticket else r.fds[fd].write.ticket) == |s.registered|
    && (fd < |s.fds| ==> if d == Read then r.fds[fd].write == s.fds[fd].write else r.fds[fd].read == s.fds[fd].read)
  }

  /** `addEvent` brings the process down exactly when the direction is armed already. Else the table reaches
      one and a half times the descriptor if it was too short, and if the kernel accepts, the direction is
      armed for the task, with its scheduler; nobody is handed over or deleted. */
  lemma AddArms(s: Io, fd: nat, d: Dir, task: Task, scheduler: nat, luck: bool)
    requires Inv(s)
    ensures var r := Apply(s, Add(fd, d, task, scheduler, luck));
            && (r.aborted <==> fd < |s.fds| && if d == Read then s.fds[fd].events.read else s.fds[fd].events.write)
            && (!r.aborted ==>
                  && |r.fds| == (if fd < |s.fds| then |s.fds| else fd + fd / 2)
                  && r.fired == s.fired && r.deleted == s.deleted && OthersSame(s, r, fd)
                  && (if luck then r.registered == s.registered + [Registration(fd, d, task, scheduler)] && Arms(s, r, fd, d)
                      else
                        && r == s.(fds := r.fds) && fd < |r.fds|
                        && r.fds[fd].events == if fd < |s.fds| then s.fds[fd].events else Mask(false, false)))
  {
    StepKeeps(s, Add(fd, d, task, scheduler, luck));
    Halves(fd);
    if |s.fds| <= fd {
      var s1 := s.(fds := Resized(s.fds, fd * 3 / 2));
      GrowthKeeps(s, fd * 3 / 2);
      assert s1.fds[fd] == Fresh(fd);
      ArmArms(s1, fd, d, task, scheduler, luck);
    } else if !s.fds[fd].events.Has(d) {
      ArmArms(s, fd, d, task, scheduler, luck);
    }
  }

  /** The part of `addEvent` under the lock of the context. */
  lemma ArmArms(s: Io, fd: nat, d: Dir, task: Task, scheduler: nat, luck: bool)
    requires Inv(s) && fd < |s.fds| && !s.fds[fd].events.Has(d)
    ensures var r := Arm(s, fd, d, task, scheduler, luck);
            && !r.aborted && |r.fds| == |s.fds|
            && r.fired == s.fired && r.deleted == s.deleted && OthersSame(s, r, fd)
            && (if luck then r.registered == s.registered + [Registration(fd, d, task, scheduler)] && Arms(s, r, fd, d)
                else r == s)
  {
    ArmKeeps(s, fd, d, task, scheduler, luck);
    assert ContextOk(s.fds[fd], fd, s.registered);
    assert fd in s.kernel <==> s.fds[fd].events != NOTHING;
  }

  lemma Halves(n: nat)
    ensures n * 3 / 2 == n + n / 2
  {
  }
}
