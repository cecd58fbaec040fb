/**
 Cuts that lose nothing: the run in calls keeps recording what the run in a single call records.
 */
module CutEven {
  import opened Wrappers
  import opened HttpText
  import opened Scanning
  import opened RequestMachine
  import opened RequestMethods
  import opened Cuts
  import opened CutRelation
  import opened CutLoss
  import opened CutExact

  // ---------------------------------------------------------------------------------------
  // What the end of the run in a single call tells about its middle
  // ---------------------------------------------------------------------------------------

  lemma HeaderSets(m: Machine, b: char, buf: string, p: nat)
    ensures var e := Effect(m, b, buf, p);
            e.call.headers == if RecordsHeader(m.cs, b) && m.fieldLen > 0
                              then SetHeader(m.call.headers, Text(buf, m.fieldStart, m.fieldStart + m.fieldLen),
                                             Text(buf, e.mark, p))
                              else m.call.headers
  {
    if m.cs.Method? {
      MethodEffect(m, b, buf, p);
      WriteMethodBy(m, buf, Text(buf, m.mark, |buf|));
    } else if m.cs.ValueStart? || m.cs.Value? {
      ValueEffect(m, b, buf, p);
    } else {
      NoHeaderSet(m, b, buf, p);
    }
  }

  lemma NoHeaderSet(m: Machine, b: char, buf: string, p: nat)
    requires !m.cs.Method? && !m.cs.ValueStart? && !m.cs.Value?
    ensures Effect(m, b, buf, p).call.headers == m.call.headers
  {
  }

  /** A header whose name starts with a return. */
  ghost predicate ReturnKey(h: Headers) {
    exists k :: k in h && k != "" && k[0] == CR
  }

  /** Such a header is recorded, or will be. */
  ghost predicate ReturnName(m: Machine, full: string) {
    || (m.cs.Name? && m.fieldStart < |full| && full[m.fieldStart] == CR)
    || (LiveLen(m.cs) && m.fieldLen > 0 && m.fieldStart < |full| && full[m.fieldStart] == CR)
    || ReturnKey(m.call.headers)
  }

  lemma SetReturnKey(h: Headers, name: string, value: string)
    requires ReturnKey(h) || (name != "" && name[0] == CR)
    ensures ReturnKey(SetHeader(h, name, value))
  {
    var k := if ReturnKey(h) then var k :| k in h && k != "" && k[0] == CR; k else LowerAll(name);
    assert k in SetHeader(h, name, value) && k != "" && k[0] == CR;
  }

  lemma ReturnNameNext(ms: Machine, full: string, q: nat, l: nat, to: State)
    requires OnItsWay(ms, full, q, l) && q < |full| && to == Next(ms.cs, full[q], ms.grammar) && to != Error
    requires ReturnName(ms, full) || (ms.cs.LastReturn? && full[q] != LF)
    ensures ReturnName(Effect(ms, full[q], full, q).(cs := to), full)
  {
    var b := full[q];
    EffectSets(ms, b, full, q);
    HeaderSets(ms, b, full, q);
    HeaderNext(ms.cs, b, ms.grammar);
    if RecordsHeader(ms.cs, b) && ms.fieldLen > 0 {
      var name := Text(full, ms.fieldStart, ms.fieldStart + ms.fieldLen);
      assert name[0] == full[ms.fieldStart];
      SetReturnKey(ms.call.headers, name, Text(full, Effect(ms, b, full, q).mark, q));
    }
  }

  /** What never changes again, and what never goes away. */
  ghost predicate Settled(m: Machine, last: Machine, full: string) {
    && (PastVersion(m.cs) ==> m.call.version == last.call.version)
    && (m.call.error != 0 ==> last.call.error != 0)
    && (ReturnName(m, full) ==> ReturnKey(last.call.headers))
  }

  lemma SettledBack(ms: Machine, full: string, q: nat, l: nat, to: State, es: Machine, last: Machine)
    requires OnItsWay(ms, full, q, l) && q < |full| && to == Next(ms.cs, full[q], ms.grammar) && to != Error
    requires es == Effect(ms, full[q], full, q).(cs := to) && Settled(es, last, full)
    ensures Settled(ms, last, full)
    ensures ms.cs.LastReturn? && full[q] != LF ==> ReturnKey(last.call.headers)
  {
    PastNext(ms.cs, full[q], ms.grammar);
    ErrorKept(ms, full[q], full, q);
    if PastVersion(ms.cs) {
      VersionSets(ms, full[q], full, q);
    }
    if ReturnName(ms, full) || (ms.cs.LastReturn? && full[q] != LF) {
      ReturnNameNext(ms, full, q, l, to);
    }
  }

  /** The run in a single call, from any of its bytes. */
  lemma {:induction false} SettledRun(move: Mover, runs: Runner<Machine>, ms: Machine, full: string, q: nat, l: nat,
                                      last: Machine)
    requires Moves(move) && Runs(runs, Step, full) && OnItsWay(ms, full, q, l) && Shaped(full, l)
    requires last == runs(ms, q).0 && last.cs == Done
    ensures q < |full| && Settled(ms, last, full)
    ensures ms.cs.LastReturn? && full[q] != LF ==> ReturnKey(last.call.headers)
    decreases |full| - q
  {
    if q == |full| {
      RunEnds(runs, ms, full);
    } else {
      var es := TakenByte(move, runs, ms, full, q, l);
      if es.cs != Done {
        SettledRun(move, runs, es, full, q + 1, l, last);
      }
      SettledHere(move, ms, full, q, l, es, last);
    }
  }

  lemma SettledHere(move: Mover, ms: Machine, full: string, q: nat, l: nat, es: Machine, last: Machine)
    requires Moves(move) && OnItsWay(ms, full, q, l) && q < |full| && es == move(ms, full[q], full, q) && es.cs != Error
    requires (es.cs == Done && last == es.(bodyStart := q + 1)) || Settled(es, last, full)
    ensures Settled(ms, last, full)
    ensures ms.cs.LastReturn? && full[q] != LF ==> ReturnKey(last.call.headers)
  {
    var e := Effect(ms, full[q], full, q);
    SettledBack(ms, full, q, l, Next(ms.cs, full[q], ms.grammar), es, last);
  }

  // ---------------------------------------------------------------------------------------
  // In step
  // ---------------------------------------------------------------------------------------

  /** Everything recorded so far agrees, and everything that will be: the registers agree as far as they
      matter, but for the start of a version that was cut at its end. */
  ghost predicate Even(m: Machine, ms: Machine, k: nat, version: nat) {
    && m.cs == ms.cs && m.grammar == ms.grammar && m.call == ms.call && !m.thrown && !ms.thrown
    && (|| Shifted(ms, m, k)
        || m.cs == LastReturn
        || (m.cs == Minor && version == 0x11 && m.mark + k == ms.mark + 8))
  }

  /** The end of the run in a single call is what it should be. */
  ghost predicate Sound(last: Machine, version: nat) {
    last.call.version == version && last.call.error == 0 && !ReturnKey(last.call.headers)
  }

  lemma EffectIn(ms: Machine, b: char, whole: string, full: string, q: nat)
    requires Behind(ms, q) && whole <= full && q < |whole| && whole[q] == b
    ensures Effect(ms, b, full, q) == Effect(ms, b, whole, q)
  {
    var c := full[|whole|..];
    assert full == whole + c;
    EffectStays(ms, b, whole, c, q);
  }

  lemma CallsShift(m: Machine, ms: Machine, buf: string, full: string, k: nat, p: nat, q: nat)
    requires Shifted(ms, m, k) && !ms.thrown && Behind(ms, q) && PartOf(buf, full, k) && p < |buf| && q == k + p
    ensures SameCall(Effect(ms, buf[p], full, q), Effect(m, buf[p], buf, p))
  {
    var a, whole := full[..k], full[..k + |buf|];
    assert whole == a + buf && whole[q] == buf[p];
    EffectIn(ms, buf[p], whole, full, q);
    CallShifts(ms, m, buf[p], a, buf, p, whole, q);
  }

  lemma ShiftOn(m: Machine, ms: Machine, buf: string, full: string, k: nat, p: nat, q: nat, to: State)
    requires Shifted(ms, m, k) && !ms.thrown && Behind(ms, q) && PartOf(buf, full, k) && p < |buf| && q == k + p
    requires to == Next(m.cs, buf[p], m.grammar)
    ensures Shifted(Effect(ms, buf[p], full, q).(cs := to), Effect(m, buf[p], buf, p).(cs := to), k)
  {
    CallsShift(m, ms, buf, full, k, p, q);
    EffectSets(m, buf[p], buf, p);
    EffectSets(ms, buf[p], full, q);
    LiveNext(m.cs, buf[p], m.grammar);
    ShiftedBy(m, ms, buf[p], k, p, q, to, Effect(m, buf[p], buf, p), Effect(ms, buf[p], full, q));
  }

  lemma MinorEven(m: Machine, ms: Machine, buf: string, full: string, p: nat, q: nat)
    requires m.cs.Minor? && ms.cs.Minor? && m.call == ms.call && m.mark == p <= |buf|
    requires var es := WriteVersion(ms, full, q); es.call.version == 0x11 && es.call.error == 0
    ensures WriteVersion(m, buf, p).call == WriteVersion(ms, full, q).call
  {
    CutVersion(m, buf, p);
  }

  lemma EvenBy(m: Machine, ms: Machine, buf: string, full: string, k: nat, p: nat, q: nat, l: nat, to: State,
               version: nat, es: Machine)
    requires Even(m, ms, k, version) && OnItsWay(ms, full, q, l) && PartOf(buf, full, k) && p < |buf| && q == k + p
    requires to == Next(m.cs, buf[p], m.grammar) && to != Error && es == Effect(ms, buf[p], full, q) && !es.thrown
    requires es.call.error == 0 && (PastVersion(to) ==> es.call.version == version)
    requires (ms.cs.LastReturn? ==> buf[p] == LF)
    ensures Even(Effect(m, buf[p], buf, p).(cs := to), es.(cs := to), k, version) || to == Done
    ensures SameCall(Effect(m, buf[p], buf, p), es)
  {
    if Shifted(ms, m, k) {
      ShiftOn(m, ms, buf, full, k, p, q, to);
    } else if m.cs == Minor {
      TokenNext(m.cs, buf[p], m.grammar);
      MinorEffect(m, buf[p], buf, p);
      MinorEffect(ms, buf[p], full, q);
      MinorEven(m, ms, buf, full, p, q);
      EffectSets(m, buf[p], buf, p);
      EffectSets(ms, buf[p], full, q);
    }
  }

  /** Both runs, in step, before byte `p` of a call that began at `k`. */
  ghost predicate EvenAt(runs: Runner<Machine>, m: Machine, ms: Machine, full: string, k: nat, p: nat, q: nat, l: nat,
                         version: nat, last: Machine) {
    && Paired(m, ms, full, k, p, q, l) && Even(m, ms, k, version)
    && runs(ms, q).0 == last && last.cs == Done && Sound(last, version)
  }

  /** Both runs at the end of a piece that began at `k`: both are done, or both go on. */
  ghost predicate EvenEnd(runs: Runner<Machine>, e: Machine, es: Machine, full: string, k: nat, len: nat, end: nat,
                          l: nat, version: nat, last: Machine) {
    !e.thrown && if e.cs == Done then e.call == last.call else EvenAt(runs, e, es, full, k, len, end, l, version, last)
  }

  /** One byte in both runs. */
  lemma ByteEven(move: Mover, run: Runner<Machine>, runs: Runner<Machine>, m: Machine, ms: Machine, buf: string,
                 full: string, k: nat, p: nat, q: nat, l: nat, w: Watch, last: Machine)
      returns (e: Machine, es: Machine, p': nat, q': nat)
    requires Moves(move) && Runs(run, Step, buf) && Runs(runs, Step, full)
    requires EvenAt(runs, m, ms, full, k, p, q, l, w.version, last) && Fits(buf, full, k, l, w) && p < |buf|
    ensures p' == p + 1 && q' == q + 1 && EvenEnd(runs, e, es, full, k, p', q', l, w.version, last)
    ensures if e.cs == Done then run(m, p).0 == e else run(m, p) == run(e, p')
  {
    PartAt(buf, full, k, p, q);
    es := TakenByte(move, runs, ms, full, q, l);
    SettledRun(move, runs, ms, full, q, l, last);
    if es.cs != Done {
      SettledRun(move, runs, es, full, q + 1, l, last);
    }
    EvenMove(move, m, ms, buf, full, k, p, q, l, w.version, es);
    e, es, p', q' := ByteOn(move, run, runs, m, ms, buf, full, k, p, q, l, w);
    if e.cs == Done {
      e := e.(bodyStart := p');
    }
  }

  lemma EvenMove(move: Mover, m: Machine, ms: Machine, buf: string, full: string, k: nat, p: nat, q: nat, l: nat,
                 version: nat, es: Machine)
    requires Moves(move) && Even(m, ms, k, version) && OnItsWay(ms, full, q, l) && PartOf(buf, full, k) && p < |buf|
    requires q == k + p
    requires es == move(ms, buf[p], full, q) && es.cs != Error && !es.thrown
    requires es.call.error == 0 && (PastVersion(es.cs) ==> es.call.version == version)
    requires (ms.cs.LastReturn? ==> buf[p] == LF)
    ensures var e := move(m, buf[p], buf, p);
            !e.thrown && e.call == es.call && (es.cs != Done ==> Even(e, es, k, version))
  {
    var to := Next(m.cs, buf[p], m.grammar);
    var e := Effect(m, buf[p], buf, p);
    EvenBy(m, ms, buf, full, k, p, q, l, to, version, Effect(ms, buf[p], full, q));
  }

  /** `even` is `EvenAt`, which the induction over a piece does not look into. */
  ghost predicate Follows(even: (Machine, Machine, nat, nat) -> bool, runs: Runner<Machine>, full: string, k: nat,
                          l: nat, version: nat, last: Machine) {
    forall m, ms, p: nat, q: nat {:trigger EvenAt(runs, m, ms, full, k, p, q, l, version, last)} ::
      even(m, ms, p, q) == EvenAt(runs, m, ms, full, k, p, q, l, version, last)
  }

  lemma ByteFollows(even: (Machine, Machine, nat, nat) -> bool, run: Runner<Machine>, runs: Runner<Machine>, m: Machine,
                    ms: Machine, buf: string, full: string, k: nat, p: nat, q: nat, l: nat, w: Watch, last: Machine)
    returns (e: Machine, es: Machine, p': nat, q': nat)
    requires Follows(even, runs, full, k, l, w.version, last) && Runs(run, Step, buf) && Runs(runs, Step, full)
    requires even(m, ms, p, q) && Fits(buf, full, k, l, w) && p < |buf|
    ensures p' == p + 1 && q' == q + 1 && !e.thrown
    ensures e.cs == Done ==> run(m, p).0 == e && e.call == last.call
    ensures e.cs != Done ==> run(m, p) == run(e, p') && even(e, es, p', q')
  {
    MovedMoves();
    var move := (m: Machine, b: char, buf: string, p: nat) => Moved(m, b, buf, p);
    assert EvenAt(runs, m, ms, full, k, p, q, l, w.version, last);
    e, es, p', q' := ByteEven(move, run, runs, m, ms, buf, full, k, p, q, l, w, last);
    assert e.cs != Done ==> EvenAt(runs, e, es, full, k, p', q', l, w.version, last);
  }

  lemma NotThrown(even: (Machine, Machine, nat, nat) -> bool, runs: Runner<Machine>, m: Machine, ms: Machine,
                  full: string, k: nat, p: nat, q: nat, l: nat, version: nat, last: Machine)
    requires Follows(even, runs, full, k, l, version, last) && even(m, ms, p, q)
    ensures !m.thrown && m.cs != Done
  {
    assert EvenAt(runs, m, ms, full, k, p, q, l, version, last);
  }

  /** Both runs over the rest of a piece. */
  lemma {:induction false} PieceFollows(even: (Machine, Machine, nat, nat) -> bool, run: Runner<Machine>,
                                        runs: Runner<Machine>, m: Machine, ms: Machine, buf: string, full: string,
                                        k: nat, p: nat, q: nat, l: nat, w: Watch, last: Machine, end: nat)
    returns (e: Machine, es: Machine)
    requires Follows(even, runs, full, k, l, w.version, last) && Runs(run, Step, buf) && Runs(runs, Step, full)
    requires even(m, ms, p, q) && Fits(buf, full, k, l, w) && p <= |buf| && q == k + p && end == k + |buf|
    ensures e == run(m, p).0 && !e.thrown
    ensures if e.cs == Done then e.call == last.call else even(e, es, |buf|, end)
    decreases |buf| - p
  {
    if p == |buf| {
      e, es := m, ms;
      RunEnds(run, m, buf);
      NotThrown(even, runs, m, ms, full, k, p, q, l, w.version, last);
    } else {
      var m1, ms1, p', q' := ByteFollows(even, run, runs, m, ms, buf, full, k, p, q, l, w, last);
      e, es := m1, ms1;
      if m1.cs != Done {
        e, es := PieceFollows(even, run, runs, m1, ms1, buf, full, k, p', q', l, w, last, end);
      }
    }
  }

  /** Both runs over a piece. */
  lemma PieceEven(runs: Runner<Machine>, m: Machine, ms: Machine, buf: string, full: string, q: nat, l: nat, w: Watch,
                  last: Machine, end: nat) returns (e: Machine, es: Machine)
    requires Runs(runs, Step, full) && end == q + |buf| && EvenAt(runs, m, ms, full, q, 0, q, l, w.version, last)
    requires Fits(buf, full, q, l, w)
    ensures e == Scan(Step, m, buf, 0).0 && !e.thrown
    ensures if e.cs == Done then e.call == last.call else EvenAt(runs, e, es, full, q, |buf|, end, l, w.version, last)
  {
    RunningRuns(Step, buf);
    var run := Running(Step, buf);
    var even := (m: Machine, ms: Machine, p: nat, q': nat) => EvenAt(runs, m, ms, full, q, p, q', l, w.version, last);
    e, es := PieceFollows(even, run, runs, m, ms, buf, full, q, 0, q, l, w, last, end);
    assert run(m, 0) == Scan(Step, m, buf, 0);
  }
}
