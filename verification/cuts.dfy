/**
 A stream cut into pieces. For any table, the state it ends in and the offset it stops at do not depend
 on the cuts; for the request parser, what its callbacks record does not either, as long as no cut
 falls inside a token.
 */
module Cuts {
  import opened Wrappers
  import opened HttpText
  import opened Scanning
  import opened RequestMachine
  import opened RequestMethods

  // ---------------------------------------------------------------------------------------
  // Any table
  // ---------------------------------------------------------------------------------------

  type Table<!S> = (S, char) -> Verdict<S>

  /** How far a table gets on a text: it wants more, or it stopped after `at` bytes. */
  datatype Feeding<S> = More(s: S) | Stopped(s: S, at: nat, finished: bool)

  function Later<S>(r: Feeding<S>, k: nat): Feeding<S> {
    match r
    case More(s) => More(s)
    case Stopped(s, at, finished) => Stopped(s, at + k, finished)
  }

  function Feed<S>(table: Table<S>, s: S, text: string): (r: Feeding<S>)
    ensures r.Stopped? ==> r.at <= |text|
    decreases |text|
  {
    if text == "" then More(s)
    else
      match table(s, text[0])
      case Go(s') => Later(Feed(table, s', text[1..]), 1)
      case Halt(s') => Stopped(s', 1, true)
      case Fail(s') => Stopped(s', 0, false)
  }

  /** Read after read, until the table stops. */
  function FeedAll<S>(table: Table<S>, s: S, pieces: seq<string>): Feeding<S>
    decreases |pieces|
  {
    if pieces == [] then More(s)
    else
      match Feed(table, s, pieces[0])
      case More(s') => Later(FeedAll(table, s', pieces[1..]), |pieces[0]|)
      case Stopped(s', at, finished) => Stopped(s', at, finished)
  }

  function Whole(pieces: seq<string>): string {
    if pieces == [] then "" else pieces[0] + Whole(pieces[1..])
  }

  lemma {:induction false} FeedSplit<S>(table: Table<S>, s: S, a: string, b: string)
    ensures Feed(table, s, a + b) == match Feed(table, s, a)
                                     case More(s') => Later(Feed(table, s', b), |a|)
                                     case Stopped(s', at, finished) => Stopped(s', at, finished)
    decreases |a|
  {
    if a == "" {
      assert a + b == b;
    } else {
      assert (a + b)[1..] == a[1..] + b;
      if table(s, a[0]).Go? {
        FeedSplit(table, table(s, a[0]).m, a[1..], b);
      }
    }
  }

  /** Verdict and offset are the same for every cut of the stream. */
  lemma {:induction false} CutsAgree<S>(table: Table<S>, s: S, pieces: seq<string>)
    ensures FeedAll(table, s, pieces) == Feed(table, s, Whole(pieces))
    decreases |pieces|
  {
    if pieces != [] {
      FeedSplit(table, s, pieces[0], Whole(pieces[1..]));
      var r := Feed(table, s, pieces[0]);
      if r.More? {
        CutsAgree(table, r.s, pieces[1..]);
      }
    }
  }

  // ---------------------------------------------------------------------------------------
  // The request parser
  // ---------------------------------------------------------------------------------------

  /** The control part of the request parser. */
  function Control(s: State, b: char, g: Grammar): Verdict<State> {
    var to := Next(s, b, g);
    if to == Error then Fail(Error) else if Finished(to) then Halt(to) else Go(to)
  }

  function RequestTable(g: Grammar): Table<State> {
    (s: State, b: char) => Control(s, b, g)
  }

  /** It stops where it finishes, with at least one byte taken, or at an error, and nowhere else. */
  lemma {:induction false} FeedStates(g: Grammar, s: State, text: string)
    requires s != Error && !Finished(s)
    ensures match Feed(RequestTable(g), s, text)
            case More(t) => t != Error && !Finished(t)
            case Stopped(t, at, finished) => if finished then Finished(t) && at > 0 else t == Error
    decreases |text|
  {
    if text != "" {
      var v := Control(s, text[0], g);
      assert RequestTable(g)(s, text[0]) == v;
      if v.Go? {
        FeedStates(g, v.m, text[1..]);
      }
    }
  }

  /** What a call of `http_parser_execute` forgets: everything but the state, the callbacks' data and
      `query_start`. */
  function Reset(m: Machine): Machine {
    m.(mark := 0, fieldStart := 0, fieldLen := 0)
  }

  lemma StepControl(m: Machine, b: char, buf: string, p: nat)
    requires !m.thrown
    ensures var v := Step(m, b, buf, p);
            && v.m.grammar == m.grammar
            && (v.m.thrown ==> v.Fail?)
            && (!v.m.thrown ==> match Control(m.cs, b, m.grammar)
                                case Go(s) => v.Go? && v.m.cs == s
                                case Halt(s) => v.Halt? && v.m.cs == s
                                case Fail(s) => v.Fail? && v.m.cs == s)
  {
  }

  /** The full parser follows its control part, unless a callback throws. */
  lemma {:induction false} ScanControl(m: Machine, buf: string, p: nat) returns (m': Machine, n: nat)
    requires p <= |buf| && !m.thrown
    ensures (m', n) == Scan(Step, m, buf, p) && m'.grammar == m.grammar
    ensures !m'.thrown ==> match Feed(RequestTable(m.grammar), m.cs, buf[p..])
                           case More(s) => m'.cs == s && n == |buf|
                           case Stopped(s, at, finished) => m'.cs == s && n == p + at
    decreases |buf| - p
  {
    var all := Scan(Step, m, buf, p);
    m', n := all.0, all.1;
    if p < |buf| {
      StepControl(m, buf[p], buf, p);
      assert buf[p..][1..] == buf[p + 1..];
      var v := Step(m, buf[p], buf, p);
      if v.Go? {
        m', n := ScanControl(v.m, buf, p + 1);
      }
    }
  }

  // ---------------------------------------------------------------------------------------
  // Cuts between tokens
  // ---------------------------------------------------------------------------------------

  /** The states in which each register still matters. */
  predicate LiveMark(s: State) {
    || s.Outside? || s.Method? || s.Scheme? || s.FirstSlash? || (s.In? && s.part != Query) || (s.Protocol? && s.k > 0)
    || s.Minor? || s.Value?
  }

  predicate LiveField(s: State) {
    s.Name? || s.LastReturn? || s.ValueStart? || s.Value? || s.Done?
  }

  predicate LiveLen(s: State) {
    s.ValueStart? || s.Value?
  }

  predicate LiveQuery(s: State) {
    s.In? && s.part == Query
  }

  /** Between two tokens nothing in the registers matters. */
  predicate Resting(s: State) {
    !LiveMark(s) && !LiveField(s) && !LiveLen(s) && !LiveQuery(s)
  }

  /** The same machine, seen from `k` bytes further on. */
  ghost predicate Shifted(m: Machine, m': Machine, k: nat) {
    && m.cs == m'.cs && m.grammar == m'.grammar && m.call == m'.call && m.thrown == m'.thrown
    && (LiveMark(m.cs) ==> m.mark == m'.mark + k)
    && (LiveField(m.cs) ==> m.fieldStart == m'.fieldStart + k)
    && (LiveLen(m.cs) ==> m.fieldLen == m'.fieldLen)
    && (LiveQuery(m.cs) ==> m.queryStart == m'.queryStart + k)
  }

  lemma TextShifts(a: string, b: string, from: nat, to: nat)
    ensures Text(a + b, from + |a|, to + |a|) == Text(b, from, to)
  {
    var whole, k := a + b, |a|;
    if from <= to <= |b| {
      assert whole[from + k..to + k] == b[from..to];
    } else if from <= |b| {
      assert whole[from + k..] == b[from..];
    }
  }

  ghost predicate SameCall(m: Machine, m': Machine) {
    m.call == m'.call && m.thrown == m'.thrown
  }

  lemma MethodEffect(m: Machine, b: char, buf: string, p: nat)
    requires m.cs.Method?
    ensures Effect(m, b, buf, p) == if b == ' ' then WriteMethod(m, buf) else m
  {
  }

  /** The method recorded depends on the text from the mark on, and nothing else changes. */
  lemma WriteMethodBy(m: Machine, buf: string, text: string)
    requires text == Text(buf, m.mark, |buf|)
    ensures WriteMethod(m, buf)
         == m.(call := match FromChars(METHODS, text, 0)
                       case None => m.call.(error := 1000)
                       case Some(i) => m.call.(verb := i))
  {
  }

  lemma MethodShifts(m: Machine, m': Machine, b: char, a: string, buf: string, p: nat, whole: string, q: nat)
    requires whole == a + buf && q == p + |a| && Shifted(m, m', |a|) && !m.thrown && m.cs.Method?
    ensures SameCall(Effect(m, b, whole, q), Effect(m', b, buf, p))
  {
    TextShifts(a, buf, m'.mark, |buf|);
    var text := Text(buf, m'.mark, |buf|);
    WriteMethodBy(m, whole, text);
    WriteMethodBy(m', buf, text);
    MethodEffect(m, b, whole, q);
    MethodEffect(m', b, buf, p);
  }

  predicate InPath(s: State) {
    || s.Outside? || s.Target? || s.Scheme? || s.SchemeEnd? || s.FirstSlash?
    || (s.In? && s.part != Query && s.part != Fragment)
  }

  lemma TargetShifts(m: Machine, m': Machine, b: char, a: string, buf: string, p: nat, whole: string, q: nat)
    requires whole == a + buf && q == p + |a| && Shifted(m, m', |a|) && !m.thrown && InPath(m.cs)
    ensures SameCall(Effect(m, b, whole, q), Effect(m', b, buf, p))
  {
    TextShifts(a, buf, m'.mark, p);
    TextShifts(a, buf, p, p);
  }

  lemma QueryShifts(m: Machine, m': Machine, b: char, a: string, buf: string, p: nat, whole: string, q: nat)
    requires whole == a + buf && q == p + |a| && Shifted(m, m', |a|) && !m.thrown
    requires m.cs.QueryStart? || m.cs.FragmentStart? || (m.cs.In? && (m.cs.part == Query || m.cs.part == Fragment))
    ensures SameCall(Effect(m, b, whole, q), Effect(m', b, buf, p))
  {
    TextShifts(a, buf, m'.mark, p);
    TextShifts(a, buf, m'.queryStart, p);
    TextShifts(a, buf, p, p);
  }

  lemma VersionShifts(m: Machine, m': Machine, b: char, a: string, buf: string, p: nat, whole: string, q: nat)
    requires whole == a + buf && q == p + |a| && Shifted(m, m', |a|) && !m.thrown && (m.cs.Protocol? || m.cs.Minor?)
    ensures SameCall(Effect(m, b, whole, q), Effect(m', b, buf, p))
  {
    TextShifts(a, buf, m'.mark, p);
  }

  lemma ValueEffect(m: Machine, b: char, buf: string, p: nat)
    requires m.cs.ValueStart? || m.cs.Value?
    ensures var m1 := if m.cs.ValueStart? then m.(mark := p) else m;
            Effect(m, b, buf, p) == if b == CR || b == LF then WriteValue(m1, buf, p) else m1
  {
  }

  lemma ValueShifts(m: Machine, m': Machine, b: char, a: string, buf: string, p: nat, whole: string, q: nat)
    requires whole == a + buf && q == p + |a| && Shifted(m, m', |a|) && !m.thrown && (m.cs.ValueStart? || m.cs.Value?)
    ensures SameCall(Effect(m, b, whole, q), Effect(m', b, buf, p))
  {
    ValueEffect(m, b, whole, q);
    ValueEffect(m', b, buf, p);
    TextShifts(a, buf, m'.mark, p);
    TextShifts(a, buf, p, p);
    TextShifts(a, buf, m'.fieldStart, m'.fieldStart + m'.fieldLen);
  }

  lemma CallShifts(m: Machine, m': Machine, b: char, a: string, buf: string, p: nat, whole: string, q: nat)
    requires whole == a + buf && q == p + |a| && Shifted(m, m', |a|) && !m.thrown
    ensures SameCall(Effect(m, b, whole, q), Effect(m', b, buf, p))
  {
    if m.cs.Method? {
      MethodShifts(m, m', b, a, buf, p, whole, q);
    } else if InPath(m.cs) {
      TargetShifts(m, m', b, a, buf, p, whole, q);
    } else if m.cs.QueryStart? || m.cs.FragmentStart? || m.cs.In? {
      QueryShifts(m, m', b, a, buf, p, whole, q);
    } else if m.cs.Protocol? || m.cs.Minor? {
      VersionShifts(m, m', b, a, buf, p, whole, q);
    } else if m.cs.ValueStart? || m.cs.Value? {
      ValueShifts(m, m', b, a, buf, p, whole, q);
    }
  }

  /** Which states set the mark. */
  predicate Marks(s: State, b: char, g: Grammar) {
    || (s.Outside? && OutsideEdge(g, s.code, b).Some? && OutsideEdge(g, s.code, b).value.mark)
    || s.Start? || s.Target? || s.SchemeEnd? || s.FragmentStart? || s == Protocol(0) || s.ValueStart?
  }

  /** Which edges set the length of a name. */
  predicate Names(s: State, b: char) {
    (s.Name? || s.LastReturn? || s.Done?) && b == ':'
  }

  /** The registers an edge sets. */
  ghost predicate Sets(m: Machine, e: Machine, b: char, p: nat) {
    && e.grammar == m.grammar && e.bodyStart == m.bodyStart
    && e.mark == (if Marks(m.cs, b, m.grammar) then p else m.mark)
    && e.queryStart == (if m.cs.QueryStart? then p else m.queryStart)
    && e.fieldStart == (if m.cs.Line? then p else m.fieldStart)
    && e.fieldLen == (if !Names(m.cs, b) then m.fieldLen else if m.fieldStart <= p then p - m.fieldStart else 0)
  }

  lemma TargetSets(m: Machine, b: char, buf: string, p: nat)
    requires InPath(m.cs) || m.cs.QueryStart? || m.cs.FragmentStart? || m.cs.In?
    ensures Sets(m, Effect(m, b, buf, p), b, p)
  {
  }

  lemma LineSets(m: Machine, b: char, buf: string, p: nat)
    requires !InPath(m.cs) && !m.cs.QueryStart? && !m.cs.FragmentStart? && !m.cs.In? && !m.cs.Method?
    ensures Sets(m, Effect(m, b, buf, p), b, p)
  {
  }

  lemma EffectSets(m: Machine, b: char, buf: string, p: nat)
    ensures Sets(m, Effect(m, b, buf, p), b, p)
  {
    if m.cs.Method? {
      MethodEffect(m, b, buf, p);
      WriteMethodBy(m, buf, Text(buf, m.mark, |buf|));
    } else if InPath(m.cs) || m.cs.QueryStart? || m.cs.FragmentStart? || m.cs.In? {
      TargetSets(m, b, buf, p);
    } else {
      LineSets(m, b, buf, p);
    }
  }

  /** A register matters in `to` only if it did in `s` or is set on the way. */
  predicate LivesOn(s: State, b: char, g: Grammar, to: State) {
    && (LiveMark(to) ==> LiveMark(s) || Marks(s, b, g))
    && (LiveField(to) ==> LiveField(s) || s.Line?)
    && (LiveLen(to) ==> LiveLen(s) || (Names(s, b) && LiveField(s)))
    && (LiveQuery(to) ==> LiveQuery(s) || s.QueryStart?)
  }

  lemma LiveNext(s: State, b: char, g: Grammar)
    ensures LivesOn(s, b, g, Next(s, b, g))
  {
  }

  lemma ShiftedBy(m: Machine, ms: Machine, b: char, k: nat, p: nat, q: nat, to: State, e: Machine, es: Machine)
    requires Shifted(ms, m, k) && q == p + k && Sets(m, e, b, p) && Sets(ms, es, b, q)
    requires LivesOn(m.cs, b, m.grammar, to)
    requires SameCall(es, e)
    ensures Shifted(es.(cs := to), e.(cs := to), k)
  {
  }

  lemma EffectShifts(m: Machine, ms: Machine, b: char, a: string, buf: string, p: nat, whole: string, q: nat, to: State)
    requires whole == a + buf && q == p + |a| && Shifted(ms, m, |a|) && !ms.thrown && to == Next(m.cs, b, m.grammar)
    ensures Shifted(Effect(ms, b, whole, q).(cs := to), Effect(m, b, buf, p).(cs := to), |a|)
  {
    CallShifts(ms, m, b, a, buf, p, whole, q);
    EffectSets(m, b, buf, p);
    EffectSets(ms, b, whole, q);
    LiveNext(m.cs, b, m.grammar);
    ShiftedBy(m, ms, b, |a|, p, q, to, Effect(m, b, buf, p), Effect(ms, b, whole, q));
  }

  /** What a step can be, by where the edge leads. */
  lemma StepKinds(m: Machine, b: char, buf: string, p: nat, to: State)
    requires !m.thrown && to == Next(m.cs, b, m.grammar)
    ensures var v, e := Step(m, b, buf, p), Effect(m, b, buf, p);
            && (to == Error ==> v == Fail(m.(cs := Error)))
            && (to != Error && e.thrown ==> v == Fail(e))
            && (to == Done && !e.thrown ==> v == Halt(e.(cs := Done, bodyStart := p + 1)))
            && (to == Sent && !e.thrown ==> v == Halt(e.(cs := Sent, bodyStart := e.mark)))
            && (to != Error && !Finished(to) && !e.thrown ==> v == Go(e.(cs := to)))
  {
  }

  lemma EffectKeepsState(m: Machine, b: char, buf: string, p: nat)
    ensures Effect(m, b, buf, p).cs == m.cs
  {
    if m.cs.Method? {
      MethodEffect(m, b, buf, p);
      WriteMethodBy(m, buf, Text(buf, m.mark, |buf|));
    }
  }

  lemma StepShifts(m: Machine, m': Machine, b: char, a: string, buf: string, p: nat, whole: string, q: nat)
    requires whole == a + buf && q == p + |a| && Shifted(m, m', |a|) && !m.thrown
    ensures var v, v' := Step(m, b, whole, q), Step(m', b, buf, p);
            && v.Go? == v'.Go? && v.Halt? == v'.Halt? && v.m.cs == v'.m.cs && SameCall(v.m, v'.m)
            && (v.Go? ==> Shifted(v.m, v'.m, |a|) && !v.m.thrown)
  {
    var to := Next(m.cs, b, m.grammar);
    EffectShifts(m', m, b, a, buf, p, whole, q, to);
    EffectKeepsState(m, b, whole, q);
    EffectKeepsState(m', b, buf, p);
    StepKinds(m, b, whole, q, to);
    StepKinds(m', b, buf, p, to);
  }

  /** Two ends of a scan, one seen from `k` bytes further on. */
  ghost predicate EndsShift(r: (Machine, nat), r': (Machine, nat), k: nat) {
    r.0.cs == r'.0.cs && SameCall(r.0, r'.0) && r.1 == r'.1 + k
  }

  /** One byte of a scan that is not at its end. */
  lemma ShiftedByte(run: Runner<Machine>, run': Runner<Machine>, m: Machine, m': Machine, a: string, buf: string, p: nat,
                    whole: string, q: nat) returns (go: bool, n: Machine, n': Machine)
    requires Runs(run, Step, whole) && Runs(run', Step, buf)
    requires whole == a + buf && q == p + |a| && Shifted(m, m', |a|) && !m.thrown && p < |buf|
    ensures go ==> && Shifted(n, n', |a|) && !n.thrown
                   && run(m, q) == run(n, q + 1) && run'(m', p) == run'(n', p + 1)
    ensures !go ==> EndsShift(run(m, q), run'(m', p), |a|)
  {
    assert whole[q] == buf[p];
    StepShifts(m, m', buf[p], a, buf, p, whole, q);
    var v, v' := Step(m, buf[p], whole, q), Step(m', buf[p], buf, p);
    go, n, n' := v.Go?, v.m, v'.m;
    assert run(m, q) == Scan(Step, m, whole, q) && run'(m', p) == Scan(Step, m', buf, p);
    if go {
      assert run(n, q + 1) == Scan(Step, n, whole, q + 1) && run'(n', p + 1) == Scan(Step, n', buf, p + 1);
    }
  }

  lemma AtEnd(run: Runner<Machine>, m: Machine, buf: string, p: nat)
    requires Runs(run, Step, buf) && p == |buf|
    ensures run(m, p) == (m, p)
  {
    assert Scan(Step, m, buf, p) == (m, p);
  }

  /** The rest of a scan, seen from `|a|` bytes further on. */
  lemma {:induction false} ShiftedScan(run: Runner<Machine>, run': Runner<Machine>, m: Machine, m': Machine, a: string,
                                       buf: string, p: nat, whole: string, q: nat)
    requires Runs(run, Step, whole) && Runs(run', Step, buf)
    requires whole == a + buf && q == p + |a| && Shifted(m, m', |a|) && !m.thrown && p <= |buf|
    ensures EndsShift(run(m, q), run'(m', p), |a|)
    decreases |buf| - p
  {
    if p < |buf| {
      var go, n, n' := ShiftedByte(run, run', m, m', a, buf, p, whole, q);
      if go {
        ShiftedScan(run, run', n, n', a, buf, p + 1, whole, q + 1);
      }
    } else {
      AtEnd(run, m, whole, q);
      AtEnd(run', m', buf, p);
    }
  }

  // Bytes that are still to come do not change what is recorded now.

  /** The registers point into what is already read. */
  predicate Behind(m: Machine, p: nat) {
    m.mark <= p && m.fieldStart <= p && (LiveLen(m.cs) ==> m.fieldStart + m.fieldLen <= p)
  }

  lemma TextStays(a: string, c: string, from: nat, to: nat)
    requires to <= |a|
    ensures Text(a + c, from, to) == Text(a, from, to) || from > to
  {
    if from <= to {
      assert (a + c)[from..to] == a[from..to];
    }
  }

  lemma NoSpaces(i: nat)
    requires i < 34
    ensures ' ' !in METHODS[i]
  {
    if i != 24 {
      MethodSpelling(i);
    }
  }

  lemma EndsBefore(name: string, text: string, k: nat)
    requires ' ' !in name && name <= text && k < |text| && text[k] == ' '
    ensures |name| <= k
  {
    assert forall j :: 0 <= j < |name| ==> text[j] == name[j];
    assert forall j :: 0 <= j < |name| ==> name[j] != ' ';
  }

  /** A name without a space is found, or not, before the next space. */
  lemma FoundBefore(name: string, t: string, u: string, k: nat)
    requires ' ' !in name && k < |t| && t[k] == ' '
    ensures name <= t <==> name <= t + u
  {
    if name <= t + u {
      EndsBefore(name, t + u, k);
      assert (t + u)[..|name|] == t[..|name|];
    }
    if name <= t {
      assert (t + u)[..|name|] == t[..|name|];
    }
  }

  lemma {:induction false} MethodStays(t: string, u: string, k: nat, i: nat)
    requires k < |t| && t[k] == ' ' && i <= 34
    ensures FromChars(METHODS, t, i) == FromChars(METHODS, t + u, i)
    decreases 34 - i
  {
    if i < 34 {
      NoSpaces(i);
      FoundBefore(METHODS[i], t, u, k);
      MethodStays(t, u, k, i + 1);
    }
  }

  lemma MethodIgnoresRest(m: Machine, a: string, c: string, p: nat)
    requires Behind(m, p) && p < |a| && a[p] == ' '
    ensures WriteMethod(m, a + c) == WriteMethod(m, a)
  {
    var t := a[m.mark..];
    assert Text(a, m.mark, |a|) == t by { assert a[m.mark..|a|] == t; }
    assert Text(a + c, m.mark, |a + c|) == t + c by { assert (a + c)[m.mark..|a + c|] == t + c; }
    assert t[p - m.mark] == ' ';
    MethodStays(t, c, p - m.mark, 0);
    WriteMethodBy(m, a, t);
    WriteMethodBy(m, a + c, t + c);
  }

  lemma EffectStays(m: Machine, b: char, a: string, c: string, p: nat)
    requires Behind(m, p) && p < |a| && a[p] == b
    ensures Effect(m, b, a + c, p) == Effect(m, b, a, p)
  {
    TextStays(a, c, m.mark, p);
    TextStays(a, c, p, p);
    if m.cs.Method? {
      MethodEffect(m, b, a, p);
      MethodEffect(m, b, a + c, p);
      if b == ' ' {
        MethodIgnoresRest(m, a, c, p);
      }
    } else if m.cs.ValueStart? || m.cs.Value? {
      TextStays(a, c, m.fieldStart, m.fieldStart + m.fieldLen);
    } else {
      TextStays(a, c, m.queryStart, p);
    }
  }

  lemma BehindNext(m: Machine, b: char, buf: string, p: nat, to: State)
    requires Behind(m, p) && to == Next(m.cs, b, m.grammar)
    ensures Behind(Effect(m, b, buf, p).(cs := to), p + 1)
  {
    EffectSets(m, b, buf, p);
    LiveNext(m.cs, b, m.grammar);
  }

  lemma StepStays(m: Machine, b: char, a: string, c: string, p: nat)
    requires Behind(m, p) && p < |a| && a[p] == b
    ensures Step(m, b, a + c, p) == Step(m, b, a, p)
    ensures Step(m, b, a, p).Go? ==> Behind(Step(m, b, a, p).m, p + 1)
  {
    EffectStays(m, b, a, c, p);
    BehindNext(m, b, a, p, Next(m.cs, b, m.grammar));
  }

  /** A scan that took all of `a` and did not stop goes on from there when more follows. */
  predicate GoesOn(m: Machine) {
    m.cs != Error && !Finished(m.cs) && !m.thrown
  }

  lemma {:induction false} ScanStays(m: Machine, a: string, c: string, p: nat)
    requires Behind(m, p) && p <= |a| && !m.thrown
    requires var (e, n) := Scan(Step, m, a, p); GoesOn(e)
    ensures var (e, n) := Scan(Step, m, a, p); Scan(Step, m, a + c, p) == Scan(Step, e, a + c, |a|)
    decreases |a| - p
  {
    if p < |a| {
      assert (a + c)[p] == a[p];
      StepStays(m, a[p], a, c, p);
      StepControl(m, a[p], a, p);
      var v := Step(m, a[p], a, p);
      if v.Go? {
        ScanStays(v.m, a, c, p + 1);
      }
    }
  }

  /** One call of `http_parser_execute` on a buffer that is not empty. */
  function Call1(m: Machine, buf: string): (Machine, nat) {
    Scan(Step, Reset(m), buf, 0)
  }

  /** A cut between two tokens changes nothing: the two calls end where one call on the joined text ends,
      with the same data, and at the same place. */
  lemma CutAtRest(m: Machine, a: string, c: string)
    requires !m.thrown && GoesOn(Call1(m, a).0) && Resting(Call1(m, a).0.cs)
    ensures var (e, n) := Call1(Call1(m, a).0, c);
            var (e', n') := Call1(m, a + c);
            e.cs == e'.cs && SameCall(e, e') && n' == |a| + n
  {
    var m1 := Call1(m, a).0;
    ScanStays(Reset(m), a, c, 0);
    assert Shifted(m1, Reset(m1), |a|);
    var whole := a + c;
    RunningRuns(Step, whole);
    RunningRuns(Step, c);
    ShiftedScan(Running(Step, whole), Running(Step, c), m1, Reset(m1), a, c, 0, whole, |a|);
  }

  /** Call after call, until one stops. */
  function CallAll(m: Machine, pieces: seq<string>): Machine
    decreases |pieces|
  {
    if pieces == [] then m
    else
      var m' := Call1(m, pieces[0]).0;
      if GoesOn(m') then CallAll(m', pieces[1..]) else m'
  }

  /** One more piece. */
  lemma {:induction false} CallOneMore(m: Machine, pieces: seq<string>, x: string)
    requires GoesOn(CallAll(m, pieces))
    ensures CallAll(m, pieces + [x]) == Call1(CallAll(m, pieces), x).0
    ensures Whole(pieces + [x]) == Whole(pieces) + x
    decreases |pieces|
  {
    if pieces == [] {
      assert pieces + [x] == [x] && [x][1..] == [];
      assert CallAll(Call1(m, x).0, []) == Call1(m, x).0;
      assert Whole([x]) == x + "" == x;
    } else {
      assert (pieces + [x])[1..] == pieces[1..] + [x];
      CallOneMore(Call1(m, pieces[0]).0, pieces[1..], x);
      assert pieces[0] + (Whole(pieces[1..]) + x) == pieces[0] + Whole(pieces[1..]) + x;
    }
  }

  /** Call after call, whatever the calls before made of it: the machine and the offset each ended with. */
  function Series(m: Machine, pieces: seq<string>): (r: seq<(Machine, nat)>)
    ensures |r| == |pieces|
    decreases |pieces|
  {
    if pieces == [] then []
    else
      var first := Call1(m, pieces[0]);
      [first] + Series(first.0, pieces[1..])
  }

  /** After an error no series of calls takes another byte or records anything: `http_parser_execute` goes
      on being called with the same state, the same data and offset 0. */
  lemma {:induction false} ErrorAbsorbs(m: Machine, pieces: seq<string>, i: nat)
    requires m.cs == Error && i < |pieces|
    ensures var (e, n) := Series(m, pieces)[i];
            e.cs == Error && SameCall(e, m) && e.queryStart == m.queryStart && n == 0
    decreases |pieces|
  {
    if i > 0 {
      ErrorAbsorbs(Call1(m, pieces[0]).0, pieces[1..], i - 1);
    }
  }

  /** No cut falls inside a token. */
  predicate CutsRest(m: Machine, pieces: seq<string>)
    decreases |pieces|
  {
    |pieces| > 1 ==>
      var m' := Call1(m, pieces[0]).0;
      GoesOn(m') ==> Resting(m'.cs) && CutsRest(m', pieces[1..])
  }

  lemma {:induction false} StopStays(m: Machine, a: string, c: string, p: nat)
    requires Behind(m, p) && p <= |a| && GoesOn(m)
    requires !GoesOn(Scan(Step, m, a, p).0)
    ensures Scan(Step, m, a + c, p) == Scan(Step, m, a, p)
    decreases |a| - p
  {
    if p < |a| {
      assert (a + c)[p] == a[p];
      StepStays(m, a[p], a, c, p);
      StepControl(m, a[p], a, p);
      var v := Step(m, a[p], a, p);
      if v.Go? {
        StopStays(v.m, a, c, p + 1);
      }
    }
  }

  /** The same state and the same data, whatever the cuts between tokens. */
  lemma {:induction false} RestingCutsAgree(m: Machine, pieces: seq<string>)
    requires GoesOn(m) && pieces != [] && CutsRest(m, pieces)
    ensures var e, e' := CallAll(m, pieces), Call1(m, Whole(pieces)).0;
            e.cs == e'.cs && SameCall(e, e')
    decreases |pieces|
  {
    var a, c := pieces[0], Whole(pieces[1..]);
    var m' := Call1(m, a).0;
    if |pieces| == 1 {
      assert Whole(pieces) == a;
      assert pieces[1..] == [];
    } else if GoesOn(m') {
      RestingCutsAgree(m', pieces[1..]);
      CutAtRest(m, a, c);
    } else {
      StopStays(Reset(m), a, c, 0);
    }
  }

  // ---------------------------------------------------------------------------------------
  // The asserts at the end of a call
  // ---------------------------------------------------------------------------------------

  /** What `http_parser_execute` asserts of its registers. */
  predicate InBuffer(m: Machine, len: nat) {
    m.bodyStart <= len && m.mark < len && m.fieldLen <= len && m.fieldStart < len
  }

  lemma StepInBuffer(m: Machine, b: char, buf: string, p: nat)
    requires InBuffer(m, |buf|) && p < |buf|
    ensures InBuffer(Step(m, b, buf, p).m, |buf|)
  {
    EffectSets(m, b, buf, p);
  }

  lemma {:induction false} ScanInBuffer(m: Machine, buf: string, p: nat)
    requires InBuffer(m, |buf|) && p <= |buf|
    ensures InBuffer(Scan(Step, m, buf, p).0, |buf|)
    decreases |buf| - p
  {
    if p < |buf| {
      StepInBuffer(m, buf[p], buf, p);
      var v := Step(m, buf[p], buf, p);
      if v.Go? {
        ScanInBuffer(v.m, buf, p + 1);
      }
    }
  }

  /** No call on a buffer that is not empty trips the asserts at its end. */
  lemma AssertsHold(m: Machine, buf: string)
    requires buf != "" && m.bodyStart <= |buf|
    ensures var (e, n) := Call1(m, buf); n <= |buf| && InBuffer(e, |buf|)
  {
    ScanInBuffer(Reset(m), buf, 0);
  }

  lemma {:induction false} BodyStartWaits(m: Machine, buf: string, p: nat)
    requires p <= |buf| && GoesOn(Scan(Step, m, buf, p).0)
    ensures Scan(Step, m, buf, p).0.bodyStart == m.bodyStart
    decreases |buf| - p
  {
    if p < |buf| {
      EffectSets(m, buf[p], buf, p);
      var v := Step(m, buf[p], buf, p);
      if v.Go? {
        BodyStartWaits(v.m, buf, p + 1);
      }
    }
  }

  lemma {:induction false} BodyStartWaitsOn(m: Machine, pieces: seq<string>)
    requires GoesOn(CallAll(m, pieces))
    ensures CallAll(m, pieces).bodyStart == m.bodyStart
    decreases |pieces|
  {
    if pieces != [] {
      BodyStartWaits(Reset(m), pieces[0], 0);
      BodyStartWaitsOn(Call1(m, pieces[0]).0, pieces[1..]);
    }
  }

  /** After any pieces, the next call does not trip them either. */
  lemma AssertsHoldOn(g: Grammar, queryStart: nat, pieces: seq<string>, next: string)
    requires next != "" && GoesOn(CallAll(Init(g, queryStart), pieces))
    ensures var (e, n) := Call1(CallAll(Init(g, queryStart), pieces), next); n <= |next| && InBuffer(e, |next|)
  {
    BodyStartWaitsOn(Init(g, queryStart), pieces);
    AssertsHold(CallAll(Init(g, queryStart), pieces), next);
  }
}
