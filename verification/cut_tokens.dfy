/**
 Cuts inside a token: the registers are reset at each call, so what is recorded can be wrong.
 */
module CutTokens {
  import opened Wrappers
  import opened HttpText
  import opened Scanning
  import opened RequestMachine
  import opened RequestMethods
  import opened RequestTarget
  import opened Cuts
  import opened CutLoss
  import opened CutHarmless

  lemma NoMethodInE(i: nat)
    requires i < 34
    ensures METHODS[i] != "" && METHODS[i][0] != 'E'
  {
  }

  lemma {:induction false} NoneFound(text: string, i: nat)
    requires i <= 34 && text != "" && text[0] == 'E'
    ensures FromChars(METHODS, text, i) == None
    decreases 34 - i
  {
    if i < 34 {
      NoMethodInE(i);
      NoneFound(text, i + 1);
    }
  }

  /** `GET` in one read is a method; in two reads it is error 1000. */
  lemma SplitMethodRefused(g: Grammar, queryStart: nat)
    ensures var m := Init(g, queryStart);
            && CallAll(m, ["G", "ET "]).call.error == 1000
            && Call1(m, "GET ").0.call == m.call.(verb := 1)
            && Call1(m, "GET ").0.cs == CallAll(m, ["G", "ET "]).cs == Target
  {
    var m := Init(g, queryStart);
    OneCall(m);
    TwoCalls(m);
  }

  lemma OneCall(m: Machine)
    requires m.cs == Start && !m.thrown
    ensures Call1(m, "GET ").0.cs == Target && Call1(m, "GET ").0.call == m.call.(verb := 1)
  {
    var buf := "GET ";
    var run := Running(Step, buf);
    RunningRuns(Step, buf);
    var m0 := Reset(m);
    var m1 := ReadMethod(run, Step, m0, buf, 0, 1, "GET", 3);
    assert Scan(Step, m1, buf, 4) == (m1, 4);
    assert run(m0, 0) == Scan(Step, m0, buf, 0);
    assert run(m1, 4) == Scan(Step, m1, buf, 4);
  }

  lemma FirstCall(m: Machine) returns (m': Machine)
    requires m.cs == Start && !m.thrown
    ensures m' == Call1(m, "G").0 && m'.cs == Method(1) && m'.call == m.call && !m'.thrown
  {
    var buf := "G";
    var run := Running(Step, buf);
    RunningRuns(Step, buf);
    var m0 := Reset(m);
    m' := ReadLetters(run, Step, m0, buf, 0, "G", 1);
    assert Scan(Step, m', buf, 1) == (m', 1);
    assert run(m0, 0) == Scan(Step, m0, buf, 0);
    assert run(m', 1) == Scan(Step, m', buf, 1);
  }

  lemma SecondCall(m: Machine)
    requires m.cs == Method(1) && !m.thrown
    ensures Call1(m, "ET ").0.cs == Target && Call1(m, "ET ").0.call.error == 1000
  {
    var buf := "ET ";
    var m0 := Reset(m);
    var m1, m2 := m0.(cs := Method(2)), m0.(cs := Method(3));
    assert Step(m0, 'E', buf, 0) == Go(m1);
    assert Step(m1, 'T', buf, 1) == Go(m2);
    NoneFound(buf, 0);
    WriteMethodBy(m2, buf, buf);
    MethodEffect(m2, ' ', buf, 2);
    var m3 := m2.(cs := Target, call := m2.call.(error := 1000));
    assert Step(m2, ' ', buf, 2) == Go(m3);
    assert Scan(Step, m3, buf, 3) == (m3, 3);
    assert Scan(Step, m2, buf, 2) == (m3, 3);
    assert Scan(Step, m1, buf, 1) == (m3, 3);
    assert Scan(Step, m0, buf, 0) == (m3, 3);
  }

  lemma CallTwo(m: Machine, a: string, b: string)
    requires GoesOn(Call1(m, a).0)
    ensures CallAll(m, [a, b]) == Call1(Call1(m, a).0, b).0
  {
    var m1 := Call1(m, a).0;
    assert [a, b][1..] == [b] && [b][1..] == [];
    assert CallAll(m1, [b]) == Call1(m1, b).0 by {
      assert CallAll(Call1(m1, b).0, []) == Call1(m1, b).0;
    }
  }

  lemma TwoCalls(m: Machine)
    requires m.cs == Start && !m.thrown
    ensures CallAll(m, ["G", "ET "]).cs == Target && CallAll(m, ["G", "ET "]).call.error == 1000
  {
    var m1 := FirstCall(m);
    SecondCall(m1);
    CallTwo(m, "G", "ET ");
  }

  lemma QueryEnds(m: Machine, b: char, buf: string, p: nat)
    requires m.cs == In(Query, 0) && !m.thrown && (b == ' ' || b == '#')
    ensures Step(m, b, buf, p)
         == if p < m.queryStart then Fail(m.(thrown := true))
            else Go(m.(cs := PartEnd(Query, b), call := m.call.(query := Text(buf, m.queryStart, p))))
  {
  }

  lemma SkipQuery(m: Machine, buf: string, p: nat, q: string, n: nat)
    requires m.cs == In(Query, 0) && !m.thrown && Encoded(Query, m.grammar.relaxed, q) && At(buf, p, q) && n == p + |q|
    ensures Scan(Step, m, buf, p) == Scan(Step, m, buf, n)
  {
    var run := Running(Step, buf);
    RunningRuns(Step, buf);
    ReadEncoded(run, Step, m, Query, buf, p, q, n);
    assert run(m, p) == Scan(Step, m, buf, p);
    assert run(m, n) == Scan(Step, m, buf, n);
  }

  /** The digits of a percent triplet still to come, after `hex` of its bytes. */
  function MissingDigits(hex: nat): nat {
    if hex == 0 then 0 else if hex == 1 then 2 else 1
  }

  /** The rest of a query, from inside a percent triplet or not. */
  predicate QueryRest(hex: nat, relaxed: bool, q: string) {
    var d := MissingDigits(hex);
    d <= |q| && (forall i :: 0 <= i < d ==> IsHex(q[i])) && Encoded(Query, relaxed, q[d..])
  }

  lemma DigitStep(m: Machine, b: char, buf: string, p: nat)
    requires m.cs.In? && m.cs.part == Query && 0 < m.cs.hex <= 2 && !m.thrown && IsHex(b)
    ensures Step(m, b, buf, p) == Go(m.(cs := In(Query, if m.cs.hex == 1 then 2 else 0)))
  {
  }

  /** The missing digits of a triplet. */
  lemma SkipDigits(m: Machine, buf: string, q: string) returns (m': Machine, d: nat)
    requires m.cs.In? && m.cs.part == Query && m.cs.hex <= 2 && !m.thrown && QueryRest(m.cs.hex, m.grammar.relaxed, q)
    requires q <= buf
    ensures m' == m.(cs := In(Query, 0)) && d == MissingDigits(m.cs.hex)
    ensures Scan(Step, m, buf, 0) == Scan(Step, m', buf, d)
  {
    d := MissingDigits(m.cs.hex);
    m' := m.(cs := In(Query, 0));
    if m.cs.hex == 1 {
      DigitStep(m, buf[0], buf, 0);
      var m1 := m.(cs := In(Query, 2));
      DigitStep(m1, buf[1], buf, 1);
    } else if m.cs.hex == 2 {
      DigitStep(m, buf[0], buf, 0);
    }
  }

  lemma EndQuery(m: Machine, buf: string, p: nat, m': Machine)
    requires m.cs == In(Query, 0) && !m.thrown && p < |buf| && (buf[p] == ' ' || buf[p] == '#')
    requires m' == m.(cs := PartEnd(Query, buf[p]), call := m.call.(query := Text(buf, m.queryStart, p)))
    ensures p < m.queryStart ==> Scan(Step, m, buf, p).0 == m.(thrown := true)
    ensures m.queryStart <= p ==> Scan(Step, m, buf, p) == Scan(Step, m', buf, p + 1)
  {
    QueryEnds(m, buf[p], buf, p);
  }

  /** What a scan that reaches the end of a query there makes of it. */
  ghost predicate QueryOutcome(e: Machine, buf: string, from: nat, p: nat) {
    (e.thrown <==> p < from) && (from <= p ==> e.call.query == Text(buf, from, p))
  }

  lemma FromQueryEnd(m: Machine, buf: string, p: nat)
    requires m.cs == In(Query, 0) && !m.thrown && p < |buf| && (buf[p] == ' ' || buf[p] == '#')
    ensures QueryOutcome(Scan(Step, m, buf, p).0, buf, m.queryStart, p)
  {
    var m' := m.(cs := PartEnd(Query, buf[p]), call := m.call.(query := Text(buf, m.queryStart, p)));
    EndQuery(m, buf, p, m');
    if m.queryStart <= p {
      ScanPastQuery(m', buf, p + 1);
    }
  }

  lemma QueryPlaces(q: string, c: char, rest: string, from: nat, d: nat)
    requires d <= |q|
    ensures var buf := q + [c] + rest;
            && q <= buf && At(buf, d, q[d..]) && |q| < |buf| && buf[|q|] == c
            && (from <= |q| ==> Text(buf, from, |q|) == q[from..])
  {
    var buf := q + [c] + rest;
    assert buf == q + ([c] + rest);
    assert buf[d..d + |q[d..]|] == q[d..];
    if from <= |q| {
      assert buf[from..|q|] == q[from..];
    }
  }

  /** A call that resumes inside a query, inside a percent triplet or not: it throws exactly when the query
      ends before the offset, in the buffer of the earlier call, at which it began; otherwise the query it
      ends with is the text from that offset on. */
  lemma ResumedQueryIff(m: Machine, q: string, c: char, rest: string) returns (buf: string)
    requires m.cs.In? && m.cs.part == Query && m.cs.hex <= 2 && !m.thrown
    requires QueryRest(m.cs.hex, m.grammar.relaxed, q) && (c == ' ' || c == '#')
    ensures buf == q + [c] + rest
    ensures Call1(m, buf).0.thrown <==> |q| < m.queryStart
    ensures m.queryStart <= |q| ==> Call1(m, buf).0.call.query == q[m.queryStart..]
  {
    buf := q + [c] + rest;
    QueryPlaces(q, c, rest, m.queryStart, MissingDigits(m.cs.hex));
    var m1, d := SkipDigits(Reset(m), buf, q);
    SkipQuery(m1, buf, d, q[d..], |q|);
    FromQueryEnd(m1, buf, |q|);
  }

  lemma QueryBegins(m: Machine, buf: string, p: nat)
    requires m.cs == QueryStart && !m.thrown
    ensures Step(m, 'x', buf, p) == Go(m.(cs := In(Query, 0), queryStart := p))
  {
  }

  /** `GET`, a path, and the first byte of a query. */
  lemma ReadCutLine(run: Runner<Machine>, m: Machine, buf: string, path: string, n: nat) returns (m': Machine)
    requires Runs(run, Step, buf) && m.cs == Start && !m.thrown && PathOk(m.grammar.relaxed, path) && n == 4 + |path|
    requires At(buf, 0, "GET") && At(buf, 3, " ") && At(buf, 4, path) && At(buf, n, "?") && At(buf, n + 1, "x")
    ensures m'.cs == In(Query, 0) && m'.queryStart == n + 1 && !m'.thrown && run(m, 0) == run(m', n + 2)
  {
    var m1 := ReadMethod(run, Step, m, buf, 0, 1, "GET", 3);
    var m2 := ReadPath(run, Step, m1, buf, 4, path, '?', n);
    QueryBegins(m2, buf, n + 1);
    m' := m2.(cs := In(Query, 0), queryStart := n + 1);
    One(run, Step, m2, buf, n + 1, 'x', m');
  }

  /** The first read ends inside the query, which began at its byte 10. */
  lemma FirstRead(m: Machine) returns (m': Machine)
    requires m.cs == Start && !m.thrown
    ensures m' == Call1(m, "GET /aaaa?x").0 && m'.cs == In(Query, 0) && m'.queryStart == 10 && !m'.thrown
  {
    var buf := "GET /aaaa?x";
    var run := Running(Step, buf);
    RunningRuns(Step, buf);
    EncodedLetters("aaaa", m.grammar.relaxed);
    assert "/aaaa"[1..] == "aaaa";
    assert buf[0..3] == "GET" && buf[3..4] == " " && buf[4..9] == "/aaaa" && buf[9..10] == "?" && buf[10..11] == "x";
    m' := ReadCutLine(run, Reset(m), buf, "/aaaa", 9);
    assert Scan(Step, m', buf, 11) == (m', 11);
    assert run(Reset(m), 0) == Scan(Step, Reset(m), buf, 0);
  }

  lemma EncodedLetters(text: string, relaxed: bool)
    requires forall i :: 0 <= i < |text| ==> IsLetter(text[i])
    ensures Encoded(Path, relaxed, text) && Encoded(Query, relaxed, text)
  {
  }

  lemma SecondRead(m: Machine)
    requires m.cs == In(Query, 0) && m.queryStart == 10 && !m.thrown
    ensures Call1(m, "y HTTP/1.1").0.thrown
  {
    EncodedLetters("y", m.grammar.relaxed);
    assert "y"[0..] == "y";
    var buf := ResumedQueryIff(m, "y", ' ', "HTTP/1.1");
    assert buf == "y HTTP/1.1";
  }

  /** A request line cut inside its query makes the second read throw. */
  lemma CutQueryThrows(g: Grammar, queryStart: nat)
    ensures CallAll(Init(g, queryStart), ["GET /aaaa?x", "y HTTP/1.1"]).thrown
  {
    var m1 := FirstRead(Init(g, queryStart));
    SecondRead(m1);
    CallTwo(Init(g, queryStart), "GET /aaaa?x", "y HTTP/1.1");
  }
}
