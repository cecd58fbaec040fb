/**
 Print any request of the grammar and parse the text in one buffer: what comes back.
 */
module RequestRoundTrip {
  import opened Wrappers
  import opened HttpText
  import opened HeaderReturns
  import opened Scanning
  import opened HeaderPrinting
  import opened HeaderTotals
  import opened RequestMachine
  import opened RequestMethods
  import opened RequestPrinting
  import opened RequestTarget
  import opened RequestLines

  /** Names and values the table takes; a name without a colon, blank or NUL, a value without a NUL, a
      break or a DEL. */
  ghost predicate Printable(h: Headers) {
    KeyedByName(h) && forall k :: k in h ==> FieldName(h[k].name) && FieldValue(h[k].value)
  }

  // ---------------------------------------------------------------------------------------
  // The headers
  // ---------------------------------------------------------------------------------------

  lemma FirstOff(h: Headers, order: seq<string>, buf: string, p: nat, q: nat) returns (line: string, p': nat)
    requires order != [] && forall i :: 0 <= i < |order| ==> order[i] in h
    requires At(buf, p, HeaderLines(h, order, ":")) && q == p + |HeaderLines(h, order, ":")|
    ensures line == if order[0] == "connection" then "" else HeaderLine(h[order[0]].name, ":", h[order[0]].value)
    ensures p' == p + |line| && At(buf, p, line)
    ensures At(buf, p', HeaderLines(h, order[1..], ":")) && q == p' + |HeaderLines(h, order[1..], ":")|
  {
    line := if order[0] == "connection" then "" else HeaderLine(h[order[0]].name, ":", h[order[0]].value);
    AtSplit(buf, p, line, HeaderLines(h, order[1..], ":"));
    p' := p + |line|;
  }

  /** A printed header, or nothing. */
  lemma ReadOrSkip(run: Runner<Machine>, step: Stepper<Machine>, m: Machine, buf: string, p: nat, e: Header, skip: bool,
                   line: string, q: nat) returns (m': Machine)
    requires Ships(step) && Runs(run, step, buf) && !m.thrown && m.cs == Line && FieldName(e.name)
    requires FieldValue(e.value)
    requires line == (if skip then "" else HeaderLine(e.name, ":", e.value)) && At(buf, p, line) && q == p + |line|
    ensures m'.cs == Line && !m'.thrown && m'.names == m.names + (if skip then 0 else |e.name|)
    ensures m'.call == if skip then m.call
                       else m.call.(headers := SetHeader(m.call.headers, e.name, TrimLeft(e.value, BLANKS)))
    ensures run(m, p) == run(m', q)
  {
    m' := m;
    if !skip {
      m' := ReadLine(run, step, m, buf, p, e.name, e.value, q);
    }
  }

  lemma {:induction false} ReadHeaders(run: Runner<Machine>, step: Stepper<Machine>, m: Machine, buf: string, p: nat,
                                       h: Headers, order: seq<string>, q: nat) returns (m': Machine)
    requires Ships(step) && Runs(run, step, buf) && !m.thrown && m.cs == Line && Printable(h)
    requires forall i :: 0 <= i < |order| ==> order[i] in h
    requires At(buf, p, HeaderLines(h, order, ":")) && q == p + |HeaderLines(h, order, ":")|
    ensures m'.cs == Line && !m'.thrown && m'.names == m.names + NamesIn(h, order)
    ensures m'.call == m.call.(headers := SetAll(m.call.headers, h, order, BLANKS))
    ensures run(m, p) == run(m', q)
    decreases |order|
  {
    m' := m;
    if order != [] {
      var line, p' := FirstOff(h, order, buf, p, q);
      m' := ReadOrSkip(run, step, m, buf, p, h[order[0]], order[0] == "connection", line, p');
      m' := ReadHeaders(run, step, m', buf, p', h, order[1..], q);
    }
  }

  /** A value that does not change on the way. */
  ghost predicate Solid(v: string) {
    v != "" && FieldValue(v) && !IsBlank(v[0])
  }

  lemma SolidTrim(v: string)
    requires Solid(v)
    ensures TrimLeft(v, BLANKS) == v && TrimLeft(" " + v, BLANKS) == v
  {
    assert v[0] !in BLANKS && (" " + v)[1..] == v;
  }

  lemma SolidValues(close: bool, n: nat)
    ensures Solid(ConnectionWord(close)) && Solid(Decimal(n))
    ensures FieldName("connection") && FieldName("content-length")
  {
    var d := Decimal(n);
    assert forall i :: 0 <= i < |d| ==> IsDigit(d[i]);
  }

  /** A header the printer makes itself, with a space after the colon. */
  lemma ReadOwn(run: Runner<Machine>, step: Stepper<Machine>, m: Machine, buf: string, p: nat, name: string, v: string,
                q: nat) returns (m': Machine)
    requires Ships(step) && Runs(run, step, buf) && !m.thrown && m.cs == Line && FieldName(name) && Solid(v)
    requires At(buf, p, HeaderLine(name, ": ", v)) && q == p + |HeaderLine(name, ": ", v)|
    ensures m'.cs == Line && !m'.thrown && m'.names == m.names + |name|
    ensures m'.call == m.call.(headers := SetHeader(m.call.headers, name, v))
    ensures run(m, p) == run(m', q)
  {
    assert HeaderLine(name, ": ", v) == name + ":" + (" " + v) + CRLF;
    SolidTrim(v);
    m' := ReadLine(run, step, m, buf, p, name, " " + v, q);
  }

  /** The `content-length` line, if there is a body, and the empty line. */
  lemma ReadTail(run: Runner<Machine>, step: Stepper<Machine>, m: Machine, buf: string, p: nat, body: string, n: nat)
      returns (m': Machine)
    requires Ships(step) && Runs(run, step, buf) && !m.thrown && m.cs == Line
    requires At(buf, p, LengthLine(body) + CRLF) && n == p + |LengthLine(body)| + 2
    ensures m'.cs == Done && !m'.thrown && m'.bodyStart == n
    ensures m'.call == m.call.(headers := WithLength(m.call.headers, body))
    ensures m'.names == m.names + (if body == "" then 0 else |"content-length"|)
    ensures run(m, p) == (m', n)
  {
    AtSplit(buf, p, LengthLine(body), CRLF);
    var m1 := m;
    var q := p + |LengthLine(body)|;
    if body != "" {
      SolidValues(true, |body|);
      m1 := ReadOwn(run, step, m, buf, p, "content-length", Decimal(|body|), q);
    }
    m' := ReadEnd(run, step, m1, buf, q, n);
  }

  // ---------------------------------------------------------------------------------------
  // The whole message
  // ---------------------------------------------------------------------------------------

  lemma LineSpots(r: Request, buf: string, q: nat) returns (p1: nat, p2: nat)
    requires At(buf, 0, RequestLine(r)) && q == |RequestLine(r)|
    ensures p1 == |MethodText(r.verb)| && p2 == p1 + 1 + |TargetText(r)| && q == p2 + |VersionText(r.version)| + 2
    ensures At(buf, 0, MethodText(r.verb)) && At(buf, p1, " ") && At(buf, p1 + 1, TargetText(r))
    ensures At(buf, p2, VersionText(r.version)) && At(buf, p2 + |VersionText(r.version)|, CRLF)
  {
    var a, b, c := MethodText(r.verb), TargetText(r), VersionText(r.version);
    AtSplit(buf, 0, a + " ", b + (c + CRLF));
    AtSplit(buf, 0, a, " ");
    AtSplit(buf, |a| + 1, b, c + CRLF);
    AtSplit(buf, |a| + 1 + |b|, c, CRLF);
    p1, p2 := |a|, |a| + 1 + |b|;
  }

  predicate KnownVersion(version: nat) {
    version == 0x10 || version == 0x11
  }

  lemma KnownText(version: nat)
    requires KnownVersion(version)
    ensures VersionText(version) == "HTTP/1." + [Digit(version - 0x10)]
  {
    assert Decimal(1) == "1";
    assert "HTTP/" + "1" + "." == "HTTP/1.";
  }

  /** The method and the target. */
  lemma ReadFront(run: Runner<Machine>, step: Stepper<Machine>, m: Machine, r: Request, buf: string, p1: nat, p2: nat)
      returns (m': Machine)
    requires Ships(step) && Runs(run, step, buf) && !m.thrown && m.cs == Start && m.call.query == ""
    requires m.call.fragment == ""
    requires r.verb < 34 && r.verb != 24 && TargetOk(m.grammar.relaxed, r)
    requires p1 == |MethodText(r.verb)| && p2 == p1 + 1 + |TargetText(r)|
    requires At(buf, 0, MethodText(r.verb)) && At(buf, p1, " ") && At(buf, p1 + 1, TargetText(r))
    ensures m'.cs == Protocol(0) && !m'.thrown && m'.names == m.names
    ensures m'.call == m.call.(verb := r.verb, path := r.path, query := r.query, fragment := r.fragment)
    ensures run(m, 0) == run(m', p2)
  {
    var m1 := ReadMethod(run, step, m, buf, 0, r.verb, MethodText(r.verb), p1);
    m' := ReadTarget(run, step, m1, r, buf, p1 + 1, p2);
  }

  lemma ReadRequestLine(run: Runner<Machine>, step: Stepper<Machine>, m: Machine, r: Request, buf: string, q: nat)
      returns (m': Machine)
    requires Ships(step) && Runs(run, step, buf) && !m.thrown && m.cs == Start && m.call.query == ""
    requires m.call.fragment == ""
    requires r.verb < 34 && r.verb != 24 && TargetOk(m.grammar.relaxed, r) && KnownVersion(r.version)
    requires At(buf, 0, RequestLine(r)) && q == |RequestLine(r)|
    ensures m'.cs == Line && !m'.thrown && m'.names == m.names
    ensures m'.call
         == m.call.(verb := r.verb, path := r.path, query := r.query, fragment := r.fragment, version := r.version)
    ensures run(m, 0) == run(m', q)
  {
    var p1, p2 := LineSpots(r, buf, q);
    KnownText(r.version);
    var m1 := ReadFront(run, step, m, r, buf, p1, p2);
    m' := ReadVersion(run, step, m1, buf, p2, r.version - 0x10);
  }

  lemma HeadSpots(r: Request, order: seq<string>, buf: string, n: nat) returns (p1: nat, p2: nat, p3: nat)
    requires forall i :: 0 <= i < |order| ==> order[i] in r.headers
    requires At(buf, 0, Head(r, order)) && n == |Head(r, order)|
    ensures p1 == |RequestLine(r)| && p2 == p1 + |ConnectionLine(r.close)|
    ensures p3 == p2 + |HeaderLines(r.headers, order, ":")|
    ensures n == p3 + |LengthLine(r.body)| + 2
    ensures At(buf, 0, RequestLine(r)) && At(buf, p1, ConnectionLine(r.close))
    ensures At(buf, p2, HeaderLines(r.headers, order, ":"))
    ensures At(buf, p3, LengthLine(r.body) + CRLF)
  {
    var a, b := RequestLine(r), ConnectionLine(r.close);
    var c, d := HeaderLines(r.headers, order, ":"), LengthLine(r.body) + CRLF;
    p1, p2, p3 := FourPlaces(buf, a, b, c, d);
  }

  /** What `dump` needs to print something this parser may read back. */
  ghost predicate PrintableRequest(relaxed: bool, r: Request) {
    r.verb < 34 && TargetOk(relaxed, r) && Printable(r.headers)
  }

  /** The request as the other side reads it. */
  function Received(r: Request): Call {
    Call(r.verb, r.path, r.query, r.fragment, r.version, Expected(r.headers, r.close, r.body, BLANKS), 0)
  }

  /** Field by field. */
  lemma ReceivedMeans(r: Request)
    ensures var c := Received(r);
            && c.verb == r.verb && c.path == r.path && c.query == r.query && c.fragment == r.fragment
            && c.version == r.version && c.error == 0
            && ComeBack(r.headers, r.close, r.body, [TAB, ' '], c.headers)
  {
    ExpectedComesBack(r.headers, r.close, r.body, BLANKS);
  }

  /** The lines after the request line. */
  lemma ReadLines(run: Runner<Machine>, step: Stepper<Machine>, m: Machine, r: Request, order: seq<string>, buf: string,
                  p1: nat, p2: nat, p3: nat, n: nat) returns (m': Machine)
    requires Ships(step) && Runs(run, step, buf) && !m.thrown && m.cs == Line && Printable(r.headers)
    requires Enumerates(order, r.headers)
    requires p2 == p1 + |ConnectionLine(r.close)| && p3 == p2 + |HeaderLines(r.headers, order, ":")|
    requires n == p3 + |LengthLine(r.body)| + 2
    requires At(buf, p1, ConnectionLine(r.close)) && At(buf, p2, HeaderLines(r.headers, order, ":"))
    requires At(buf, p3, LengthLine(r.body) + CRLF)
    requires m.call.headers == map[]
    ensures m'.cs == Done && !m'.thrown && m'.bodyStart == n
    ensures m'.names == m.names + OwnNames(r.body) + NamesIn(r.headers, order)
    ensures m'.call == m.call.(headers := Expected(r.headers, r.close, r.body, BLANKS))
    ensures run(m, p1) == (m', n)
  {
    SolidValues(r.close, 0);
    var m1 := ReadOwn(run, step, m, buf, p1, "connection", ConnectionWord(r.close), p2);
    var m2 := ReadHeaders(run, step, m1, buf, p2, r.headers, order, p3);
    m' := ReadTail(run, step, m2, buf, p3, r.body, n);
    ConnectionFirst(r.headers, order, r.close, r.body, BLANKS);
  }

  lemma ReadHead(run: Runner<Machine>, step: Stepper<Machine>, g: Grammar, queryStart: nat, r: Request,
                 order: seq<string>, buf: string, n: nat) returns (m': Machine)
    requires Ships(step) && Runs(run, step, buf) && PrintableRequest(g.relaxed, r) && Enumerates(order, r.headers)
    requires r.verb != 24 && KnownVersion(r.version) && At(buf, 0, Head(r, order)) && n == |Head(r, order)|
    ensures m'.cs == Done && !m'.thrown && m'.bodyStart == n && m'.call == Received(r)
    ensures m'.names == OwnNames(r.body) + NamesIn(r.headers, order)
    ensures run(Init(g, queryStart), 0) == (m', n)
  {
    var p1, p2, p3 := HeadSpots(r, order, buf, n);
    var m0 := Init(g, queryStart);
    var m1 := ReadRequestLine(run, step, m0, r, buf, p1);
    m' := ReadLines(run, step, m1, r, order, buf, p1, p2, p3, n);
  }

  lemma RefuseHead(run: Runner<Machine>, step: Stepper<Machine>, g: Grammar, queryStart: nat, r: Request, buf: string)
    requires Ships(step) && Runs(run, step, buf) && r.verb < 34 && TargetOk(g.relaxed, r)
    requires r.verb == 24 || !KnownVersion(r.version)
    requires At(buf, 0, RequestLine(r))
    ensures run(Init(g, queryStart), 0).0.cs == Error
  {
    var p1, p2 := LineSpots(r, buf, |RequestLine(r)|);
    var m0 := Init(g, queryStart);
    if r.verb == 24 {
      RefuseMSearch(run, step, m0, buf, 0);
    } else {
      var m1 := ReadFront(run, step, m0, r, buf, p1, p2);
      RefuseVersion(run, step, m1, buf, p2, r.version);
    }
  }

  // ---------------------------------------------------------------------------------------
  // Print and parse
  // ---------------------------------------------------------------------------------------

  lemma HeadAt(r: Request, order: seq<string>, buf: string)
    requires forall i :: 0 <= i < |order| ==> order[i] in r.headers
    requires buf == Print(r, order)
    ensures At(buf, 0, Head(r, order)) && At(buf, 0, RequestLine(r)) && buf[|Head(r, order)|..] == r.body
  {
    assert At(buf, 0, Head(r, order));
    var p1, p2, p3 := HeadSpots(r, order, buf, |Head(r, order)|);
  }

  /** How the scan of a printed request ends. */
  lemma ScansPrinted(g: Grammar, queryStart: nat, r: Request, order: seq<string>) returns (m: Machine, n: nat)
    requires PrintableRequest(g.relaxed, r) && Enumerates(order, r.headers)
    ensures (m, n) == Scan(Step, Init(g, queryStart), Print(r, order), 0)
    ensures if r.verb != 24 && KnownVersion(r.version)
            then m.cs == Done && m.bodyStart == n == |Head(r, order)| && m.call == Received(r)
            else m.cs == Error
  {
    var buf := Print(r, order);
    var run := Running(Step, buf);
    RunningRuns(Step, buf);
    HeadAt(r, order, buf);
    var all := Scan(Step, Init(g, queryStart), buf, 0);
    assert all == run(Init(g, queryStart), 0);
    m, n := all.0, all.1;
    if r.verb != 24 && KnownVersion(r.version) {
      var m' := ReadHead(run, Step, g, queryStart, r, order, buf, |Head(r, order)|);
    } else {
      RefuseHead(run, Step, g, queryStart, r, buf);
    }
  }

  /** Printing a request of the grammar and parsing it in one buffer finishes exactly when the method is
      not `M-SEARCH` and the version is 1.0 or 1.1; otherwise it is an error. When it finishes, in state
      348, exactly the header is consumed, the rest is the body, and method, path, query, fragment,
      version and headers come back, with `connection` and `content-length`, the values without their
      leading blanks. */
  lemma PrintThenParse(g: Grammar, queryStart: nat, r: Request, order: seq<string>) returns (m: Machine, n: nat)
    requires PrintableRequest(g.relaxed, r) && Enumerates(order, r.headers)
    ensures (m, n) == Scan(Step, Init(g, queryStart), Print(r, order), 0)
    ensures if r.verb != 24 && KnownVersion(r.version)
            then && Code(m.cs) == 348 && n == |Head(r, order)| && Print(r, order)[n..] == r.body
                 && m.bodyStart == n && m.call == Received(r)
                 && m.call.verb == r.verb && m.call.version == r.version && m.call.error == 0
                 && m.call.path == r.path && m.call.query == r.query && m.call.fragment == r.fragment
                 && ComeBack(r.headers, r.close, r.body, [TAB, ' '], m.call.headers)
            else Code(m.cs) == 0
  {
    m, n := ScansPrinted(g, queryStart, r, order);
    if r.verb != 24 && KnownVersion(r.version) {
      FinishMeans(r, order, m, n);
    }
  }

  lemma FinishMeans(r: Request, order: seq<string>, m: Machine, n: nat)
    requires forall i :: 0 <= i < |order| ==> order[i] in r.headers
    requires m.cs == Done && m.call == Received(r) && n == |Head(r, order)|
    ensures Code(m.cs) == 348 && n <= |Print(r, order)| && Print(r, order)[n..] == r.body
    ensures m.call.verb == r.verb && m.call.version == r.version && m.call.error == 0
    ensures m.call.path == r.path && m.call.query == r.query && m.call.fragment == r.fragment
    ensures ComeBack(r.headers, r.close, r.body, [TAB, ' '], m.call.headers)
  {
    HeadAt(r, order, Print(r, order));
    ReceivedMeans(r);
  }
}
