/**
 Printing a response and parsing it gives the response back: the status line, every header, the
 close and chunked flags, the content length and the start of the body.
 */
module ResponseParsing {
  import opened HttpText
  import opened Scanning
  import opened HeaderPrinting
  import opened ResponsePrinting
  import opened ResponseMachine
  import opened ResponseLines

  // ---------------------------------------------------------------------------------------
  // The status line
  // ---------------------------------------------------------------------------------------

  function InLiteral(m: Machine, p: nat, k: nat): Machine {
    if k == 0 then m.(cs := Start) else m.(cs := Protocol(k), mark := p)
  }

  lemma LiteralStep(step: Stepper<Machine>, m: Machine, buf: string, p: nat, k: nat)
    requires Ships(step) && k < 5
    ensures step(InLiteral(m, p, k), "HTTP/"[k], buf, p + k) == Go(InLiteral(m, p, k + 1))
  {
    var v := Step(InLiteral(m, p, k), "HTTP/"[k], buf, p + k);
  }

  lemma ReadLiteral(run: Runner<Machine>, step: Stepper<Machine>, m: Machine, buf: string, p: nat)
    requires Ships(step) && Runs(run, step, buf) && m.cs == Start && At(buf, p, "HTTP/")
    ensures run(m, p) == run(m.(cs := Protocol(5), mark := p), p + 5)
  {
    forall k | 0 <= k < 5 ensures step(InLiteral(m, p, k), "HTTP/"[k], buf, p + k) == Go(InLiteral(m, p, k + 1)) {
      LiteralStep(step, m, buf, p, k);
    }
    Chain(run, step, (k: nat) => InLiteral(m, p, k), buf, p, "HTTP/", 0);
  }

  lemma NumberStep(step: Stepper<Machine>, m: Machine, b: char, buf: string, p: nat)
    requires Ships(step)
    ensures m.cs == Protocol(5) && IsDigit(b) ==> step(m, b, buf, p) == Go(m.(cs := Major))
    ensures m.cs == Major && IsDigit(b) ==> step(m, b, buf, p) == Go(m)
    ensures m.cs == Major && b == '.' ==> step(m, b, buf, p) == Go(m.(cs := Dot))
    ensures m.cs == Dot && IsDigit(b) ==> step(m, b, buf, p) == Go(m.(cs := Minor))
    ensures m.cs == Minor && IsDigit(b) ==> step(m, b, buf, p) == Go(m)
    ensures m.cs == Minor && b == ' ' ==> step(m, b, buf, p) == Go(WriteVersion(m, buf, p).(cs := StatusStart))
  {
    var v := Step(m, b, buf, p);
  }

  lemma StatusStep(step: Stepper<Machine>, m: Machine, b: char, buf: string, p: nat)
    requires Ships(step)
    ensures m.cs == StatusStart && IsDigit(b) ==> step(m, b, buf, p) == Go(m.(cs := StatusDigits, mark := p))
    ensures m.cs == StatusDigits && IsDigit(b) ==> step(m, b, buf, p) == Go(m)
    ensures m.cs == StatusDigits && b == ' ' ==> step(m, b, buf, p) == Go(WriteStatus(m, buf).(cs := ReasonStart))
  {
    var v := Step(m, b, buf, p);
  }

  lemma ReasonStep(step: Stepper<Machine>, m: Machine, b: char, buf: string, p: nat)
    requires Ships(step)
    ensures m.cs == ReasonStart && b != LF ==> step(m, b, buf, p) == Go(m.(cs := ReasonText, mark := p))
    ensures m.cs == ReasonText && !IsBreak(b) ==> step(m, b, buf, p) == Go(m)
    ensures m.cs == ReasonText && b == CR ==> step(m, b, buf, p) == Go(WriteReason(m, buf, p).(cs := Return(Ordinary)))
  {
    var v := Step(m, b, buf, p);
  }

  /** A run of digits and the byte that ends it, in the states of the status line. */
  lemma ReadNumber(run: Runner<Machine>, step: Stepper<Machine>, m: Machine, m1: Machine, m': Machine, buf: string,
                   p: nat, d: string, c: char)
    requires Runs(run, step, buf) && d != "" && AllDigits(d) && At(buf, p, d + [c])
    requires step(m, d[0], buf, p) == Go(m1)
    requires forall b, q: nat :: IsDigit(b) ==> step(m1, b, buf, q) == Go(m1)
    requires step(m1, c, buf, p + |d|) == Go(m')
    ensures run(m, p) == run(m', p + |d| + 1)
  {
    TokenThen(run, step, (w: string) => m1, b => IsDigit(b), m, buf, p, d, c, m');
  }

  /** The version: the two the callback knows are stored, any other is an error. */
  function VersionRead(reply: Reply, version: nat): Reply {
    if version == 0x10 || version == 0x11 then reply.(version := version) else reply.(error := 1001)
  }

  lemma WritesVersion(m: Machine, buf: string, p: nat, version: nat)
    requires At(buf, m.mark, VersionText(version)) && p == m.mark + |VersionText(version)|
    ensures WriteVersion(m, buf, p) == m.(reply := VersionRead(m.reply, version))
  {
    VersionIs(version, 1);
    VersionIs(version, 0);
    assert "HTTP/1." + [Digit(1)] == "HTTP/1.1" && "HTTP/1." + [Digit(0)] == "HTTP/1.0";
    AtSlice(buf, m.mark, VersionText(version));
  }

  lemma ReadMajor(run: Runner<Machine>, step: Stepper<Machine>, m: Machine, buf: string, p: nat, d: string)
    requires Ships(step) && Runs(run, step, buf) && m.cs == Protocol(5) && d != "" && AllDigits(d)
    requires At(buf, p, d + ".")
    ensures run(m, p) == run(m.(cs := Dot), p + |d| + 1)
  {
    var m1 := m.(cs := Major);
    NumberStep(step, m, d[0], buf, p);
    forall b, q: nat | IsDigit(b) ensures step(m1, b, buf, q) == Go(m1) {
      NumberStep(step, m1, b, buf, q);
    }
    NumberStep(step, m1, '.', buf, p + |d|);
    ReadNumber(run, step, m, m1, m.(cs := Dot), buf, p, d, '.');
  }

  lemma ReadMinor(run: Runner<Machine>, step: Stepper<Machine>, m: Machine, buf: string, p: nat, d: string)
    requires Ships(step) && Runs(run, step, buf) && m.cs == Dot && d != "" && AllDigits(d) && At(buf, p, d + " ")
    ensures run(m, p) == run(WriteVersion(m, buf, p + |d|).(cs := StatusStart), p + |d| + 1)
  {
    var m1 := m.(cs := Minor);
    NumberStep(step, m, d[0], buf, p);
    forall b, q: nat | IsDigit(b) ensures step(m1, b, buf, q) == Go(m1) {
      NumberStep(step, m1, b, buf, q);
    }
    NumberStep(step, m1, ' ', buf, p + |d|);
    ReadNumber(run, step, m, m1, WriteVersion(m, buf, p + |d|).(cs := StatusStart), buf, p, d, ' ');
  }

  lemma ReadStatus(run: Runner<Machine>, step: Stepper<Machine>, m: Machine, buf: string, p: nat, d: string, q: nat)
    requires Ships(step) && Runs(run, step, buf) && m.cs == StatusStart && d != "" && AllDigits(d)
    requires At(buf, p, d + " ")
    requires q == p + |d| + 1
    ensures run(m, p)
         == run(m.(cs := ReasonStart, mark := p, status := ReadInt(d), reply := m.reply.(status := ReadInt(d))), q)
  {
    var m1 := m.(cs := StatusDigits, mark := p);
    StatusStep(step, m, d[0], buf, p);
    forall b, q: nat | IsDigit(b) ensures step(m1, b, buf, q) == Go(m1) {
      StatusStep(step, m1, b, buf, q);
    }
    StatusStep(step, m1, ' ', buf, p + |d|);
    WritesStatus(m1, buf, d);
    ReadNumber(run, step, m, m1, WriteStatus(m1, buf).(cs := ReasonStart), buf, p, d, ' ');
  }

  lemma WritesStatus(m: Machine, buf: string, d: string)
    requires AllDigits(d) && At(buf, m.mark, d + " ")
    ensures WriteStatus(m, buf) == m.(status := ReadInt(d), reply := m.reply.(status := ReadInt(d)))
  {
    StrtolAt(buf, m.mark, d, ' ');
    assert buf[m.mark..|buf|] == buf[m.mark..];
  }

  /** The text of the reason and its carriage return. */
  lemma ReasonAndCr(run: Runner<Machine>, step: Stepper<Machine>, m: Machine, m1: Machine, m2: Machine, buf: string,
                    p: nat, reason: string)
    requires Ships(step) && Runs(run, step, buf) && m.cs == ReasonStart && reason != "" && OneLine(reason)
    requires At(buf, p, reason + [CR])
    requires m1 == m.(cs := ReasonText, mark := p) && m2 == WriteReason(m1, buf, p + |reason|).(cs := Return(Ordinary))
    ensures run(m, p) == run(m2, p + |reason| + 1)
  {
    ReasonStep(step, m, reason[0], buf, p);
    ReasonStep(step, m1, CR, buf, p + |reason|);
    var at := (w: string) => m1;
    var ok := b => !IsBreak(b);
    forall w: string, b, q: nat | w != "" && ok(b) ensures step(at(w), b, buf, q) == Go(at(w + [b])) {
      ReasonStep(step, m1, b, buf, q);
    }
    TokenThen(run, step, at, ok, m, buf, p, reason, CR, m2);
  }

  lemma ReadReason(run: Runner<Machine>, step: Stepper<Machine>, m: Machine, buf: string, p: nat, reason: string,
                   q: nat)
    requires Ships(step) && Runs(run, step, buf) && m.cs == ReasonStart && reason != "" && OneLine(reason)
    requires At(buf, p, reason + CRLF)
    requires q == p + |reason| + 2
    ensures run(m, p)
         == run(m.(cs := Line(Ordinary), mark := p, reply := m.reply.(reason := reason)), q)
  {
    assert reason + CRLF == reason + [CR] + [LF];
    AtSplit(buf, p, reason + [CR], [LF]);
    AtSplit(buf, p, reason, [CR]);
    AtSlice(buf, p, reason);
    var m1 := m.(cs := ReasonText, mark := p);
    var m2 := WriteReason(m1, buf, p + |reason|).(cs := Return(Ordinary));
    ReasonAndCr(run, step, m, m1, m2, buf, p, reason);
    LfStep(step, m2, buf, p + |reason| + 1);
    One(run, step, m2, buf, p + |reason| + 1, LF, m2.(cs := Line(Ordinary)));
  }

  lemma ReadVersionBy(run: Runner<Machine>, step: Stepper<Machine>, m: Machine, buf: string, p: nat, a: string,
                      b: string, q: nat)
    requires Ships(step) && Runs(run, step, buf) && m.cs == Start
    requires At(buf, p, "HTTP/") && At(buf, p + 5, a + ".") && At(buf, p + 5 + |a| + 1, b + " ")
    requires q == p + 5 + |a| + 1 + |b|
    requires a != "" && AllDigits(a) && b != "" && AllDigits(b)
    ensures run(m, p) == run(WriteVersion(m.(cs := Dot, mark := p), buf, q).(cs := StatusStart), q + 1)
  {
    ReadLiteral(run, step, m, buf, p);
    var m1 := m.(cs := Protocol(5), mark := p);
    ReadMajor(run, step, m1, buf, p + 5, a);
    ReadMinor(run, step, m.(cs := Dot, mark := p), buf, p + 5 + |a| + 1, b);
  }

  lemma ReadVersion(run: Runner<Machine>, step: Stepper<Machine>, m: Machine, buf: string, p: nat, version: nat, q: nat)
    requires Ships(step) && Runs(run, step, buf) && m.cs == Start && At(buf, p, VersionText(version) + " ")
    requires q == p + |VersionText(version)| + 1
    ensures run(m, p) == run(m.(cs := StatusStart, mark := p, reply := VersionRead(m.reply, version)), q)
  {
    var a, b := Decimal(version / 16), Decimal(version % 16);
    VersionPlaces(buf, p, a, b);
    ReadVersionBy(run, step, m, buf, p, a, b, q - 1);
    WritesVersion(m.(cs := Dot, mark := p), buf, q - 1, version);
  }

  lemma VersionPlaces(buf: string, p: nat, a: string, b: string)
    requires At(buf, p, "HTTP/" + a + "." + b + " ")
    ensures At(buf, p, "HTTP/") && At(buf, p + 5, a + ".") && At(buf, p + 5 + |a| + 1, b + " ")
    ensures At(buf, p, "HTTP/" + a + "." + b)
  {
    assert "HTTP/" + a + "." + b + " " == "HTTP/" + ((a + ".") + (b + " "));
    AtSplit(buf, p, "HTTP/", (a + ".") + (b + " "));
    AtSplit(buf, p + 5, a + ".", b + " ");
    AtSplit(buf, p, "HTTP/" + a + "." + b, " ");
  }

  lemma StatusPlaces(r: Response, buf: string) returns (p1: nat, p2: nat)
    requires At(buf, 0, StatusLine(r))
    ensures p1 == |VersionText(r.version)| + 1 && p2 == p1 + |Decimal(r.status)| + 1
    ensures |StatusLine(r)| == p2 + |ReasonOf(r)| + 2
    ensures At(buf, 0, VersionText(r.version) + " ") && At(buf, p1, Decimal(r.status) + " ")
    ensures At(buf, p2, ReasonOf(r) + CRLF)
  {
    var v, d, t := VersionText(r.version), Decimal(r.status), ReasonOf(r);
    assert StatusLine(r) == (v + " ") + ((d + " ") + (t + CRLF));
    AtSplit(buf, 0, v + " ", (d + " ") + (t + CRLF));
    AtSplit(buf, |v| + 1, d + " ", t + CRLF);
    p1, p2 := |v| + 1, |v| + 1 + |d| + 1;
  }

  /** What the status line leaves behind. */
  function StatusRead(r: Response): Gist {
    var reply := VersionRead(INIT.reply, r.version);
    Gist(Ordinary, reply.(status := r.status, reason := ReasonOf(r)), -1, false, false, 0)
  }

  /** The status line up to the reason. */
  lemma ReadNumbers(run: Runner<Machine>, step: Stepper<Machine>, buf: string, version: nat, d: string, status: nat,
                    p1: nat, p2: nat) returns (m': Machine)
    requires Ships(step) && Runs(run, step, buf) && d != "" && AllDigits(d) && ReadInt(d) == status
    requires p1 == |VersionText(version)| + 1 && p2 == p1 + |d| + 1
    requires At(buf, 0, VersionText(version) + " ") && At(buf, p1, d + " ")
    ensures m' == INIT.(cs := ReasonStart, mark := m'.mark, status := status,
                        reply := VersionRead(INIT.reply, version).(status := status))
    ensures run(INIT, 0) == run(m', p2)
  {
    ReadVersion(run, step, INIT, buf, 0, version, p1);
    var m := INIT.(cs := StatusStart, mark := 0, reply := VersionRead(INIT.reply, version));
    ReadStatus(run, step, m, buf, p1, d, p2);
    m' := INIT.(cs := ReasonStart, mark := p1, status := status,
                reply := VersionRead(INIT.reply, version).(status := status));
  }

  lemma ReadStatusLine(run: Runner<Machine>, step: Stepper<Machine>, r: Response, buf: string, q: nat)
      returns (m': Machine)
    requires Ships(step) && Runs(run, step, buf) && r.status < 0x8000_0000 && ReasonOf(r) != "" && OneLine(ReasonOf(r))
    requires At(buf, 0, StatusLine(r)) && q == |StatusLine(r)|
    ensures m'.cs.Line? && GistOf(m') == StatusRead(r)
    ensures run(INIT, 0) == run(m', q)
  {
    var p1, p2 := StatusPlaces(r, buf);
    DecimalReadsBack(r.status);
    var m := ReadNumbers(run, step, buf, r.version, Decimal(r.status), r.status, p1, p2);
    var reason := ReasonOf(r);
    ReadReason(run, step, m, buf, p2, reason, q);
    m' := m.(cs := Line(Ordinary), mark := p2, reply := m.reply.(reason := reason));
  }

  // ---------------------------------------------------------------------------------------
  // The headers
  // ---------------------------------------------------------------------------------------

  /** Names are tokens, values are one line. */
  ghost predicate Printable(h: Headers) {
    KeyedByName(h) && forall k :: k in h ==> TokenName(h[k].name) && OneLine(h[k].value)
  }

  /** Header by header, `connection` left out. */
  function AfterLines(g: Gist, h: Headers, order: seq<string>): Gist
    requires forall i :: 0 <= i < |order| ==> order[i] in h
    decreases |order|
  {
    if order == [] then g
    else
      var k := order[0];
      var g' := if k == "connection" then g else AfterLine(g, h[k].name, TrimLeft(h[k].value, BLANKS));
      AfterLines(g', h, order[1..])
  }

  lemma TrimSpace(v: string)
    ensures TrimLeft(" " + v, BLANKS) == TrimLeft(v, BLANKS)
  {
    assert (" " + v)[1..] == v;
  }

  /** A header as `dump` prints it. */
  lemma ReadPrinted(run: Runner<Machine>, step: Stepper<Machine>, m: Machine, buf: string, p: nat, name: string,
                    v: string, q: nat) returns (m': Machine)
    requires Ships(step) && Runs(run, step, buf) && m.cs.Line? && TokenName(name) && OneLine(v)
    requires At(buf, p, HeaderLine(name, ": ", v))
    requires q == p + |HeaderLine(name, ": ", v)|
    ensures m'.cs.Line? && GistOf(m') == AfterLine(GistOf(m), name, TrimLeft(v, BLANKS))
    ensures run(m, p) == run(m', q)
  {
    assert HeaderLine(name, ": ", v) == name + ":" + (" " + v) + CRLF;
    TrimSpace(v);
    m' := ReadLine(run, step, m, buf, p, name, " " + v, q);
  }

  /** Taking the first header of the map off the text and off the effect. */
  lemma FirstOff(h: Headers, order: seq<string>, g: Gist, buf: string, p: nat, q: nat)
      returns (g': Gist, line: string, p': nat)
    requires order != [] && forall i :: 0 <= i < |order| ==> order[i] in h
    requires At(buf, p, HeaderLines(h, order, ": ")) && q == p + |HeaderLines(h, order, ": ")|
    ensures order[0] == "connection" ==> line == "" && g' == g
    ensures order[0] != "connection" ==>
              var e := h[order[0]];
              line == HeaderLine(e.name, ": ", e.value) && g' == AfterLine(g, e.name, TrimLeft(e.value, BLANKS))
    ensures p' == p + |line| && At(buf, p, line)
    ensures At(buf, p', HeaderLines(h, order[1..], ": ")) && q == p' + |HeaderLines(h, order[1..], ": ")|
    ensures AfterLines(g', h, order[1..]) == AfterLines(g, h, order)
  {
    line := if order[0] == "connection" then "" else HeaderLine(h[order[0]].name, ": ", h[order[0]].value);
    g' := if order[0] == "connection" then g else AfterLine(g, h[order[0]].name, TrimLeft(h[order[0]].value, BLANKS));
    AtSplit(buf, p, line, HeaderLines(h, order[1..], ": "));
    p' := p + |line|;
  }

  /** A printed header, or nothing. */
  lemma ReadOrSkip(run: Runner<Machine>, step: Stepper<Machine>, m: Machine, buf: string, p: nat, e: Header, g': Gist,
                   line: string, skip: bool, q: nat) returns (m': Machine)
    requires Ships(step) && Runs(run, step, buf) && m.cs.Line? && TokenName(e.name) && OneLine(e.value)
    requires At(buf, p, line)
    requires skip ==> line == "" && g' == GistOf(m)
    requires !skip ==>
               && line == HeaderLine(e.name, ": ", e.value)
               && g' == AfterLine(GistOf(m), e.name, TrimLeft(e.value, BLANKS))
    requires q == p + |line|
    ensures m'.cs.Line? && GistOf(m') == g'
    ensures run(m, p) == run(m', q)
  {
    m' := m;
    if !skip {
      m' := ReadPrinted(run, step, m, buf, p, e.name, e.value, q);
    }
  }

  lemma {:induction false} ReadHeaders(run: Runner<Machine>, step: Stepper<Machine>, m: Machine, buf: string, p: nat,
                                       h: Headers, order: seq<string>, q: nat) returns (m': Machine)
    requires Ships(step) && Runs(run, step, buf) && m.cs.Line? && Printable(h)
    requires forall i :: 0 <= i < |order| ==> order[i] in h
    requires At(buf, p, HeaderLines(h, order, ": ")) && q == p + |HeaderLines(h, order, ": ")|
    ensures m'.cs.Line? && GistOf(m') == AfterLines(GistOf(m), h, order)
    ensures run(m, p) == run(m', q)
    decreases |order|
  {
    if order == [] {
      m' := m;
    } else {
      var g', line, p' := FirstOff(h, order, GistOf(m), buf, p, q);
      var m1 := ReadOrSkip(run, step, m, buf, p, h[order[0]], g', line, order[0] == "connection", p');
      m' := ReadHeaders(run, step, m1, buf, p', h, order[1..], q);
    }
  }

  // ---------------------------------------------------------------------------------------
  // The whole message
  // ---------------------------------------------------------------------------------------

  lemma LastCr(step: Stepper<Machine>, m: Machine, buf: string, p: nat)
    requires Ships(step) && m.cs.Line? && !m.cs.after.Emptied?
    ensures step(m, CR, buf, p) == Go(m.(cs := LastReturn(Other), close := m.close || m.cs == Line(Closed)))
  {
    var v := Step(m, CR, buf, p);
  }

  lemma LastLf(step: Stepper<Machine>, m: Machine, buf: string, p: nat)
    requires Ships(step) && m.cs == LastReturn(Other)
    ensures step(m, LF, buf, p) == Halt(m.(cs := Done(Other), bodyStart := p + 1))
  {
    var v := Step(m, LF, buf, p);
  }

  /** The machine and the offset at the end, given the machine at the empty line. */
  function Ended(m: Machine, n: nat): (Machine, nat) {
    (m.(cs := Done(Other), close := m.close || m.cs == Line(Closed), bodyStart := n), n)
  }

  /** The empty line. */
  lemma ReadEnd(run: Runner<Machine>, step: Stepper<Machine>, m: Machine, buf: string, p: nat, n: nat)
    requires Ships(step) && Runs(run, step, buf) && m.cs.Line? && !m.cs.after.Emptied? && At(buf, p, CRLF) && n == p + 2
    ensures run(m, p) == Ended(m, n)
  {
    AtFirst(buf, p, CRLF);
    LastCr(step, m, buf, p);
    var m1 := m.(cs := LastReturn(Other), close := m.close || m.cs == Line(Closed));
    One(run, step, m, buf, p, CR, m1);
    LastLf(step, m1, buf, p + 1);
    Stop(run, step, m1, buf, p + 1, LF, m1.(cs := Done(Other), bodyStart := p + 2));
  }

  /** The last lines. */
  function AfterEnd(g: Gist, close: bool, body: string): Gist {
    var g' := AfterLine(g, "connection", ConnectionWord(close));
    if body == "" then g' else AfterLine(g', "content-length", Decimal(|body|))
  }

  /** What the lines of a printed response add up to. */
  function WholeHead(r: Response, order: seq<string>): Gist
    requires forall i :: 0 <= i < |order| ==> order[i] in r.headers
  {
    AfterEnd(AfterLines(StatusRead(r), r.headers, order), r.close, r.body)
  }

  /** A value that is one line and starts with no blank. */
  ghost predicate Solid(v: string) {
    v != "" && OneLine(v) && !IsBlank(v[0])
  }

  lemma SolidTrim(v: string)
    requires Solid(v)
    ensures TrimLeft(v, BLANKS) == v
  {
    assert v[0] !in BLANKS;
  }

  lemma SolidValues(close: bool, n: nat)
    ensures Solid(ConnectionWord(close)) && Solid(Decimal(n))
    ensures TokenName("connection") && TokenName("content-length")
  {
    var d := Decimal(n);
    assert forall i :: 0 <= i < |d| ==> IsDigit(d[i]);
  }

  /** A header with a value that does not change on the way. */
  lemma ReadSolid(run: Runner<Machine>, step: Stepper<Machine>, m: Machine, buf: string, p: nat, name: string,
                  v: string, q: nat) returns (m': Machine)
    requires Ships(step) && Runs(run, step, buf) && m.cs.Line? && TokenName(name) && Solid(v)
    requires At(buf, p, HeaderLine(name, ": ", v))
    requires q == p + |HeaderLine(name, ": ", v)|
    ensures m'.cs.Line? && GistOf(m') == AfterLine(GistOf(m), name, v) && !m'.cs.after.Emptied?
    ensures run(m, p) == run(m', q)
  {
    SolidTrim(v);
    m' := ReadPrinted(run, step, m, buf, p, name, v, q);
  }

  /** The `content-length` line, if there is a body, and the empty line. */
  lemma ReadTail(run: Runner<Machine>, step: Stepper<Machine>, m: Machine, buf: string, p: nat, body: string, n: nat)
      returns (m': Machine)
    requires Ships(step) && Runs(run, step, buf) && m.cs.Line? && !m.cs.after.Emptied?
    requires At(buf, p, LengthLine(body) + CRLF) && n == p + |LengthLine(body)| + 2
    ensures m'.cs.Line?
    ensures GistOf(m') == if body == "" then GistOf(m) else AfterLine(GistOf(m), "content-length", Decimal(|body|))
    ensures run(m, p) == Ended(m', n)
  {
    AtSplit(buf, p, LengthLine(body), CRLF);
    m' := m;
    var q := p + |LengthLine(body)|;
    if body != "" {
      SolidValues(true, |body|);
      m' := ReadSolid(run, step, m, buf, p, "content-length", Decimal(|body|), q);
    }
    ReadEnd(run, step, m', buf, q, n);
  }

  /** The places of the parts of the head. */
  lemma HeadPlaces(r: Response, order: seq<string>, buf: string) returns (p1: nat, p2: nat, p3: nat)
    requires forall i :: 0 <= i < |order| ==> order[i] in r.headers
    requires At(buf, 0, Head(r, order))
    ensures p1 == |StatusLine(r)| && p2 == p1 + |HeaderLines(r.headers, order, ": ")|
    ensures p3 == p2 + |HeaderLine("connection", ": ", ConnectionWord(r.close))|
    ensures |Head(r, order)| == p3 + |LengthLine(r.body)| + 2
    ensures At(buf, 0, StatusLine(r)) && At(buf, p1, HeaderLines(r.headers, order, ": "))
    ensures At(buf, p2, HeaderLine("connection", ": ", ConnectionWord(r.close)))
    ensures At(buf, p3, LengthLine(r.body) + CRLF)
  {
    var line, lines, connection, tail :=
      StatusLine(r), HeaderLines(r.headers, order, ": "),
      HeaderLine("connection", ": ", ConnectionWord(r.close)), LengthLine(r.body) + CRLF;
    p1, p2, p3 := FourPlaces(buf, line, lines, connection, tail);
  }

  /** The `connection` line and what follows it. */
  lemma ReadRest(run: Runner<Machine>, step: Stepper<Machine>, m: Machine, buf: string, p: nat, q: nat, close: bool,
                 body: string, n: nat) returns (m': Machine)
    requires Ships(step) && Runs(run, step, buf) && m.cs.Line?
    requires At(buf, p, HeaderLine("connection", ": ", ConnectionWord(close)))
    requires q == p + |HeaderLine("connection", ": ", ConnectionWord(close))|
    requires At(buf, q, LengthLine(body) + CRLF) && n == q + |LengthLine(body)| + 2
    ensures m'.cs.Line? && GistOf(m') == AfterEnd(GistOf(m), close, body)
    ensures run(m, p) == Ended(m', n)
  {
    SolidValues(close, 0);
    var m2 := ReadSolid(run, step, m, buf, p, "connection", ConnectionWord(close), q);
    m' := ReadTail(run, step, m2, buf, q, body, n);
  }

  lemma ReadHead(run: Runner<Machine>, step: Stepper<Machine>, r: Response, order: seq<string>, buf: string)
      returns (m': Machine)
    requires Ships(step) && Runs(run, step, buf) && r.status < 0x8000_0000 && ReasonOf(r) != "" && OneLine(ReasonOf(r))
    requires Printable(r.headers) && forall i :: 0 <= i < |order| ==> order[i] in r.headers
    requires At(buf, 0, Head(r, order))
    ensures m'.cs.Line? && GistOf(m') == WholeHead(r, order)
    ensures run(INIT, 0) == Ended(m', |Head(r, order)|)
  {
    var p1, p2, p3 := HeadPlaces(r, order, buf);
    var m0 := ReadStatusLine(run, step, r, buf, p1);
    var m1 := ReadHeaders(run, step, m0, buf, p1, r.headers, order, p2);
    m' := ReadRest(run, step, m1, buf, p2, p3, r.close, r.body, |Head(r, order)|);
  }
}
