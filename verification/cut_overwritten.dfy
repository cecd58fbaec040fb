/**
 Why a request with a `content-length` of its own is an exception: the printer adds another one behind
 it, so a cut that loses the first line loses nothing that is kept.
 */
module CutOverwritten {
  import opened Wrappers
  import opened HttpText
  import opened Scanning
  import opened HeaderPrinting
  import opened HeaderTotals
  import opened RequestMachine
  import opened RequestMethods
  import opened RequestPrinting
  import opened RequestTarget
  import opened RequestLines
  import opened RequestRoundTrip
  import opened Cuts
  import opened CutPieces
  import opened CutPrinted
  import opened CutTokens

  /** A request with a body whose only header is a `content-length`. */
  ghost predicate OwnLength(relaxed: bool, r: Request, value: string) {
    && Sendable(relaxed, r, ["content-length"]) && r.body != "" && Solid(value)
    && r.headers == map["content-length" := Header("content-length", value)]
  }

  /** Everything up to the end of that value. */
  function Front(r: Request, value: string): string {
    RequestLine(r) + (ConnectionLine(r.close) + ("content-length:" + value))
  }

  /** The rest of the head. */
  function Back(r: Request): string {
    CRLF + (LengthLine(r.body) + CRLF)
  }

  lemma OneLineOnly(h: Headers, value: string)
    requires h == map["content-length" := Header("content-length", value)]
    ensures HeaderLines(h, ["content-length"], ":") == "content-length:" + value + CRLF
  {
    assert ["content-length"][1..] == [];
    assert HeaderLines(h, [], ":") == "";
    assert "content-length" != "connection" by { assert |"content-length"| != |"connection"|; }
    assert "content-length" + ":" == "content-length:";
  }

  lemma Regroup(a: string, b: string, c: string, d: string, e: string)
    ensures a + (b + (c + d + e)) == a + (b + c) + (d + e)
  {
  }

  lemma HeadInTwo(g: Grammar, r: Request, value: string)
    requires OwnLength(g.relaxed, r, value)
    ensures Head(r, ["content-length"]) == Front(r, value) + Back(r)
  {
    OneLineOnly(r.headers, value);
    Regroup(RequestLine(r), ConnectionLine(r.close), "content-length:" + value, CRLF, LengthLine(r.body) + CRLF);
  }

  /** The places of the three parts. */
  lemma ThreePlaces(buf: string, a: string, b: string, c: string, p1: nat, p2: nat)
    requires buf == a + (b + c) && p1 == |a| && p2 == p1 + |b|
    ensures At(buf, 0, a) && At(buf, p1, b) && At(buf, p2, c) && |buf| == p2 + |c|
  {
  }

  /** What the first piece records: everything but that header. */
  ghost predicate Halfway(m: Machine, r: Request) {
    && m.cs == Value && !m.thrown && m.call.headers == SetHeader(map[], "connection", ConnectionWord(r.close))
    && m.call == Received(r).(headers := m.call.headers)
  }

  lemma ReadOwnName(run: Runner<Machine>, m: Machine, buf: string, p: nat, value: string, n: nat) returns (m': Machine)
    requires Runs(run, Step, buf) && !m.thrown && m.cs == Line && Solid(value)
    requires At(buf, p, "content-length:" + value) && n == p + 15 + |value|
    ensures m'.cs == Value && !m'.thrown && m'.call == m.call && run(m, p) == run(m', n)
  {
    SolidValues(true, 0);
    assert "content-length" + ":" == "content-length:";
    AtSplit(buf, p, "content-length:", value);
    var m1 := ReadName(run, Step, m, buf, p, "content-length", p + 15);
    m' := ReadBytes(run, Step, m1, buf, p + 15, value, n);
  }

  lemma FirstPiece(g: Grammar, queryStart: nat, r: Request, value: string) returns (m: Machine)
    requires OwnLength(g.relaxed, r, value)
    ensures m == Call1(Init(g, queryStart), Front(r, value)).0 && Halfway(m, r)
  {
    var buf := Front(r, value);
    var run := Running(Step, buf);
    RunningRuns(Step, buf);
    var p1 := |RequestLine(r)|;
    var p2 := p1 + |ConnectionLine(r.close)|;
    ThreePlaces(buf, RequestLine(r), ConnectionLine(r.close), "content-length:" + value, p1, p2);
    SolidValues(r.close, 0);
    var m0 := Init(g, queryStart);
    var m1 := ReadRequestLine(run, Step, m0, r, buf, p1);
    var m2 := ReadOwn(run, Step, m1, buf, p1, "connection", ConnectionWord(r.close), p2);
    m := ReadOwnName(run, m2, buf, p2, value, |buf|);
    assert run(m, |buf|) == Scan(Step, m, buf, |buf|) == (m, |buf|);
    assert run(m0, 0) == Scan(Step, m0, buf, 0);
  }

  lemma ReceivedHeaders(r: Request, relaxed: bool, value: string)
    requires OwnLength(relaxed, r, value)
    ensures WithLength(SetHeader(map[], "connection", ConnectionWord(r.close)), r.body) == Received(r).headers
  {
    LowerWords();
    assert "content-length" != "connection" by { assert |"content-length"| != |"connection"|; }
  }

  lemma SkipsValue(m: Machine, buf: string)
    requires m.cs == Value && !m.thrown && m.fieldLen == 0
    ensures Step(m, CR, buf, 0) == Go(m.(cs := Return)) && Step(m.(cs := Return), LF, buf, 1) == Go(m.(cs := Line))
  {
  }

  lemma SecondPiece(g: Grammar, r: Request, value: string, m: Machine) returns (m': Machine)
    requires OwnLength(g.relaxed, r, value) && Halfway(m, r)
    ensures m' == Call1(m, Back(r)).0 && m'.cs == Done && !m'.thrown && m'.call == Received(r)
  {
    var buf := Back(r);
    var run := Running(Step, buf);
    RunningRuns(Step, buf);
    AtSplit(buf, 0, CRLF, LengthLine(r.body) + CRLF);
    AtFirst(buf, 0, CRLF);
    var m0 := Reset(m);
    SkipsValue(m0, buf);
    One(run, Step, m0, buf, 0, CR, m0.(cs := Return));
    One(run, Step, m0.(cs := Return), buf, 1, LF, m0.(cs := Line));
    m' := ReadTail(run, Step, m0.(cs := Line), buf, 2, r.body, |buf|);
    ReceivedHeaders(r, g.relaxed, value);
    assert run(m0, 0) == Scan(Step, m0, buf, 0);
  }

  /** The cut falls inside a value, and the request comes back all the same. */
  lemma OverwrittenLineMayBeCut(g: Grammar, queryStart: nat, r: Request, value: string)
      returns (pieces: seq<string>, m: Machine)
    requires OwnLength(g.relaxed, r, value)
    ensures Whole(pieces) == Head(r, ["content-length"]) && !HarmlessCuts(g, "", pieces, r.version)
    ensures m == CallAll(Init(g, queryStart), pieces) && m.cs == Done && m.call == Received(r)
  {
    var a, c := Front(r, value), Back(r);
    HeadInTwo(g, r, value);
    pieces := [a, c];
    var m1 := FirstPiece(g, queryStart, r, value);
    m := SecondPiece(g, r, value, m1);
    CallTwo(Init(g, queryStart), a, c);
    WholeOfTwo(a, c);
    CutInValue(g, queryStart, a, c, m1, r.version);
  }

  lemma WholeOfTwo(a: string, c: string)
    ensures Whole([a, c]) == a + c
  {
    assert [a, c][1..] == [c] && [c][1..] == [];
    assert Whole([c]) == c + "" == c;
  }

  lemma CutInValue(g: Grammar, queryStart: nat, a: string, c: string, m: Machine, version: nat)
    requires m == Call1(Init(g, queryStart), a).0 && m.cs == Value && !m.thrown
    ensures !HarmlessCuts(g, "", [a, c], version)
  {
    var m', n := ScanControl(Reset(Init(g, queryStart)), a, 0);
    assert a[0..] == a && "" + a == a;
    assert StateAfter(g, a) == Value;
  }
}
