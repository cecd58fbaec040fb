/**
 Print any response and parse the text: what comes back, field by field.
 */
module ResponseRoundTrip {
  import opened HttpText
  import opened HeaderReturns
  import opened Scanning
  import opened HeaderPrinting
  import opened ResponsePrinting
  import opened ResponseMachine
  import opened ResponseLines
  import opened ResponseParsing

  // ---------------------------------------------------------------------------------------
  // What the header lines add up to
  // ---------------------------------------------------------------------------------------

  lemma FieldConnection(k: string)
    ensures FieldOf(k) == Connection <==> k == "connection"
    ensures FieldOf(k) == TransferEncoding <==> k == "transfer-encoding"
    ensures FieldOf(k) == ContentLength <==> k == "content-length"
  {
  }

  /** The value the parser gets for `k`, if the map has it. */
  function Stripped(h: Headers, k: string): string {
    if k in h then TrimLeft(h[k].value, BLANKS) else ""
  }

  lemma {:induction false} HeadersAddUp(g: Gist, h: Headers, order: seq<string>)
    requires KeyedByName(h) && forall i :: 0 <= i < |order| ==> order[i] in h
    ensures AfterLines(g, h, order).reply == g.reply.(headers := SetAll(g.reply.headers, h, order, BLANKS))
    decreases |order|
  {
    if order != [] {
      var k := order[0];
      var g' := if k == "connection" then g else AfterLine(g, h[k].name, TrimLeft(h[k].value, BLANKS));
      HeadersAddUp(g', h, order[1..]);
    }
  }

  /** None of the lines asks to close. */
  lemma {:induction false} CloseAddsUp(g: Gist, h: Headers, order: seq<string>)
    requires KeyedByName(h) && forall i :: 0 <= i < |order| ==> order[i] in h
    requires g.after != Closed
    ensures AfterLines(g, h, order).close == g.close && AfterLines(g, h, order).after != Closed
    decreases |order|
  {
    if order != [] {
      var k := order[0];
      FieldConnection(k);
      var g' := if k == "connection" then g else AfterLine(g, h[k].name, TrimLeft(h[k].value, BLANKS));
      CloseAddsUp(g', h, order[1..]);
    }
  }

  lemma {:induction false} ChunkedAddsUp(g: Gist, h: Headers, order: seq<string>)
    requires KeyedByName(h) && forall i :: 0 <= i < |order| ==> order[i] in h
    ensures AfterLines(g, h, order).chunked
       <==> g.chunked || ("transfer-encoding" in order && LowerAll(Stripped(h, "transfer-encoding")) == "chunked")
    decreases |order|
  {
    if order != [] {
      var k := order[0];
      FieldConnection(k);
      var g' := if k == "connection" then g else AfterLine(g, h[k].name, TrimLeft(h[k].value, BLANKS));
      ChunkedAddsUp(g', h, order[1..]);
      assert order == [k] + order[1..];
    }
  }

  lemma {:induction false} LengthAddsUp(g: Gist, h: Headers, order: seq<string>)
    requires KeyedByName(h) && Distinct(order) && forall i :: 0 <= i < |order| ==> order[i] in h
    ensures AfterLines(g, h, order).contentLen
         == if "content-length" in order then LengthAfter(g.contentLen, ContentLength, Stripped(h, "content-length"))
            else g.contentLen
    decreases |order|
  {
    if order != [] {
      var k := order[0];
      FieldConnection(k);
      var g' := if k == "connection" then g else AfterLine(g, h[k].name, TrimLeft(h[k].value, BLANKS));
      assert Distinct(order[1..]);
      LengthAddsUp(g', h, order[1..]);
      assert order == [k] + order[1..] && k !in order[1..];
    }
  }

  lemma WordLower()
    ensures LowerAll("close") == "close" && LowerAll("keep-alive") != "close"
    ensures FieldOf(LowerAll("connection")) == Connection && FieldOf(LowerAll("content-length")) == ContentLength
  {
    LowerWords();
    assert LowerAll("keep-alive")[0] == 'k';
  }

  /** The last lines: they alone decide `close`, and a body decides the length. */
  lemma EndAddsUp(g: Gist, close: bool, body: string)
    requires !g.close && g.after != Closed
    ensures var e := AfterEnd(g, close, body);
            && (e.close || e.after == Closed <==> close)
            && e.reply
            == g.reply.(headers := WithLength(SetHeader(g.reply.headers, "connection", ConnectionWord(close)), body))
            && e.chunked == g.chunked
            && e.contentLen == if body == "" then g.contentLen else ReadInt(Decimal(|body|))
  {
    WordLower();
  }

  /** The response as the other side reads it. */
  function Received(r: Response): Reply {
    VersionRead(INIT.reply, r.version).(status := r.status, reason := ReasonOf(r),
                                        headers := Expected(r.headers, r.close, r.body, BLANKS))
  }

  /** The content length of the parser: the size of the body, or else a header of the sender's. */
  function LengthRead(r: Response): int {
    if r.body != "" then ReadInt(Decimal(|r.body|))
    else LengthAfter(-1, ContentLength, Stripped(r.headers, "content-length"))
  }

  predicate ChunkedRead(r: Response) {
    LowerAll(Stripped(r.headers, "transfer-encoding")) == "chunked"
  }

  lemma HeadAddsUp(r: Response, order: seq<string>)
    requires KeyedByName(r.headers) && Enumerates(order, r.headers)
    ensures var g := WholeHead(r, order);
            && g.reply == Received(r)
            && (g.close || g.after == Closed <==> r.close)
            && g.contentLen == LengthRead(r)
            && g.chunked == ChunkedRead(r)
  {
    var g0 := StatusRead(r);
    var g := AfterLines(g0, r.headers, order);
    CloseAddsUp(g0, r.headers, order);
    EndAddsUp(g, r.close, r.body);
    HeadersAddUp(g0, r.headers, order);
    ConnectionLast(r.headers, order, r.close, r.body, BLANKS);
    LengthAddsUp(g0, r.headers, order);
    ChunkedAddsUp(g0, r.headers, order);
  }

  // ---------------------------------------------------------------------------------------
  // Print and parse
  // ---------------------------------------------------------------------------------------

  /** What `dump` needs to print something that can be read back. */
  ghost predicate PrintableResponse(r: Response) {
    && Printable(r.headers) && r.status < 0x8000_0000
    && r.phrase != "" && OneLine(r.phrase) && OneLine(r.reason)
  }

  /** The head alone decides, whatever follows it in the buffer. */
  lemma ParsesHead(r: Response, order: seq<string>, more: string) returns (m: Machine, n: nat)
    requires PrintableResponse(r) && Enumerates(order, r.headers)
    ensures (m, n) == Scan(Step, INIT, Head(r, order) + more, 0)
    ensures m.cs == Done(Other) && n == |Head(r, order)| && m.bodyStart == n
    ensures m.reply == Received(r) && m.contentLen == LengthRead(r)
    ensures (m.close <==> r.close) && (m.chunked <==> ChunkedRead(r))
  {
    var buf := Head(r, order) + more;
    RunningRuns(Step, buf);
    AtPrefix(buf, Head(r, order));
    var m' := ReadHead(Running(Step, buf), Step, r, order, buf);
    HeadAddsUp(r, order);
    m, n := Ended(m', |Head(r, order)|).0, |Head(r, order)|;
    assert Running(Step, buf)(INIT, 0) == Scan(Step, INIT, buf, 0);
  }

  lemma AtPrefix(buf: string, head: string)
    requires head <= buf
    ensures At(buf, 0, head)
  {
  }

  /** Field by field. */
  lemma ReceivedReply(r: Response)
    ensures var reply := Received(r);
            && reply.status == r.status
            && (r.reason != "" ==> reply.reason == r.reason) && (r.reason == "" ==> reply.reason == r.phrase)
            && ComeBack(r.headers, r.close, r.body, [TAB, 11 as char, 12 as char, ' '], reply.headers)
  {
    ExpectedComesBack(r.headers, r.close, r.body, BLANKS);
  }

  lemma ReceivedMeans(r: Response, order: seq<string>, m: Machine, n: nat)
    requires forall i :: 0 <= i < |order| ==> order[i] in r.headers
    requires m.cs == Done(Other) && m.reply == Received(r) && m.contentLen == LengthRead(r) && n == |Head(r, order)|
    ensures Code(m.cs) == 120
    ensures n <= |Print(r, order)| && Print(r, order)[n..] == r.body
    ensures m.reply.status == r.status
    ensures r.reason != "" ==> m.reply.reason == r.reason
    ensures r.reason == "" ==> m.reply.reason == r.phrase
    ensures ComeBack(r.headers, r.close, r.body, [TAB, 11 as char, 12 as char, ' '], m.reply.headers)
    ensures r.body != "" ==> (m.contentLen == |r.body| <==> |r.body| < 0x8000_0000)
    ensures r.version == 0x10 || r.version == 0x11 <==> m.reply.error == 0 && m.reply.version == r.version
    ensures r.version == 0x10 || r.version == 0x11 <==> m.reply.error != 1001
  {
    DecimalReadsBack(|r.body|);
    ReceivedReply(r);
  }

  /** Printing a response with token names and one-line values and parsing the text ends in state 120, at
      the first byte of the body. The status comes back, and the reason that was set, or else the phrase of
      the status; the headers come back, the values without their leading blanks. `close` is set exactly
      when it was; the content length is the size of a body exactly when that fits in an `int`; the
      version comes back exactly when it is 1.0 or 1.1, and is error 1001 otherwise. */
  lemma PrintThenParse(r: Response, order: seq<string>) returns (m: Machine, n: nat)
    requires PrintableResponse(r) && Enumerates(order, r.headers)
    ensures (m, n) == Scan(Step, INIT, Print(r, order), 0)
    ensures Code(m.cs) == 120 && n == m.bodyStart <= |Print(r, order)| && Print(r, order)[n..] == r.body
    ensures m.reply.status == r.status && m.reply.reason == ReasonOf(r)
    ensures m.reply.headers == Expected(r.headers, r.close, r.body, BLANKS)
    ensures (m.close <==> r.close) && (m.chunked <==> ChunkedRead(r))
    ensures r.body != "" ==> (m.contentLen == |r.body| <==> |r.body| < 0x8000_0000)
    ensures r.version == 0x10 || r.version == 0x11 <==> m.reply.error == 0 && m.reply.version == r.version
    ensures r.version == 0x10 || r.version == 0x11 <==> m.reply.error != 1001
  {
    m, n := ParsesHead(r, order, r.body);
    ReceivedMeans(r, order, m, n);
  }

  /** A header comes back unchanged exactly when its value starts with no blank; `connection` and a
      `content-length` with a body are the printer's own. */
  lemma HeaderReturnsIff(r: Response, order: seq<string>, k: string) returns (headers: Headers)
    requires PrintableResponse(r) && Enumerates(order, r.headers)
    requires k in r.headers && k != "connection" && (r.body != "" ==> k != "content-length")
    ensures headers == Scan(Step, INIT, Print(r, order), 0).0.reply.headers
    ensures k in headers && headers[k].name == r.headers[k].name
    ensures headers[k] == r.headers[k] <==> r.headers[k].value == "" || r.headers[k].value[0] !in BLANKS
  {
    var m, n := ParsesHead(r, order, r.body);
    headers := m.reply.headers;
    TrimExact(r.headers[k].value, BLANKS);
  }

  // ---------------------------------------------------------------------------------------
  // What does not come back
  // ---------------------------------------------------------------------------------------

  lemma TrimmedY()
    ensures TrimLeft(" y", BLANKS) == "y"
  {
    assert " y"[1..] == "y" && ' ' in BLANKS && 'y' !in BLANKS;
    assert TrimLeft("y", BLANKS) == "y";
  }

  lemma OnlyX(h: Headers, order: seq<string>)
    requires h == map["x" := Header("x", " y")] && order == ["x"]
    ensures Enumerates(order, h)
  {
    assert forall k :: k in h ==> k == "x";
    assert "x" in order;
  }

  /** A value that starts with a blank comes back without it. */
  lemma LeadingBlankLost(r: Response, order: seq<string>) returns (headers: Headers)
    requires r.headers == map["x" := Header("x", " y")] && PrintableResponse(r) && order == ["x"]
    ensures Enumerates(order, r.headers) && headers == Scan(Step, INIT, Print(r, order), 0).0.reply.headers
    ensures "x" in headers && headers["x"] == Header("x", "y")
  {
    OnlyX(r.headers, order);
    TrimmedY();
    var m, n := ParsesHead(r, order, r.body);
    headers := m.reply.headers;
    assert "x" != "connection" && "x" != "content-length";
  }

  lemma NumberWraps(n: nat)
    requires 0x8000_0000 <= n < 0x1_0000_0000
    ensures ToInt32(if n > LONG_MAX then LONG_MAX else n) == n - 0x1_0000_0000
  {
  }

  lemma IntWraps(text: string, n: nat)
    requires Number(text) == n && 0x8000_0000 <= n < 0x1_0000_0000
    ensures ReadInt(text) == n - 0x1_0000_0000
  {
    NumberWraps(n);
  }

  /** A body of 2^31 bytes or more, below 2^32, has a negative content length. */
  lemma LengthWraps(r: Response, order: seq<string>) returns (m: Machine)
    requires PrintableResponse(r) && Enumerates(order, r.headers) && 0x8000_0000 <= |r.body| < 0x1_0000_0000
    ensures m == Scan(Step, INIT, Head(r, order) + "", 0).0 && m.contentLen == |r.body| - 0x1_0000_0000
  {
    var n;
    m, n := ParsesHead(r, order, "");
    NumberOfDecimal(|r.body|);
    IntWraps(Decimal(|r.body|), |r.body|);
  }
}
