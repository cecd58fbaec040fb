/**
 The messages as they stand on the wire: what they are made of, and lines of them character by character.
 */
module PrintedTexts {
  import opened HttpText
  import opened HeaderPrinting
  import RequestMachine
  import RequestPrinting
  import ResponsePrinting

  lemma Lines(a: string, b: string, c: string, d: string, e: string, body: string)
    ensures (a + (b + (c + (d + e)))) + body == a + b + c + d + e + body
  {
  }

  /** A response is its status line, its headers, `connection`, the length, an empty line and the body. */
  lemma ResponseParts(r: ResponsePrinting.Response, order: seq<string>)
    requires forall i :: 0 <= i < |order| ==> order[i] in r.headers
    ensures ResponsePrinting.Print(r, order) ==
              ResponsePrinting.StatusLine(r) + HeaderLines(r.headers, order, ": ")
              + HeaderLine("connection", ": ", ConnectionWord(r.close)) + LengthLine(r.body) + CRLF + r.body
  {
    Lines(ResponsePrinting.StatusLine(r), HeaderLines(r.headers, order, ": "),
          HeaderLine("connection", ": ", ConnectionWord(r.close)), LengthLine(r.body), CRLF, r.body);
  }

  /** A request has `connection` in front of its headers, and no space behind their colons. */
  lemma RequestParts(r: RequestPrinting.Request, order: seq<string>)
    requires forall i :: 0 <= i < |order| ==> order[i] in r.headers
    ensures RequestPrinting.Print(r, order) ==
              RequestPrinting.RequestLine(r) + HeaderLine("connection", ": ", ConnectionWord(r.close))
              + HeaderLines(r.headers, order, ":") + LengthLine(r.body) + CRLF + r.body
  {
    Lines(RequestPrinting.RequestLine(r), HeaderLine("connection", ": ", ConnectionWord(r.close)),
          HeaderLines(r.headers, order, ":"), LengthLine(r.body), CRLF, r.body);
  }

  lemma SmallNumbers()
    ensures Decimal(0) == "0" && Decimal(1) == "1" && Decimal(2) == "2" && Decimal(404) == "404"
  {
    assert Decimal(40) == Decimal(4) + [Digit(0)] == "40";
    assert Decimal(404) == Decimal(40) + [Digit(4)] == "404";
  }

  /** The reason that was set. */
  lemma StatusText(r: ResponsePrinting.Response)
    requires r.version == 0x11 && r.status == 404 && r.reason == "Lost"
    ensures ResponsePrinting.StatusLine(r) == "HTTP/1.1 404 Lost\r\n"
  {
    SmallNumbers();
    assert "HTTP/" + "1" + "." + "1" + " " + "404" + " " == "HTTP/1.1 404 ";
  }

  /** Without one, the phrase of the status. */
  lemma PhraseText(r: ResponsePrinting.Response)
    requires r.version == 0x10 && r.status == 404 && r.reason == ""
    ensures ResponsePrinting.StatusLine(r) == "HTTP/1.0 404 " + r.phrase + "\r\n"
  {
    SmallNumbers();
    assert "HTTP/" + "1" + "." + "0" + " " + "404" + " " == "HTTP/1.0 404 ";
  }

  /** Method, path, query, fragment and version. */
  lemma RequestLineText(r: RequestPrinting.Request)
    requires r.verb == 3 && r.path == "/p" && r.query == "q" && r.fragment == "f" && r.version == 0x10
    ensures RequestPrinting.RequestLine(r) == "POST /p?q#f HTTP/1.0\r\n"
  {
    SmallNumbers();
    assert RequestMachine.METHODS[3] == "POST";
    assert RequestPrinting.TargetText(r) == "/p?q#f ";
    assert VersionText(0x10) == "HTTP/1.0";
    assert ("POST" + " ") + ("/p?q#f " + ("HTTP/1.0" + CRLF)) == "POST /p?q#f HTTP/1.0\r\n";
  }

  /** The lines the printers add, and a header of the message's own, in its own spelling. */
  lemma LineTexts(h: Headers, order: seq<string>, sep: string)
    requires order == ["x"] && "x" in h && h["x"] == Header("X", "1")
    ensures HeaderLine("connection", ": ", ConnectionWord(true)) == "connection: close\r\n"
    ensures HeaderLine("connection", ": ", ConnectionWord(false)) == "connection: keep-alive\r\n"
    ensures LengthLine("ab") == "content-length: 2\r\n" && LengthLine("") == ""
    ensures HeaderLines(h, order, sep) == "X" + sep + "1" + "\r\n"
  {
    SmallNumbers();
    assert order[0] == "x" && order[1..] == [] && "x" != "connection";
  }
}
