/**
 `HttpResponse::dump`: the text of a response.
 */
module ResponsePrinting {
  import opened HttpText
  import opened HeaderPrinting

  /** A response; `phrase` is what `HttpStatusToString` says of its status. */
  datatype Response = Response(
    version: nat, status: nat, phrase: string, reason: string, headers: Headers, close: bool, body: string)

  function ReasonOf(r: Response): string {
    if r.reason == "" then r.phrase else r.reason
  }

  function StatusLine(r: Response): string {
    "HTTP/" + Decimal(r.version / 16) + "." + Decimal(r.version % 16)
    + " " + Decimal(r.status) + " " + ReasonOf(r) + CRLF
  }

  function Head(r: Response, order: seq<string>): string
    requires forall i :: 0 <= i < |order| ==> order[i] in r.headers
  {
    StatusLine(r)
    + (HeaderLines(r.headers, order, ": ")
       + (HeaderLine("connection", ": ", ConnectionWord(r.close)) + (LengthLine(r.body) + CRLF)))
  }

  /** The whole message. */
  function Print(r: Response, order: seq<string>): string
    requires forall i :: 0 <= i < |order| ==> order[i] in r.headers
  {
    Head(r, order) + r.body
  }

  method Dump(r: Response, order: seq<string>) returns (os: string)
    requires Enumerates(order, r.headers)
    ensures os == Print(r, order)
  {
    var line := "HTTP/" + Decimal(r.version / 16) + "." + Decimal(r.version % 16) + " " + Decimal(r.status) + " "
              + (if r.reason == "" then r.phrase else r.reason) + CRLF;
    assert line == StatusLine(r);
    var lines := DumpHeaders(line, r.headers, order, ": ");
    var connection := HeaderLine("connection", ": ", ConnectionWord(r.close));
    var end := if r.body == "" then CRLF else HeaderLine("content-length", ": ", Decimal(|r.body|)) + CRLF;
    os := lines + connection + end + r.body;
    Joined(line, HeaderLines(r.headers, order, ": "), connection, end, r.body);
    assert r.body == "" ==> "" + CRLF == CRLF;
  }
}
