/**
 `HttpRequest::dump`: the text of a request.
 */
module RequestPrinting {
  import opened HttpText
  import opened HeaderPrinting
  import opened RequestMachine

  datatype Request = Request(
    verb: nat, path: string, query: string, fragment: string, version: nat, headers: Headers, close: bool, body: string)

  /** `HttpMethodToString`. */
  function MethodText(i: nat): string {
    if i < |METHODS| then METHODS[i] else "<unknown>"
  }

  function QueryText(query: string): string {
    if query == "" then "" else "?" + query
  }

  function FragmentText(fragment: string): string {
    if fragment == "" then "" else "#" + fragment
  }

  function TargetText(r: Request): string {
    r.path + (QueryText(r.query) + (FragmentText(r.fragment) + " "))
  }

  function RequestLine(r: Request): string {
    (MethodText(r.verb) + " ") + (TargetText(r) + (VersionText(r.version) + CRLF))
  }

  function ConnectionLine(close: bool): string {
    HeaderLine("connection", ": ", ConnectionWord(close))
  }

  function Head(r: Request, order: seq<string>): string
    requires forall i :: 0 <= i < |order| ==> order[i] in r.headers
  {
    RequestLine(r) + (ConnectionLine(r.close) + (HeaderLines(r.headers, order, ":") + (LengthLine(r.body) + CRLF)))
  }

  /** The whole message. */
  function Print(r: Request, order: seq<string>): string
    requires forall i :: 0 <= i < |order| ==> order[i] in r.headers
  {
    Head(r, order) + r.body
  }

  lemma JoinLine(verb: string, path: string, query: string, fragment: string, major: string, minor: string)
    ensures verb + " " + path + query + fragment + " HTTP/" + major + "." + minor + CRLF
         == (verb + " ") + ((path + (query + (fragment + " "))) + (("HTTP/" + major + "." + minor) + CRLF))
  {
    assert " HTTP/" == " " + "HTTP/";
  }

  /** The appends of `dump`, over the map in its order. */
  method Dump(r: Request, order: seq<string>) returns (os: string)
    requires Enumerates(order, r.headers)
    ensures os == Print(r, order)
  {
    var query := (if r.query == "" then "" else "?") + r.query;
    var fragment := (if r.fragment == "" then "" else "#") + r.fragment;
    var line := MethodText(r.verb) + " " + r.path + query + fragment
              + " HTTP/" + Decimal(r.version / 16) + "." + Decimal(r.version % 16) + CRLF;
    assert query == QueryText(r.query) && fragment == FragmentText(r.fragment);
    JoinLine(MethodText(r.verb), r.path, query, fragment, Decimal(r.version / 16), Decimal(r.version % 16));
    assert line == RequestLine(r);
    var connection := ConnectionLine(r.close);
    var lines := DumpHeaders(line + connection, r.headers, order, ":");
    var end := if r.body == "" then CRLF else HeaderLine("content-length", ": ", Decimal(|r.body|)) + CRLF;
    os := lines + end + r.body;
    Joined(line, connection, HeaderLines(r.headers, order, ":"), end, r.body);
    assert r.body == "" ==> "" + CRLF == CRLF;
  }
}
