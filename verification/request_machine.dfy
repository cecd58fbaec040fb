/**
 The request parser: the table of `http_parser_execute`, its actions, and the callbacks that fill in
 the `HttpRequest`. The states for targets that begin with an authority and for XML and JSON messages
 are a parameter: everything is proved for any such sub-table. `Code` gives the number each state has in
 the generated code.
 */
module RequestMachine {
  import opened Wrappers
  import opened HttpText
  import opened Scanning

  /** The parts of a target made of characters and percent triplets. */
  datatype Part = Relative | Path | Query | Fragment

  datatype State =
    | Error
    | Start
    | Method(k: nat)
    | Target
    | Scheme | SchemeEnd
    | FirstSlash
    | QueryStart
    | FragmentStart
    | In(part: Part, hex: nat)
    | Protocol(k: nat)
    | Minor
    | Line
    | Name
    | ValueStart
    | Value
    | Return
    | LastReturn
    | Done
    | Sent
    | Outside(code: nat)

  /** Where an edge of the sub-table leads: to another of its states, back into the rest of the table, or
      to the end of an XML or JSON message. */
  datatype Exit = Stay(code: nat) | ToPath | ToQuery | ToFragment | ToProtocol | ToSent

  /** An edge of the sub-table, and whether it marks and records the path. */
  datatype Edge = Edge(exit: Exit, mark: bool, path: bool)

  /** What the table depends on: `uri_relaxed`, and the edges of the states behind `Outside`. */
  datatype Grammar = Grammar(relaxed: bool, outside: map<nat, map<char, Edge>>)

  // ---------------------------------------------------------------------------------------
  // Characters
  // ---------------------------------------------------------------------------------------

  predicate IsLetter(b: char) {
    'A' <= b <= 'Z' || 'a' <= b <= 'z'
  }

  predicate IsMethodChar(b: char) {
    IsDigit(b) || 'A' <= b <= 'Z'
  }

  /** What can stand for itself anywhere in a target. */
  predicate IsPlain(b: char, relaxed: bool) {
    || IsLetter(b) || IsDigit(b) || b == '!' || b == '$' || '&' <= b <= '.' || b == ';' || b == '=' || b == '_'
    || b == '~'
    || (relaxed && (b == '^' || b == '{' || b == '}'))
  }

  predicate IsPartChar(part: Part, b: char, relaxed: bool) {
    || IsPlain(b, relaxed) || b == '@'
    || (b == ':' && part != Relative)
    || (b == '/' && part != Relative)
    || (b == '?' && (part == Query || part == Fragment))
  }

  predicate IsControl(b: char) {
    (1 as char) <= b <= (8 as char) || b == 11 as char || b == 12 as char || (14 as char) <= b <= (31 as char)
  }

  predicate IsNameStart(b: char) {
    IsControl(b) || IsToken(b)
  }

  predicate IsNameChar(b: char) {
    IsNameStart(b) || b == LF || b == CR
  }

  predicate IsBlank(b: char) {
    b == TAB || b == ' '
  }

  const BLANKS: string := [TAB, ' ']

  predicate IsValueChar(b: char) {
    b != 0 as char && b != LF && b != CR && b != 127 as char
  }

  // ---------------------------------------------------------------------------------------
  // The table
  // ---------------------------------------------------------------------------------------

  /** What ends a path. */
  function PathEnd(b: char): State {
    if b == ' ' then Protocol(0)
    else if b == '?' then QueryStart
    else if b == '#' then FragmentStart
    else Error
  }

  function PartEnd(part: Part, b: char): State {
    match part
    case Relative => if b == '/' then In(Path, 0) else PathEnd(b)
    case Path => PathEnd(b)
    case Query => if b == ' ' then Protocol(0) else if b == '#' then FragmentStart else Error
    case Fragment => if b == ' ' then Protocol(0) else Error
  }

  function PartNext(part: Part, hex: nat, b: char, relaxed: bool): State {
    if hex == 0 then
      if IsPartChar(part, b, relaxed) then In(part, 0)
      else if b == '%' then In(part, 1)
      else PartEnd(part, b)
    else if !IsHex(b) then Error
    else if hex == 1 then In(part, 2)
    else In(part, 0)
  }

  function OutsideEdge(g: Grammar, code: nat, b: char): Option<Edge> {
    if code in g.outside && b in g.outside[code] then Some(g.outside[code][b]) else None
  }

  function ExitState(exit: Exit): State {
    match exit
    case Stay(code) => Outside(code)
    case ToPath => In(Path, 0)
    case ToQuery => QueryStart
    case ToFragment => FragmentStart
    case ToProtocol => Protocol(0)
    case ToSent => Sent
  }

  function OutsideNext(g: Grammar, code: nat, b: char): State {
    match OutsideEdge(g, code, b)
    case None => Error
    case Some(e) => ExitState(e.exit)
  }

  /** The table. */
  function Next(s: State, b: char, g: Grammar): State {
    var relaxed := g.relaxed;
    match s
    case Error => Error
    case Start =>
      if IsMethodChar(b) then Method(1) else if b == '<' then Outside(194) else if b == '@' then Outside(198) else Error
    case Method(k) => if b == ' ' then Target else if IsMethodChar(b) && k < 20 then Method(k + 1) else Error
    case Target =>
      if IsLetter(b) then Scheme
      else if b == '/' then FirstSlash
      else PartNext(Relative, 0, b, relaxed)
    case Scheme =>
      if IsLetter(b) || IsDigit(b) || b == '+' || b == '-' || b == '.' then Scheme
      else if b == ':' then SchemeEnd
      else PartNext(Relative, 0, b, relaxed)
    case SchemeEnd => if b == '/' then FirstSlash else PartNext(Path, 0, b, relaxed)
    case FirstSlash => if b == '/' then Outside(34) else PartNext(Path, 0, b, relaxed)
    case QueryStart => PartNext(Query, 0, b, relaxed)
    case FragmentStart => PartNext(Fragment, 0, b, relaxed)
    case In(part, hex) => PartNext(part, hex, b, relaxed)
    case Protocol(k) =>
      if k < 7 then (if b == "HTTP/1."[k] then Protocol(k + 1) else Error)
      else if b == '0' || b == '1' then Minor
      else Error
    case Minor => if b == LF then Line else if b == CR then Return else Error
    case Line => if b == LF then Done else if b == CR then LastReturn else if IsNameStart(b) then Name else Error
    case Name => if b == ':' then ValueStart else if IsNameChar(b) then Name else Error
    case ValueStart =>
      if b == LF then Line else if b == CR then Return
      else if IsBlank(b) then ValueStart
      else if IsValueChar(b) then Value
      else Error
    case Value => if b == LF then Line else if b == CR then Return else if IsValueChar(b) then Value else Error
    case Return => if b == LF then Line else Error
    case LastReturn => if b == LF then Done else if b == ':' then ValueStart else if IsNameChar(b) then Name else Error
    case Done => if b == ':' then ValueStart else if IsNameChar(b) then Name else Error
    case Sent => Error
    case Outside(code) => OutsideNext(g, code, b)
  }

  /** The number of a state in the generated code. */
  function Code(s: State): nat {
    match s
    case Error => 0
    case Start => 1
    case Method(k) => if k <= 1 then 2 else 173 + k
    case Target => 3
    case Scheme => 173
    case SchemeEnd => 174
    case FirstSlash => 33
    case QueryStart => 29
    case FragmentStart => 20
    case In(Relative, hex) => if hex == 0 then 19 else 23 + hex
    case In(Path, hex) => 26 + hex
    case In(Query, hex) => 30 + hex
    case In(Fragment, hex) => 21 + hex
    case Protocol(k) => 4 + k
    case Minor => 12
    case Line => 13
    case Name => 14
    case ValueStart => 15
    case Value => 16
    case Return => 17
    case LastReturn => 18
    case Done => 348
    case Sent => 349
    case Outside(code) => code
  }

  // ---------------------------------------------------------------------------------------
  // Actions and callbacks
  // ---------------------------------------------------------------------------------------

  /** `HTTP_METHOD_MAP`, by number. */
  const METHODS: seq<string> := [
    "DELETE", "GET", "HEAD", "POST", "PUT", "CONNECT", "OPTIONS", "TRACE", "COPY", "LOCK", "MKCOL", "MOVE",
    "PROPFIND", "PROPPATCH", "SEARCH", "UNLOCK", "BIND", "REBIND", "UNBIND", "ACL", "REPORT", "MKACTIVITY",
    "CHECKOUT", "MERGE", "M-SEARCH", "NOTIFY", "SUBSCRIBE", "UNSUBSCRIBE", "PATCH", "PURGE", "MKCALENDAR",
    "LINK", "UNLINK", "SOURCE"]

  /** `CharsToHttpMethod`: the first method, from number `i` on, whose name the text starts with. */
  function FromChars(names: seq<string>, text: string, i: nat): (r: Option<nat>)
    requires i <= |names|
    ensures r.Some? ==> i <= r.value < |names| && names[r.value] <= text
    decreases |names| - i
  {
    if i == |names| then None
    else if names[i] <= text then Some(i)
    else FromChars(names, text, i + 1)
  }

  /** What the callbacks have filled in. */
  datatype Call = Call(
    verb: nat, path: string, query: string, fragment: string, version: nat, headers: Headers, error: nat)

  /** The registers of `http_parser` and what its callbacks filled in. `thrown` is set where a callback
      cannot make its string; `names`, the model's own bookkeeping, adds up the lengths of the names of
      the headers recorded. */
  datatype Machine = Machine(
    cs: State, grammar: Grammar,
    mark: nat, fieldStart: nat, fieldLen: nat, queryStart: nat, bodyStart: nat,
    call: Call, thrown: bool, names: nat)

  function WriteMethod(m: Machine, buf: string): Machine {
    match FromChars(METHODS, Text(buf, m.mark, |buf|), 0)
    case None => m.(call := m.call.(error := 1000))
    case Some(i) => m.(call := m.call.(verb := i))
  }

  function WritePath(m: Machine, buf: string, p: nat): Machine {
    m.(call := m.call.(path := Text(buf, m.mark, p)))
  }

  /** `query_start` is kept from an earlier call, so the length can be negative, and then the string
      cannot be made. */
  function WriteQuery(m: Machine, buf: string, p: nat): Machine {
    if m.queryStart > p then m.(thrown := true)
    else m.(call := m.call.(query := Text(buf, m.queryStart, p)))
  }

  function WriteFragment(m: Machine, buf: string, p: nat): Machine {
    m.(call := m.call.(fragment := Text(buf, m.mark, p)))
  }

  function WriteVersion(m: Machine, buf: string, p: nat): Machine {
    var text := Text(buf, m.mark, p);
    if text <= "HTTP/1.1" then m.(call := m.call.(version := 0x11))
    else if text <= "HTTP/1.0" then m.(call := m.call.(version := 0x10))
    else m.(call := m.call.(error := 1001))
  }

  function WriteField(m: Machine, p: nat): Machine {
    m.(fieldLen := if m.fieldStart <= p then p - m.fieldStart else 0)
  }

  function WriteValue(m: Machine, buf: string, p: nat): Machine {
    if m.fieldLen == 0 then m
    else
      var name := Text(buf, m.fieldStart, m.fieldStart + m.fieldLen);
      m.(call := m.call.(headers := SetHeader(m.call.headers, name, Text(buf, m.mark, p))),
         names := m.names + m.fieldLen)
  }

  function PathEffect(m: Machine, b: char, buf: string, p: nat): Machine {
    if b == ' ' || b == '?' || b == '#' then WritePath(m, buf, p) else m
  }

  function QueryEffect(m: Machine, b: char, buf: string, p: nat): Machine {
    if b == ' ' || b == '#' then WriteQuery(m, buf, p) else m
  }

  function FragmentEffect(m: Machine, b: char, buf: string, p: nat): Machine {
    if b == ' ' then WriteFragment(m, buf, p) else m
  }

  function OutsideEffect(m: Machine, code: nat, b: char, buf: string, p: nat): Machine {
    match OutsideEdge(m.grammar, code, b)
    case None => m
    case Some(e) =>
      var m1 := if e.mark then m.(mark := p) else m;
      if e.path then WritePath(m1, buf, p) else m1
  }

  /** The actions on the edge out of `m.cs` at `b`, apart from `done`; `request_uri` does nothing. */
  function Effect(m: Machine, b: char, buf: string, p: nat): Machine {
    match m.cs
    case Start => m.(mark := p)
    case Method(_) => if b == ' ' then WriteMethod(m, buf) else m
    case Target => PathEffect(m.(mark := p), b, buf, p)
    case Scheme => PathEffect(m, b, buf, p)
    case SchemeEnd => PathEffect(m.(mark := p), b, buf, p)
    case FirstSlash => PathEffect(m, b, buf, p)
    case QueryStart => QueryEffect(m.(queryStart := p), b, buf, p)
    case FragmentStart => FragmentEffect(m.(mark := p), b, buf, p)
    case In(part, hex) =>
      if hex != 0 then m
      else if part == Query then QueryEffect(m, b, buf, p)
      else if part == Fragment then FragmentEffect(m, b, buf, p)
      else PathEffect(m, b, buf, p)
    case Outside(code) => OutsideEffect(m, code, b, buf, p)
    case Protocol(k) => if k == 0 then m.(mark := p) else m
    case Minor => WriteVersion(m, buf, p)
    case Line => m.(fieldStart := p)
    case Name => if b == ':' then WriteField(m, p) else m
    case LastReturn => if b == ':' then WriteField(m, p) else m
    case Done => if b == ':' then WriteField(m, p) else m
    case ValueStart => if b == CR || b == LF then WriteValue(m.(mark := p), buf, p) else m.(mark := p)
    case Value => if b == CR || b == LF then WriteValue(m, buf, p) else m
    case _ => m
  }

  /** `http_parser_is_finished`. */
  predicate Finished(s: State) {
    s == Done || s == Sent
  }

  /** One turn of `http_parser_execute`. */
  function Step(m: Machine, b: char, buf: string, p: nat): Verdict<Machine> {
    var to := Next(m.cs, b, m.grammar);
    if to == Error then Fail(m.(cs := Error))
    else
      var m' := Effect(m, b, buf, p);
      if m'.thrown then Fail(m')
      else if to == Done then Halt(m'.(cs := Done, bodyStart := p + 1))
      else if to == Sent then Halt(m'.(cs := Sent, bodyStart := m'.mark))
      else Go(m'.(cs := to))
  }

  /** `http_parser_init` on a new `HttpRequest`; `query_start` and `uri_relaxed` are not initialised. */
  function Init(g: Grammar, queryStart: nat): Machine {
    Machine(Start, g, 0, 0, 0, queryStart, 0, Call(1, "/", "", "", 0x11, map[], 0), false, 0)
  }
}
