/**
 The response parser: the table of `httpclient_parser_execute`, its actions, and the callbacks that
 fill in the `HttpResponse`. The keyword chains are kept as the text read so far; `Code` gives the
 number each state has in the generated code.
 */
module ResponseMachine {
  import opened HttpText
  import opened Scanning

  /** The headers the table knows. */
  datatype Field = Other | Connection | TransferEncoding | ContentLength

  /** What the line before this one was. */
  datatype After = Ordinary | Closed | Emptied(f: Field)

  datatype State =
    | Error
    | Start
    | ChunkSize | ExtStart | ExtName | ExtEquals | ExtValue
    | Protocol(k: nat)
    | Major | Dot | Minor
    | StatusStart | StatusDigits | ReasonStart | ReasonText
    | Line(after: After)
    | Name(text: string, alt: Field)
    | OtherName
    | DigitName
    | ValueStart(f: Field)
    | Word(text: string, f: Field)
    | LengthDigits
    | PlainValue
    | Return(after: After)
    | ReturnChunked
    | LastReturn(f: Field)
    | Fold(f: Field)
    | FoldWord(text: string, f: Field)
    | FoldDigits
    | Done(f: Field)

  const BLANKS: string := [TAB, 11 as char, 12 as char, ' ']

  predicate IsBlank(b: char) {
    b == TAB || b == 11 as char || b == 12 as char || b == ' '
  }

  predicate IsBreak(b: char) {
    b == CR || b == LF
  }

  /** The value that makes a header special. */
  function Wanted(f: Field): string {
    match f
    case Connection => "close"
    case TransferEncoding => "chunked"
    case _ => ""
  }

  function FieldOf(name: string): Field {
    if name == "connection" then Connection
    else if name == "transfer-encoding" then TransferEncoding
    else if name == "content-length" then ContentLength
    else Other
  }

  predicate Keyword(w: string) {
    w <= "connection" || w <= "transfer-encoding" || w <= "content-length"
  }

  /** The state in a name whose lower-case text is `w`, on a line that came after a header `alt` without
      a value (`Other` if it did not). */
  function InName(alt: Field, w: string): State {
    if (alt == Connection || alt == TransferEncoding) && w <= Wanted(alt) then Name(w, alt)
    else if alt == ContentLength && AllDigits(w) then DigitName
    else if Keyword(w) then Name(w, Other)
    else OtherName
  }

  function AltOf(after: After): Field {
    match after
    case Emptied(f) => f
    case _ => Other
  }

  /** The state in a value that starts with `t`. */
  function InValue(f: Field, t: string): State {
    if (f == Connection || f == TransferEncoding) && LowerAll(t) <= Wanted(f) then Word(LowerAll(t), f)
    else PlainValue
  }

  function LineNext(after: After, b: char): State {
    var alt := AltOf(after);
    if b == LF then Done(alt)
    else if b == CR then LastReturn(alt)
    else if IsToken(b) then InName(alt, [Lower(b)])
    else if alt != Other && IsBlank(b) then Fold(alt)
    else Error
  }

  function NameNext(text: string, alt: Field, b: char): State {
    if b == ':' then ValueStart(if alt == Other then FieldOf(text) else Other)
    else if IsToken(b) then InName(alt, text + [Lower(b)])
    else if alt != Other && text == Wanted(alt) && IsBreak(b) then AfterWord(alt, b)
    else Error
  }

  /** The break after a word that makes its header special. */
  function AfterWord(f: Field, b: char): State {
    if f == Connection then (if b == LF then Line(Closed) else Return(Closed))
    else if b == LF then Line(Ordinary)
    else ReturnChunked
  }

  function ValueStartNext(f: Field, b: char): State {
    var after := if f == Other then Ordinary else Emptied(f);
    if b == LF then Line(after)
    else if b == CR then Return(after)
    else if IsBlank(b) then ValueStart(f)
    else if f == ContentLength && IsDigit(b) then LengthDigits
    else InValue(f, [b])
  }

  function WordNext(text: string, f: Field, b: char): State {
    if IsBreak(b) then
      if text == Wanted(f) then AfterWord(f, b)
      else if b == LF then Line(Ordinary) else Return(Ordinary)
    else if text + [Lower(b)] <= Wanted(f) then Word(text + [Lower(b)], f)
    else PlainValue
  }

  /** Looking for a value on a later line. */
  function FoldNext(f: Field, b: char): State {
    if f == ContentLength then (if IsDigit(b) then FoldDigits else Error)
    else if f != Other && Lower(b) == 'c' then FoldWord("c", f)
    else Error
  }

  function PlainNext(b: char, stay: State): State {
    if b == LF then Line(Ordinary) else if b == CR then Return(Ordinary) else stay
  }

  /** The table. */
  function Next(s: State, b: char): State {
    match s
    case Error => Error
    case Start => if b == 'H' then Protocol(1) else if IsHex(b) then ChunkSize else Error
    case ChunkSize =>
      if IsHex(b) then ChunkSize else if b == ';' then ExtStart else Ending(b)
    case ExtStart => if IsToken(b) then ExtName else Error
    case ExtName =>
      if IsToken(b) then ExtName else if b == '=' then ExtEquals else if b == ';' then ExtStart else Ending(b)
    case ExtEquals => if IsToken(b) then ExtValue else Error
    case ExtValue => if IsToken(b) then ExtValue else if b == ';' then ExtStart else Ending(b)
    case Protocol(k) =>
      if k < 5 then (if b == "HTTP/"[k] then Protocol(k + 1) else Error)
      else if IsDigit(b) then Major else Error
    case Major => if IsDigit(b) then Major else if b == '.' then Dot else Error
    case Dot => if IsDigit(b) then Minor else Error
    case Minor => if IsDigit(b) then Minor else if b == ' ' then StatusStart else Error
    case StatusStart => if IsDigit(b) then StatusDigits else Error
    case StatusDigits => if IsDigit(b) then StatusDigits else if b == ' ' then ReasonStart else Error
    case ReasonStart => if b == LF then Error else ReasonText
    case ReasonText => PlainNext(b, ReasonText)
    case Line(after) => LineNext(after, b)
    case Name(text, alt) => NameNext(text, alt, b)
    case OtherName => if b == ':' then ValueStart(Other) else if IsToken(b) then OtherName else Error
    case DigitName =>
      if b == ':' then ValueStart(Other)
      else if IsDigit(b) then DigitName
      else if IsToken(b) then OtherName
      else if IsBreak(b) then PlainNext(b, Error)
      else Error
    case ValueStart(f) => ValueStartNext(f, b)
    case Word(text, f) => WordNext(text, f, b)
    case LengthDigits => PlainNext(b, if IsDigit(b) then LengthDigits else PlainValue)
    case PlainValue => PlainNext(b, PlainValue)
    case Return(after) =>
      var alt := AltOf(after);
      if b == LF then Line(after)
      else if alt != Other && (IsBlank(b) || b == CR) then Fold(alt)
      else FoldNext(alt, b)
    case ReturnChunked => if b == LF then Line(Ordinary) else Error
    case LastReturn(f) =>
      if b == LF then Done(f)
      else if f != Other && (IsBlank(b) || b == CR) then Fold(f)
      else FoldNext(f, b)
    case Fold(f) => if IsBlank(b) || IsBreak(b) then Fold(f) else FoldNext(f, b)
    case FoldWord(text, f) =>
      if text == Wanted(f) then (if IsBreak(b) then AfterWord(f, b) else Error)
      else if text + [Lower(b)] <= Wanted(f) then FoldWord(text + [Lower(b)], f)
      else Error
    case FoldDigits => if IsDigit(b) then FoldDigits else if IsBreak(b) then PlainNext(b, Error) else Error
    case Done(f) =>
      if f != Other && (IsBlank(b) || IsBreak(b)) then Fold(f) else FoldNext(f, b)
  }

  /** The end of a chunk header. */
  function Ending(b: char): State {
    if b == LF then Done(Other) else if b == CR then LastReturn(Other) else Error
  }

  /** The number of a state in the generated code. */
  function Code(s: State): nat {
    match s
    case Error => 0
    case Start => 1
    case ChunkSize => 2
    case ExtStart => 4
    case ExtName => 5
    case ExtEquals => 6
    case ExtValue => 7
    case Protocol(k) => 7 + k
    case Major => 13
    case Dot => 14
    case Minor => 15
    case StatusStart => 16
    case StatusDigits => 17
    case ReasonStart => 18
    case ReasonText => 19
    case Line(Ordinary) => 20
    case Line(Closed) => 43
    case Line(Emptied(f)) => ByField(f, 20, 36, 62, 113)
    case Name(text, alt) =>
      if alt == Connection then 89 + |text|
      else if alt == TransferEncoding then 72 + |text|
      else if text <= "connection" then 24 + |text|
      else if text <= "content-length" then 97 + |text|
      else 43 + |text|
    case OtherName => 21
    case DigitName => 117
    case ValueStart(f) => ByField(f, 22, 35, 61, 112)
    case Word(text, f) => if f == Connection then 95 + |text| else 80 + |text|
    case LengthDigits => 119
    case PlainValue => 23
    case Return(Ordinary) => 24
    case Return(Closed) => 88
    case Return(Emptied(f)) => ByField(f, 24, 95, 80, 118)
    case ReturnChunked => 71
    case LastReturn(f) => ByField(f, 3, 89, 72, 116)
    case Fold(f) => ByField(f, 0, 37, 63, 114)
    case FoldWord(text, f) => if f == Connection then 37 + |text| else 63 + |text|
    case FoldDigits => 115
    case Done(f) => ByField(f, 120, 122, 121, 123)
  }

  function ByField(f: Field, other: nat, connection: nat, encoding: nat, length: nat): nat {
    match f
    case Other => other
    case Connection => connection
    case TransferEncoding => encoding
    case ContentLength => length
  }

  // ---------------------------------------------------------------------------------------
  // Actions and callbacks
  // ---------------------------------------------------------------------------------------

  /** What the callbacks have filled in. */
  datatype Reply = Reply(version: nat, status: int, reason: string, headers: Headers, error: nat)

  datatype Machine = Machine(
    cs: State,
    mark: nat, fieldStart: nat, fieldLen: nat, bodyStart: nat,
    contentLen: int, status: int, chunked: bool, chunksDone: bool, close: bool,
    reply: Reply)

  function SetMark(m: Machine, p: nat): Machine {
    m.(mark := p)
  }

  function StartField(m: Machine, p: nat): Machine {
    m.(fieldStart := p)
  }

  function WriteField(m: Machine, p: nat): Machine {
    m.(fieldLen := if m.fieldStart <= p then p - m.fieldStart else 0)
  }

  /** `on_response_http_field`. */
  function WriteValue(m: Machine, buf: string, p: nat): Machine {
    if m.fieldLen == 0 then m
    else
      var name := Text(buf, m.fieldStart, m.fieldStart + m.fieldLen);
      m.(reply := m.reply.(headers := SetHeader(m.reply.headers, name, Text(buf, m.mark, p))))
  }

  function WriteContentLength(m: Machine, buf: string): Machine {
    m.(contentLen := ToInt32(Strtol(Text(buf, m.mark, |buf|))))
  }

  /** `on_response_version`: `strncmp` with the length of the text, which holds no NUL. */
  function WriteVersion(m: Machine, buf: string, p: nat): Machine {
    var text := Text(buf, m.mark, p);
    if text <= "HTTP/1.1" then m.(reply := m.reply.(version := 0x11))
    else if text <= "HTTP/1.0" then m.(reply := m.reply.(version := 0x10))
    else m.(reply := m.reply.(error := 1001))
  }

  /** The action and `on_response_status`, which calls `atoi`. */
  function WriteStatus(m: Machine, buf: string): Machine {
    var v := ToInt32(Strtol(Text(buf, m.mark, |buf|)));
    m.(status := v, reply := m.reply.(status := v))
  }

  function WriteReason(m: Machine, buf: string, p: nat): Machine {
    m.(reply := m.reply.(reason := Text(buf, m.mark, p)))
  }

  /** `strtol` in base 16. */
  function HexNumber(s: string): int {
    if s == "" || !IsHex(s[|s| - 1]) then 0
    else
      16 * HexNumber(s[..|s| - 1])
      + (if IsDigit(s[|s| - 1]) then Value(s[|s| - 1]) else Lower(s[|s| - 1]) as int - 87)
  }

  function WriteChunkSize(m: Machine, buf: string, p: nat): Machine {
    var n := HexNumber(Text(buf, m.mark, p));
    var v := ToInt32(if n > LONG_MAX then LONG_MAX else n);
    m.(chunked := true, contentLen := v, chunksDone := v <= 0)
  }

  function SetChunked(m: Machine): Machine {
    m.(chunked := true)
  }

  function LineEffect(m: Machine, after: After, b: char, p: nat): Machine {
    var m1 := if after == Closed then m.(close := true) else m;
    var folded := || (after == Emptied(TransferEncoding) && Lower(b) == 'c')
                  || (after == Emptied(ContentLength) && IsDigit(b));
    var m2 := if folded then SetMark(m1, p) else m1;
    if IsToken(b) then StartField(m2, p) else m2
  }

  /** The break after a special word in a value of its own, or in a folded one. */
  function WordEffect(m: Machine, f: Field, whole: bool, b: char, buf: string, p: nat): Machine {
    var m1 := WriteValue(m, buf, p);
    if f == TransferEncoding && whole && b == LF then SetChunked(m1) else m1
  }

  /** A folded value begins; that of `Connection` is not recorded. */
  function FoldEffect(m: Machine, f: Field, b: char, p: nat): Machine {
    if (f == TransferEncoding && Lower(b) == 'c') || (f == ContentLength && IsDigit(b)) then SetMark(m, p) else m
  }

  /** The actions on the edge out of `m.cs` at `b`, apart from `done`. */
  function Effect(m: Machine, b: char, buf: string, p: nat): Machine {
    match m.cs
    case Start => SetMark(m, p)
    case ChunkSize => if IsHex(b) then m else WriteChunkSize(m, buf, p)
    case ExtStart => StartField(m, p)
    case ExtName =>
      if IsToken(b) then m
      else if b == '=' then SetMark(WriteField(m, p), p)
      else WriteValue(SetMark(WriteField(m, p), p), buf, p)
    case ExtEquals => SetMark(m, p)
    case ExtValue => if IsToken(b) then m else WriteValue(m, buf, p)
    case Minor => if b == ' ' then WriteVersion(m, buf, p) else m
    case StatusStart => SetMark(m, p)
    case StatusDigits => if b == ' ' then WriteStatus(m, buf) else m
    case ReasonStart => SetMark(m, p)
    case ReasonText => if IsBreak(b) then WriteReason(m, buf, p) else m
    case Line(after) => LineEffect(m, after, b, p)
    case Name(_, alt) =>
      if b == ':' then WriteField(m, p)
      else if IsBreak(b) && alt == TransferEncoding then WordEffect(m, alt, true, b, buf, p)
      else m
    case OtherName => if b == ':' then WriteField(m, p) else m
    case DigitName =>
      if b == ':' then WriteField(m, p)
      else if IsBreak(b) then WriteValue(WriteContentLength(m, buf), buf, p)
      else m
    case ValueStart(_) => if IsBreak(b) then WriteValue(SetMark(m, p), buf, p) else SetMark(m, p)
    case Word(text, f) => if IsBreak(b) then WordEffect(m, f, text == Wanted(f), b, buf, p) else m
    case LengthDigits => if IsBreak(b) then WriteValue(WriteContentLength(m, buf), buf, p) else m
    case PlainValue => if IsBreak(b) then WriteValue(m, buf, p) else m
    case Return(after) => FoldEffect(m, AltOf(after), b, p)
    case ReturnChunked => SetChunked(m)
    case LastReturn(f) => FoldEffect(m, f, b, p)
    case Fold(f) => FoldEffect(m, f, b, p)
    case FoldWord(text, f) => if IsBreak(b) && f == TransferEncoding then WordEffect(m, f, true, b, buf, p) else m
    case FoldDigits => if IsBreak(b) then WriteValue(WriteContentLength(m, buf), buf, p) else m
    case Done(f) => FoldEffect(m, f, b, p)
    case _ => m
  }

  /** One turn of `httpclient_parser_execute`. */
  function Step(m: Machine, b: char, buf: string, p: nat): Verdict<Machine> {
    var to := Next(m.cs, b);
    if to == Error then Fail(m.(cs := Error))
    else if to.Done? then Halt(Effect(m, b, buf, p).(cs := to, bodyStart := p + 1))
    else Go(Effect(m, b, buf, p).(cs := to))
  }

  /** `httpclient_parser_init` on a parser that was used: the `HttpResponse` and `status` stay. */
  function Again(m: Machine): Machine {
    INIT.(status := m.status, reply := m.reply)
  }

  /** `httpclient_parser_init` on a new `HttpResponse`. */
  const INIT: Machine := Machine(Start, 0, 0, 0, 0, -1, 0, false, false, false, Reply(0x11, 200, "", map[], 0))
}
