/**
 `HttpRequestParser` and `HttpSession::recvRequest`: the header is parsed read by read, and the body is
 exactly the bytes that follow it.
 */
module Sessions {
  import opened Wrappers
  import opened HttpText
  import opened Scanning
  import opened RequestMachine
  import opened Cuts
  import opened CutPieces
  import opened CutPrinted
  import opened HeaderTotals
  import RequestPrinting
  import RequestRoundTrip
  import opened Streams

  class RequestParser {
    /** The registers of `http_parser` and the request its callbacks fill. */
    var m: Machine

    constructor (g: Grammar, queryStart: nat)
      ensures m == Init(g, queryStart)
    {
      m := Init(g, queryStart);
    }

    /** The loop of `http_parser_execute`. */
    method Loop(buffer: string) returns (p: nat)
      modifies this
      ensures (m, p) == Scan(Step, old(m), buffer, 0)
    {
      m, p := Scanning.Loop(Step, m, buffer);
    }

    /** `HttpRequestParser::execute`: parse, then move what is left to the front. An exception leaves the
        buffer as it is. */
    method Execute(data: array<char>, len: nat) returns (n: nat)
      requires len <= data.Length
      modifies this, data
      ensures len == 0 ==> n == 0 && m == old(m)
      ensures len > 0 ==> (m, n) == Call1(old(m), old(data[..len]))
      ensures n <= len
      ensures m.thrown ==> data[..] == old(data[..])
      ensures !m.thrown ==> data[..] == old(data[n..len]) + old(data[len - n..])
    {
      if len == 0 {
        return 0;
      }
      m := m.(mark := 0, fieldStart := 0, fieldLen := 0);
      n := Loop(data[..len]);
      if !m.thrown {
        MoveToFront(data, n, len);
      }
    }
  }

  // ---------------------------------------------------------------------------------------
  // The content length
  // ---------------------------------------------------------------------------------------

  const U64: nat := 0x1_0000_0000_0000_0000
  const I64: nat := 0x8000_0000_0000_0000

  /** `lexical_cast<uint64_t>`: digits, with a sign that wraps around. */
  function Lexical(s: string): Option<nat> {
    var digits := if s != "" && (s[0] == '-' || s[0] == '+') then s[1..] else s;
    if digits == "" || !AllDigits(digits) || Number(digits) >= U64 then None
    else if s[0] == '-' then Some((U64 - Number(digits)) % U64)
    else Some(Number(digits))
  }

  /** `getContentLength`, 0 without a header that can be read. */
  function ContentLength(h: Headers): nat {
    if "content-length" !in h then 0
    else
      match Lexical(h["content-length"].value)
      case None => 0
      case Some(n) => n
  }

  /** The bytes `recvRequest` takes for the body: as an `int64_t` the length must be positive. */
  function BodyLength(h: Headers): nat {
    if ContentLength(h) < I64 then ContentLength(h) else 0
  }

  /** The length of the body, text by text: none without a header or with one that is not a number; a number
      below 2^63 says just that many bytes, a larger one none; and a minus sign counts down from 2^64. */
  lemma BodyLengthExact(h: Headers)
    ensures "content-length" !in h ==> BodyLength(h) == 0
    ensures "content-length" in h ==>
              var v := h["content-length"].value;
              && (AllDigits(v) && v != "" ==> BodyLength(h) == if Number(v) < 0x8000_0000_0000_0000 then Number(v) else 0)
              && (v == "" ==> BodyLength(h) == 0)
              && (v != "" && !AllDigits(v) ==>
                    var n := Number(v[1..]);
                    BodyLength(h) ==
                      if v[0] !in ['+', '-'] || v[1..] == "" || !AllDigits(v[1..]) then 0
                      else if v[0] == '+' then (if n < 0x8000_0000_0000_0000 then n else 0)
                      else if 0x8000_0000_0000_0000 < n < 0x1_0000_0000_0000_0000 then 0x1_0000_0000_0000_0000 - n else 0)
  {
    if "content-length" in h {
      var v := h["content-length"].value;
      if v != "" && v[0] in ['+', '-'] {
        assert !IsDigit(v[0]);
      }
    }
  }

  lemma LexicalReadsBack(n: nat)
    requires n < U64
    ensures Lexical(Decimal(n)) == Some(n)
  {
    var d := Decimal(n);
    NumberOfDecimal(n);
    assert IsDigit(d[0]);
  }

  lemma LengthHeader(h: Headers, close: bool, body: string, blanks: string)
    requires body != ""
    ensures var e := Expected(h, close, body, blanks);
            "content-length" in e && e["content-length"].value == Decimal(|body|)
  {
    assert "connection"[2] != "content-length"[2] || |"connection"| != |"content-length"|;
  }

  /** The header a printed body gets says how long it is. */
  lemma PrintedLength(h: Headers, close: bool, body: string, blanks: string)
    requires body != "" && |body| < I64
    ensures BodyLength(Expected(h, close, body, blanks)) == |body|
  {
    LengthHeader(h, close, body, blanks);
    LexicalReadsBack(|body|);
  }

  // ---------------------------------------------------------------------------------------
  // The header
  // ---------------------------------------------------------------------------------------

  /** What the bytes of the stream say about the header, whatever the reads. */
  function HeaderVerdict(g: Grammar, whole: string): Feeding<State> {
    Feed(RequestTable(g), Start, whole)
  }

  /** How a turn of the header loop ends. */
  datatype HeadEnd = Again | Closed | Threw | Ready

  /** The parser is still inside the header, after the first `k` bytes of `whole`. */
  ghost predicate Reading(m: Machine, whole: string, k: nat) {
    && k <= |whole| && GoesOn(m) && m.call.error == 0
    && HeaderVerdict(m.grammar, whole[..k]) == More(m.cs)
  }

  /** What one read and the parse of it make of `Reading`. */
  ghost predicate Parsed(m: Machine, whole: string, k: nat, len: nat, n: nat) {
    && k + len <= |whole| && n <= len
    && (!m.thrown && Finished(m.cs) ==> n > 0 && HeaderVerdict(m.grammar, whole) == Stopped(m.cs, k + n, true))
    && (!m.thrown && m.cs == Error ==> HeaderVerdict(m.grammar, whole) == Stopped(Error, k + n, false))
    && (GoesOn(m) ==> n == len && HeaderVerdict(m.grammar, whole[..k + len]) == More(m.cs))
  }

  /** A call of the parser inside the header, and what the table says of the same bytes. */
  lemma CallControl(m: Machine, piece: string) returns (m': Machine, n: nat, f: Feeding<State>)
    requires GoesOn(m)
    ensures (m', n) == Call1(m, piece) && m'.grammar == m.grammar && n <= |piece|
    ensures f == Feed(RequestTable(m.grammar), m.cs, piece)
    ensures !m'.thrown && f.More? ==> n == |piece| && m'.cs == f.s && GoesOn(m')
    ensures !m'.thrown && f.Stopped? ==>
              m'.cs == f.s && n == f.at && (if f.finished then Finished(f.s) && n > 0 else f.s == Error)
  {
    m', n := ScanControl(Reset(m), piece, 0);
    assert piece[0..] == piece;
    FeedStates(m.grammar, m.cs, piece);
    f := Feed(RequestTable(m.grammar), m.cs, piece);
  }

  /** What the table says of a piece, carried over to the stream it is part of. */
  ghost predicate Carries(f: Feeding<State>, upTo: Feeding<State>, all: Feeding<State>, k: nat) {
    (f.More? ==> upTo == f) && (f.Stopped? ==> all == Later(f, k))
  }

  lemma VerdictOn(m: Machine, whole: string, k: nat, len: nat, f: Feeding<State>)
    requires k + len <= |whole| && Reading(m, whole, k) && f == Feed(RequestTable(m.grammar), m.cs, whole[k..k + len])
    ensures Carries(f, HeaderVerdict(m.grammar, whole[..k + len]), HeaderVerdict(m.grammar, whole), k)
  {
    FeedOn(RequestTable(m.grammar), Start, whole, k, len);
  }

  /** One read of the header loop. */
  lemma AfterRead(m: Machine, whole: string, k: nat, len: nat) returns (m': Machine, n: nat)
    requires k + len <= |whole| && Reading(m, whole, k)
    ensures (m', n) == Call1(m, whole[k..k + len]) && m'.grammar == m.grammar
    ensures Parsed(m', whole, k, len, n)
  {
    var f;
    m', n, f := CallControl(m, whole[k..k + len]);
    VerdictOn(m, whole, k, len, f);
  }

  /** Feeding `len` more bytes, and the rest. */
  lemma FeedOn<S>(table: Table<S>, s: S, whole: string, k: nat, len: nat)
    requires k + len <= |whole| && Feed(table, s, whole[..k]).More?
    ensures var piece := Feed(table, Feed(table, s, whole[..k]).s, whole[k..k + len]);
            && (piece.More? ==> Feed(table, s, whole[..k + len]) == piece)
            && (piece.Stopped? ==> Feed(table, s, whole) == Later(piece, k))
  {
    var piece := whole[k..k + len];
    assert whole[..k + len] == whole[..k] + piece;
    FeedSplit(table, s, whole[..k], piece);
    assert whole == whole[..k + len] + whole[k + len..];
    FeedSplit(table, s, whole[..k + len], whole[k + len..]);
  }

  lemma MovedFront(now: string, before: string, n: nat, len: nat, whole: string, k: nat)
    requires n <= len <= |before| && now == before[n..len] + before[len - n..]
    requires k + len <= |whole| && before[..len] == whole[k..k + len]
    ensures |now| == |before| && now[..len - n] == whole[k + n..k + len]
  {
    assert now[..len - n] == before[n..len] == before[..len][n..] == whole[k..k + len][n..];
  }

  /** `m` is `m0` after the `pieces`, which are the first `k` bytes of `whole`. */
  ghost predicate Heard(m0: Machine, m: Machine, pieces: seq<string>, whole: string, k: nat) {
    k <= |whole| && m == CallAll(m0, pieces) && Whole(pieces) == whole[..k]
  }

  lemma HeardMore(m0: Machine, m: Machine, pieces: seq<string>, whole: string, k: nat, len: nat, m': Machine)
    requires Heard(m0, m, pieces, whole, k) && GoesOn(m) && k + len <= |whole| && m' == Call1(m, whole[k..k + len]).0
    ensures Heard(m0, m', pieces + [whole[k..k + len]], whole, k + len)
  {
    CallOneMore(m0, pieces, whole[k..k + len]);
    assert whole[..k] + whole[k..k + len] == whole[..k + len];
  }

  /** One read into an empty buffer. */
  method ReadPiece(source: Source, data: array<char>, ghost whole: string, ghost k: nat) returns (len: nat)
    requires k <= |whole| && source.pending == whole[k..]
    modifies source, data
    ensures len == 0 ==> data.Length == 0 || k == |whole|
    ensures len <= data.Length && k + len <= |whole| && source.pending == whole[k + len..]
    ensures data[..len] == whole[k..k + len]
  {
    var got := source.Read(data, 0, data.Length);
    if got <= 0 {
      return 0;
    }
    return got;
  }

  /** One turn of the loop: a read, and the parse of it. Nothing was left over from the turn before. */
  method ReadOnce(source: Source, parser: RequestParser, data: array<char>, ghost whole: string, ghost k: nat)
      returns (len: nat, n: nat)
    requires Reading(parser.m, whole, k) && source.pending == whole[k..]
    modifies source, parser, data
    ensures parser.m.grammar == old(parser.m.grammar)
    ensures len == 0 ==> parser.m == old(parser.m) && (data.Length == 0 || k == |whole|)
    ensures k + len <= |whole| && (0 < len ==> parser.m == Call1(old(parser.m), whole[k..k + len]).0)
    ensures 0 < len ==> Parsed(parser.m, whole, k, len, n) && source.pending == whole[k + len..] && len <= data.Length
    ensures 0 < len && !parser.m.thrown ==> data[..len - n] == whole[k + n..k + len]
  {
    len := ReadPiece(source, data, whole, k);
    ghost var before := data[..];
    ghost var m, p := AfterRead(parser.m, whole, k, len);
    n := parser.Execute(data, len);
    if !parser.m.thrown {
      MovedFront(data[..], before, n, len, whole, k);
    }
  }

  /** How the header loop ends after the first `read` bytes of `whole`: `front` is left in a buffer of
      `size` bytes, `pending` is still to come. */
  ghost predicate HeadDone(end: HeadEnd, m: Machine, whole: string, size: nat, front: string, pending: string,
                           read: nat) {
    var v := HeaderVerdict(m.grammar, whole);
    && (end == Threw <==> m.thrown)
    && (end == Closed ==> size == 0 || !v.Stopped? || !v.finished || m.call.error != 0)
    && (end == Ready ==>
          && v.Stopped? && v.finished && size > 0 && m.cs == v.s && m.call.error == 0
          && v.at <= read <= |whole| && front == whole[v.at..read] && pending == whole[read..])
  }

  lemma EndsDry(m: Machine, whole: string, k: nat, size: nat, front: string, pending: string)
    requires Reading(m, whole, k) && (size == 0 || k == |whole|)
    ensures HeadDone(Closed, m, whole, size, front, pending, k)
  {
    assert whole[..|whole|] == whole;
  }

  /** How a turn ends after a parse. */
  function TurnEnd(m: Machine): HeadEnd {
    if m.thrown then Threw
    else if m.call.error != 0 || m.cs == Error then Closed
    else if Finished(m.cs) then Ready
    else Again
  }

  lemma EndsParsed(m: Machine, whole: string, k: nat, len: nat, n: nat, size: nat, front: string, pending: string,
                   k': nat)
    requires Parsed(m, whole, k, len, n) && 0 < len <= size && k' == k + len && pending == whole[k'..]
    requires !m.thrown ==> front == whole[k + n..k']
    ensures if TurnEnd(m) == Again then n == len && Reading(m, whole, k')
            else HeadDone(TurnEnd(m), m, whole, size, front, pending, k')
    ensures !m.thrown && m.cs != Error ==> n > 0
  {
  }

  /** A turn of the loop and its tests; the one for a full buffer never fires. */
  method ReadTurn(source: Source, parser: RequestParser, data: array<char>, ghost m0: Machine,
                  ghost pieces: seq<string>, ghost whole: string, ghost k: nat)
    returns (end: HeadEnd, offset: nat, ghost more: seq<string>, ghost k': nat)
    requires Reading(parser.m, whole, k) && source.pending == whole[k..] && Heard(m0, parser.m, pieces, whole, k)
    modifies source, parser, data
    ensures Heard(m0, parser.m, more, whole, k') && parser.m.grammar == old(parser.m.grammar) && offset <= data.Length
    ensures end == Again ==> offset == 0 && k < k' && Reading(parser.m, whole, k') && source.pending == whole[k'..]
    ensures end != Again ==> HeadDone(end, parser.m, whole, data.Length, data[..offset], source.pending, k')
  {
    ghost var m := parser.m;
    var len, n := ReadOnce(source, parser, data, whole, k);
    if len == 0 {
      EndsDry(m, whole, k, data.Length, data[..0], source.pending);
      return Closed, 0, pieces, k;
    }
    HeardMore(m0, m, pieces, whole, k, len, parser.m);
    more, k' := pieces + [whole[k..k + len]], k + len;
    offset := if parser.m.thrown then 0 else len - n;
    EndsParsed(parser.m, whole, k, len, n, data.Length, data[..offset], source.pending, k');
    if parser.m.thrown {
      return Threw, offset, more, k';
    }
    if parser.m.call.error != 0 || parser.m.cs == Error {
      return Closed, offset, more, k';
    }
    assert offset != data.Length;
    end := if Finished(parser.m.cs) then Ready else Again;
  }

  /** The loop over the header. It ends with what follows the header at the front of the buffer, and the
      place where the header ends is the same for all reads. */
  method ReadHead(source: Source, parser: RequestParser, data: array<char>)
      returns (end: HeadEnd, offset: nat, ghost pieces: seq<string>)
    requires parser.m.cs == Start && !parser.m.thrown && parser.m.call.error == 0
    modifies source, parser, data
    ensures parser.m.grammar == old(parser.m.grammar) && offset <= data.Length && end != Again
    ensures parser.m == CallAll(old(parser.m), pieces) && Whole(pieces) <= old(source.pending)
    ensures HeadDone(end, parser.m, old(source.pending), data.Length, data[..offset], source.pending, |Whole(pieces)|)
  {
    ghost var whole, m0 := source.pending, parser.m;
    ghost var k: nat := 0;
    end, offset, pieces := Again, 0, [];
    while end == Again
      invariant Heard(m0, parser.m, pieces, whole, k) && parser.m.grammar == m0.grammar && offset <= data.Length
      invariant end == Again ==> Reading(parser.m, whole, k) && source.pending == whole[k..]
      invariant end != Again ==> HeadDone(end, parser.m, whole, data.Length, data[..offset], source.pending, k)
      decreases end == Again, |whole| - k
    {
      end, offset, pieces, k := ReadTurn(source, parser, data, m0, pieces, whole, k);
    }
  }

  // ---------------------------------------------------------------------------------------
  // The body and the whole request
  // ---------------------------------------------------------------------------------------

  /** What `ReadBody` promises: the bytes, and what is left for the next read. */
  ghost predicate BodyRead(body: Option<string>, front: string, pending: string, length: nat, after: string) {
    var all := front + pending;
    && (body.Some? <==> length <= |front| || (length <= |all| && !LooksFailed(length - |front|)))
    && (body.Some? ==> length <= |all| && body.value == all[..length])
    && (body.Some? ==> after == if length <= |front| then pending else all[length..])
  }

  lemma RestAfter(front: string, pending: string, length: nat)
    requires |front| <= length <= |front| + |pending|
    ensures pending[length - |front|..] == (front + pending)[length..]
  {
  }

  /** The missing bytes, behind those that are there already. */
  method ReadMissing(source: Source, text: array<char>, front: string) returns (ok: bool)
    requires |front| <= text.Length && text[..|front|] == front
    modifies source, text
    ensures BodyRead(if ok then Some(text[..]) else None, front, old(source.pending), text.Length, source.pending)
  {
    var left := text.Length - |front|;
    assert left == 0 ==> text[..] == front == (front + source.pending)[..text.Length];
    if left > 0 {
      LooksFailedIff(left);
      var r := ReadFixSize(source, text, |front|, left);
      if r <= 0 {
        return false;
      }
      RestAfter(front, old(source.pending), text.Length);
    }
    return true;
  }

  /** `length` bytes of body: those already in the buffer, then as many as are missing. */
  method ReadBody(source: Source, data: array<char>, offset: nat, length: nat) returns (body: Option<string>)
    requires offset <= data.Length && 0 < length
    modifies source
    ensures BodyRead(body, data[..offset], old(source.pending), length, source.pending)
  {
    var text := new char[length];
    if length < offset {
      Copy(text, 0, data[..length]);
      assert text[..] == data[..length];
      assert data[..length] == (data[..offset] + source.pending)[..length];
      return Some(text[..]);
    }
    Copy(text, 0, data[..offset]);
    var ok := ReadMissing(source, text, data[..offset]);
    return if ok then Some(text[..]) else None;
  }

  /** What `recvRequest` returns: nothing, a request with its body, or an exception. */
  datatype Received = Null | Exception | Got(call: Call, body: string)

  /** The bytes up to `end` can be had when `read` of them were read with the header: there are none missing,
      or their count does not look like a failure. */
  predicate Arrives(end: nat, read: nat) {
    end <= read || !LooksFailed(end - read)
  }

  lemma ShortArrives(at: nat, length: nat, read: nat)
    requires at <= read && length < 0x8000_0000
    ensures Arrives(at + length, read)
  {
    if read < at + length {
      LooksFailedIff(at + length - read);
    }
  }

  /** What comes back, given the parser at the end, all the bytes there were, what the table says of them,
      the content length, and how many of the bytes the header loop had read. A body is exactly as many
      bytes as the content length says, the ones right after the header. Nothing comes back exactly when the
      header does not end well, the stream ends early, or the count of the bytes missing looks like a
      failure. What a later call can still read is `after`: the bytes behind the body that the header loop
      had read already are gone. */
  ghost predicate Delivers(r: Received, heard: Machine, whole: string, bufferSize: nat, v: Feeding<State>, length: nat,
                           read: nat, after: string) {
    var ended := bufferSize > 0 && v.Stopped? && v.finished && heard.call.error == 0 && !heard.thrown;
    && read <= |whole|
    && (r == Exception <==> heard.thrown)
    && (ended ==> heard.cs == v.s && v.at <= read)
    && (r.Got? ==>
          && ended && r.call == heard.call && v.at + length <= |whole| && r.body == whole[v.at..v.at + length]
          && after == whole[if v.at + length < read then read else v.at + length..])
    && (r.Got? <==> ended && v.at + length <= |whole| && Arrives(v.at + length, read))
  }

  lemma DeliversNothing(end: HeadEnd, m: Machine, whole: string, size: nat, front: string, pending: string, length: nat,
                        read: nat, after: string)
    requires HeadDone(end, m, whole, size, front, pending, read) && read <= |whole|
    ensures end == Threw ==> Delivers(Exception, m, whole, size, HeaderVerdict(m.grammar, whole), length, read, after)
    ensures end == Closed ==> Delivers(Null, m, whole, size, HeaderVerdict(m.grammar, whole), length, read, after)
  {
  }

  /** The body in terms of the whole stream. */
  lemma BodyInStream(whole: string, at: nat, read: nat, front: string, pending: string, length: nat,
                     body: Option<string>, after: string)
    requires at <= read <= |whole| && front == whole[at..read] && pending == whole[read..]
    requires BodyRead(body, front, pending, length, after)
    ensures body.Some? <==> at + length <= |whole| && Arrives(at + length, read)
    ensures body.Some? ==> body.value == whole[at..at + length]
    ensures body.Some? ==> after == whole[if at + length < read then read else at + length..]
  {
    var all := front + pending;
    assert all == whole[at..];
    if length <= |all| {
      assert all[..length] == whole[at..at + length] && all[length..] == whole[at + length..];
    }
  }

  lemma DeliversBody(m: Machine, whole: string, size: nat, front: string, pending: string, read: nat, length: nat,
                     body: Option<string>, after: string)
    requires HeadDone(Ready, m, whole, size, front, pending, read)
    requires BodyRead(body, front, pending, length, after)
    ensures Delivers(if body == None then Null else Got(m.call, body.value), m, whole, size,
                     HeaderVerdict(m.grammar, whole), length, read, after)
  {
    BodyInStream(whole, HeaderVerdict(m.grammar, whole).at, read, front, pending, length, body, after);
  }

  /** `recvRequest`, however the stream is cut into reads. `heard` is the parser at the end, and `pieces`
      is what it was given, read by read. */
  method RecvRequest(source: Source, bufferSize: nat, g: Grammar, queryStart: nat)
    returns (r: Received, ghost heard: Machine, ghost pieces: seq<string>)
    modifies source
    ensures heard == CallAll(Init(g, queryStart), pieces) && Whole(pieces) <= old(source.pending)
    ensures Delivers(r, heard, old(source.pending), bufferSize, HeaderVerdict(g, old(source.pending)),
                     BodyLength(heard.call.headers), |Whole(pieces)|, source.pending)
  {
    var parser := new RequestParser(g, queryStart);
    var data := new char[bufferSize];
    ghost var whole := source.pending;
    var end, offset;
    end, offset, pieces := ReadHead(source, parser, data);
    heard := parser.m;
    ghost var read := |Whole(pieces)|;
    DeliversNothing(end, heard, whole, bufferSize, data[..offset], source.pending, BodyLength(heard.call.headers), read,
                    source.pending);
    if end == Threw {
      return Exception, heard, pieces;
    }
    if end == Closed {
      return Null, heard, pieces;
    }
    ghost var front, pending := data[..offset], source.pending;
    var length := BodyLength(parser.m.call.headers);
    var body := Some("");
    if length > 0 {
      body := ReadBody(source, data, offset, length);
    }
    DeliversBody(heard, whole, bufferSize, front, pending, read, length, body, source.pending);
    r := if body == None then Null else Got(parser.m.call, body.value);
  }

  // ---------------------------------------------------------------------------------------
  // From one end to the other
  // ---------------------------------------------------------------------------------------

  /** Where the header of a printed request ends. */
  lemma PrintedVerdict(g: Grammar, queryStart: nat, q: RequestPrinting.Request, order: seq<string>, more: string)
    requires Sendable(g.relaxed, q, order)
    ensures var head := RequestPrinting.Head(q, order); HeaderVerdict(g, head + more) == Stopped(Done, |head|, true)
  {
    var m := Init(g, queryStart);
    var last, n := InOneCall(g, queryStart, q, order, more);
    var text := RequestPrinting.Head(q, order) + more;
    var m', n' := ScanControl(Reset(m), text, 0);
    assert text[0..] == text;
    FeedStates(g, Start, text);
  }

  /** The content length the other side reads is the size of the body. */
  predicate SaysLength(q: RequestPrinting.Request) {
    BodyLength(RequestRoundTrip.Received(q).headers) == |q.body|
  }

  /** It is for every body below 2^63 bytes, and for none unless the request has a `content-length` of its
      own. */
  lemma PrintedBody(q: RequestPrinting.Request)
    requires |q.body| < I64 && (q.body == "" ==> "content-length" !in q.headers)
    ensures SaysLength(q)
  {
    if q.body != "" {
      PrintedLength(q.headers, q.close, q.body, BLANKS);
    } else {
      assert "connection" != "content-length";
    }
  }

  /** A parser that heard the request `want`, or has not heard its end: it comes back with its body. */
  lemma PrintedOutcome(r: Received, heard: Machine, bufferSize: nat, v: Feeding<State>, want: Call, body: string,
                       whole: string, length: nat, read: nat, after: string)
    requires Delivers(r, heard, whole, bufferSize, v, length, read, after) && bufferSize > 0
    requires v.Stopped? && v.finished && v.s == Done && v.at + |body| <= |whole| && whole[v.at..v.at + |body|] == body
    requires !heard.thrown && heard.call.error == 0
    requires heard.cs == Done ==> heard.call == want && length == |body|
    requires Arrives(v.at + |body|, read)
    ensures r == Got(want, body)
  {
  }

  /** What comes back is what the parser heard, with as many bytes as it says. */
  lemma GotMeans(r: Received, heard: Machine, bufferSize: nat, v: Feeding<State>, want: Call, body: string,
                 whole: string, length: nat, read: nat, after: string)
    requires Delivers(r, heard, whole, bufferSize, v, length, read, after) && r == Got(want, body) && v.s == Done
    ensures !heard.thrown && heard.cs == Done && heard.call == want && v.Stopped? && length == |body|
    ensures Arrives(v.at + |body|, read) && v.at + |body| <= |whole|
    ensures after == whole[if v.at + |body| < read then read else v.at + |body|..] && read <= |whole|
  {
  }

  /** The places in a printed stream. */
  lemma StreamParts(head: string, body: string, more: string, whole: string, read: nat)
    requires whole == head + (body + more) && read <= |whole|
    ensures var end := |head| + |body|;
            && end <= |whole| && whole[|head|..end] == body && read - end <= |more|
            && whole[if end < read then read else end..] == if read <= end then more else more[read - end..]
  {
    assert whole == (head + body) + more;
  }

  /** When a printed request comes back, its head being `n` bytes long, given the pieces it was read in. */
  ghost predicate Receipt(r: Received, g: Grammar, q: RequestPrinting.Request, n: nat, pieces: seq<string>) {
    var got := r == Got(RequestRoundTrip.Received(q), q.body);
    var lengthOk := SaysLength(q) && Arrives(n + |q.body|, |Whole(pieces)|);
    var cutsOk := HarmlessCuts(g, "", pieces, q.version);
    && (got ==> lengthOk)
    && (lengthOk && cutsOk ==> got)
    && (NamesOnce(q.headers, q.body) ==> (got <==> lengthOk && cutsOk))
  }

  /** The parser heard `want`, or not all of it. */
  ghost predicate HeardRight(heard: Machine, want: Call) {
    !heard.thrown && heard.call.error == 0 && (heard.cs == Done ==> heard.call == want)
  }

  /** What the pieces make of a printed request. */
  ghost predicate HeardAs(heard: Machine, g: Grammar, q: RequestPrinting.Request, pieces: seq<string>) {
    var want, harmless := RequestRoundTrip.Received(q), HarmlessCuts(g, "", pieces, q.version);
    && (harmless ==> HeardRight(heard, want))
    && (NamesOnce(q.headers, q.body) && !harmless ==> heard.thrown || heard.cs != Done || heard.call != want)
  }

  lemma HeardPrinted(heard: Machine, g: Grammar, queryStart: nat, q: RequestPrinting.Request, order: seq<string>,
                     more: string, pieces: seq<string>)
    requires Sendable(g.relaxed, q, order) && heard == CallAll(Init(g, queryStart), pieces)
    requires Whole(pieces) <= RequestPrinting.Head(q, order) + more
    ensures HeardAs(heard, g, q, pieces)
  {
    if HarmlessCuts(g, "", pieces, q.version) {
      var m := HarmlessPieces(g, queryStart, q, order, more, pieces);
    } else if NamesOnce(q.headers, q.body) {
      var m := HarmfulPieces(g, queryStart, q, order, more, pieces);
    }
  }

  lemma GotPrinted(r: Received, heard: Machine, bufferSize: nat, g: Grammar, q: RequestPrinting.Request, want: Call,
                   pieces: seq<string>, whole: string, v: Feeding<State>, length: nat, read: nat, after: string)
    requires Delivers(r, heard, whole, bufferSize, v, length, read, after) && want == RequestRoundTrip.Received(q)
    requires length == BodyLength(heard.call.headers) && HeardAs(heard, g, q, pieces)
    requires v.Stopped? && v.s == Done && r == Got(want, q.body)
    ensures SaysLength(q) && Arrives(v.at + |q.body|, read)
    ensures NamesOnce(q.headers, q.body) ==> HarmlessCuts(g, "", pieces, q.version)
  {
    GotMeans(r, heard, bufferSize, v, want, q.body, whole, length, read, after);
  }

  lemma GivesPrinted(r: Received, heard: Machine, bufferSize: nat, g: Grammar, q: RequestPrinting.Request, want: Call,
                     pieces: seq<string>, whole: string, v: Feeding<State>, length: nat, read: nat, after: string)
    requires Delivers(r, heard, whole, bufferSize, v, length, read, after) && bufferSize > 0
    requires want == RequestRoundTrip.Received(q) && length == BodyLength(heard.call.headers)
    requires HeardAs(heard, g, q, pieces) && HarmlessCuts(g, "", pieces, q.version) && SaysLength(q)
    requires v.Stopped? && v.finished && v.s == Done && Arrives(v.at + |q.body|, read)
    requires v.at + |q.body| <= |whole| && whole[v.at..v.at + |q.body|] == q.body
    ensures r == Got(want, q.body)
  {
    PrintedOutcome(r, heard, bufferSize, v, want, q.body, whole, length, read, after);
  }

  lemma PrintedReceipt(r: Received, heard: Machine, bufferSize: nat, g: Grammar, q: RequestPrinting.Request, n: nat,
                       pieces: seq<string>, whole: string, v: Feeding<State>, length: nat, read: nat, after: string)
    requires Delivers(r, heard, whole, bufferSize, v, length, read, after) && bufferSize > 0
    requires length == BodyLength(heard.call.headers) && read == |Whole(pieces)| && HeardAs(heard, g, q, pieces)
    requires v == Stopped(Done, n, true) && n + |q.body| <= |whole| && whole[n..n + |q.body|] == q.body
    ensures Receipt(r, g, q, n, pieces)
  {
    var want := RequestRoundTrip.Received(q);
    if r == Got(want, q.body) {
      GotPrinted(r, heard, bufferSize, g, q, want, pieces, whole, v, length, read, after);
    } else if SaysLength(q) && Arrives(n + |q.body|, read) && HarmlessCuts(g, "", pieces, q.version) {
      GivesPrinted(r, heard, bufferSize, g, q, want, pieces, whole, v, length, read, after);
    }
  }

  /** What is left of `more` when a request comes back, its head and its body being `end` bytes long. */
  ghost predicate Leaves(after: string, more: string, end: nat, read: nat) {
    read - end <= |more| && after == if read <= end then more else more[read - end..]
  }

  lemma StreamLeaves(r: Received, heard: Machine, bufferSize: nat, v: Feeding<State>, want: Call, body: string,
                     head: string, more: string, whole: string, length: nat, read: nat, after: string)
    requires Delivers(r, heard, whole, bufferSize, v, length, read, after) && v == Stopped(Done, |head|, true)
    requires whole == head + (body + more) && r == Got(want, body)
    ensures Leaves(after, more, |head| + |body|, read)
  {
    GotMeans(r, heard, bufferSize, v, want, body, whole, length, read, after);
    StreamParts(head, body, more, whole, read);
  }

  lemma StreamReceipt(r: Received, heard: Machine, bufferSize: nat, g: Grammar, q: RequestPrinting.Request,
                      more: string, pieces: seq<string>, head: string, whole: string, v: Feeding<State>, length: nat,
                      read: nat, after: string)
    requires Delivers(r, heard, whole, bufferSize, v, length, read, after) && bufferSize > 0
    requires length == BodyLength(heard.call.headers) && read == |Whole(pieces)| && HeardAs(heard, g, q, pieces)
    requires v == Stopped(Done, |head|, true) && whole == head + (q.body + more)
    ensures Receipt(r, g, q, |head|, pieces)
    ensures r == Got(RequestRoundTrip.Received(q), q.body) ==> Leaves(after, more, |head| + |q.body|, read)
  {
    StreamParts(head, q.body, more, whole, read);
    PrintedReceipt(r, heard, bufferSize, g, q, |head|, pieces, whole, v, length, read, after);
    if r == Got(RequestRoundTrip.Received(q), q.body) {
      StreamLeaves(r, heard, bufferSize, v, r.call, q.body, head, more, whole, length, read, after);
    }
  }

  lemma PrintedStream(r: Received, heard: Machine, bufferSize: nat, g: Grammar, queryStart: nat,
                      q: RequestPrinting.Request, order: seq<string>, more: string, pieces: seq<string>, head: string,
                      whole: string, after: string)
    requires Sendable(g.relaxed, q, order) && head == RequestPrinting.Head(q, order) && bufferSize > 0
    requires whole == head + (q.body + more)
    requires heard == CallAll(Init(g, queryStart), pieces) && Whole(pieces) <= whole
    requires Delivers(r, heard, whole, bufferSize, HeaderVerdict(g, whole), BodyLength(heard.call.headers),
                      |Whole(pieces)|, after)
    ensures Receipt(r, g, q, |head|, pieces)
    ensures r == Got(RequestRoundTrip.Received(q), q.body) ==>
              Leaves(after, more, |head| + |q.body|, |Whole(pieces)|)
  {
    var v, read := HeaderVerdict(g, whole), |Whole(pieces)|;
    PrintedVerdict(g, queryStart, q, order, q.body + more);
    HeardPrinted(heard, g, queryStart, q, order, q.body + more, pieces);
    StreamReceipt(r, heard, bufferSize, g, q, more, pieces, head, whole, v, BodyLength(heard.call.headers), read,
                  after);
  }

  /** A printed request, read by `recvRequest` in pieces, comes back with its body exactly when every cut is
      harmless, its content length says how long the body is, and the count of the missing bytes does not
      look like a failure; for a request that prints a `content-length` of its own beside the printer's,
      harmless cuts are enough, but not needed. What follows it on the stream is left for the next call
      exactly when no read of the header went beyond the end of the body; otherwise the bytes read beyond it
      are lost. */
  method ReceivePrinted(source: Source, bufferSize: nat, g: Grammar, queryStart: nat,
                        ghost q: RequestPrinting.Request, ghost order: seq<string>, ghost more: string)
    returns (r: Received, ghost pieces: seq<string>)
    requires bufferSize > 0 && Sendable(g.relaxed, q, order)
    requires source.pending == RequestPrinting.Head(q, order) + (q.body + more)
    modifies source
    ensures Whole(pieces) <= old(source.pending) && Receipt(r, g, q, |RequestPrinting.Head(q, order)|, pieces)
    ensures r == Got(RequestRoundTrip.Received(q), q.body) ==>
              Leaves(source.pending, more, |RequestPrinting.Head(q, order)| + |q.body|, |Whole(pieces)|)
  {
    ghost var head, whole := RequestPrinting.Head(q, order), source.pending;
    ghost var heard;
    r, heard, pieces := RecvRequest(source, bufferSize, g, queryStart);
    PrintedStream(r, heard, bufferSize, g, queryStart, q, order, more, pieces, head, whole, source.pending);
  }
}
