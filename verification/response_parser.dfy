/**
 `HttpResponseParser`: the parser as an object that its loop updates, byte by byte.
 */
module ResponseParsers {
  import opened Wrappers
  import opened HttpText
  import opened HeaderReturns
  import opened Scanning
  import opened ResponsePrinting
  import opened ResponseMachine
  import opened ResponseRoundTrip
  import opened Streams

  // ---------------------------------------------------------------------------------------
  // The checks at the end of a call
  // ---------------------------------------------------------------------------------------

  /** What `httpclient_parser_execute` checks of its registers. */
  predicate InBuffer(m: Machine, len: nat) {
    m.bodyStart <= len && m.mark < len && m.fieldLen <= len && m.fieldStart < len
  }

  lemma NameInBuffer(m: Machine, b: char, buf: string, p: nat)
    requires InBuffer(m, |buf|) && p < |buf|
    requires m.cs.Name? || m.cs.OtherName? || m.cs.DigitName? || m.cs.ValueStart?
    ensures InBuffer(Effect(m, b, buf, p), |buf|)
  {
  }

  lemma ValueInBuffer(m: Machine, b: char, buf: string, p: nat)
    requires InBuffer(m, |buf|) && p < |buf|
    requires m.cs.Word? || m.cs.LengthDigits? || m.cs.PlainValue?
    ensures InBuffer(Effect(m, b, buf, p), |buf|)
  {
  }

  lemma FoldInBuffer(m: Machine, b: char, buf: string, p: nat)
    requires InBuffer(m, |buf|) && p < |buf|
    requires m.cs.Return? || m.cs.LastReturn? || m.cs.Fold? || m.cs.Done?
    ensures InBuffer(Effect(m, b, buf, p), |buf|)
  {
  }

  lemma FoldedInBuffer(m: Machine, b: char, buf: string, p: nat)
    requires InBuffer(m, |buf|) && p < |buf|
    requires m.cs.Line? || m.cs.FoldWord? || m.cs.FoldDigits?
    ensures InBuffer(Effect(m, b, buf, p), |buf|)
  {
  }

  lemma StatusInBuffer(m: Machine, b: char, buf: string, p: nat)
    requires InBuffer(m, |buf|) && p < |buf|
    requires m.cs.Minor? || m.cs.StatusStart? || m.cs.StatusDigits? || m.cs.ReasonStart? || m.cs.ReasonText?
    ensures InBuffer(Effect(m, b, buf, p), |buf|)
  {
  }

  lemma ChunkInBuffer(m: Machine, b: char, buf: string, p: nat)
    requires InBuffer(m, |buf|) && p < |buf|
    requires m.cs.ChunkSize? || m.cs.ExtStart? || m.cs.ExtName? || m.cs.ExtEquals? || m.cs.ExtValue?
    ensures InBuffer(Effect(m, b, buf, p), |buf|)
  {
  }

  lemma EffectInBuffer(m: Machine, b: char, buf: string, p: nat)
    requires InBuffer(m, |buf|) && p < |buf|
    ensures InBuffer(Effect(m, b, buf, p), |buf|)
  {
    if m.cs.Name? || m.cs.OtherName? || m.cs.DigitName? || m.cs.ValueStart? {
      NameInBuffer(m, b, buf, p);
    } else if m.cs.Word? || m.cs.LengthDigits? || m.cs.PlainValue? {
      ValueInBuffer(m, b, buf, p);
    } else if m.cs.Return? || m.cs.LastReturn? || m.cs.Fold? || m.cs.Done? {
      FoldInBuffer(m, b, buf, p);
    } else if m.cs.Line? || m.cs.FoldWord? || m.cs.FoldDigits? {
      FoldedInBuffer(m, b, buf, p);
    } else if m.cs.Minor? || m.cs.StatusStart? || m.cs.StatusDigits? || m.cs.ReasonStart? || m.cs.ReasonText? {
      StatusInBuffer(m, b, buf, p);
    } else if m.cs.ChunkSize? || m.cs.ExtStart? || m.cs.ExtName? || m.cs.ExtEquals? || m.cs.ExtValue? {
      ChunkInBuffer(m, b, buf, p);
    }
  }

  /** A scan that starts with its registers inside the buffer ends with them there. */
  lemma {:induction false} ScanInBuffer(m: Machine, buf: string, p: nat)
    requires InBuffer(m, |buf|) && p <= |buf|
    ensures InBuffer(Scan(Step, m, buf, p).0, |buf|)
    decreases |buf| - p
  {
    if p < |buf| {
      EffectInBuffer(m, buf[p], buf, p);
      var v := Step(m, buf[p], buf, p);
      if v.Go? {
        ScanInBuffer(v.m, buf, p + 1);
      }
    }
  }

  /** How a call ends: with a count, with a failed assert, or with -1 for the count, where the `memmove`
      that follows reads in front of the buffer. */
  datatype Outcome = Took(n: nat) | Aborted | Strayed

  /** A call of `httpclient_parser_execute` on `text` that got past the asserts at its start. */
  ghost predicate Ran(start: Machine, before: nat, text: string, m: Machine, nread: nat, r: Outcome) {
    var (e, p) := Scan(Step, start, text, 0);
    && m == e && nread == before + p
    && (r == Aborted <==> nread > |text| || m.bodyStart > |text|)
    && (r.Took? <==> nread <= |text| && InBuffer(m, |text|))
    && (r.Took? ==> r.n == nread)
  }

  /** A parser that starts, or starts again, takes what its table takes, unless there is no byte at all:
      then the count is -1. */
  lemma FreshRuns(start: Machine, text: string, m: Machine, nread: nat, r: Outcome)
    requires Ran(start, 0, text, m, nread, r)
    requires start.mark == start.fieldStart == start.fieldLen == start.bodyStart == 0
    ensures r == if text == "" then Strayed else Took(nread)
  {
    if text != "" {
      ScanInBuffer(start, text, 0);
    }
  }

  class ResponseParser {
    /** The registers of `httpclient_parser` and the response its callbacks fill. */
    var m: Machine
    var nread: nat

    constructor ()
      ensures m == INIT && nread == 0
    {
      m := INIT;
      nread := 0;
    }

    /** The loop of `httpclient_parser_execute`. */
    method Loop(buffer: string) returns (p: nat)
      modifies this`m
      ensures (m, p) == Scan(Step, old(m), buffer, 0)
    {
      m, p := Scanning.Loop(Step, m, buffer);
    }

    /** `httpclient_parser_execute` on `len` bytes; it looks at the byte behind them, too. */
    method Parse(data: array<char>, len: nat) returns (r: Outcome)
      requires len < data.Length
      modifies this
      ensures if data[len] == 0 as char && len < 0x8000_0000 then Ran(old(m), old(nread), data[..len], m, nread, r)
              else r == Aborted && m == old(m) && nread == old(nread)
    {
      if data[len] != 0 as char || len >= 0x8000_0000 {
        return Aborted;
      }
      var p := Loop(data[..len]);
      nread := nread + p;
      if nread > len || m.bodyStart > len {
        return Aborted;
      }
      if m.mark < len && m.fieldLen <= len && m.fieldStart < len {
        return Took(nread);
      }
      return Strayed;
    }

    /** `HttpResponseParser::execute`: with `chunk` the parser starts again; what is left moves to the
        front. */
    method Execute(data: array<char>, len: nat, chunk: bool) returns (r: Outcome)
      requires len < data.Length
      modifies this, data
      ensures if old(data[len]) == 0 as char && len < 0x8000_0000
              then Ran(if chunk then Again(old(m)) else old(m), if chunk then 0 else old(nread), old(data[..len]),
                       m, nread, r)
              else r == Aborted
      ensures data[..] == if r.Took? then old(data[r.n..len]) + old(data[len - r.n..]) else old(data[..])
    {
      if chunk {
        m, nread := Again(m), 0;
      }
      r := Parse(data, len);
      if r.Took? {
        MoveToFront(data, r.n, len);
      }
    }

    /** `httpclient_parser_finish`. */
    method Finish() returns (r: int)
      ensures r == -1 <==> Code(m.cs) == 0
      ensures r == 1 <==> Code(m.cs) == 120
      ensures r in {-1, 0, 1}
    {
      if Code(m.cs) == 0 {
        return -1;
      }
      return if Code(m.cs) == 120 then 1 else 0;
    }
  }

  /** `text` in a buffer of its own, with a NUL behind it. */
  method Terminated(text: string) returns (data: array<char>)
    ensures fresh(data) && data.Length == |text| + 1 && data[..|text|] == text && data[|text|] == 0 as char
  {
    data := new char[|text| + 1];
    Copy(data, 0, text);
    data[|text|] := 0 as char;
    assert data[..|text|] == text;
  }

  lemma Behind(head: string, more: string)
    ensures (head + more)[|head|..] == more
  {
  }

  /** A new parser takes exactly the head of a printed response. */
  lemma TakesHead(r: Response, order: seq<string>, more: string, start: Machine, text: string, m: Machine, nread: nat,
                  outcome: Outcome)
    requires PrintableResponse(r) && HttpText.Enumerates(order, r.headers) && text == Head(r, order) + more
    requires start == INIT
    requires Ran(start, 0, text, m, nread, outcome)
    ensures outcome == Took(|Head(r, order)|) && m.cs == Done(Other)
    ensures m.reply == Received(r) && (m.close <==> r.close) && m.contentLen == LengthRead(r)
  {
    var m', n := ParsesHead(r, order, more);
    FreshRuns(start, text, m, nread, outcome);
    HeadHasBytes(r, order);
  }

  lemma HeadHasBytes(r: Response, order: seq<string>)
    requires forall i :: 0 <= i < |order| ==> order[i] in r.headers
    ensures Head(r, order) != ""
  {
  }

  lemma FirstBytes(all: string, head: string, body: string, k: nat)
    requires all == head + body && k <= |body|
    ensures all[..|all| - |body| + k] == head + body[..k]
  {
  }

  lemma DoneCode(s: State)
    ensures s == Done(Other) ==> Code(s) == 120
  {
  }

  /** Print a response and give a new parser its head and the first `k` bytes of its body: it takes exactly
      the head, and leaves those bytes at the front, unless the text is too long for an `int`. */
  method PrintAndParse(r: Response, order: seq<string>, k: nat)
    returns (parser: ResponseParser, outcome: Outcome, finished: int, rest: string)
    requires PrintableResponse(r) && HttpText.Enumerates(order, r.headers) && k <= |r.body|
    ensures fresh(parser)
    ensures var n := |Head(r, order)|;
            if n + k < 0x8000_0000 then outcome == Took(n) && finished == 1 && rest == r.body[..k]
            else outcome == Aborted
    ensures outcome.Took? ==>
              && parser.m.reply == Received(r) && (parser.m.close <==> r.close)
              && parser.m.reply.status == r.status
              && (r.reason != "" ==> parser.m.reply.reason == r.reason)
              && (r.reason == "" ==> parser.m.reply.reason == r.phrase)
              && ComeBack(r.headers, r.close, r.body, [TAB, 11 as char, 12 as char, ' '], parser.m.reply.headers)
              && (r.body != "" ==> (parser.m.contentLen == |r.body| <==> |r.body| < 0x8000_0000))
  {
    ReceivedReply(r);
    DecimalReadsBack(|r.body|);
    var all := Dump(r, order);
    var text := all[..|all| - |r.body| + k];
    FirstBytes(all, Head(r, order), r.body, k);
    parser := new ResponseParser();
    var data := Terminated(text);
    outcome := parser.Execute(data, |text|, false);
    if outcome.Took? || |text| < 0x8000_0000 {
      TakesHead(r, order, r.body[..k], INIT, text, parser.m, parser.nread, outcome);
    }
    finished := parser.Finish();
    DoneCode(parser.m.cs);
    Behind(Head(r, order), r.body[..k]);
    rest := if outcome.Took? then data[..|text| - outcome.n] else "";
  }
}
