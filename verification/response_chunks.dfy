/**
 Chunk headers: a size in hexadecimal, as a sender prints it, read by the response parser once it has
 started again.
 */
module ResponseChunks {
  import opened HttpText
  import opened Scanning
  import opened ResponseMachine
  import opened ResponseLines

  function HexDigit(d: nat): (c: char)
    requires d < 16
    ensures IsHex(c)
  {
    if d < 10 then (d + 48) as char else (d + 87) as char
  }

  /** A number in hexadecimal. */
  function HexText(n: nat): (s: string)
    ensures s != "" && forall i :: 0 <= i < |s| ==> IsHex(s[i])
  {
    if n < 16 then [HexDigit(n)] else HexText(n / 16) + [HexDigit(n % 16)]
  }

  /** `strtol` in base 16 reads it back. */
  lemma {:induction false} HexReadsBack(n: nat)
    ensures HexNumber(HexText(n)) == n
  {
    var s := HexText(n);
    if n < 16 {
      assert s[..0] == "";
    } else {
      HexReadsBack(n / 16);
      assert s[..|s| - 1] == HexText(n / 16);
    }
  }

  lemma ChunkStep(step: Stepper<Machine>, m: Machine, b: char, buf: string, p: nat)
    requires Ships(step)
    ensures m.cs == Start && IsHex(b) ==> step(m, b, buf, p) == Go(m.(cs := ChunkSize, mark := p))
    ensures m.cs == ChunkSize && IsHex(b) ==> step(m, b, buf, p) == Go(m)
    ensures m.cs == ChunkSize && b == CR ==> step(m, b, buf, p) == Go(WriteChunkSize(m, buf, p).(cs := LastReturn(Other)))
    ensures m.cs == LastReturn(Other) && b == LF ==> step(m, b, buf, p) == Halt(m.(cs := Done(Other), bodyStart := p + 1))
  {
    var v := Step(m, b, buf, p);
  }

  /** The digits and the break behind them. */
  lemma ReadSize(run: Runner<Machine>, step: Stepper<Machine>, m: Machine, buf: string, hex: string)
    requires Ships(step) && Runs(run, step, buf) && m.cs == Start
    requires hex != "" && (forall i :: 0 <= i < |hex| ==> IsHex(hex[i])) && At(buf, 0, hex + CRLF)
    ensures var m1 := WriteChunkSize(m.(mark := 0), buf, |hex|);
            run(m, 0) == (m1.(cs := Done(Other), bodyStart := |hex| + 2), |hex| + 2)
  {
    var p := |hex|;
    var m0 := m.(cs := ChunkSize, mark := 0);
    var m1 := WriteChunkSize(m0, buf, p).(cs := LastReturn(Other));
    assert hex + CRLF == (hex + [CR]) + [LF];
    AtSplit(buf, 0, hex + [CR], [LF]);
    ChunkStep(step, m, hex[0], buf, 0);
    forall b, q: nat | IsHex(b) ensures step(m0, b, buf, q) == Go(m0) {
      ChunkStep(step, m0, b, buf, q);
    }
    ChunkStep(step, m0, CR, buf, p);
    TokenThen(run, step, (w: string) => m0, b => IsHex(b), m, buf, 0, hex, CR, m1);
    ChunkStep(step, m1, LF, buf, p + 1);
    Stop(run, step, m1, buf, p + 1, LF, m1.(cs := Done(Other), bodyStart := p + 2));
  }

  /** What the end of the digits sets. */
  lemma SizeMeans(m0: Machine, buf: string, n: nat) returns (m: Machine)
    requires m0.mark == 0 && HexText(n) <= buf
    ensures m == WriteChunkSize(m0, buf, |HexText(n)|)
    ensures m == m0.(chunked := true, contentLen := m.contentLen, chunksDone := m.contentLen <= 0)
    ensures m.contentLen == n <==> n < 0x8000_0000
  {
    HexReadsBack(n);
    assert buf[0..|HexText(n)|] == HexText(n);
    m := WriteChunkSize(m0, buf, |HexText(n)|);
  }

  /** A parser that starts, or starts again, reads a printed chunk header to its end and takes nothing of the
      chunk: it is in state 120, knows that the body comes in chunks, and has the size of the chunk, if that
      is below 2^31. The chunks are done exactly when the size it has is not positive; the response and the
      request to close are as they were. */
  lemma ReadsChunkHeader(start: Machine, n: nat, more: string) returns (m: Machine, p: nat)
    requires start.cs == Start
    ensures (m, p) == Scan(Step, start, HexText(n) + CRLF + more, 0)
    ensures Code(m.cs) == 120 && p == |HexText(n)| + 2 && m.bodyStart == p
    ensures m.chunked && (m.contentLen == n <==> n < 0x8000_0000) && (m.chunksDone <==> m.contentLen <= 0)
    ensures m.reply == start.reply && m.close == start.close && m.status == start.status
  {
    var hex := HexText(n);
    var buf := hex + CRLF + more;
    p := |hex| + 2;
    var m1 := SizeMeans(start.(mark := 0), buf, n);
    m := m1.(cs := Done(Other), bodyStart := p);
    assert (m, p) == Scan(Step, start, buf, 0) by {
      RunningRuns(Step, buf);
      assert At(buf, 0, hex + CRLF);
      ReadSize(Running(Step, buf), Step, start, buf, hex);
      assert Running(Step, buf)(start, 0) == Scan(Step, start, buf, 0);
    }
  }
}
