/**
 What one header line of a response does to the parser, whatever the name, the value and the line
 before it. The lemmas speak of a `step` that agrees with `Step` everywhere, so that only the ones
 about single bytes look into the table.
 */
module ResponseLines {
  import opened HttpText
  import opened Scanning
  import opened ResponseMachine

  ghost predicate Ships(step: Stepper<Machine>) {
    forall m, b, buf, p {:trigger Step(m, b, buf, p)} :: step(m, b, buf, p) == Step(m, b, buf, p)
  }

  // ---------------------------------------------------------------------------------------
  // Names
  // ---------------------------------------------------------------------------------------

  ghost predicate TokenName(name: string) {
    name != "" && forall i :: 0 <= i < |name| ==> IsToken(name[i])
  }

  lemma PrefixGrows(w: string, c: char, whole: string)
    ensures w + [c] <= whole ==> w <= whole
  {
    assert (w + [c])[..|w|] == w;
  }

  lemma DigitsGrow(w: string, c: char)
    ensures AllDigits(w + [c]) <==> AllDigits(w) && IsDigit(c)
  {
    assert (w + [c])[|w|] == c;
    assert forall i :: 0 <= i < |w| ==> (w + [c])[i] == w[i];
  }

  /** Reading one more byte of a name moves along the chains. */
  lemma InNameGrows(alt: Field, w: string, b: char)
    requires w != "" && IsToken(b)
    ensures match InName(alt, w)
            case Name(text, alt') => text == w && InName(alt', w + [Lower(b)]) == InName(alt, w + [Lower(b)])
            case DigitName => InName(alt, w + [Lower(b)]) == if IsDigit(b) then DigitName else OtherName
            case s => s == OtherName == InName(alt, w + [Lower(b)])
  {
    var c := Lower(b);
    DigitsGrow(w, c);
    PrefixGrows(w, c, Wanted(alt));
    PrefixGrows(w, c, "connection");
    PrefixGrows(w, c, "transfer-encoding");
    PrefixGrows(w, c, "content-length");
    if alt == ContentLength && AllDigits(w) {
      assert IsDigit(w[0]) && !Keyword(w);
    }
  }

  lemma LowerMore(w: string, b: char)
    ensures LowerAll(w + [b]) == LowerAll(w) + [Lower(b)]
  {
  }

  /** The machine in a name that reads `w` so far. */
  function AtName(m: Machine, alt: Field, w: string): Machine {
    m.(cs := InName(alt, LowerAll(w)))
  }

  predicate Naming(s: State) {
    s.Name? || s.OtherName? || s.DigitName?
  }

  lemma NamingStep(step: Stepper<Machine>, m: Machine, b: char, to: State, buf: string, p: nat)
    requires Ships(step) && Naming(m.cs) && Next(m.cs, b) == to && to != Error && !to.Done? && !IsBreak(b)
    ensures step(m, b, buf, p) == Go((if b == ':' then WriteField(m, p) else m).(cs := to))
  {
    var v := Step(m, b, buf, p);
  }

  lemma NameNextToken(alt: Field, w: string, b: char)
    requires w != "" && IsToken(b)
    ensures Naming(InName(alt, w)) && Next(InName(alt, w), b) == InName(alt, w + [Lower(b)])
  {
    InNameGrows(alt, w, b);
    assert b != ':' && !IsBreak(b);
  }

  /** No known header is spelt like the start of a special value, or with a digit. */
  lemma FieldsApart(alt: Field, w: string)
    requires w != "" && FieldOf(w) != Other
    ensures Keyword(w) && !IsDigit(w[0]) 
    ensures alt == Connection || alt == TransferEncoding ==> !(w <= Wanted(alt))
  {
  }

  lemma NameNextColon(alt: Field, w: string)
    requires w != ""
    ensures Next(InName(alt, w), ':') == ValueStart(FieldOf(w))
  {
    if FieldOf(w) != Other {
      FieldsApart(alt, w);
      assert InName(alt, w) == Name(w, Other);
    }
  }

  lemma NameStep(step: Stepper<Machine>, m: Machine, alt: Field, w: string, b: char, buf: string, p: nat)
    requires Ships(step) && m.cs == InName(alt, w) && w != "" && IsToken(b)
    ensures step(m, b, buf, p) == Go(m.(cs := InName(alt, w + [Lower(b)])))
  {
    NameNextToken(alt, w, b);
    NamingStep(step, m, b, InName(alt, w + [Lower(b)]), buf, p);
  }

  lemma NamesAbsorb(step: Stepper<Machine>, m: Machine, alt: Field, buf: string)
    requires Ships(step)
    ensures Absorbs(step, w => AtName(m, alt, w), b => IsToken(b), buf)
  {
    forall w, b, q: nat | w != "" && IsToken(b)
      ensures step(AtName(m, alt, w), b, buf, q) == Go(AtName(m, alt, w + [b]))
    {
      LowerMore(w, b);
      NameStep(step, AtName(m, alt, w), alt, LowerAll(w), b, buf, q);
    }
  }

  lemma FirstStep(step: Stepper<Machine>, m: Machine, b: char, buf: string, p: nat) returns (m1: Machine)
    requires Ships(step) && m.cs.Line? && IsToken(b)
    ensures m1 == m.(mark := m1.mark, fieldStart := p, close := m.close || m.cs == Line(Closed))
    ensures step(m, b, buf, p) == Go(AtName(m1, AltOf(m.cs.after), [b]))
  {
    var v := Step(m, b, buf, p);
    assert LowerAll([b]) == [Lower(b)];
    m1 := m.(mark := Effect(m, b, buf, p).mark, fieldStart := p, close := m.close || m.cs == Line(Closed));
  }

  lemma ColonStep(step: Stepper<Machine>, m: Machine, alt: Field, w: string, buf: string, p: nat)
    requires Ships(step) && w != "" && m.fieldStart <= p
    ensures step(AtName(m, alt, w), ':', buf, p)
         == Go(m.(cs := ValueStart(FieldOf(LowerAll(w))), fieldLen := p - m.fieldStart))
  {
    NameNextColon(alt, LowerAll(w));
    NamingStep(step, AtName(m, alt, w), ':', ValueStart(FieldOf(LowerAll(w))), buf, p);
  }

  /** A name and its colon, from the start of a line. */
  lemma ReadName(run: Runner<Machine>, step: Stepper<Machine>, m: Machine, buf: string, p: nat, name: string)
      returns (m': Machine)
    requires Ships(step) && Runs(run, step, buf) && m.cs.Line? && TokenName(name) && At(buf, p, name + ":")
    ensures m' == m.(cs := ValueStart(FieldOf(LowerAll(name))), mark := m'.mark, fieldStart := p, fieldLen := |name|,
                     close := m.close || m.cs == Line(Closed))
    ensures run(m, p) == run(m', p + |name| + 1)
  {
    var alt := AltOf(m.cs.after);
    var m1 := FirstStep(step, m, name[0], buf, p);
    NamesAbsorb(step, m1, alt, buf);
    ColonStep(step, m1, alt, name, buf, p + |name|);
    m' := m1.(cs := ValueStart(FieldOf(LowerAll(name))), fieldLen := |name|);
    TokenThen(run, step, w => AtName(m1, alt, w), b => IsToken(b), m, buf, p, name, ':', m');
  }

  // ---------------------------------------------------------------------------------------
  // Values
  // ---------------------------------------------------------------------------------------

  /** The state in a value that reads `t` so far. */
  function InText(f: Field, t: string): State {
    if f == ContentLength && AllDigits(t) then LengthDigits else InValue(f, t)
  }

  function AtText(m: Machine, f: Field, t: string): Machine {
    m.(cs := InText(f, t))
  }

  predicate Valuing(s: State) {
    s.Word? || s.LengthDigits? || s.PlainValue?
  }

  lemma InTextNext(f: Field, t: string, b: char)
    requires t != "" && !IsBreak(b)
    ensures Valuing(InText(f, t)) && Next(InText(f, t), b) == InText(f, t + [b])
  {
    DigitsGrow(t, b);
    LowerMore(t, b);
    PrefixGrows(LowerAll(t), Lower(b), Wanted(f));
  }

  lemma ValuingStep(step: Stepper<Machine>, m: Machine, b: char, to: State, buf: string, p: nat)
    requires Ships(step) && Valuing(m.cs) && Next(m.cs, b) == to && to != Error && !to.Done? && !IsBreak(b)
    ensures step(m, b, buf, p) == Go(m.(cs := to))
  {
    var v := Step(m, b, buf, p);
  }

  lemma TextAbsorbs(step: Stepper<Machine>, m: Machine, f: Field, buf: string)
    requires Ships(step)
    ensures Absorbs(step, t => AtText(m, f, t), b => !IsBreak(b), buf)
  {
    forall t, b, q: nat | t != "" && !IsBreak(b) ensures step(AtText(m, f, t), b, buf, q) == Go(AtText(m, f, t + [b])) {
      InTextNext(f, t, b);
      ValuingStep(step, AtText(m, f, t), b, InText(f, t + [b]), buf, q);
    }
  }

  lemma ValueStartStep(step: Stepper<Machine>, m: Machine, b: char, buf: string, p: nat)
    requires Ships(step) && m.cs.ValueStart? && !IsBreak(b)
    ensures step(m, b, buf, p) == Go(if IsBlank(b) then m.(mark := p) else AtText(m.(mark := p), m.cs.f, [b]))
  {
    assert [b][0] == b && (AllDigits([b]) <==> IsDigit(b));
    var v := Step(m, b, buf, p);
  }

  lemma SkipBlank(run: Runner<Machine>, step: Stepper<Machine>, m: Machine, buf: string, p: nat, b: char)
    requires Ships(step) && Runs(run, step, buf) && m.cs.ValueStart? && At(buf, p, [b]) && IsBlank(b)
    ensures run(m, p) == run(m.(mark := p), p + 1)
  {
    ValueStartStep(step, m, b, buf, p);
    One(run, step, m, buf, p, b, m.(mark := p));
  }

  lemma {:induction false} SkipBlanks(run: Runner<Machine>, step: Stepper<Machine>, m: Machine, buf: string, p: nat,
                                      v: string) returns (m': Machine)
    requires Ships(step) && Runs(run, step, buf) && m.cs.ValueStart? && At(buf, p, v)
    requires forall i :: 0 <= i < |v| ==> IsBlank(v[i])
    ensures m' == m.(mark := m'.mark)
    ensures run(m, p) == run(m', p + |v|)
    decreases |v|
  {
    if v == "" {
      m' := m;
    } else {
      AtFirst(buf, p, v);
      SkipBlank(run, step, m, buf, p, v[0]);
      m' := SkipBlanks(run, step, m.(mark := p), buf, p + 1, v[1..]);
    }
  }

  /** The buffer holds the name and the value read so far where the machine says. */
  ghost predicate Located(m: Machine, buf: string, p: nat, name: string, t: string) {
    && name != "" && At(buf, m.fieldStart, name) && m.fieldLen == |name|
    && m.mark + |t| == p && At(buf, m.mark, t)
  }

  function AfterText(f: Field, t: string): After {
    if t == "" then (if f == Other then Ordinary else Emptied(f))
    else if f == Connection && LowerAll(t) == "close" then Closed
    else Ordinary
  }

  predicate Chunks(f: Field, t: string) {
    f == TransferEncoding && LowerAll(t) == "chunked"
  }

  function LengthAfter(before: int, f: Field, t: string): int {
    if f == ContentLength && t != "" && AllDigits(t) then ReadInt(t) else before
  }

  function Recorded(m: Machine, name: string, t: string): Machine {
    m.(reply := m.reply.(headers := SetHeader(m.reply.headers, name, t)))
  }

  lemma WritesLocated(m: Machine, buf: string, p: nat, name: string, t: string)
    requires Located(m, buf, p, name, t)
    ensures WriteValue(m, buf, p) == Recorded(m, name, t)
  {
    AtSlice(buf, m.fieldStart, name);
    AtSlice(buf, m.mark, t);
  }

  lemma EmptyCrStep(step: Stepper<Machine>, m: Machine, buf: string, p: nat, name: string)
    requires Ships(step) && m.cs.ValueStart? && Located(m.(mark := p), buf, p, name, "")
    ensures step(m, CR, buf, p) == Go(Recorded(m.(mark := p), name, "").(cs := Return(AfterText(m.cs.f, ""))))
  {
    WritesLocated(m.(mark := p), buf, p, name, "");
    var v := Step(m, CR, buf, p);
  }

  lemma TextCrNext(f: Field, t: string)
    requires t != ""
    ensures Next(InText(f, t), CR) == if Chunks(f, t) then ReturnChunked else Return(AfterText(f, t))
  {
  }

  lemma LengthAt(m: Machine, buf: string, p: nat, t: string)
    requires AllDigits(t) && m.mark + |t| == p && At(buf, m.mark, t) && At(buf, p, [CR])
    ensures WriteContentLength(m, buf) == m.(contentLen := ReadInt(t))
  {
    AtSplit(buf, m.mark, t, [CR]);
    StrtolAt(buf, m.mark, t, CR);
    assert buf[m.mark..|buf|] == buf[m.mark..];
  }

  lemma ValuingCr(m: Machine, buf: string, p: nat)
    requires Valuing(m.cs)
    ensures Effect(m, CR, buf, p) == WriteValue(if m.cs == LengthDigits then WriteContentLength(m, buf) else m, buf, p)
  {
  }

  lemma TextCrEffect(m: Machine, f: Field, t: string, buf: string, p: nat, name: string)
    requires m.cs == InText(f, t) && t != "" && Located(m, buf, p, name, t) && At(buf, p, [CR])
    ensures Effect(m, CR, buf, p) == Recorded(m.(contentLen := LengthAfter(m.contentLen, f, t)), name, t)
  {
    ValuingCr(m, buf, p);
    var m1 := m.(contentLen := LengthAfter(m.contentLen, f, t));
    WritesLocated(m1, buf, p, name, t);
    if f == ContentLength && AllDigits(t) {
      LengthAt(m, buf, p, t);
    } else {
      assert m1 == m && m.cs != LengthDigits;
    }
  }

  lemma TextCrStep(step: Stepper<Machine>, m: Machine, f: Field, t: string, buf: string, p: nat, name: string)
    requires Ships(step) && m.cs == InText(f, t) && t != "" && Located(m, buf, p, name, t) && At(buf, p, [CR])
    ensures step(m, CR, buf, p) == Go(Recorded(m.(contentLen := LengthAfter(m.contentLen, f, t)), name, t)
                                      .(cs := if Chunks(f, t) then ReturnChunked else Return(AfterText(f, t))))
  {
    TextCrNext(f, t);
    TextCrEffect(m, f, t, buf, p, name);
    var v := Step(m, CR, buf, p);
  }

  lemma LfStep(step: Stepper<Machine>, m: Machine, buf: string, p: nat)
    requires Ships(step) && (m.cs.Return? || m.cs.ReturnChunked?)
    ensures step(m, LF, buf, p)
         == Go(if m.cs.Return? then m.(cs := Line(m.cs.after)) else m.(cs := Line(Ordinary), chunked := true))
  {
    var v := Step(m, LF, buf, p);
  }

  /** What matters of the machine between two lines. */
  datatype Gist = Gist(after: After, reply: Reply, contentLen: int, chunked: bool, close: bool, bodyStart: nat)

  function GistOf(m: Machine): Gist
    requires m.cs.Line?
  {
    Gist(m.cs.after, m.reply, m.contentLen, m.chunked, m.close, m.bodyStart)
  }

  /** What a header line does. */
  function AfterLine(g: Gist, name: string, t: string): Gist {
    var f := FieldOf(LowerAll(name));
    Gist(AfterText(f, t), g.reply.(headers := SetHeader(g.reply.headers, name, t)), LengthAfter(g.contentLen, f, t),
         g.chunked || Chunks(f, t), g.close || g.after == Closed, g.bodyStart)
  }

  /** The break at the end of a value. */
  lemma EndValue(run: Runner<Machine>, step: Stepper<Machine>, m: Machine, m1: Machine, f: Field, t: string,
                 buf: string, p: nat)
    requires Ships(step) && Runs(run, step, buf) && At(buf, p, CRLF)
    requires step(m, CR, buf, p) == Go(m1.(cs := if Chunks(f, t) then ReturnChunked else Return(AfterText(f, t))))
    ensures run(m, p) == run(m1.(cs := Line(AfterText(f, t)), chunked := m1.chunked || Chunks(f, t)), p + 2)
  {
    AtFirst(buf, p, CRLF);
    var m2 := m1.(cs := if Chunks(f, t) then ReturnChunked else Return(AfterText(f, t)));
    One(run, step, m, buf, p, CR, m2);
    LfStep(step, m2, buf, p + 1);
    One(run, step, m2, buf, p + 1, LF, m1.(cs := Line(AfterText(f, t)), chunked := m1.chunked || Chunks(f, t)));
  }

  /** A value without leading blanks. */
  lemma ReadText(run: Runner<Machine>, step: Stepper<Machine>, m: Machine, buf: string, p: nat, name: string, t: string)
      returns (m': Machine)
    requires Ships(step) && Runs(run, step, buf) && m.cs.ValueStart? && Located(m.(mark := p), buf, p, name, "")
    requires At(buf, p, t + CRLF) && OneLine(t) && (t == "" || !IsBlank(t[0]))
    ensures m' == Recorded(m, name, t).(mark := p, contentLen := LengthAfter(m.contentLen, m.cs.f, t),
                                        cs := Line(AfterText(m.cs.f, t)), chunked := m.chunked || Chunks(m.cs.f, t))
    ensures run(m, p) == run(m', p + |t| + 2)
  {
    AtSplit(buf, p, t, CRLF);
    AtFirst(buf, p + |t|, CRLF);
    var f := m.cs.f;
    var m1 := Recorded(m.(mark := p, contentLen := LengthAfter(m.contentLen, f, t)), name, t);
    m' := m1.(cs := Line(AfterText(f, t)), chunked := m1.chunked || Chunks(f, t));
    if t == "" {
      EmptyCrStep(step, m, buf, p, name);
      EndValue(run, step, m, m1, f, t, buf, p);
    } else {
      var at := AtText(m.(mark := p), f, t);
      ReadBytes(run, step, m, buf, p, t);
      TextCrStep(step, at, f, t, buf, p + |t|, name);
      EndValue(run, step, at, m1, f, t, buf, p + |t|);
    }
  }

  lemma ReadBytes(run: Runner<Machine>, step: Stepper<Machine>, m: Machine, buf: string, p: nat, t: string)
    requires Ships(step) && Runs(run, step, buf) && m.cs.ValueStart? && At(buf, p, t) && OneLine(t) && t != ""
    requires !IsBlank(t[0])
    ensures run(m, p) == run(AtText(m.(mark := p), m.cs.f, t), p + |t|)
  {
    var f, m1 := m.cs.f, m.(mark := p);
    ValueStartStep(step, m, t[0], buf, p);
    TextAbsorbs(step, m1, f, buf);
    AbsorbToken(run, step, t => AtText(m1, f, t), b => !IsBreak(b), m, buf, p, t);
  }

  /** The machine once a header line is read, given the machine at its value. */
  function LineEnd(m: Machine, f: Field, name: string, t: string, mark: nat): Machine {
    Recorded(m, name, t).(mark := mark, contentLen := LengthAfter(m.contentLen, f, t),
                          cs := Line(AfterText(f, t)), chunked := m.chunked || Chunks(f, t))
  }

  /** A value with its leading blanks, which are dropped. */
  lemma ReadValue(run: Runner<Machine>, step: Stepper<Machine>, m: Machine, buf: string, p: nat, name: string,
                  blanks: string, t: string)
    requires Ships(step) && Runs(run, step, buf) && m.cs.ValueStart? && m.fieldLen == |name| && name != ""
    requires At(buf, m.fieldStart, name)
    requires At(buf, p, blanks) && At(buf, p + |blanks|, t + CRLF)
    requires OneLine(t) && (t == "" || !IsBlank(t[0])) && forall i :: 0 <= i < |blanks| ==> IsBlank(blanks[i])
    ensures run(m, p) == run(LineEnd(m, m.cs.f, name, t, p + |blanks|), p + |blanks| + |t| + 2)
  {
    var m1 := SkipBlanks(run, step, m, buf, p, blanks);
    var m' := ReadText(run, step, m1, buf, p + |blanks|, name, t);
  }

  lemma LineReads(m: Machine, m1: Machine, name: string, t: string, p: nat, mark: nat)
    requires m.cs.Line?
    requires m1 == m.(cs := ValueStart(FieldOf(LowerAll(name))), mark := m1.mark, fieldStart := p, fieldLen := |name|,
                      close := m.close || m.cs == Line(Closed))
    ensures GistOf(LineEnd(m1, m1.cs.f, name, t, mark)) == AfterLine(GistOf(m), name, t)
  {
  }

  /** A header line, from the start of any line. */
  lemma ReadLineBy(run: Runner<Machine>, step: Stepper<Machine>, m: Machine, buf: string, p: nat, name: string,
                   blanks: string, t: string) returns (m': Machine)
    requires Ships(step) && Runs(run, step, buf) && m.cs.Line? && TokenName(name)
    requires At(buf, p, name + ":") && At(buf, p + |name| + 1, blanks) && At(buf, p + |name| + 1 + |blanks|, t + CRLF)
    requires OneLine(t) && (t == "" || !IsBlank(t[0])) && forall i :: 0 <= i < |blanks| ==> IsBlank(blanks[i])
    ensures m'.cs.Line? && GistOf(m') == AfterLine(GistOf(m), name, t)
    ensures run(m, p) == run(m', p + |name| + 1 + |blanks| + |t| + 2)
  {
    AtSplit(buf, p, name, ":");
    var m1 := ReadName(run, step, m, buf, p, name);
    var q := p + |name| + 1;
    ReadValue(run, step, m1, buf, q, name, blanks, t);
    m' := LineEnd(m1, m1.cs.f, name, t, q + |blanks|);
    LineReads(m, m1, name, t, p, q + |blanks|);
  }

  lemma ValueBlanks(v: string) returns (blanks: string, t: string)
    ensures t == TrimLeft(v, BLANKS) && v == blanks + t && (t == "" || !IsBlank(t[0])) && (OneLine(v) ==> OneLine(t))
    ensures forall i :: 0 <= i < |blanks| ==> IsBlank(blanks[i])
  {
    blanks, t := SplitBlanks(v, BLANKS);
    assert forall b: char :: b in BLANKS <==> IsBlank(b);
    assert forall i :: 0 <= i < |t| ==> t[i] == v[|blanks| + i];
  }

  lemma ReadLine(run: Runner<Machine>, step: Stepper<Machine>, m: Machine, buf: string, p: nat, name: string, v: string,
                 q: nat) returns (m': Machine)
    requires Ships(step) && Runs(run, step, buf) && m.cs.Line? && TokenName(name) && OneLine(v)
    requires At(buf, p, name + ":" + v + CRLF)
    requires q == p + |name| + 1 + |v| + 2
    ensures m'.cs.Line? && GistOf(m') == AfterLine(GistOf(m), name, TrimLeft(v, BLANKS))
    ensures run(m, p) == run(m', q)
  {
    var blanks, t := ValueBlanks(v);
    var p1, p2, p3 := LinePlaces(buf, p, name, blanks, t, q);
    m' := ReadLineBy(run, step, m, buf, p, name, blanks, t);
  }
}
