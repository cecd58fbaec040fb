/**
 How the request parser reads header lines.
 */
module RequestLines {
  import opened HttpText
  import opened Scanning
  import opened HeaderPrinting
  import opened RequestMachine
  import opened RequestTarget

  /** A name the table takes; tokens are such names. */
  ghost predicate FieldName(name: string) {
    name != "" && IsNameStart(name[0]) && forall i :: 0 <= i < |name| ==> IsNameChar(name[i])
  }

  /** A value the table takes. */
  ghost predicate FieldValue(v: string) {
    forall i :: 0 <= i < |v| ==> IsValueChar(v[i])
  }

  lemma NameStep(step: Stepper<Machine>, m: Machine, b: char, buf: string, p: nat)
    requires Ships(step) && !m.thrown
    ensures m.cs == Line && IsNameStart(b) ==> step(m, b, buf, p) == Go(m.(cs := Name, fieldStart := p))
    ensures m.cs == Name && IsNameChar(b) ==> step(m, b, buf, p) == Go(m)
    ensures m.cs == Name && b == ':' && m.fieldStart <= p ==>
              step(m, b, buf, p) == Go(m.(cs := ValueStart, fieldLen := p - m.fieldStart))
  {
    var v := Step(m, b, buf, p);
  }

  /** A name and its colon. */
  lemma ReadName(run: Runner<Machine>, step: Stepper<Machine>, m: Machine, buf: string, p: nat, name: string, q: nat)
      returns (m': Machine)
    requires Ships(step) && Runs(run, step, buf) && !m.thrown && m.cs == Line && FieldName(name)
    requires At(buf, p, name + ":") && q == p + |name| + 1
    ensures m' == m.(cs := ValueStart, fieldStart := p, fieldLen := |name|)
    ensures run(m, p) == run(m', q)
  {
    var m1 := m.(cs := Name, fieldStart := p);
    m' := m1.(cs := ValueStart, fieldLen := |name|);
    NameStep(step, m, name[0], buf, p);
    NameStep(step, m1, ':', buf, p + |name|);
    var at := (w: string) => m1;
    var ok := b => IsNameChar(b);
    forall w: string, b, k: nat | w != "" && ok(b) ensures step(at(w), b, buf, k) == Go(at(w + [b])) {
      NameStep(step, m1, b, buf, k);
    }
    TokenThen(run, step, at, ok, m, buf, p, name, ':', m');
  }

  lemma ValueStep(step: Stepper<Machine>, m: Machine, b: char, buf: string, p: nat)
    requires Ships(step) && !m.thrown
    ensures m.cs == ValueStart && IsBlank(b) ==> step(m, b, buf, p) == Go(m.(mark := p))
    ensures m.cs == ValueStart && IsValueChar(b) && !IsBlank(b) ==> step(m, b, buf, p) == Go(m.(cs := Value, mark := p))
    ensures m.cs == ValueStart && b == CR ==> step(m, b, buf, p) == Go(WriteValue(m.(mark := p), buf, p).(cs := Return))
    ensures m.cs == Value && IsValueChar(b) ==> step(m, b, buf, p) == Go(m)
    ensures m.cs == Value && b == CR ==> step(m, b, buf, p) == Go(WriteValue(m, buf, p).(cs := Return))
    ensures m.cs == Return && b == LF ==> step(m, b, buf, p) == Go(m.(cs := Line))
  {
    var v := Step(m, b, buf, p);
  }

  lemma {:induction false} SkipBlanks(run: Runner<Machine>, step: Stepper<Machine>, m: Machine, buf: string, p: nat,
                                      v: string, q: nat) returns (m': Machine)
    requires Ships(step) && Runs(run, step, buf) && !m.thrown && m.cs == ValueStart && At(buf, p, v) && q == p + |v|
    requires forall i :: 0 <= i < |v| ==> IsBlank(v[i])
    ensures m' == m.(mark := m'.mark)
    ensures run(m, p) == run(m', q)
    decreases |v|
  {
    m' := m;
    if v != "" {
      AtFirst(buf, p, v);
      ValueStep(step, m, v[0], buf, p);
      m' := m.(mark := p);
      One(run, step, m, buf, p, v[0], m');
      m' := SkipBlanks(run, step, m', buf, p + 1, v[1..], q);
    }
  }

  /** The bytes of a value that starts with no blank. */
  lemma ReadBytes(run: Runner<Machine>, step: Stepper<Machine>, m: Machine, buf: string, p: nat, t: string, q: nat)
      returns (m': Machine)
    requires Ships(step) && Runs(run, step, buf) && !m.thrown && m.cs == ValueStart
    requires At(buf, p, t) && FieldValue(t) && t != "" && !IsBlank(t[0]) && q == p + |t|
    ensures m' == m.(cs := Value, mark := p)
    ensures run(m, p) == run(m', q)
  {
    var m1 := m.(cs := Value, mark := p);
    ValueStep(step, m, t[0], buf, p);
    var at := (w: string) => m1;
    var ok := b => IsValueChar(b);
    forall w: string, b, k: nat | w != "" && ok(b) ensures step(at(w), b, buf, k) == Go(at(w + [b])) {
      ValueStep(step, m1, b, buf, k);
    }
    AbsorbToken(run, step, at, ok, m, buf, p, t);
    m' := m1;
  }

  lemma WritesValue(m: Machine, buf: string, p: nat, name: string, t: string)
    requires name != "" && At(buf, m.fieldStart, name) && m.fieldLen == |name| && At(buf, m.mark, t)
    requires p == m.mark + |t|
    ensures WriteValue(m, buf, p)
         == m.(call := m.call.(headers := SetHeader(m.call.headers, name, t)), names := m.names + |name|)
  {
    TextAt(buf, m.fieldStart, name, m.fieldStart + m.fieldLen);
    TextAt(buf, m.mark, t, p);
  }

  /** A value that starts with no blank, and the end of its line. */
  lemma ReadText(run: Runner<Machine>, step: Stepper<Machine>, m: Machine, buf: string, p: nat, name: string, t: string,
                 q: nat) returns (m': Machine)
    requires Ships(step) && Runs(run, step, buf) && !m.thrown && m.cs == ValueStart
    requires name != "" && At(buf, m.fieldStart, name) && m.fieldLen == |name|
    requires At(buf, p, t) && At(buf, q, CRLF) && q == p + |t| && FieldValue(t) && (t == "" || !IsBlank(t[0]))
    ensures m' == m.(cs := Line, mark := p, call := m.call.(headers := SetHeader(m.call.headers, name, t)),
                     names := m.names + |name|)
    ensures run(m, p) == run(m', q + 2)
  {
    AtFirst(buf, q, CRLF);
    var m1 := m;
    if t != "" {
      m1 := ReadBytes(run, step, m, buf, p, t, q);
    }
    WritesValue(m1.(mark := p), buf, q, name, t);
    var m2 := m.(cs := Return, mark := p, call := m.call.(headers := SetHeader(m.call.headers, name, t)),
                 names := m.names + |name|);
    ValueStep(step, m1, CR, buf, q);
    One(run, step, m1, buf, q, CR, m2);
    m' := m2.(cs := Line);
    ValueStep(step, m2, LF, buf, q + 1);
    One(run, step, m2, buf, q + 1, LF, m');
  }

  lemma ValueBlanks(v: string) returns (blanks: string, t: string)
    ensures t == TrimLeft(v, BLANKS) && v == blanks + t && (t == "" || !IsBlank(t[0]))
    ensures (FieldValue(v) ==> FieldValue(t))
    ensures forall i :: 0 <= i < |blanks| ==> IsBlank(blanks[i])
  {
    blanks, t := SplitBlanks(v, BLANKS);
    assert forall b: char :: b in BLANKS <==> IsBlank(b);
    assert forall i :: 0 <= i < |t| ==> t[i] == v[|blanks| + i];
  }

  /** A header line. */
  lemma ReadLine(run: Runner<Machine>, step: Stepper<Machine>, m: Machine, buf: string, p: nat, name: string, v: string,
                 q: nat) returns (m': Machine)
    requires Ships(step) && Runs(run, step, buf) && !m.thrown && m.cs == Line && FieldName(name) && FieldValue(v)
    requires At(buf, p, name + ":" + v + CRLF) && q == p + |name + ":" + v + CRLF|
    ensures m'.cs == Line && !m'.thrown && m'.names == m.names + |name|
    ensures m'.call == m.call.(headers := SetHeader(m.call.headers, name, TrimLeft(v, BLANKS)))
    ensures run(m, p) == run(m', q)
  {
    var blanks, t := ValueBlanks(v);
    var p1, p2, p3 := LinePlaces(buf, p, name, blanks, t, q);
    AtSplit(buf, p, name, ":");
    var m1 := ReadName(run, step, m, buf, p, name, p1);
    var m2 := SkipBlanks(run, step, m1, buf, p1, blanks, p2);
    m' := ReadText(run, step, m2, buf, p2, name, t, p3);
  }

  lemma EndStep(step: Stepper<Machine>, m: Machine, buf: string, p: nat)
    requires Ships(step) && !m.thrown
    ensures m.cs == Line ==> step(m, CR, buf, p) == Go(m.(cs := LastReturn, fieldStart := p))
    ensures m.cs == LastReturn ==> step(m, LF, buf, p) == Halt(m.(cs := Done, bodyStart := p + 1))
  {
    var v := Step(m, CR, buf, p);
    var w := Step(m, LF, buf, p);
  }

  /** The empty line. */
  lemma ReadEnd(run: Runner<Machine>, step: Stepper<Machine>, m: Machine, buf: string, p: nat, n: nat)
      returns (m': Machine)
    requires Ships(step) && Runs(run, step, buf) && !m.thrown && m.cs == Line && At(buf, p, CRLF) && n == p + 2
    ensures m' == m.(cs := Done, fieldStart := p, bodyStart := n)
    ensures run(m, p) == (m', n)
  {
    AtFirst(buf, p, CRLF);
    EndStep(step, m, buf, p);
    var m1 := m.(cs := LastReturn, fieldStart := p);
    One(run, step, m, buf, p, CR, m1);
    EndStep(step, m1, buf, p + 1);
    m' := m1.(cs := Done, bodyStart := n);
    Stop(run, step, m1, buf, p + 1, LF, m');
  }
}
