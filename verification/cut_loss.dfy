/**
 What a cut inside a token loses, and that it stays lost to the end of the request.
 */
module CutLoss {
  import opened Wrappers
  import opened HttpText
  import opened Scanning
  import opened RequestMachine
  import opened RequestMethods
  import opened Cuts
  import opened CutRelation

  // ---------------------------------------------------------------------------------------
  // The order of the tokens
  // ---------------------------------------------------------------------------------------

  predicate PastVersion(s: State) {
    s.Return? || s.Line? || s.Name? || s.ValueStart? || s.Value? || s.LastReturn? || s.Done?
  }

  predicate PastFragment(s: State) {
    s.Protocol? || s.Minor? || PastVersion(s)
  }

  predicate PastQuery(s: State) {
    s.FragmentStart? || (s.In? && s.part == Fragment) || PastFragment(s)
  }

  predicate PastPath(s: State) {
    s.QueryStart? || (s.In? && s.part == Query) || PastQuery(s)
  }

  predicate InPathNow(s: State) {
    s.FirstSlash? || (s.In? && s.part == Path)
  }

  predicate PastMethod(s: State) {
    !s.Error? && !s.Start? && !s.Method?
  }

  lemma PastNext(s: State, b: char, g: Grammar)
    requires Next(s, b, g) != Error
    ensures var to := Next(s, b, g);
            && (PastMethod(s) ==> PastMethod(to))
            && (PastPath(s) ==> PastPath(to))
            && (PastQuery(s) ==> PastQuery(to))
            && (PastFragment(s) ==> PastFragment(to))
            && (PastVersion(s) ==> PastVersion(to))
  {
  }

  /** A token goes on, or its text is recorded and the next one begins. */
  lemma TokenNext(s: State, b: char, g: Grammar)
    requires Next(s, b, g) != Error
    ensures var to := Next(s, b, g);
            && (InPathNow(s) && !to.Outside? ==> if RecordsPath(s, b, g) then PastPath(to) else InPathNow(to))
            && (s.In? && s.part == Query ==> if RecordsQuery(s, b) then PastQuery(to) else to.In? && to.part == Query)
            && (s.In? && s.part == Fragment ==>
                  if RecordsFragment(s, b) then PastFragment(to) else to.In? && to.part == Fragment)
            && (s.Method? ==> if b == ' ' then to.Target? else to.Method?)
            && (s.Minor? ==> PastVersion(to) && !to.LastReturn?)
            && (s.Protocol? && s.k > 0 ==> InVersion(to))
  {
  }

  lemma HeaderNext(s: State, b: char, g: Grammar)
    requires Next(s, b, g) != Error
    ensures var to := Next(s, b, g);
            && (s.Name? ==> if b == ':' then to.ValueStart? else to.Name?)
            && (LiveLen(s) ==> if RecordsHeader(s, b) then !LiveLen(to) && !to.Name? else LiveLen(to))
  {
  }

  // ---------------------------------------------------------------------------------------
  // The losses
  // ---------------------------------------------------------------------------------------

  /** A header was recorded under a shorter name, or not at all, or will be. */
  ghost predicate NameLost(m: Machine, ms: Machine, k: nat) {
    || m.names < ms.names
    || (LiveLen(m.cs) && m.fieldLen < ms.fieldLen)
    || (m.cs.Name? && ms.fieldStart < m.fieldStart + k)
  }

  ghost predicate PathLost(m: Machine, ms: Machine, k: nat) {
    || (InPathNow(m.cs) && ms.mark < m.mark + k)
    || (PastPath(m.cs) && |m.call.path| < |ms.call.path|)
  }

  ghost predicate QueryLost(m: Machine, ms: Machine, k: nat) {
    || (LiveQuery(m.cs) && ms.queryStart < m.queryStart + k)
    || (PastQuery(m.cs) && |m.call.query| < |ms.call.query|)
  }

  ghost predicate FragmentLost(m: Machine, ms: Machine, k: nat) {
    || (m.cs.In? && m.cs.part == Fragment && ms.mark < m.mark + k)
    || (PastFragment(m.cs) && |m.call.fragment| < |ms.call.fragment|)
  }

  lemma NameLostNext(m: Machine, ms: Machine, b: char, k: nat, p: nat, q: nat, to: State, e: Machine, es: Machine)
    requires Lags(m, ms, k, p) && q == k + p && Sets(m, e, b, p) && Sets(ms, es, b, q) && Behind(ms, q)
    requires to == Next(m.cs, b, m.grammar) && to != Error && NameLost(m, ms, k)
    requires var header := RecordsHeader(m.cs, b);
             && e.names == m.names + (if header then m.fieldLen else 0)
             && es.names == ms.names + (if header then ms.fieldLen else 0)
    ensures NameLost(e.(cs := to), es.(cs := to), k)
  {
    HeaderNext(m.cs, b, m.grammar);
  }

  lemma TextLength(buf: string, from: nat, to: nat)
    requires from <= to <= |buf|
    ensures |Text(buf, from, to)| == to - from
  {
  }

  lemma PathLostNext(m: Machine, ms: Machine, b: char, buf: string, full: string, k: nat, p: nat, q: nat, to: State,
                     e: Machine, es: Machine)
    requires Lags(m, ms, k, p) && q == k + p && Sets(m, e, b, p) && Sets(ms, es, b, q) && Behind(ms, q)
    requires p <= |buf| && q <= |full| && to == Next(m.cs, b, m.grammar) && to != Error && !to.Outside?
    requires PathLost(m, ms, k)
    requires e.call.path == (if RecordsPath(m.cs, b, m.grammar) then Text(buf, e.mark, p) else m.call.path)
    requires es.call.path == (if RecordsPath(m.cs, b, m.grammar) then Text(full, es.mark, q) else ms.call.path)
    ensures PathLost(e.(cs := to), es.(cs := to), k)
  {
    TokenNext(m.cs, b, m.grammar);
    PastNext(m.cs, b, m.grammar);
    TextLength(buf, m.mark, p);
    TextLength(full, ms.mark, q);
  }

  lemma QueryLostNext(m: Machine, ms: Machine, b: char, buf: string, full: string, k: nat, p: nat, q: nat, to: State,
                      e: Machine, es: Machine)
    requires Lags(m, ms, k, p) && q == k + p && Sets(m, e, b, p) && Sets(ms, es, b, q)
    requires p <= |buf| && q <= |full| && to == Next(m.cs, b, m.grammar) && to != Error && QueryLost(m, ms, k)
    requires RecordsQuery(m.cs, b) ==> e.queryStart <= p && es.queryStart <= q
    requires e.call.query == (if RecordsQuery(m.cs, b) then Text(buf, e.queryStart, p) else m.call.query)
    requires es.call.query == (if RecordsQuery(m.cs, b) then Text(full, es.queryStart, q) else ms.call.query)
    ensures QueryLost(e.(cs := to), es.(cs := to), k)
  {
    TokenNext(m.cs, b, m.grammar);
    PastNext(m.cs, b, m.grammar);
    if RecordsQuery(m.cs, b) {
      TextLength(buf, e.queryStart, p);
      TextLength(full, es.queryStart, q);
    }
  }

  lemma FragmentLostNext(m: Machine, ms: Machine, b: char, buf: string, full: string, k: nat, p: nat, q: nat, to: State,
                         e: Machine, es: Machine)
    requires Lags(m, ms, k, p) && q == k + p && Sets(m, e, b, p) && Sets(ms, es, b, q) && Behind(ms, q)
    requires p <= |buf| && q <= |full| && to == Next(m.cs, b, m.grammar) && to != Error && FragmentLost(m, ms, k)
    requires e.call.fragment == (if RecordsFragment(m.cs, b) then Text(buf, e.mark, p) else m.call.fragment)
    requires es.call.fragment == (if RecordsFragment(m.cs, b) then Text(full, es.mark, q) else ms.call.fragment)
    ensures FragmentLost(e.(cs := to), es.(cs := to), k)
  {
    TokenNext(m.cs, b, m.grammar);
    PastNext(m.cs, b, m.grammar);
    TextLength(buf, m.mark, p);
    TextLength(full, ms.mark, q);
  }

  /** The method was not found, or will not be, or another one was. */
  ghost predicate VerbLost(m: Machine, k: nat, verb: nat) {
    || (m.cs.Method? && 0 < m.mark + k)
    || m.call.error != 0
    || (PastMethod(m.cs) && m.call.verb != verb)
  }

  /** The version was cut before its end, or at its end and is not 1.1. */
  ghost predicate VersionLost(m: Machine, ms: Machine, k: nat, version: nat) {
    || (InVersion(m.cs) && ms.mark < m.mark + k && (version != 0x11 || m.mark + k < ms.mark + 8))
    || m.call.error != 0
    || (PastVersion(m.cs) && m.call.version != version)
  }

  /** A method that is found in front of a space is no longer than what stands there. */
  lemma FoundLength(text: string, n: nat, i: nat)
    requires i < 34 && METHODS[i] <= text && n < |text| && text[n] == ' '
    ensures |METHODS[i]| <= n
  {
    NoSpaces(i);
    EndsBefore(METHODS[i], text, n);
  }

  lemma RestFrom(buf: string, from: nat, p: nat) returns (text: string)
    requires from <= p < |buf|
    ensures text == Text(buf, from, |buf|) && p - from < |text| && text[p - from] == buf[p]
  {
    text := buf[from..];
    assert buf[from..|buf|] == text;
  }

  /** A name that starts later than the method does is shorter. */
  lemma CutVerb(m: Machine, buf: string, p: nat, l: nat, k: nat, verb: nat)
    requires m.mark <= p < |buf| && buf[p] == ' ' && 0 < m.mark + k && k + p == l
    requires verb < 34 && |METHODS[verb]| == l
    ensures var e := WriteMethod(m, buf); e.call.error != 0 || e.call.verb != verb
  {
    var text := RestFrom(buf, m.mark, p);
    WriteMethodBy(m, buf, text);
    var found := FromChars(METHODS, text, 0);
    if found.Some? {
      FoundLength(text, p - m.mark, found.value);
    }
  }

  lemma VerbLostNext(m: Machine, ms: Machine, b: char, buf: string, full: string, k: nat, p: nat, q: nat, l: nat,
                     to: State, verb: nat)
    requires Lags(m, ms, k, p) && q == k + p && Placed(ms, full, q, l) && p < |buf| && buf[p] == b && q < |full|
    requires full[q] == b
    requires Shaped(full, l) && verb < 34 && |METHODS[verb]| == l
    requires to == Next(m.cs, b, m.grammar) && to != Error && VerbLost(m, k, verb)
    ensures VerbLost(Effect(m, b, buf, p).(cs := to), k, verb)
  {
    TokenNext(m.cs, b, m.grammar);
    PastNext(m.cs, b, m.grammar);
    EffectSets(m, b, buf, p);
    ErrorKept(m, b, buf, p);
    if m.cs.Method? {
      MethodEffect(m, b, buf, p);
      if b == ' ' && 0 < m.mark + k {
        assert q == l;
        CutVerb(m, buf, p, l, k, verb);
      }
    } else {
      VerbSets(m, b, buf, p);
    }
  }

  /** The callbacks never take an error back. */
  lemma ErrorKept(m: Machine, b: char, buf: string, p: nat)
    ensures m.call.error != 0 ==> Effect(m, b, buf, p).call.error != 0
  {
    if m.cs.Method? {
      MethodEffect(m, b, buf, p);
      WriteMethodBy(m, buf, Text(buf, m.mark, |buf|));
    }
  }

  lemma OtherStart(a: string, b: string)
    requires a != "" && b != "" && a[0] != b[0]
    ensures !(a <= b)
  {
  }

  /** Of a version that was cut, only the rest is compared: nothing is 1.1, and anything else is no version. */
  lemma CutVersion(m: Machine, buf: string, p: nat)
    requires m.mark <= p <= |buf| && (m.mark < p ==> buf[m.mark] != 'H')
    ensures var e := WriteVersion(m, buf, p);
            if m.mark == p then e.call == m.call.(version := 0x11) else e.call.error != 0
  {
    var text := Text(buf, m.mark, p);
    if m.mark < p {
      assert text[0] == buf[m.mark];
      OtherStart(text, "HTTP/1.1");
      OtherStart(text, "HTTP/1.0");
    } else {
      assert text == "";
    }
  }

  lemma MinorEffect(m: Machine, b: char, buf: string, p: nat)
    requires m.cs.Minor?
    ensures Effect(m, b, buf, p) == WriteVersion(m, buf, p)
  {
  }

  lemma VersionLostNext(m: Machine, ms: Machine, b: char, buf: string, full: string, k: nat, p: nat, q: nat, l: nat,
                        to: State, version: nat)
    requires Lags(m, ms, k, p) && q == k + p && Placed(ms, full, q, l) && NoMoreH(ms, full, q)
    requires p < |buf| && k + |buf| <= |full| && full[k..k + |buf|] == buf
    requires to == Next(m.cs, b, m.grammar) && to != Error && VersionLost(m, ms, k, version)
    ensures VersionLost(Effect(m, b, buf, p).(cs := to), Effect(ms, b, full, q).(cs := to), k, version)
  {
    TokenNext(m.cs, b, m.grammar);
    PastNext(m.cs, b, m.grammar);
    EffectSets(m, b, buf, p);
    EffectSets(ms, b, full, q);
    ErrorKept(m, b, buf, p);
    if m.cs.Minor? {
      MinorEffect(m, b, buf, p);
      if m.mark < p {
        assert buf[m.mark] == full[k..k + |buf|][m.mark] == full[k + m.mark];
      }
      if ms.mark < m.mark + k {
        CutVersion(m, buf, p);
      }
    } else {
      VersionSets(m, b, buf, p);
    }
  }

  // ---------------------------------------------------------------------------------------
  // Step by step, and across a cut
  // ---------------------------------------------------------------------------------------

  /** Something other than the version is lost. */
  ghost predicate TokenLost(m: Machine, ms: Machine, k: nat, verb: nat) {
    NameLost(m, ms, k) || PathLost(m, ms, k) || QueryLost(m, ms, k) || FragmentLost(m, ms, k) || VerbLost(m, k, verb)
  }

  /** Two buffers: the text, and a call on a part of it that begins at `k`. */
  ghost predicate PartOf(buf: string, full: string, k: nat) {
    k + |buf| <= |full| && full[k..k + |buf|] == buf
  }

  lemma PartAt(buf: string, full: string, k: nat, p: nat, q: nat)
    requires PartOf(buf, full, k) && p < |buf| && q == k + p
    ensures q < |full| && full[q] == buf[p]
  {
    assert full[k..k + |buf|][p] == full[k + p];
  }

  lemma NameLostOn(m: Machine, ms: Machine, buf: string, full: string, k: nat, p: nat, q: nat, l: nat, to: State)
    requires Lags(m, ms, k, p) && q == k + p && OnItsWay(ms, full, q, l) && PartOf(buf, full, k) && p < |buf|
    requires to == Next(m.cs, buf[p], m.grammar) && to != Error && !to.Outside? && NameLost(m, ms, k)
    requires !Effect(m, buf[p], buf, p).thrown && !Effect(ms, buf[p], full, q).thrown
    ensures NameLost(Effect(m, buf[p], buf, p).(cs := to), Effect(ms, buf[p], full, q).(cs := to), k)
  {
    var b := buf[p];
    EffectSets(m, b, buf, p);
    EffectSets(ms, b, full, q);
    NamesSets(m, b, buf, p);
    NamesSets(ms, b, full, q);
    NameLostNext(m, ms, b, k, p, q, to, Effect(m, b, buf, p), Effect(ms, b, full, q));
  }

  lemma PathLostOn(m: Machine, ms: Machine, buf: string, full: string, k: nat, p: nat, q: nat, l: nat, to: State)
    requires Lags(m, ms, k, p) && q == k + p && OnItsWay(ms, full, q, l) && PartOf(buf, full, k) && p < |buf|
    requires to == Next(m.cs, buf[p], m.grammar) && to != Error && !to.Outside? && PathLost(m, ms, k)
    requires !Effect(m, buf[p], buf, p).thrown && !Effect(ms, buf[p], full, q).thrown
    ensures PathLost(Effect(m, buf[p], buf, p).(cs := to), Effect(ms, buf[p], full, q).(cs := to), k)
  {
    var b := buf[p];
    EffectSets(m, b, buf, p);
    EffectSets(ms, b, full, q);
    PathSets(m, b, buf, p);
    PathSets(ms, b, full, q);
    PathLostNext(m, ms, b, buf, full, k, p, q, to, Effect(m, b, buf, p), Effect(ms, b, full, q));
  }

  lemma QueryLostOn(m: Machine, ms: Machine, buf: string, full: string, k: nat, p: nat, q: nat, l: nat, to: State)
    requires Lags(m, ms, k, p) && q == k + p && OnItsWay(ms, full, q, l) && PartOf(buf, full, k) && p < |buf|
    requires to == Next(m.cs, buf[p], m.grammar) && to != Error && !to.Outside? && QueryLost(m, ms, k)
    requires !Effect(m, buf[p], buf, p).thrown && !Effect(ms, buf[p], full, q).thrown
    ensures QueryLost(Effect(m, buf[p], buf, p).(cs := to), Effect(ms, buf[p], full, q).(cs := to), k)
  {
    var b := buf[p];
    EffectSets(m, b, buf, p);
    EffectSets(ms, b, full, q);
    QuerySets(m, b, buf, p);
    QuerySets(ms, b, full, q);
    QueryLostNext(m, ms, b, buf, full, k, p, q, to, Effect(m, b, buf, p), Effect(ms, b, full, q));
  }

  lemma FragmentLostOn(m: Machine, ms: Machine, buf: string, full: string, k: nat, p: nat, q: nat, l: nat, to: State)
    requires Lags(m, ms, k, p) && q == k + p && OnItsWay(ms, full, q, l) && PartOf(buf, full, k) && p < |buf|
    requires to == Next(m.cs, buf[p], m.grammar) && to != Error && !to.Outside? && FragmentLost(m, ms, k)
    requires !Effect(m, buf[p], buf, p).thrown && !Effect(ms, buf[p], full, q).thrown
    ensures FragmentLost(Effect(m, buf[p], buf, p).(cs := to), Effect(ms, buf[p], full, q).(cs := to), k)
  {
    var b := buf[p];
    EffectSets(m, b, buf, p);
    EffectSets(ms, b, full, q);
    FragmentSets(m, b, buf, p);
    FragmentSets(ms, b, full, q);
    FragmentLostNext(m, ms, b, buf, full, k, p, q, to, Effect(m, b, buf, p), Effect(ms, b, full, q));
  }

  lemma TokenLostNext(m: Machine, ms: Machine, buf: string, full: string, k: nat, p: nat, q: nat, l: nat, to: State,
                      verb: nat)
    requires Lags(m, ms, k, p) && q == k + p && OnItsWay(ms, full, q, l) && Shaped(full, l) && PartOf(buf, full, k)
    requires p < |buf|
    requires verb < 34 && |METHODS[verb]| == l
    requires to == Next(m.cs, buf[p], m.grammar) && to != Error && !to.Outside? && TokenLost(m, ms, k, verb)
    requires !Effect(m, buf[p], buf, p).thrown && !Effect(ms, buf[p], full, q).thrown
    ensures TokenLost(Effect(m, buf[p], buf, p).(cs := to), Effect(ms, buf[p], full, q).(cs := to), k, verb)
  {
    PartAt(buf, full, k, p, q);
    if NameLost(m, ms, k) {
      NameLostOn(m, ms, buf, full, k, p, q, l, to);
    } else if PathLost(m, ms, k) {
      PathLostOn(m, ms, buf, full, k, p, q, l, to);
    } else if QueryLost(m, ms, k) {
      QueryLostOn(m, ms, buf, full, k, p, q, l, to);
    } else if FragmentLost(m, ms, k) {
      FragmentLostOn(m, ms, buf, full, k, p, q, l, to);
    } else {
      VerbLostNext(m, ms, buf[p], buf, full, k, p, q, l, to, verb);
    }
  }

  /** Inside the version nothing is recorded; behind it this says nothing more. */
  ghost predicate Quiet(m: Machine, ms: Machine) {
    (InVersion(m.cs) && m.call == ms.call) || PastVersion(m.cs)
  }

  lemma InVersionQuiet(m: Machine, b: char, buf: string, p: nat)
    requires m.cs.Protocol?
    ensures Effect(m, b, buf, p).call == m.call
  {
  }

  lemma QuietNext(m: Machine, ms: Machine, b: char, buf: string, full: string, k: nat, p: nat, q: nat, to: State)
    requires Lags(m, ms, k, p) && q == k + p && to == Next(m.cs, b, m.grammar) && to != Error && Quiet(m, ms)
    ensures Quiet(Effect(m, b, buf, p).(cs := to), Effect(ms, b, full, q).(cs := to))
  {
    TokenNext(m.cs, b, m.grammar);
    PastNext(m.cs, b, m.grammar);
    if m.cs.Protocol? {
      InVersionQuiet(m, b, buf, p);
      InVersionQuiet(ms, b, full, q);
    }
  }

  /** What is followed from byte to byte: the loss of a token, the loss of the version, or that nothing is
      recorded inside the version. */
  datatype Kind = Token | Version | Silence

  datatype Watch = Watch(verb: nat, version: nat, kind: Kind)

  ghost predicate Holds(m: Machine, ms: Machine, k: nat, w: Watch) {
    match w.kind
    case Token => TokenLost(m, ms, k, w.verb)
    case Version => VersionLost(m, ms, k, w.version)
    case Silence => Quiet(m, ms)
  }

  lemma HoldsNext(m: Machine, ms: Machine, buf: string, full: string, k: nat, p: nat, q: nat, l: nat, to: State,
                  w: Watch)
    requires Lags(m, ms, k, p) && q == k + p && OnItsWay(ms, full, q, l) && Shaped(full, l) && PartOf(buf, full, k)
    requires p < |buf|
    requires w.verb < 34 && |METHODS[w.verb]| == l
    requires to == Next(m.cs, buf[p], m.grammar) && to != Error && !to.Outside? && Holds(m, ms, k, w)
    requires !Effect(m, buf[p], buf, p).thrown && !Effect(ms, buf[p], full, q).thrown
    ensures Holds(Effect(m, buf[p], buf, p).(cs := to), Effect(ms, buf[p], full, q).(cs := to), k, w)
  {
    match w.kind
    case Token => TokenLostNext(m, ms, buf, full, k, p, q, l, to, w.verb);
    case Version => VersionLostNext(m, ms, buf[p], buf, full, k, p, q, l, to, w.version);
    case Silence => QuietNext(m, ms, buf[p], buf, full, k, p, q, to);
  }

  // ---------------------------------------------------------------------------------------
  // Across a cut
  // ---------------------------------------------------------------------------------------

  /** The states in which a cut loses a token other than the version. */
  predicate InToken(s: State) {
    s.Method? || s.FirstSlash? || s.In? || s.Name? || s.ValueStart? || s.Value?
  }

  lemma CutLags(m: Machine, ms: Machine, full: string, k: nat, p: nat, q: nat, l: nat)
    requires Lags(m, ms, k, p) && OnItsWay(ms, full, q, l) && q == k + p
    ensures Lags(Reset(m), ms, q, 0)
  {
  }

  /** A cut inside a token loses it. */
  lemma CutLoses(m: Machine, ms: Machine, full: string, k: nat, p: nat, q: nat, l: nat, w: Watch)
    requires Lags(m, ms, k, p) && OnItsWay(ms, full, q, l) && q == k + p && q > 0
    requires w.kind == Token ==> InToken(m.cs)
    requires w.kind == Version ==> InVersion(m.cs) && (w.version == 0x11 ==> !m.cs.Minor?)
    requires w.kind != Silence
    ensures Holds(Reset(m), ms, q, w)
  {
  }

  /** What is lost stays lost across a cut, but for a version of 1.1 that is cut at its end. */
  lemma CutKeeps(m: Machine, ms: Machine, full: string, k: nat, p: nat, q: nat, l: nat, w: Watch)
    requires Lags(m, ms, k, p) && OnItsWay(ms, full, q, l) && q == k + p && q > 0 && Holds(m, ms, k, w)
    requires w.kind == Version && w.version == 0x11 ==> !m.cs.Minor?
    ensures Holds(Reset(m), ms, q, w)
  {
  }
}
