/**
 Two runs of the request parser over the same bytes, one in a single call and one cut into calls: what
 the cuts can only make smaller, and what stays smaller once it is.
 */
module CutRelation {
  import opened Wrappers
  import opened HttpText
  import opened Scanning
  import opened RequestMachine
  import opened RequestMethods
  import opened Cuts

  // ---------------------------------------------------------------------------------------
  // The run in a single call
  // ---------------------------------------------------------------------------------------

  /** A register that still matters was set at an earlier byte. */
  predicate Ahead(m: Machine, p: nat) {
    && (LiveMark(m.cs) ==> m.mark < p)
    && (m.cs.Name? ==> m.fieldStart < p)
    && (LiveLen(m.cs) ==> m.fieldLen > 0)
    && (LiveQuery(m.cs) ==> m.queryStart < p)
    && (m.cs.LastReturn? ==> m.fieldStart < p)
  }

  predicate InVersion(s: State) {
    (s.Protocol? && s.k > 0) || s.Minor?
  }

  /** A text that starts with a method of `l` letters and a target that is empty or starts with one slash. */
  ghost predicate Shaped(full: string, l: nat) {
    && l + 2 < |full| && IsMethodChar(full[0]) && full[l] == ' ' && (forall i :: 0 <= i < l ==> full[i] != ' ')
    && (full[l + 1] == '/' || full[l + 1] == ' ' || full[l + 1] == '?' || full[l + 1] == '#')
    && (full[l + 1] == '/' ==> full[l + 2] != '/')
  }

  /** Where the states of the request line can be. */
  ghost predicate Placed(m: Machine, full: string, p: nat, l: nat) {
    && (m.cs.Start? ==> p == 0)
    && (m.cs.Method? ==> m.mark == 0 && m.cs.k == p <= l)
    && (m.cs.Target? ==> p == l + 1)
    && (m.cs.FirstSlash? ==> p == l + 2 <= |full| && full[l + 1] == '/')
    && !m.cs.Scheme? && !m.cs.SchemeEnd? && !m.cs.Outside? && !(m.cs.In? && m.cs.part == Relative)
    && (InVersion(m.cs) ==> p == m.mark + (if m.cs.Minor? then 8 else m.cs.k))
    && (m.cs.Protocol? ==> m.cs.k <= 7)
    && (m.cs.LastReturn? ==> m.fieldStart + 1 == p <= |full| && full[m.fieldStart] == CR)
  }

  /** After the `H`, no byte of the version is one. */
  ghost predicate NoMoreH(m: Machine, full: string, p: nat) {
    InVersion(m.cs) && p <= |full| ==> forall j :: m.mark < j < p ==> full[j] != 'H'
  }

  /** The parser somewhere in a text it takes in a single call. */
  ghost predicate OnItsWay(m: Machine, full: string, p: nat, l: nat) {
    GoesOn(m) && p <= |full| && Behind(m, p) && Ahead(m, p) && Placed(m, full, p, l) && NoMoreH(m, full, p)
  }

  lemma AheadNext(m: Machine, b: char, buf: string, p: nat, to: State)
    requires Behind(m, p) && Ahead(m, p) && to == Next(m.cs, b, m.grammar)
    ensures Ahead(Effect(m, b, buf, p).(cs := to), p + 1) || m.cs.Done?
  {
    EffectSets(m, b, buf, p);
    LiveNext(m.cs, b, m.grammar);
    NameNext(m.cs, b, m.grammar);
  }

  lemma NameNext(s: State, b: char, g: Grammar)
    ensures Next(s, b, g).Name? ==> s.Name? || s.Line? || s.LastReturn? || s.Done?
    ensures Next(s, b, g).LastReturn? ==> s.Line?
    ensures Next(s, b, g).ValueStart? ==> s.ValueStart? || Names(s, b)
    ensures Next(s, b, g).Value? ==> s.ValueStart? || s.Value?
  {
  }

  lemma MethodPlaced(m: Machine, full: string, p: nat, l: nat, to: State)
    requires Placed(m, full, p, l) && Shaped(full, l) && p < |full| && to == Next(m.cs, full[p], m.grammar)
    requires to != Error
    ensures to.Method? ==> (m.cs.Start? || m.cs.Method?) && to.k == p + 1 <= l
    ensures to.Target? ==> m.cs.Method? && p == l
  {
    if m.cs.Start? && to.Method? {
      assert full[0] != ' ' && l != 0;
    }
    if m.cs.Method? {
      assert p < l ==> full[p] != ' ';
      assert full[p] == ' ' <==> p == l;
    }
  }

  lemma TargetPlaced(m: Machine, full: string, p: nat, l: nat, to: State)
    requires Placed(m, full, p, l) && Shaped(full, l) && p < |full| && to == Next(m.cs, full[p], m.grammar)
    requires to != Error
    ensures !to.Start? && (to.FirstSlash? ==> p == l + 1 && full[p] == '/')
    ensures m.cs != Start ==> !to.Scheme? && !to.SchemeEnd? && !to.Outside? && !(to.In? && to.part == Relative)
  {
  }

  lemma VersionPlaced(m: Machine, full: string, p: nat, l: nat, to: State)
    requires Placed(m, full, p, l) && p < |full| && to == Next(m.cs, full[p], m.grammar) && to != Error
    ensures to.Protocol? ==> to.k <= 7
    ensures InVersion(to) ==> m.cs.Protocol? && (to.Minor? ==> m.cs.k == 7) && (to.Protocol? ==> to.k == m.cs.k + 1)
  {
  }

  lemma PlacedNext(m: Machine, full: string, p: nat, l: nat, to: State, e: Machine)
    requires Placed(m, full, p, l) && Shaped(full, l) && p < |full| && to == Next(m.cs, full[p], m.grammar)
    requires Sets(m, e, full[p], p) && to != Error && (m.cs.Start? ==> to.Method?)
    ensures Placed(e.(cs := to), full, p + 1, l)
  {
    MethodPlaced(m, full, p, l, to);
    TargetPlaced(m, full, p, l, to);
    VersionPlaced(m, full, p, l, to);
    NameNext(m.cs, full[p], m.grammar);
    assert to.LastReturn? ==> full[p] == CR;
  }

  lemma NoMoreHNext(m: Machine, full: string, p: nat, l: nat, to: State, e: Machine)
    requires Placed(m, full, p, l) && NoMoreH(m, full, p) && p < |full| && to == Next(m.cs, full[p], m.grammar)
    requires Sets(m, e, full[p], p)
    ensures NoMoreH(e.(cs := to), full, p + 1)
  {
  }

  lemma StepOnItsWay(m: Machine, full: string, p: nat, l: nat)
    requires OnItsWay(m, full, p, l) && Shaped(full, l) && p < |full| && Step(m, full[p], full, p).Go?
    ensures OnItsWay(Step(m, full[p], full, p).m, full, p + 1, l)
  {
    var to, e := Next(m.cs, full[p], m.grammar), Effect(m, full[p], full, p);
    EffectSets(m, full[p], full, p);
    BehindNext(m, full[p], full, p, to);
    AheadNext(m, full[p], full, p, to);
    PlacedNext(m, full, p, l, to, e);
    NoMoreHNext(m, full, p, l, to, e);
  }

  // ---------------------------------------------------------------------------------------
  // What the callbacks record
  // ---------------------------------------------------------------------------------------

  predicate RecordsPath(s: State, b: char, g: Grammar) {
    || (s.Outside? && OutsideEdge(g, s.code, b).Some? && OutsideEdge(g, s.code, b).value.path)
    || ((s.Target? || s.Scheme? || s.SchemeEnd? || s.FirstSlash?
         || (s.In? && s.hex == 0 && (s.part == Path || s.part == Relative)))
        && (b == ' ' || b == '?' || b == '#'))
  }

  predicate RecordsQuery(s: State, b: char) {
    (s.QueryStart? || s == In(Query, 0)) && (b == ' ' || b == '#')
  }

  predicate RecordsFragment(s: State, b: char) {
    (s.FragmentStart? || s == In(Fragment, 0)) && b == ' '
  }

  predicate RecordsHeader(s: State, b: char) {
    (s.ValueStart? || s.Value?) && (b == CR || b == LF)
  }

  lemma PathSetsIn(m: Machine, b: char, buf: string, p: nat)
    requires InPath(m.cs)
    ensures var e := Effect(m, b, buf, p);
            e.call.path == if RecordsPath(m.cs, b, m.grammar) then Text(buf, e.mark, p) else m.call.path
  {
  }

  lemma PathSets(m: Machine, b: char, buf: string, p: nat)
    ensures var e := Effect(m, b, buf, p);
            e.call.path == if RecordsPath(m.cs, b, m.grammar) then Text(buf, e.mark, p) else m.call.path
  {
    if m.cs.Method? {
      MethodEffect(m, b, buf, p);
      WriteMethodBy(m, buf, Text(buf, m.mark, |buf|));
    } else if InPath(m.cs) {
      PathSetsIn(m, b, buf, p);
    }
  }

  lemma QuerySets(m: Machine, b: char, buf: string, p: nat)
    ensures var e := Effect(m, b, buf, p);
            && e.call.query
            == (if RecordsQuery(m.cs, b) && e.queryStart <= p then Text(buf, e.queryStart, p) else m.call.query)
            && e.thrown == (m.thrown || (RecordsQuery(m.cs, b) && e.queryStart > p))
  {
    if m.cs.Method? {
      MethodEffect(m, b, buf, p);
      WriteMethodBy(m, buf, Text(buf, m.mark, |buf|));
    }
  }

  lemma FragmentSets(m: Machine, b: char, buf: string, p: nat)
    ensures var e := Effect(m, b, buf, p);
            e.call.fragment == if RecordsFragment(m.cs, b) then Text(buf, e.mark, p) else m.call.fragment
  {
    if m.cs.Method? {
      MethodEffect(m, b, buf, p);
      WriteMethodBy(m, buf, Text(buf, m.mark, |buf|));
    }
  }

  lemma NamesSets(m: Machine, b: char, buf: string, p: nat)
    ensures Effect(m, b, buf, p).names == m.names + (if RecordsHeader(m.cs, b) then m.fieldLen else 0)
  {
    if m.cs.Method? {
      MethodEffect(m, b, buf, p);
      WriteMethodBy(m, buf, Text(buf, m.mark, |buf|));
    }
  }

  lemma VerbSets(m: Machine, b: char, buf: string, p: nat)
    requires !(m.cs.Method? && b == ' ')
    ensures Effect(m, b, buf, p).call.verb == m.call.verb
  {
  }

  lemma VersionSets(m: Machine, b: char, buf: string, p: nat)
    requires !m.cs.Minor?
    ensures Effect(m, b, buf, p).call.version == m.call.version
    ensures !m.cs.Method? ==> Effect(m, b, buf, p).call.error == m.call.error
  {
    if m.cs.Method? {
      MethodEffect(m, b, buf, p);
      WriteMethodBy(m, buf, Text(buf, m.mark, |buf|));
    }
  }

  // ---------------------------------------------------------------------------------------
  // The run in several calls lags behind
  // ---------------------------------------------------------------------------------------

  /** At offset `p` of a call that began at offset `k` of the text: the cuts can only have moved starts
      on and made names shorter. */
  ghost predicate Lags(m: Machine, ms: Machine, k: nat, p: nat) {
    && m.cs == ms.cs && m.grammar == ms.grammar && !m.thrown && Behind(m, p)
    && m.names <= ms.names
    && (LiveMark(m.cs) ==> ms.mark <= m.mark + k)
    && (LiveField(m.cs) ==> ms.fieldStart <= m.fieldStart + k)
    && (LiveLen(m.cs) ==> m.fieldLen <= ms.fieldLen)
    && (LiveQuery(m.cs) ==> ms.queryStart <= m.queryStart + k)
  }

  lemma LagsBy(m: Machine, ms: Machine, b: char, k: nat, p: nat, q: nat, to: State, e: Machine, es: Machine)
    requires Lags(m, ms, k, p) && q == k + p && Sets(m, e, b, p) && Sets(ms, es, b, q)
    requires LivesOn(m.cs, b, m.grammar, to)
    requires Behind(ms, q) && Behind(e.(cs := to), p + 1) && !e.thrown
    requires var header := RecordsHeader(m.cs, b);
             && e.names == m.names + (if header then m.fieldLen else 0)
             && es.names == ms.names + (if header then ms.fieldLen else 0)
    ensures Lags(e.(cs := to), es.(cs := to), k, p + 1)
  {
  }

  lemma LagsNext(m: Machine, ms: Machine, b: char, buf: string, full: string, k: nat, p: nat, q: nat, to: State)
    requires Lags(m, ms, k, p) && q == k + p && Behind(ms, q) && to == Next(m.cs, b, m.grammar)
    requires !Effect(m, b, buf, p).thrown
    ensures Lags(Effect(m, b, buf, p).(cs := to), Effect(ms, b, full, q).(cs := to), k, p + 1)
  {
    EffectSets(m, b, buf, p);
    EffectSets(ms, b, full, q);
    NamesSets(m, b, buf, p);
    NamesSets(ms, b, full, q);
    LiveNext(m.cs, b, m.grammar);
    BehindNext(m, b, buf, p, to);
    LagsBy(m, ms, b, k, p, q, to, Effect(m, b, buf, p), Effect(ms, b, full, q));
  }
}
