/**
 How the request parser reads a request line: method, path, query, fragment and version.
 */
module RequestTarget {
  import opened Wrappers
  import opened HttpText
  import opened Scanning
  import opened HeaderPrinting
  import opened RequestMachine
  import opened RequestMethods
  import opened RequestPrinting

  ghost predicate Ships(step: Stepper<Machine>) {
    forall m, b, buf, p {:trigger Step(m, b, buf, p)} :: step(m, b, buf, p) == Step(m, b, buf, p)
  }

  // ---------------------------------------------------------------------------------------
  // Characters and percent triplets
  // ---------------------------------------------------------------------------------------

  /** A text of characters that stand for themselves and of percent triplets. */
  predicate Encoded(part: Part, relaxed: bool, s: string)
    decreases |s|
  {
    || s == ""
    || (IsPartChar(part, s[0], relaxed) && Encoded(part, relaxed, s[1..]))
    || (|s| >= 3 && s[0] == '%' && IsHex(s[1]) && IsHex(s[2]) && Encoded(part, relaxed, s[3..]))
  }

  lemma PartStep(step: Stepper<Machine>, m: Machine, part: Part, b: char, buf: string, p: nat)
    requires Ships(step) && !m.thrown
    ensures m.cs == In(part, 0) && IsPartChar(part, b, m.grammar.relaxed) ==> step(m, b, buf, p) == Go(m)
    ensures m.cs == In(part, 0) && b == '%' ==> step(m, b, buf, p) == Go(m.(cs := In(part, 1)))
    ensures m.cs == In(part, 1) && IsHex(b) ==> step(m, b, buf, p) == Go(m.(cs := In(part, 2)))
    ensures m.cs == In(part, 2) && IsHex(b) ==> step(m, b, buf, p) == Go(m.(cs := In(part, 0)))
  {
    var v := Step(m, b, buf, p);
  }

  /** The two digits of a triplet. */
  lemma ReadHex(run: Runner<Machine>, step: Stepper<Machine>, m: Machine, part: Part, buf: string, p: nat, a: char,
                b: char, q: nat)
    requires Ships(step) && Runs(run, step, buf) && !m.thrown && m.cs == In(part, 0)
    requires At(buf, p, [a, b]) && IsHex(a) && IsHex(b) && q == p + 2
    ensures run(m.(cs := In(part, 1)), p) == run(m, q)
  {
    AtFirst(buf, p, [a, b]);
    var m1, m2 := m.(cs := In(part, 1)), m.(cs := In(part, 2));
    PartStep(step, m1, part, a, buf, p);
    One(run, step, m1, buf, p, a, m2);
    PartStep(step, m2, part, b, buf, p + 1);
    One(run, step, m2, buf, p + 1, b, m);
  }

  lemma TripletPlaces(buf: string, p: nat, s: string)
    requires At(buf, p, s) && |s| >= 3
    ensures At(buf, p, [s[0]]) && At(buf, p + 1, [s[1], s[2]]) && At(buf, p + 3, s[3..])
  {
    assert s == [s[0]] + ([s[1], s[2]] + s[3..]);
    AtSplit(buf, p, [s[0]], [s[1], s[2]] + s[3..]);
    AtSplit(buf, p + 1, [s[1], s[2]], s[3..]);
  }

  lemma {:induction false} ReadEncoded(run: Runner<Machine>, step: Stepper<Machine>, m: Machine, part: Part,
                                       buf: string, p: nat, s: string, q: nat)
    requires Ships(step) && Runs(run, step, buf) && !m.thrown && m.cs == In(part, 0)
    requires At(buf, p, s) && Encoded(part, m.grammar.relaxed, s) && q == p + |s|
    ensures run(m, p) == run(m, q)
    decreases |s|
  {
    if s != "" {
      PartStep(step, m, part, s[0], buf, p);
      if IsPartChar(part, s[0], m.grammar.relaxed) && Encoded(part, m.grammar.relaxed, s[1..]) {
        AtFirst(buf, p, s);
        One(run, step, m, buf, p, s[0], m);
        ReadEncoded(run, step, m, part, buf, p + 1, s[1..], q);
      } else {
        TripletPlaces(buf, p, s);
        One(run, step, m, buf, p, s[0], m.(cs := In(part, 1)));
        ReadHex(run, step, m, part, buf, p + 1, s[1], s[2], p + 3);
        ReadEncoded(run, step, m, part, buf, p + 3, s[3..], q);
      }
    }
  }

  /** A part, the first byte of which leads into it from elsewhere. */
  lemma ReadPart(run: Runner<Machine>, step: Stepper<Machine>, m: Machine, m1: Machine, part: Part, buf: string, p: nat,
                 s: string, q: nat)
    requires Ships(step) && Runs(run, step, buf) && !m1.thrown && m1.cs == In(part, 0)
    requires s != "" && At(buf, p, s) && Encoded(part, m1.grammar.relaxed, s) && q == p + |s|
    requires IsPartChar(part, s[0], m1.grammar.relaxed) ==> step(m, s[0], buf, p) == Go(m1)
    requires s[0] == '%' ==> step(m, s[0], buf, p) == Go(m1.(cs := In(part, 1)))
    ensures run(m, p) == run(m1, q)
  {
    if IsPartChar(part, s[0], m1.grammar.relaxed) && Encoded(part, m1.grammar.relaxed, s[1..]) {
      AtFirst(buf, p, s);
      One(run, step, m, buf, p, s[0], m1);
      ReadEncoded(run, step, m1, part, buf, p + 1, s[1..], q);
    } else {
      TripletPlaces(buf, p, s);
      One(run, step, m, buf, p, s[0], m1.(cs := In(part, 1)));
      ReadHex(run, step, m1, part, buf, p + 1, s[1], s[2], p + 3);
      ReadEncoded(run, step, m1, part, buf, p + 3, s[3..], q);
    }
  }

  // ---------------------------------------------------------------------------------------
  // Path, query, fragment
  // ---------------------------------------------------------------------------------------

  /** A path that is empty or starts with one slash. */
  predicate PathOk(relaxed: bool, path: string) {
    || path == ""
    || (path[0] == '/' && Encoded(Path, relaxed, path[1..]) && (|path| > 1 ==> path[1] != '/'))
  }

  predicate EndsPath(c: char) {
    c == ' ' || c == '?' || c == '#'
  }

  lemma PathStep(step: Stepper<Machine>, m: Machine, b: char, buf: string, p: nat)
    requires Ships(step) && !m.thrown
    ensures m.cs == Target && b == '/' ==> step(m, b, buf, p) == Go(m.(cs := FirstSlash, mark := p))
    ensures m.cs == FirstSlash && b != '/' && IsPartChar(Path, b, m.grammar.relaxed) ==>
              step(m, b, buf, p) == Go(m.(cs := In(Path, 0)))
    ensures m.cs == FirstSlash && b == '%' ==> step(m, b, buf, p) == Go(m.(cs := In(Path, 1)))
  {
    var v := Step(m, b, buf, p);
  }

  lemma PathEndStep(step: Stepper<Machine>, m: Machine, c: char, buf: string, p: nat)
    requires Ships(step) && !m.thrown && EndsPath(c)
    ensures m.cs == Target ==> step(m, c, buf, p) == Go(WritePath(m.(mark := p), buf, p).(cs := PathEnd(c)))
    ensures m.cs == FirstSlash || m.cs == In(Path, 0) ==>
              step(m, c, buf, p) == Go(WritePath(m, buf, p).(cs := PathEnd(c)))
  {
    var v := Step(m, c, buf, p);
  }

  /** The path itself, after its slash. */
  lemma ReadAfterSlash(run: Runner<Machine>, step: Stepper<Machine>, m: Machine, buf: string, p: nat, s: string, q: nat)
      returns (m': Machine)
    requires Ships(step) && Runs(run, step, buf) && !m.thrown && m.cs == FirstSlash
    requires At(buf, p, s) && Encoded(Path, m.grammar.relaxed, s) && (s != "" ==> s[0] != '/') && q == p + |s|
    ensures m' == m.(cs := m'.cs) && (m'.cs == FirstSlash || m'.cs == In(Path, 0))
    ensures run(m, p) == run(m', q)
  {
    m' := m;
    if s != "" {
      m' := m.(cs := In(Path, 0));
      PathStep(step, m, s[0], buf, p);
      ReadPart(run, step, m, m', Path, buf, p, s, q);
    }
  }

  /** A path and the byte that ends it. */
  lemma ReadPath(run: Runner<Machine>, step: Stepper<Machine>, m: Machine, buf: string, p: nat, path: string, c: char,
                 q: nat) returns (m': Machine)
    requires Ships(step) && Runs(run, step, buf) && !m.thrown && m.cs == Target
    requires At(buf, p, path) && PathOk(m.grammar.relaxed, path) && q == p + |path| && At(buf, q, [c]) && EndsPath(c)
    ensures m' == m.(cs := PathEnd(c), mark := p, call := m.call.(path := path))
    ensures run(m, p) == run(m', q + 1)
  {
    TextAt(buf, p, path, q);
    m' := m.(cs := PathEnd(c), mark := p, call := m.call.(path := path));
    if path == "" {
      PathEndStep(step, m, c, buf, p);
      One(run, step, m, buf, p, c, m');
    } else {
      AtFirst(buf, p, path);
      var m1 := m.(cs := FirstSlash, mark := p);
      PathStep(step, m, '/', buf, p);
      One(run, step, m, buf, p, '/', m1);
      var m2 := ReadAfterSlash(run, step, m1, buf, p + 1, path[1..], q);
      PathEndStep(step, m2, c, buf, q);
      One(run, step, m2, buf, q, c, m');
    }
  }

  lemma QueryStep(step: Stepper<Machine>, m: Machine, b: char, buf: string, p: nat)
    requires Ships(step) && !m.thrown
    ensures m.cs == QueryStart && IsPartChar(Query, b, m.grammar.relaxed) ==>
              step(m, b, buf, p) == Go(m.(cs := In(Query, 0), queryStart := p))
    ensures m.cs == QueryStart && b == '%' ==> step(m, b, buf, p) == Go(m.(cs := In(Query, 1), queryStart := p))
    ensures m.cs == In(Query, 0) && (b == ' ' || b == '#') && m.queryStart <= p ==>
              step(m, b, buf, p) == Go(WriteQuery(m, buf, p).(cs := if b == ' ' then Protocol(0) else FragmentStart))
  {
    var v := Step(m, b, buf, p);
  }

  lemma EnterQuery(run: Runner<Machine>, step: Stepper<Machine>, m: Machine, buf: string, p: nat, query: string, q: nat)
      returns (m': Machine)
    requires Ships(step) && Runs(run, step, buf) && !m.thrown && m.cs == QueryStart && query != ""
    requires At(buf, p, query) && Encoded(Query, m.grammar.relaxed, query) && q == p + |query|
    ensures m' == m.(cs := In(Query, 0), queryStart := p)
    ensures run(m, p) == run(m', q)
  {
    m' := m.(cs := In(Query, 0), queryStart := p);
    QueryStep(step, m, query[0], buf, p);
    ReadPart(run, step, m, m', Query, buf, p, query, q);
  }

  lemma TextAt(buf: string, p: nat, text: string, q: nat)
    requires At(buf, p, text) && q == p + |text|
    ensures Text(buf, p, q) == text
  {
    AtSlice(buf, p, text);
  }

  /** A query and the byte that ends it. */
  lemma ReadQuery(run: Runner<Machine>, step: Stepper<Machine>, m: Machine, buf: string, p: nat, query: string, c: char,
                  q: nat) returns (m': Machine)
    requires Ships(step) && Runs(run, step, buf) && !m.thrown && m.cs == QueryStart && query != ""
    requires At(buf, p, query) && Encoded(Query, m.grammar.relaxed, query) && q == p + |query| && At(buf, q, [c])
    requires (c == ' ' || c == '#')
    ensures m' == m.(cs := if c == ' ' then Protocol(0) else FragmentStart, queryStart := p,
                     call := m.call.(query := query))
    ensures run(m, p) == run(m', q + 1)
  {
    TextAt(buf, p, query, q);
    var m1 := EnterQuery(run, step, m, buf, p, query, q);
    QueryStep(step, m1, c, buf, q);
    m' := WriteQuery(m1, buf, q).(cs := if c == ' ' then Protocol(0) else FragmentStart);
    One(run, step, m1, buf, q, c, m');
  }

  lemma FragmentStep(step: Stepper<Machine>, m: Machine, b: char, buf: string, p: nat)
    requires Ships(step) && !m.thrown
    ensures m.cs == FragmentStart && IsPartChar(Fragment, b, m.grammar.relaxed) ==>
              step(m, b, buf, p) == Go(m.(cs := In(Fragment, 0), mark := p))
    ensures m.cs == FragmentStart && b == '%' ==> step(m, b, buf, p) == Go(m.(cs := In(Fragment, 1), mark := p))
    ensures m.cs == In(Fragment, 0) && b == ' ' ==>
              step(m, b, buf, p) == Go(WriteFragment(m, buf, p).(cs := Protocol(0)))
  {
    var v := Step(m, b, buf, p);
  }

  lemma EnterFragment(run: Runner<Machine>, step: Stepper<Machine>, m: Machine, buf: string, p: nat, fragment: string,
                      q: nat) returns (m': Machine)
    requires Ships(step) && Runs(run, step, buf) && !m.thrown && m.cs == FragmentStart && fragment != ""
    requires At(buf, p, fragment) && Encoded(Fragment, m.grammar.relaxed, fragment) && q == p + |fragment|
    ensures m' == m.(cs := In(Fragment, 0), mark := p)
    ensures run(m, p) == run(m', q)
  {
    m' := m.(cs := In(Fragment, 0), mark := p);
    FragmentStep(step, m, fragment[0], buf, p);
    ReadPart(run, step, m, m', Fragment, buf, p, fragment, q);
  }

  /** A fragment and the space that ends it. */
  lemma ReadFragment(run: Runner<Machine>, step: Stepper<Machine>, m: Machine, buf: string, p: nat, fragment: string,
                     q: nat) returns (m': Machine)
    requires Ships(step) && Runs(run, step, buf) && !m.thrown && m.cs == FragmentStart && fragment != ""
    requires At(buf, p, fragment) && Encoded(Fragment, m.grammar.relaxed, fragment) && q == p + |fragment|
    requires At(buf, q, " ")
    ensures m' == m.(cs := Protocol(0), mark := p, call := m.call.(fragment := fragment))
    ensures run(m, p) == run(m', q + 1)
  {
    TextAt(buf, p, fragment, q);
    var m1 := EnterFragment(run, step, m, buf, p, fragment, q);
    FragmentStep(step, m1, ' ', buf, q);
    m' := WriteFragment(m1, buf, q).(cs := Protocol(0));
    One(run, step, m1, buf, q, ' ', m');
  }

  // ---------------------------------------------------------------------------------------
  // The whole target
  // ---------------------------------------------------------------------------------------

  function AfterQuery(fragment: string): char {
    if fragment == "" then ' ' else '#'
  }

  function AfterPath(query: string, fragment: string): char {
    if query == "" then AfterQuery(fragment) else '?'
  }

  /** A query at `p`, if it is not empty, and the byte behind it; what follows starts at `q`. */
  ghost predicate QueryAt(buf: string, query: string, c: char, p: nat, q: nat) {
    if query == "" then q == p else At(buf, p, query) && q == p + |query| + 1 && At(buf, p + |query|, [c])
  }

  ghost predicate FragmentAt(buf: string, fragment: string, p: nat, q: nat) {
    if fragment == "" then q == p else At(buf, p, fragment) && q == p + |fragment| + 1 && At(buf, p + |fragment|, " ")
  }

  lemma FragmentPlace(buf: string, fragment: string, p: nat, q: nat)
    requires At(buf, p, FragmentText(fragment) + " ") && q == p + |FragmentText(fragment)| + 1
    ensures At(buf, p, [AfterQuery(fragment)]) && FragmentAt(buf, fragment, p + 1, q)
  {
    AtSplit(buf, p, FragmentText(fragment), " ");
    if fragment != "" {
      AtSplit(buf, p, "#", fragment);
    }
  }

  lemma QueryPlace(buf: string, query: string, fragment: string, p: nat, q: nat)
    requires At(buf, p, QueryText(query) + (FragmentText(fragment) + " ")) && q == p + |QueryText(query)|
    ensures At(buf, p, [AfterPath(query, fragment)]) && QueryAt(buf, query, AfterQuery(fragment), p + 1, q + 1)
    ensures At(buf, q, FragmentText(fragment) + " ")
  {
    AtSplit(buf, p, QueryText(query), FragmentText(fragment) + " ");
    FragmentPlace(buf, fragment, q, q + |FragmentText(fragment)| + 1);
    if query != "" {
      AtSplit(buf, p, "?", query);
    }
  }

  /** The places of the three parts, each with the byte that ends it. */
  lemma PartPlaces(r: Request, buf: string, p: nat, q: nat) returns (p1: nat, q1: nat, q2: nat)
    requires At(buf, p, TargetText(r)) && q == p + |TargetText(r)|
    ensures p1 == p + |r.path| && q1 == p1 + 1
    ensures At(buf, p, r.path) && At(buf, p1, [AfterPath(r.query, r.fragment)])
    ensures QueryAt(buf, r.query, AfterQuery(r.fragment), q1, q2) && FragmentAt(buf, r.fragment, q2, q)
  {
    var b, c := QueryText(r.query), FragmentText(r.fragment) + " ";
    AtSplit(buf, p, r.path, b + c);
    p1 := p + |r.path|;
    q1, q2 := p1 + 1, p1 + |b| + 1;
    QueryPlace(buf, r.query, r.fragment, p1, p1 + |b|);
    FragmentPlace(buf, r.fragment, p1 + |b|, q);
  }

  /** A target the parser takes: well-formed percent triplets, and no character outside its part. */
  predicate TargetOk(relaxed: bool, r: Request) {
    PathOk(relaxed, r.path) && Encoded(Query, relaxed, r.query) && Encoded(Fragment, relaxed, r.fragment)
  }

  /** What follows the path: the query, if there is one. */
  lemma ReadQueryPart(run: Runner<Machine>, step: Stepper<Machine>, m: Machine, buf: string, query: string, c: char,
                      p: nat, q: nat) returns (m': Machine)
    requires Ships(step) && Runs(run, step, buf) && !m.thrown && m.call.query == "" && (c == ' ' || c == '#')
    requires Encoded(Query, m.grammar.relaxed, query) && m.cs == PathEnd(if query == "" then c else '?')
    requires QueryAt(buf, query, c, p, q)
    ensures m' == m.(cs := PathEnd(c), queryStart := m'.queryStart, call := m.call.(query := query))
    ensures run(m, p) == run(m', q)
  {
    m' := m;
    if query != "" {
      m' := ReadQuery(run, step, m, buf, p, query, c, p + |query|);
    }
  }

  /** What follows the query: the fragment, if there is one. */
  lemma ReadFragmentPart(run: Runner<Machine>, step: Stepper<Machine>, m: Machine, buf: string, fragment: string,
                         p: nat, q: nat) returns (m': Machine)
    requires Ships(step) && Runs(run, step, buf) && !m.thrown && m.call.fragment == ""
    requires Encoded(Fragment, m.grammar.relaxed, fragment) && m.cs == PathEnd(AfterQuery(fragment))
    requires FragmentAt(buf, fragment, p, q)
    ensures m' == m.(cs := Protocol(0), mark := m'.mark, call := m.call.(fragment := fragment))
    ensures run(m, p) == run(m', q)
  {
    m' := m;
    if fragment != "" {
      m' := ReadFragment(run, step, m, buf, p, fragment, p + |fragment|);
    }
  }

  lemma ReadTarget(run: Runner<Machine>, step: Stepper<Machine>, m: Machine, r: Request, buf: string, p: nat, q: nat)
      returns (m': Machine)
    requires Ships(step) && Runs(run, step, buf) && !m.thrown && m.cs == Target && TargetOk(m.grammar.relaxed, r)
    requires m.call.query == "" && m.call.fragment == "" && At(buf, p, TargetText(r)) && q == p + |TargetText(r)|
    ensures m' == m.(cs := Protocol(0), mark := m'.mark, queryStart := m'.queryStart,
                     call := m.call.(path := r.path, query := r.query, fragment := r.fragment))
    ensures run(m, p) == run(m', q)
  {
    var p1, q1, q2 := PartPlaces(r, buf, p, q);
    var m1 := ReadPath(run, step, m, buf, p, r.path, AfterPath(r.query, r.fragment), p1);
    var m2 := ReadQueryPart(run, step, m1, buf, r.query, AfterQuery(r.fragment), q1, q2);
    m' := ReadFragmentPart(run, step, m2, buf, r.fragment, q2, q);
  }

  // ---------------------------------------------------------------------------------------
  // Method and version
  // ---------------------------------------------------------------------------------------

  function InMethod(m: Machine, p: nat, k: nat): Machine {
    if k == 0 then m else m.(cs := Method(k), mark := p)
  }

  lemma MethodStep(step: Stepper<Machine>, m: Machine, b: char, buf: string, p: nat, k: nat)
    requires Ships(step) && !m.thrown && m.cs == Start && IsMethodChar(b) && k < 20
    ensures step(InMethod(m, p, k), b, buf, p + k) == Go(InMethod(m, p, k + 1))
  {
    var v := Step(InMethod(m, p, k), b, buf, p + k);
  }

  lemma MethodEndStep(step: Stepper<Machine>, m: Machine, buf: string, p: nat)
    requires Ships(step) && !m.thrown && m.cs.Method?
    ensures step(m, ' ', buf, p) == Go(WriteMethod(m, buf).(cs := Target))
  {
    var v := Step(m, ' ', buf, p);
  }

  lemma ReadLetters(run: Runner<Machine>, step: Stepper<Machine>, m: Machine, buf: string, p: nat, name: string, q: nat)
      returns (m': Machine)
    requires Ships(step) && Runs(run, step, buf) && !m.thrown && m.cs == Start && MethodName(name) && At(buf, p, name)
    requires q == p + |name|
    ensures m' == m.(cs := Method(|name|), mark := p)
    ensures run(m, p) == run(m', q)
  {
    forall k | 0 <= k < |name| ensures step(InMethod(m, p, k), name[k], buf, p + k) == Go(InMethod(m, p, k + 1)) {
      MethodStep(step, m, name[k], buf, p, k);
    }
    Chain(run, step, (k: nat) => InMethod(m, p, k), buf, p, name, 0);
    m' := InMethod(m, p, |name|);
  }

  lemma WritesMethod(m: Machine, buf: string, i: nat)
    requires i < 34 && At(buf, m.mark, METHODS[i])
    ensures WriteMethod(m, buf) == m.(call := m.call.(verb := i))
  {
    var n := |METHODS[i]|;
    AtSlice(buf, m.mark, METHODS[i]);
    assert buf[m.mark..|buf|] == METHODS[i] + buf[m.mark + n..];
    MethodReadsBack(i, buf[m.mark + n..]);
  }

  /** A method and its space. */
  lemma ReadMethod(run: Runner<Machine>, step: Stepper<Machine>, m: Machine, buf: string, p: nat, i: nat, name: string,
                   q: nat) returns (m': Machine)
    requires Ships(step) && Runs(run, step, buf) && !m.thrown && m.cs == Start
    requires i < 34 && i != 24 && name == METHODS[i] && At(buf, p, name) && q == p + |name| && At(buf, q, " ")
    ensures m' == m.(cs := Target, mark := p, call := m.call.(verb := i))
    ensures run(m, p) == run(m', q + 1)
  {
    MethodSpelling(i);
    var m1 := ReadLetters(run, step, m, buf, p, name, q);
    MethodEndStep(step, m1, buf, q);
    WritesMethod(m1, buf, i);
    m' := m.(cs := Target, mark := p, call := m.call.(verb := i));
    One(run, step, m1, buf, q, ' ', m');
  }

  function InProtocol(m: Machine, p: nat, k: nat): Machine {
    if k == 0 then m else m.(cs := Protocol(k), mark := p)
  }

  lemma ProtocolStep(step: Stepper<Machine>, m: Machine, buf: string, p: nat, k: nat)
    requires Ships(step) && !m.thrown && m.cs == Protocol(0) && k < 7
    ensures step(InProtocol(m, p, k), "HTTP/1."[k], buf, p + k) == Go(InProtocol(m, p, k + 1))
  {
    var v := Step(InProtocol(m, p, k), "HTTP/1."[k], buf, p + k);
  }

  lemma VersionStep(step: Stepper<Machine>, m: Machine, b: char, buf: string, p: nat)
    requires Ships(step) && !m.thrown
    ensures m.cs == Protocol(7) && (b == '0' || b == '1') ==> step(m, b, buf, p) == Go(m.(cs := Minor))
    ensures m.cs == Minor && b == CR ==> step(m, b, buf, p) == Go(WriteVersion(m, buf, p).(cs := Return))
    ensures m.cs == Return && b == LF ==> step(m, b, buf, p) == Go(m.(cs := Line))
  {
    var v := Step(m, b, buf, p);
  }

  lemma ReadProtocol(run: Runner<Machine>, step: Stepper<Machine>, m: Machine, buf: string, p: nat)
      returns (m': Machine)
    requires Ships(step) && Runs(run, step, buf) && !m.thrown && m.cs == Protocol(0) && At(buf, p, "HTTP/1.")
    ensures m' == m.(cs := Protocol(7), mark := p)
    ensures run(m, p) == run(m', p + 7)
  {
    forall k | 0 <= k < 7 ensures step(InProtocol(m, p, k), "HTTP/1."[k], buf, p + k) == Go(InProtocol(m, p, k + 1)) {
      ProtocolStep(step, m, buf, p, k);
    }
    Chain(run, step, (k: nat) => InProtocol(m, p, k), buf, p, "HTTP/1.", 0);
    m' := InProtocol(m, p, 7);
  }

  lemma WritesVersion(m: Machine, buf: string, p: nat, minor: nat)
    requires minor < 2 && At(buf, m.mark, "HTTP/1." + [Digit(minor)]) && p == m.mark + 8
    ensures WriteVersion(m, buf, p) == m.(call := m.call.(version := 0x10 + minor))
  {
    TextAt(buf, m.mark, "HTTP/1." + [Digit(minor)], p);
    assert minor == 1 ==> "HTTP/1." + [Digit(minor)] == "HTTP/1.1";
    assert minor == 0 ==> "HTTP/1." + [Digit(minor)] == "HTTP/1.0";
    assert "HTTP/1.0"[7] != "HTTP/1.1"[7];
  }

  /** A version the parser knows, and the end of the request line. */
  lemma ReadVersion(run: Runner<Machine>, step: Stepper<Machine>, m: Machine, buf: string, p: nat, minor: nat)
      returns (m': Machine)
    requires Ships(step) && Runs(run, step, buf) && !m.thrown && m.cs == Protocol(0)
    requires minor < 2 && At(buf, p, "HTTP/1." + [Digit(minor)]) && At(buf, p + 8, CRLF)
    ensures m' == m.(cs := Line, mark := p, call := m.call.(version := 0x10 + minor))
    ensures run(m, p) == run(m', p + 10)
  {
    AtSplit(buf, p, "HTTP/1.", [Digit(minor)]);
    AtFirst(buf, p + 8, CRLF);
    var m1 := ReadProtocol(run, step, m, buf, p);
    var m2 := m1.(cs := Minor);
    VersionStep(step, m1, Digit(minor), buf, p + 7);
    One(run, step, m1, buf, p + 7, Digit(minor), m2);
    WritesVersion(m2, buf, p + 8, minor);
    var m3 := m2.(cs := Return, call := m.call.(version := 0x10 + minor));
    VersionStep(step, m2, CR, buf, p + 8);
    One(run, step, m2, buf, p + 8, CR, m3);
    m' := m3.(cs := Line);
    VersionStep(step, m3, LF, buf, p + 9);
    One(run, step, m3, buf, p + 9, LF, m');
  }

  // ---------------------------------------------------------------------------------------
  // What is refused
  // ---------------------------------------------------------------------------------------

  lemma RefuseStep(step: Stepper<Machine>, m: Machine, b: char, buf: string, p: nat)
    requires Ships(step) && Next(m.cs, b, m.grammar) == Error
    ensures step(m, b, buf, p) == Fail(m.(cs := Error))
  {
    var v := Step(m, b, buf, p);
  }

  lemma ReadSome(run: Runner<Machine>, step: Stepper<Machine>, m: Machine, buf: string, p: nat, k: nat)
      returns (m': Machine)
    requires Ships(step) && Runs(run, step, buf) && !m.thrown && m.cs == Protocol(0) && k <= 7
    requires At(buf, p, "HTTP/1."[..k])
    ensures m' == InProtocol(m, p, k)
    ensures run(m, p) == run(m', p + k)
  {
    var t := "HTTP/1."[..k];
    forall j | 0 <= j < k ensures step(InProtocol(m, p, j), t[j], buf, p + j) == Go(InProtocol(m, p, j + 1)) {
      ProtocolStep(step, m, buf, p, j);
    }
    Chain(run, step, (j: nat) => InProtocol(m, p, j), buf, p, t, 0);
    m' := InProtocol(m, p, k);
  }

  /** A byte that is not the next one of `HTTP/1.`. */
  lemma RefuseProtocol(run: Runner<Machine>, step: Stepper<Machine>, m: Machine, buf: string, p: nat, k: nat, b: char)
    requires Ships(step) && Runs(run, step, buf) && !m.thrown && m.cs == Protocol(0) && k < 7
    requires At(buf, p, "HTTP/1."[..k]) && At(buf, p + k, [b]) && b != "HTTP/1."[k]
    ensures run(m, p).0.cs == Error
  {
    var m' := ReadSome(run, step, m, buf, p, k);
    RefuseStep(step, m', b, buf, p + k);
    Refuse(run, step, m', buf, p + k, b, m'.(cs := Error));
  }

  lemma LoneChar(d: string)
    ensures |d| == 1 ==> d == [d[0]]
  {
  }

  /** A minor number that is not one digit, 0 or 1. */
  lemma RefuseMinor(run: Runner<Machine>, step: Stepper<Machine>, m: Machine, buf: string, p: nat, d: string)
    requires Ships(step) && Runs(run, step, buf) && !m.thrown && m.cs == Protocol(0)
    requires At(buf, p, "HTTP/1.") && At(buf, p + 7, d) && d != "" && AllDigits(d) && d != "0" && d != "1"
    ensures run(m, p).0.cs == Error
  {
    var m1 := ReadProtocol(run, step, m, buf, p);
    AtFirst(buf, p + 7, d);
    if d[0] == '0' || d[0] == '1' {
      LoneChar(d);
      AtFirst(buf, p + 8, d[1..]);
      var m2 := m1.(cs := Minor);
      VersionStep(step, m1, d[0], buf, p + 7);
      One(run, step, m1, buf, p + 7, d[0], m2);
      assert IsDigit(d[1]);
      RefuseStep(step, m2, d[1], buf, p + 8);
      Refuse(run, step, m2, buf, p + 8, d[1], m2.(cs := Error));
    } else {
      RefuseStep(step, m1, d[0], buf, p + 7);
      Refuse(run, step, m1, buf, p + 7, d[0], m1.(cs := Error));
    }
  }

  lemma OneDigit(n: nat)
    ensures Decimal(n) == "1" ==> n == 1
    ensures Decimal(n) == "0" ==> n == 0
  {
    ShortDecimal(n);
  }

  lemma VersionSpots(buf: string, p: nat, a: string, b: string)
    requires At(buf, p, "HTTP/" + a + "." + b) && a != ""
    ensures At(buf, p, "HTTP/1."[..5]) && At(buf, p + 5, [a[0]])
    ensures a[0] == '1' ==> At(buf, p, "HTTP/1."[..6])
    ensures |a| > 1 ==> At(buf, p + 6, [a[1]])
    ensures a == "1" ==> At(buf, p, "HTTP/1.") && At(buf, p + 7, b)
  {
    assert "HTTP/" + a + "." + b == "HTTP/" + (a + ("." + b));
    AtSplit(buf, p, "HTTP/", a + ("." + b));
    AtSplit(buf, p + 5, a, "." + b);
    AtSplit(buf, p + 5 + |a|, ".", b);
    AtFirst(buf, p + 5, a);
    assert "HTTP/1."[..5] == "HTTP/" && "HTTP/1."[..6] == "HTTP/" + "1" && "HTTP/1." == ("HTTP/" + "1") + ".";
    AtSplit(buf, p, "HTTP/", "1");
    AtSplit(buf, p, "HTTP/" + "1", ".");
    if |a| > 1 {
      AtFirst(buf, p + 6, a[1..]);
    }
  }

  /** Any version but 1.0 and 1.1. */
  lemma RefuseVersion(run: Runner<Machine>, step: Stepper<Machine>, m: Machine, buf: string, p: nat, version: nat)
    requires Ships(step) && Runs(run, step, buf) && !m.thrown && m.cs == Protocol(0)
    requires At(buf, p, VersionText(version)) && version != 0x10 && version != 0x11
    ensures run(m, p).0.cs == Error
  {
    var a, b := Decimal(version / 16), Decimal(version % 16);
    VersionSpots(buf, p, a, b);
    OneDigit(version / 16);
    OneDigit(version % 16);
    LoneChar(a);
    if a[0] != '1' {
      RefuseProtocol(run, step, m, buf, p, 5, a[0]);
    } else if |a| > 1 {
      assert IsDigit(a[1]);
      RefuseProtocol(run, step, m, buf, p, 6, a[1]);
    } else {
      RefuseMinor(run, step, m, buf, p, b);
    }
  }

  /** `M-SEARCH`, for its dash. */
  lemma RefuseMSearch(run: Runner<Machine>, step: Stepper<Machine>, m: Machine, buf: string, p: nat)
    requires Ships(step) && Runs(run, step, buf) && !m.thrown && m.cs == Start && At(buf, p, "M-SEARCH")
    ensures run(m, p).0.cs == Error
  {
    AtFirst(buf, p, "M-SEARCH");
    AtFirst(buf, p + 1, "M-SEARCH"[1..]);
    var m1 := InMethod(m, p, 1);
    MethodStep(step, m, 'M', buf, p, 0);
    One(run, step, m, buf, p, 'M', m1);
    RefuseStep(step, m1, '-', buf, p + 1);
    Refuse(run, step, m1, buf, p + 1, '-', m1.(cs := Error));
  }
}
