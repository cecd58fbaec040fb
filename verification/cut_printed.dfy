/**
 Printed requests that arrive in pieces: the request comes back exactly when every cut is harmless.
 */
module CutPrinted {
  import opened Wrappers
  import opened HttpText
  import opened Scanning
  import opened HeaderPrinting
  import opened HeaderTotals
  import opened RequestMachine
  import opened RequestMethods
  import opened RequestPrinting
  import opened RequestTarget
  import opened RequestLines
  import opened RequestRoundTrip
  import opened Cuts
  import opened CutRelation
  import opened CutLoss
  import opened CutExact
  import opened CutEven
  import opened CutPieces
  import opened CutHarmless

  // ---------------------------------------------------------------------------------------
  // The printed text
  // ---------------------------------------------------------------------------------------

  /** A request that can be printed and read back whole. */
  ghost predicate Sendable(relaxed: bool, r: Request, order: seq<string>) {
    PrintableRequest(relaxed, r) && Enumerates(order, r.headers) && r.verb != 24 && KnownVersion(r.version)
  }

  /** One call on the whole text. */
  lemma InOneCall(g: Grammar, queryStart: nat, r: Request, order: seq<string>, more: string)
      returns (m: Machine, n: nat)
    requires Sendable(g.relaxed, r, order)
    ensures (m, n) == Call1(Init(g, queryStart), Head(r, order) + more)
    ensures m.cs == Done && !m.thrown && m.call == Received(r) && n == |Head(r, order)|
    ensures m.names == OwnNames(r.body) + NamesIn(r.headers, order)
  {
    var buf := Head(r, order) + more;
    var run := Running(Step, buf);
    RunningRuns(Step, buf);
    n := |Head(r, order)|;
    m := ReadHead(run, Step, g, queryStart, r, order, buf, n);
    assert run(Init(g, queryStart), 0) == Scan(Step, Init(g, queryStart), buf, 0);
  }

  lemma TargetShape(r: Request, relaxed: bool)
    requires PathOk(relaxed, r.path)
    ensures var t := TargetText(r) + "H";
            && |t| > 1 && (t[0] == '/' || t[0] == ' ' || t[0] == '?' || t[0] == '#')
            && (t[0] == '/' ==> t[1] != '/')
  {
    var rest := QueryText(r.query) + (FragmentText(r.fragment) + " ");
    assert rest != "" && (rest[0] == ' ' || rest[0] == '?' || rest[0] == '#');
    assert TargetText(r) == r.path + rest;
    if r.path == "" {
      assert TargetText(r) == rest;
    } else if |r.path| == 1 {
      assert TargetText(r)[1] == rest[0];
    }
  }

  lemma LineShape(r: Request, order: seq<string>, more: string, l: nat)
    requires r.verb < 34 && KnownVersion(r.version) && (forall i :: 0 <= i < |order| ==> order[i] in r.headers)
    requires l == |METHODS[r.verb]|
    ensures METHODS[r.verb] + " " + (TargetText(r) + "H") <= Head(r, order) + more
  {
    KnownText(r.version);
    var tail := VersionText(r.version)[1..] + CRLF;
    assert VersionText(r.version) + CRLF == "H" + tail;
    assert RequestLine(r) == METHODS[r.verb] + " " + (TargetText(r) + "H") + tail;
  }

  lemma PrintedShape(g: Grammar, r: Request, order: seq<string>, more: string, l: nat)
    requires Sendable(g.relaxed, r, order) && l == |METHODS[r.verb]|
    ensures Shaped(Head(r, order) + more, l)
  {
    TargetShape(r, g.relaxed);
    LineShape(r, order, more, l);
    MethodSpelling(r.verb);
    NoSpaces(r.verb);
    var name, t, full := METHODS[r.verb], TargetText(r) + "H", Head(r, order) + more;
    var front := name + " " + t;
    assert forall i :: 0 <= i < |front| ==> full[i] == front[i];
    assert front[l] == ' ' && front[l + 1] == t[0] && front[l + 2] == t[1];
    assert forall i :: 0 <= i < l ==> front[i] == name[i];
  }

  lemma NoReturnKey(r: Request)
    requires Printable(r.headers)
    ensures !ReturnKey(Received(r).headers)
  {
  }

  /** Before the first byte both runs are the same. */
  lemma AtFirstCut(g: Grammar, queryStart: nat, full: string, l: nat)
    ensures AtCut(Init(g, queryStart), Init(g, queryStart), g, full, "", 0, l)
  {
    assert Reset(Init(g, queryStart)) == Init(g, queryStart);
  }

  // ---------------------------------------------------------------------------------------
  // Every key was paid for
  // ---------------------------------------------------------------------------------------

  ghost predicate Paid(m: Machine) {
    Total(m.call.headers.Keys) <= m.names
  }

  lemma StepPaid(m: Machine, b: char, buf: string, p: nat)
    requires Paid(m)
    ensures Paid(Step(m, b, buf, p).m)
  {
    HeaderSets(m, b, buf, p);
    NamesSets(m, b, buf, p);
    if RecordsHeader(m.cs, b) {
      var name := Text(buf, m.fieldStart, m.fieldStart + m.fieldLen);
      SetTotal(m.call.headers, name, Text(buf, Effect(m, b, buf, p).mark, p));
    }
  }

  lemma {:induction false} ScanPaid(m: Machine, buf: string, p: nat)
    requires Paid(m) && p <= |buf|
    ensures Paid(Scan(Step, m, buf, p).0)
    decreases |buf| - p
  {
    if p < |buf| {
      StepPaid(m, buf[p], buf, p);
      var v := Step(m, buf[p], buf, p);
      if v.Go? {
        ScanPaid(v.m, buf, p + 1);
      }
    }
  }

  lemma {:induction false} CallsPaid(m: Machine, pieces: seq<string>)
    requires Paid(m)
    ensures Paid(CallAll(m, pieces))
    decreases |pieces|
  {
    if pieces != [] {
      ScanPaid(Reset(m), pieces[0], 0);
      CallsPaid(Call1(m, pieces[0]).0, pieces[1..]);
    }
  }

  // ---------------------------------------------------------------------------------------
  // Exactly the harmless cuts
  // ---------------------------------------------------------------------------------------

  /** A loss shows in the request. */
  lemma LossDiffers(e: Machine, last: Machine, w: Watch, r: Request)
    requires e.cs == Done && last.cs == Done && Holds(e, last, 0, w) && w.kind != Silence
    requires w.verb == r.verb && w.version == r.version && last.call == Received(r) && Paid(e)
    requires last.names == Total(Received(r).headers.Keys)
    ensures e.call != Received(r)
  {
  }

  /** The run in a single call, to be compared with. */
  lemma Reference(g: Grammar, queryStart: nat, r: Request, order: seq<string>, more: string, full: string, l: nat)
    returns (runs: Runner<Machine>, last: Machine)
    requires Sendable(g.relaxed, r, order) && full == Head(r, order) + more && l == |METHODS[r.verb]|
    ensures Shaped(full, l) && Leads(runs, full, Init(g, queryStart), 0, last)
    ensures AtCut(Init(g, queryStart), Init(g, queryStart), g, full, "", 0, l)
    ensures last.call == Received(r) && last.names == OwnNames(r.body) + NamesIn(r.headers, order)
  {
    var n;
    var m0 := Init(g, queryStart);
    last, n := InOneCall(g, queryStart, r, order, more);
    runs := Running(Step, full);
    RunningRuns(Step, full);
    assert runs(m0, 0) == Scan(Step, m0, full, 0);
    PrintedShape(g, r, order, more, l);
    AtFirstCut(g, queryStart, full, l);
  }

  lemma PrefixPart(a: string, full: string)
    requires a <= full
    ensures PartOf(a, full, 0)
  {
    assert full[0..|a|] == a;
  }

  lemma PaidFromInit(g: Grammar, queryStart: nat, pieces: seq<string>)
    ensures Paid(CallAll(Init(g, queryStart), pieces))
  {
    CallsPaid(Init(g, queryStart), pieces);
  }

  /** A harmful cut: the calls throw, or do not finish, or end with another request. */
  lemma HarmfulPieces(g: Grammar, queryStart: nat, r: Request, order: seq<string>, more: string, pieces: seq<string>)
      returns (m: Machine)
    requires Sendable(g.relaxed, r, order) && NamesOnce(r.headers, r.body) && Whole(pieces) <= Head(r, order) + more
    requires !HarmlessCuts(g, "", pieces, r.version)
    ensures m == CallAll(Init(g, queryStart), pieces) && (m.thrown || m.cs != Done || m.call != Received(r))
  {
    var full, l, m0 := Head(r, order) + more, |METHODS[r.verb]|, Init(g, queryStart);
    var runs, last := Reference(g, queryStart, r, order, more, full, l);
    PrefixPart(Whole(pieces), full);
    var w := HarmShows(runs, m0, m0, g, full, "", 0, l, pieces, r.verb, r.version, last);
    m := CallAll(m0, pieces);
    PaidFromInit(g, queryStart, pieces);
    PrintedTotal(r.headers, order, r.close, r.body, BLANKS);
    if !m.thrown && m.cs == Done {
      LossDiffers(m, last, w, r);
    }
  }

  /** Harmless cuts only: the calls are never refused, and end with the request that was printed. */
  lemma HarmlessPieces(g: Grammar, queryStart: nat, r: Request, order: seq<string>, more: string, pieces: seq<string>)
      returns (m: Machine)
    requires Sendable(g.relaxed, r, order) && Whole(pieces) <= Head(r, order) + more
    requires HarmlessCuts(g, "", pieces, r.version)
    ensures m == CallAll(Init(g, queryStart), pieces) && !m.thrown
    ensures if m.cs == Done then m.call == Received(r) else GoesOn(m) && m.call.error == 0
  {
    var full, l, m0 := Head(r, order) + more, |METHODS[r.verb]|, Init(g, queryStart);
    var runs, last := Reference(g, queryStart, r, order, more, full, l);
    NoReturnKey(r);
    PrefixPart(Whole(pieces), full);
    m := HarmlessKeep(runs, m0, m0, g, full, "", 0, l, pieces, Watch(r.verb, r.version, Token), last);
  }
}
