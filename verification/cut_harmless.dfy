/**
 Harmless cuts: the calls end with what a single call records.
 */
module CutHarmless {
  import opened Wrappers
  import opened HttpText
  import opened Scanning
  import opened RequestMachine
  import opened RequestMethods
  import opened Cuts
  import opened CutRelation
  import opened CutLoss
  import opened CutExact
  import opened CutEven
  import opened CutPieces

  // ---------------------------------------------------------------------------------------
  // Behind the version there is no way back
  // ---------------------------------------------------------------------------------------

  predicate Over(r: Feeding<State>) {
    r.Stopped? || PastVersion(r.s)
  }

  lemma {:induction false} OverFeed(g: Grammar, s: State, text: string)
    requires PastVersion(s)
    ensures Over(Feed(RequestTable(g), s, text))
    decreases |text|
  {
    if text != "" {
      var v := Control(s, text[0], g);
      assert RequestTable(g)(s, text[0]) == v;
      if v.Go? {
        PastNext(s, text[0], g);
        OverFeed(g, v.m, text[1..]);
      }
    }
  }

  lemma OverStays(g: Grammar, done: string, piece: string)
    requires Over(Feed(RequestTable(g), Start, done))
    ensures Over(Feed(RequestTable(g), Start, done + piece))
    ensures StateAfter(g, done + piece) != Minor
  {
    FeedSplit(RequestTable(g), Start, done, piece);
    FeedStates(g, Start, done);
    FeedStates(g, Start, done + piece);
    var r := Feed(RequestTable(g), Start, done);
    if r.More? {
      OverFeed(g, r.s, piece);
    }
  }

  lemma {:induction false} NoWayBack(g: Grammar, done: string, rest: seq<string>)
    requires Over(Feed(RequestTable(g), Start, done))
    ensures !EndCutAhead(g, done, rest)
    decreases |rest|
  {
    if |rest| > 1 {
      OverStays(g, done, rest[0]);
      NoWayBack(g, done + rest[0], rest[1..]);
    }
  }

  // ---------------------------------------------------------------------------------------
  // Behind the query nothing throws
  // ---------------------------------------------------------------------------------------

  lemma StepPastQuery(m: Machine, b: char, buf: string, p: nat)
    requires PastQuery(m.cs) && !m.thrown
    ensures var v := Step(m, b, buf, p);
            !v.m.thrown && v.m.call.query == m.call.query && (v.Go? ==> PastQuery(v.m.cs))
  {
    var to := Next(m.cs, b, m.grammar);
    StepKinds(m, b, buf, p, to);
    QuerySets(m, b, buf, p);
    if to != Error {
      PastNext(m.cs, b, m.grammar);
    }
  }

  /** A run from behind the query does not throw, and leaves the query alone. */
  lemma {:induction false} ScanPastQuery(m: Machine, buf: string, p: nat)
    requires PastQuery(m.cs) && !m.thrown && p <= |buf|
    ensures var e := Scan(Step, m, buf, p).0; !e.thrown && e.call.query == m.call.query
    decreases |buf| - p
  {
    if p < |buf| {
      StepPastQuery(m, buf[p], buf, p);
      var v := Step(m, buf[p], buf, p);
      if v.Go? {
        ScanPastQuery(v.m, buf, p + 1);
      }
    }
  }

  // ---------------------------------------------------------------------------------------
  // From cut to cut
  // ---------------------------------------------------------------------------------------

  /** Between two calls, with the same data in both runs. */
  ghost predicate EvenCut(runs: Runner<Machine>, m: Machine, ms: Machine, g: Grammar, full: string, done: string,
                          q: nat, l: nat, version: nat, last: Machine) {
    AtCut(m, ms, g, full, done, q, l) && m.call == ms.call && Leads(runs, full, ms, q, last) && Sound(last, version)
  }

  /** With a cut behind the version still to come, the next piece does not get beyond the version. */
  lemma StillAhead(m: Machine, ms: Machine, g: Grammar, full: string, done: string, q: nat, l: nat, rest: seq<string>,
                   e: Machine)
    requires AtCut(m, ms, g, full, done, q, l) && EndCutAhead(g, done, rest) && e == Call1(m, rest[0]).0 && !e.thrown
    ensures !PastVersion(e.cs)
  {
    NextState(m, ms, g, full, done, q, l, rest[0], e);
    var next := Feed(RequestTable(g), Start, done + rest[0]);
    if Over(next) {
      NoWayBack(g, done + rest[0], rest[1..]);
    }
  }

  /** A piece after a cut inside the version. */
  lemma SilentPiece(runs: Runner<Machine>, m: Machine, ms: Machine, g: Grammar, full: string, done: string, q: nat,
                    l: nat, rest: seq<string>, w: Watch, last: Machine) returns (e: Machine, es: Machine, end: nat)
    requires EvenCut(runs, m, ms, g, full, done, q, l, w.version, last) && Shaped(full, l) && w.verb < 34
    requires |METHODS[w.verb]| == l
    requires PartOf(Whole(rest), full, q) && InVersion(m.cs) && EndCutAhead(g, done, rest)
    ensures end == q + |rest[0]| && e == Call1(m, rest[0]).0 && PartOf(Whole(rest[1..]), full, end)
    ensures !e.thrown && e.cs != Done && StateAfter(g, done + rest[0]) == e.cs
    ensures EvenCut(runs, e, es, g, full, done + rest[0], end, l, w.version, last)
  {
    e, es, end := LossOn(runs, m, ms, g, full, done, q, l, rest, w.(kind := Silence), last);
    ScanPastQuery(Reset(m), rest[0], 0);
    StillAhead(m, ms, g, full, done, q, l, rest, e);
  }

  /** The registers agree, or do not matter. */
  lemma CutEvens(m: Machine, ms: Machine, full: string, q: nat, l: nat, version: nat)
    requires GoesOn(m) && m.call == ms.call && Paired(Reset(m), ms, full, q, 0, q, l)
    requires Resting(m.cs) || m.cs == LastReturn || (m.cs == Minor && version == 0x11)
    ensures Even(Reset(m), ms, q, version)
  {
  }

  /** A call after any other harmless cut. */
  lemma EvenCall(runs: Runner<Machine>, m: Machine, ms: Machine, g: Grammar, full: string, done: string, q: nat, l: nat,
                 piece: string, w: Watch, last: Machine, end: nat) returns (e: Machine, es: Machine)
    requires EvenCut(runs, m, ms, g, full, done, q, l, w.version, last) && Fits(piece, full, q, l, w)
    requires end == q + |piece|
    requires Resting(m.cs) || m.cs == LastReturn || (m.cs == Minor && w.version == 0x11)
    ensures e == Call1(m, piece).0 && !e.thrown
    ensures if e.cs == Done then e.call == last.call
            else EvenAt(runs, e, es, full, q, |piece|, end, l, w.version, last)
  {
    CutEvens(m, ms, full, q, l, w.version);
    e, es := PieceEven(runs, Reset(m), ms, piece, full, q, l, w, last, end);
  }

  /** The cut after it. */
  lemma EvenNext(runs: Runner<Machine>, m: Machine, ms: Machine, g: Grammar, full: string, done: string, q: nat, l: nat,
                 piece: string, version: nat, last: Machine, e: Machine, es: Machine, end: nat)
    requires AtCut(m, ms, g, full, done, q, l) && Leads(runs, full, ms, q, last) && PartOf(piece, full, q)
    requires end == q + |piece|
    requires e == Call1(m, piece).0 && e.cs != Done && EvenAt(runs, e, es, full, q, |piece|, end, l, version, last)
    ensures EvenCut(runs, e, es, g, full, done + piece, end, l, version, last)
  {
    NextCut(m, ms, g, full, done, q, l, piece, e, es, end);
  }

  lemma EvenPiece(runs: Runner<Machine>, m: Machine, ms: Machine, g: Grammar, full: string, done: string, q: nat,
                  l: nat, piece: string, w: Watch, last: Machine, end: nat) returns (e: Machine, es: Machine)
    requires EvenCut(runs, m, ms, g, full, done, q, l, w.version, last) && Fits(piece, full, q, l, w)
    requires end == q + |piece|
    requires Resting(m.cs) || m.cs == LastReturn || (m.cs == Minor && w.version == 0x11)
    ensures e == Call1(m, piece).0 && !e.thrown && StateAfter(g, done + piece) == e.cs
    ensures if e.cs == Done then e.call == last.call
            else EvenCut(runs, e, es, g, full, done + piece, end, l, w.version, last)
  {
    e, es := EvenCall(runs, m, ms, g, full, done, q, l, piece, w, last, end);
    NextState(m, ms, g, full, done, q, l, piece, e);
    if e.cs != Done {
      EvenNext(runs, m, ms, g, full, done, q, l, piece, w.version, last, e, es, end);
    }
  }

  lemma NoError(runs: Runner<Machine>, m: Machine, ms: Machine, g: Grammar, full: string, done: string, q: nat, l: nat,
                version: nat, last: Machine)
    requires EvenCut(runs, m, ms, g, full, done, q, l, version, last) && Shaped(full, l)
    ensures m.call.error == 0
  {
    MovedMoves();
    SettledRun((m: Machine, b: char, buf: string, p: nat) => Moved(m, b, buf, p), runs, ms, full, q, l, last);
  }

  /** With harmless cuts only, the calls are never refused, and end with what a single call records. */
  lemma {:induction false} HarmlessKeep(runs: Runner<Machine>, m: Machine, ms: Machine, g: Grammar, full: string,
                                        done: string, q: nat, l: nat, rest: seq<string>, w: Watch, last: Machine)
      returns (e: Machine)
    requires EvenCut(runs, m, ms, g, full, done, q, l, w.version, last) && Shaped(full, l) && w.verb < 34
    requires |METHODS[w.verb]| == l
    requires PartOf(Whole(rest), full, q)
    requires rest != [] ==> HarmlessCut(g, m.cs, done, rest, w.version) && HarmlessCuts(g, done, rest, w.version)
    ensures e == CallAll(m, rest) && !e.thrown
    ensures if e.cs == Done then e.call == last.call else GoesOn(e) && e.call.error == 0
    decreases |rest|
  {
    e := m;
    NoError(runs, m, ms, g, full, done, q, l, w.version, last);
    if rest != [] {
      var es, end;
      if InVersion(m.cs) && m.cs != Minor {
        e, es, end := SilentPiece(runs, m, ms, g, full, done, q, l, rest, w, last);
      } else {
        end := q + |rest[0]|;
        FirstPart(rest, full, q, end);
        e, es := EvenPiece(runs, m, ms, g, full, done, q, l, rest[0], w, last, end);
      }
      if e.cs != Done {
        e := HarmlessKeep(runs, e, es, g, full, done + rest[0], end, l, rest[1..], w, last);
      }
    }
  }
}
