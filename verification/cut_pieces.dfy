/**
 Exactly which cuts of a request are harmless: those between two tokens, the one between the last two
 bytes, and those inside the version 1.1 if one of them is at its very end.
 */
module CutPieces {
  import opened Wrappers
  import opened HttpText
  import opened Scanning
  import opened RequestMachine
  import opened RequestMethods
  import opened Cuts
  import opened CutRelation
  import opened CutLoss
  import opened CutExact
  import opened CutEven

  /** The state of the table after a text; it does not depend on the calls. */
  function StateAfter(g: Grammar, text: string): State {
    Feed(RequestTable(g), Start, text).s
  }

  /** Some later cut falls right behind the version. */
  predicate EndCutAhead(g: Grammar, done: string, rest: seq<string>)
    decreases |rest|
  {
    |rest| > 1 &&
    var next := done + rest[0];
    StateAfter(g, next) == Minor || EndCutAhead(g, next, rest[1..])
  }

  /** A cut behind `done`, in state `s`, with `rest` to come. */
  predicate HarmlessCut(g: Grammar, s: State, done: string, rest: seq<string>, version: nat) {
    || Resting(s)
    || s == LastReturn
    || (InVersion(s) && version == 0x11 && (s == Minor || EndCutAhead(g, done, rest)))
  }

  /** All cuts between the pieces, the first of which follows `done`; those behind the end of the header
      do not matter. */
  predicate HarmlessCuts(g: Grammar, done: string, rest: seq<string>, version: nat)
    decreases |rest|
  {
    |rest| > 1 ==>
      var next := done + rest[0];
      var s := StateAfter(g, next);
      Finished(s) || (HarmlessCut(g, s, next, rest[1..], version) && HarmlessCuts(g, next, rest[1..], version))
  }

  // ---------------------------------------------------------------------------------------
  // From cut to cut
  // ---------------------------------------------------------------------------------------

  /** The run in calls and the run in a single call, between two calls. */
  ghost predicate AtCut(m: Machine, ms: Machine, g: Grammar, full: string, done: string, q: nat, l: nat) {
    && GoesOn(m) && m.grammar == g && q <= |full| && done == full[..q]
    && Paired(Reset(m), ms, full, q, 0, q, l)
    && Feed(RequestTable(g), Start, done) == More(m.cs)
  }

  /** A runner for the whole text, and where it ends. */
  ghost predicate Leads(runs: Runner<Machine>, full: string, ms: Machine, q: nat, last: Machine) {
    Runs(runs, Step, full) && runs(ms, q).0 == last && last.cs == Done
  }

  /** A call on the next piece. */
  lemma NextPiece(runs: Runner<Machine>, m: Machine, ms: Machine, g: Grammar, full: string, done: string, q: nat,
                  l: nat, piece: string, w: Watch, last: Machine) returns (e: Machine, es: Machine, end: nat)
    requires AtCut(m, ms, g, full, done, q, l) && Fits(piece, full, q, l, w) && Leads(runs, full, ms, q, last)
    ensures e == Call1(m, piece).0 && end == q + |piece|
    ensures e.thrown || e.cs == Done || (Paired(e, es, full, q, |piece|, end, l) && Leads(runs, full, es, end, last))
    ensures !e.thrown && e.cs == Done ==> es == last
    ensures Holds(Reset(m), ms, q, w) && !e.thrown ==> Holds(e, es, q, w)
  {
    MovedMoves();
    RunningRuns(Step, piece);
    var move := (m: Machine, b: char, buf: string, p: nat) => Moved(m, b, buf, p);
    var run := Running(Step, piece);
    e, es, end := PieceOn(move, run, runs, Reset(m), ms, piece, full, q, 0, q, l, w);
    assert run(Reset(m), 0) == Scan(Step, Reset(m), piece, 0);
  }

  /** The state after that piece. */
  lemma NextState(m: Machine, ms: Machine, g: Grammar, full: string, done: string, q: nat, l: nat, piece: string,
                  e: Machine)
    requires AtCut(m, ms, g, full, done, q, l) && e == Call1(m, piece).0 && !e.thrown
    ensures e.grammar == g && StateAfter(g, done + piece) == e.cs
    ensures e.cs != Error && !Finished(e.cs) ==> Feed(RequestTable(g), Start, done + piece) == More(e.cs)
  {
    var e', n := ScanControl(Reset(m), piece, 0);
    assert piece[0..] == piece;
    FeedSplit(RequestTable(g), Start, done, piece);
    FeedStates(g, m.cs, piece);
  }

  /** The cut after that piece. */
  lemma NextCut(m: Machine, ms: Machine, g: Grammar, full: string, done: string, q: nat, l: nat, piece: string,
                e: Machine, es: Machine, end: nat)
    requires AtCut(m, ms, g, full, done, q, l) && PartOf(piece, full, q) && end == q + |piece|
    requires e == Call1(m, piece).0 && !e.thrown && e.cs != Done && Paired(e, es, full, q, |piece|, end, l)
    ensures AtCut(e, es, g, full, done + piece, end, l)
  {
    CutLags(e, es, full, q, |piece|, end, l);
    NextState(m, ms, g, full, done, q, l, piece, e);
    assert full[..end] == full[..q] + full[q..end];
  }

  /** The first of several pieces lies in the text, and the others behind it. */
  lemma FirstPart(rest: seq<string>, full: string, q: nat, end: nat)
    requires rest != [] && PartOf(Whole(rest), full, q) && end == q + |rest[0]|
    ensures PartOf(rest[0], full, q) && PartOf(Whole(rest[1..]), full, end)
  {
    var a, c := rest[0], Whole(rest[1..]);
    var all := full[q..q + |a + c|];
    assert full[q..q + |a|] == all[..|a|] == a;
    assert full[end..end + |c|] == all[|a|..] == c;
  }

  // ---------------------------------------------------------------------------------------
  // A harmful cut is never made good
  // ---------------------------------------------------------------------------------------

  /** What the end of the calls shows of a loss. */
  ghost predicate Shows(e: Machine, last: Machine, w: Watch) {
    e.thrown || (e.cs == Done ==> Holds(e, last, 0, w))
  }

  /** At the end it does not matter where the last call began. */
  lemma AtTheEnd(e: Machine, last: Machine, k: nat, w: Watch)
    requires e.cs == Done && Holds(e, last, k, w)
    ensures Holds(e, last, 0, w)
  {
  }

  lemma {:induction false} LossStays(runs: Runner<Machine>, m: Machine, ms: Machine, g: Grammar, full: string,
                                     done: string, q: nat, l: nat, rest: seq<string>, w: Watch, last: Machine)
    requires AtCut(m, ms, g, full, done, q, l) && q > 0 && Shaped(full, l) && w.verb < 34 && |METHODS[w.verb]| == l
    requires PartOf(Whole(rest), full, q) && Leads(runs, full, ms, q, last) && Holds(Reset(m), ms, q, w)
    requires w.kind != Silence
    requires w.kind == Version && w.version == 0x11 ==> !EndCutAhead(g, done, rest)
    ensures Shows(CallAll(m, rest), last, w)
    decreases |rest|
  {
    if rest != [] {
      var e, es, end := LossOn(runs, m, ms, g, full, done, q, l, rest, w, last);
      if !e.thrown && e.cs == Done {
        AtTheEnd(e, last, q, w);
      } else if !e.thrown && |rest| > 1 {
        CutKeeps(e, es, full, q, |rest[0]|, end, l, w);
        LossStays(runs, e, es, g, full, done + rest[0], end, l, rest[1..], w, last);
      }
    }
  }

  /** Both runs after one more piece: the cut behind it, if there is one. */
  ghost predicate Onward(runs: Runner<Machine>, e: Machine, es: Machine, g: Grammar, full: string, done: string, q: nat,
                         len: nat, end: nat, l: nat, last: Machine) {
    && (e.cs == Done ==> es == last)
    && (e.cs != Done ==>
          && AtCut(e, es, g, full, done, end, l) && Paired(e, es, full, q, len, end, l)
          && Leads(runs, full, es, end, last))
  }

  lemma LossPiece(runs: Runner<Machine>, m: Machine, ms: Machine, g: Grammar, full: string, done: string, q: nat,
                  l: nat, piece: string, w: Watch, last: Machine) returns (e: Machine, es: Machine, end: nat)
    requires AtCut(m, ms, g, full, done, q, l) && Fits(piece, full, q, l, w) && Leads(runs, full, ms, q, last)
    ensures end == q + |piece| && e == Call1(m, piece).0
    ensures !e.thrown && Holds(Reset(m), ms, q, w) ==> Holds(e, es, q, w)
    ensures !e.thrown ==> StateAfter(g, done + piece) == e.cs
    ensures !e.thrown ==> Onward(runs, e, es, g, full, done + piece, q, |piece|, end, l, last)
  {
    e, es, end := NextPiece(runs, m, ms, g, full, done, q, l, piece, w, last);
    if !e.thrown {
      NextState(m, ms, g, full, done, q, l, piece, e);
      if e.cs != Done {
        NextCut(m, ms, g, full, done, q, l, piece, e, es, end);
      }
    }
  }

  /** One more piece. */
  lemma LossOn(runs: Runner<Machine>, m: Machine, ms: Machine, g: Grammar, full: string, done: string, q: nat, l: nat,
               rest: seq<string>, w: Watch, last: Machine) returns (e: Machine, es: Machine, end: nat)
    requires AtCut(m, ms, g, full, done, q, l) && Shaped(full, l) && w.verb < 34 && |METHODS[w.verb]| == l && rest != []
    requires PartOf(Whole(rest), full, q) && Leads(runs, full, ms, q, last)
    ensures end == q + |rest[0]| && e == Call1(m, rest[0]).0 && PartOf(Whole(rest[1..]), full, end)
    ensures !e.thrown && Holds(Reset(m), ms, q, w) ==> Holds(e, es, q, w)
    ensures !e.thrown ==> StateAfter(g, done + rest[0]) == e.cs
    ensures !e.thrown ==> Onward(runs, e, es, g, full, done + rest[0], q, |rest[0]|, end, l, last)
  {
    FirstPart(rest, full, q, q + |rest[0]|);
    e, es, end := LossPiece(runs, m, ms, g, full, done, q, l, rest[0], w, last);
  }

  /** A cut that is not harmless falls inside a token. */
  lemma HarmfulState(m: Machine, full: string, q: nat, l: nat)
    requires OnItsWay(m, full, q, l) && !Resting(m.cs) && m.cs != LastReturn
    ensures q > 0 && (InToken(m.cs) || InVersion(m.cs))
  {
  }

  /** What a harmful cut loses. */
  function Harm(s: State, verb: nat, version: nat): Watch {
    Watch(verb, version, if InVersion(s) then Version else Token)
  }

  /** With a harmful cut, something lost shows at the end. */
  lemma {:induction false} HarmShows(runs: Runner<Machine>, m: Machine, ms: Machine, g: Grammar, full: string,
                                     done: string, q: nat, l: nat, rest: seq<string>, verb: nat, version: nat,
                                     last: Machine) returns (w: Watch)
    requires AtCut(m, ms, g, full, done, q, l) && Shaped(full, l) && verb < 34 && |METHODS[verb]| == l
    requires PartOf(Whole(rest), full, q) && Leads(runs, full, ms, q, last) && !HarmlessCuts(g, done, rest, version)
    ensures w.verb == verb && w.version == version && w.kind != Silence && Shows(CallAll(m, rest), last, w)
    decreases |rest|
  {
    var e, es, end := LossOn(runs, m, ms, g, full, done, q, l, rest, Watch(verb, version, Token), last);
    w := Harm(e.cs, verb, version);
    if !e.thrown && e.cs != Done {
      var next, left := done + rest[0], rest[1..];
      if HarmlessCut(g, e.cs, next, left, version) {
        w := HarmShows(runs, e, es, g, full, next, end, l, left, verb, version, last);
      } else {
        HarmfulState(es, full, end, l);
        CutLoses(e, es, full, q, |rest[0]|, end, l, w);
        LossStays(runs, e, es, g, full, next, end, l, left, w, last);
      }
    }
  }
}
