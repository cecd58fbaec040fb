/**
 The two runs over one byte and over one piece: what `cut_relation` and `cut_loss` follow is kept.
 */
module CutExact {
  import opened Wrappers
  import opened HttpText
  import opened Scanning
  import opened RequestMachine
  import opened RequestMethods
  import opened Cuts
  import opened CutRelation
  import opened CutLoss

  // ---------------------------------------------------------------------------------------
  // One byte
  // ---------------------------------------------------------------------------------------

  /** The machine after a byte, as long as no callback throws. */
  type Mover = (Machine, char, string, nat) -> Machine

  /** `move` is the table and its actions. The lemmas about whole pieces speak of `move` and of a `run` that
      is `Scan`, so that only the ones about single bytes look inside. */
  ghost predicate Moves(move: Mover) {
    forall m, b, buf, p {:trigger Effect(m, b, buf, p)} ::
      move(m, b, buf, p) == Effect(m, b, buf, p).(cs := Next(m.cs, b, m.grammar))
  }

  function Moved(m: Machine, b: char, buf: string, p: nat): Machine {
    Effect(m, b, buf, p).(cs := Next(m.cs, b, m.grammar))
  }

  lemma MovedMoves()
    ensures Moves((m: Machine, b: char, buf: string, p: nat) => Moved(m, b, buf, p))
  {
  }

  lemma ScanOne(m: Machine, buf: string, p: nat)
    requires p < |buf|
    ensures var v := Step(m, buf[p], buf, p);
            Scan(Step, m, buf, p) == if v.Go? then Scan(Step, v.m, buf, p + 1) else (v.m, if v.Halt? then p + 1 else p)
  {
  }

  /** How a run goes on after a byte that is not refused. */
  lemma RunByte(move: Mover, run: Runner<Machine>, m: Machine, buf: string, p: nat)
    requires Moves(move) && Runs(run, Step, buf) && !m.thrown && p < |buf|
    ensures var e := move(m, buf[p], buf, p);
            && (e.cs == Error ==> run(m, p).0.cs == Error)
            && (e.cs != Error && e.thrown ==> run(m, p).0.thrown && run(m, p).0.cs == m.cs)
            && (e.cs == Sent && !e.thrown ==> run(m, p).0.cs == Sent)
            && (e.cs == Done && !e.thrown ==> run(m, p).0 == e.(bodyStart := p + 1))
            && (e.cs != Error && !Finished(e.cs) && !e.thrown ==> run(m, p) == run(e, p + 1))
  {
    var to := Next(m.cs, buf[p], m.grammar);
    StepKinds(m, buf[p], buf, p, to);
    ScanOne(m, buf, p);
    EffectKeepsState(m, buf[p], buf, p);
    var e := Effect(m, buf[p], buf, p).(cs := to);
    assert run(m, p) == Scan(Step, m, buf, p) && run(e, p + 1) == Scan(Step, e, buf, p + 1);
  }

  lemma NotFromStart(ms: Machine, full: string, p: nat, l: nat, to: State)
    requires OnItsWay(ms, full, p, l) && Shaped(full, l) && p < |full| && to == Next(ms.cs, full[p], ms.grammar)
    ensures ms.cs.Start? ==> to.Method?
  {
  }

  /** The next byte of a text that is taken whole. */
  lemma TakenByte(move: Mover, run: Runner<Machine>, ms: Machine, full: string, q: nat, l: nat) returns (es: Machine)
    requires Moves(move) && Runs(run, Step, full) && OnItsWay(ms, full, q, l) && Shaped(full, l) && q < |full|
    requires run(ms, q).0.cs == Done
    ensures es == move(ms, full[q], full, q) && !es.thrown && es.cs != Error && !es.cs.Outside? && es.cs != Sent
    ensures es.cs != Done ==> OnItsWay(es, full, q + 1, l) && run(ms, q) == run(es, q + 1)
    ensures es.cs == Done ==> run(ms, q).0 == es.(bodyStart := q + 1)
  {
    RunByte(move, run, ms, full, q);
    var to := Next(ms.cs, full[q], ms.grammar);
    es := Effect(ms, full[q], full, q).(cs := to);
    StepKinds(ms, full[q], full, q, to);
    if to != Error {
      TargetPlaced(ms, full, q, l, to);
      NotFromStart(ms, full, q, l, to);
      if !es.thrown && !Finished(to) {
        StepOnItsWay(ms, full, q, l);
      }
    }
  }

  // ---------------------------------------------------------------------------------------
  // One piece
  // ---------------------------------------------------------------------------------------

  /** The two runs before byte `p` of a call that began at `k`, which is byte `q` of the text. */
  ghost predicate Paired(m: Machine, ms: Machine, full: string, k: nat, p: nat, q: nat, l: nat) {
    Lags(m, ms, k, p) && OnItsWay(ms, full, q, l) && q == k + p
  }

  /** A text of the right shape, a part of it, and the number of its method. */
  ghost predicate Fits(buf: string, full: string, k: nat, l: nat, w: Watch) {
    Shaped(full, l) && PartOf(buf, full, k) && w.verb < 34 && |METHODS[w.verb]| == l
  }

  lemma BothLag(move: Mover, m: Machine, ms: Machine, b: char, buf: string, full: string, k: nat, p: nat, q: nat)
    requires Moves(move) && Lags(m, ms, k, p) && q == k + p && Behind(ms, q) && !move(m, b, buf, p).thrown
    ensures Lags(move(m, b, buf, p), move(ms, b, full, q), k, p + 1)
  {
    LagsNext(m, ms, b, buf, full, k, p, q, Next(m.cs, b, m.grammar));
  }

  lemma BothHold(move: Mover, m: Machine, ms: Machine, buf: string, full: string, k: nat, p: nat, q: nat, l: nat,
                 w: Watch)
    requires Moves(move) && Paired(m, ms, full, k, p, q, l) && Fits(buf, full, k, l, w) && p < |buf|
    requires Holds(m, ms, k, w)
    requires !move(m, buf[p], buf, p).thrown && !move(ms, buf[p], full, q).thrown
    requires move(m, buf[p], buf, p).cs != Error && !move(m, buf[p], buf, p).cs.Outside?
    ensures Holds(move(m, buf[p], buf, p), move(ms, buf[p], full, q), k, w)
  {
    var to := Next(m.cs, buf[p], m.grammar);
    var e, es := Effect(m, buf[p], buf, p), Effect(ms, buf[p], full, q);
    HoldsNext(m, ms, buf, full, k, p, q, l, to, w);
  }

  lemma BothOn(move: Mover, m: Machine, ms: Machine, buf: string, full: string, k: nat, p: nat, q: nat, l: nat,
               w: Watch)
    requires Moves(move) && Paired(m, ms, full, k, p, q, l) && Fits(buf, full, k, l, w) && p < |buf|
    requires !move(m, buf[p], buf, p).thrown && !move(ms, buf[p], full, q).thrown
    requires move(m, buf[p], buf, p).cs != Error && !move(m, buf[p], buf, p).cs.Outside?
    ensures Lags(move(m, buf[p], buf, p), move(ms, buf[p], full, q), k, p + 1)
    ensures Holds(m, ms, k, w) ==> Holds(move(m, buf[p], buf, p), move(ms, buf[p], full, q), k, w)
  {
    BothLag(move, m, ms, buf[p], buf, full, k, p, q);
    if Holds(m, ms, k, w) {
      BothHold(move, m, ms, buf, full, k, p, q, l, w);
    }
  }

  lemma HoldsIgnoresBody(m: Machine, ms: Machine, k: nat, w: Watch, a: nat, b: nat)
    requires Holds(m, ms, k, w)
    ensures Holds(m.(bodyStart := a), ms.(bodyStart := b), k, w)
  {
  }

  /** One byte in both runs. */
  lemma ByteOn(move: Mover, run: Runner<Machine>, runs: Runner<Machine>, m: Machine, ms: Machine, buf: string,
               full: string, k: nat, p: nat, q: nat, l: nat, w: Watch)
      returns (e: Machine, es: Machine, p': nat, q': nat)
    requires Moves(move) && Runs(run, Step, buf) && Runs(runs, Step, full)
    requires Paired(m, ms, full, k, p, q, l) && Fits(buf, full, k, l, w) && p < |buf| && runs(ms, q).0.cs == Done
    ensures e == move(m, buf[p], buf, p) && es == move(ms, buf[p], full, q)
    ensures p' == p + 1 && q' == q + 1 && (e.thrown ==> run(m, p).0.thrown)
    ensures !e.thrown && e.cs == Done ==> run(m, p).0 == e.(bodyStart := p') && runs(ms, q).0 == es.(bodyStart := q')
    ensures !e.thrown && e.cs != Done ==>
              Paired(e, es, full, k, p', q', l) && run(m, p) == run(e, p') && runs(ms, q) == runs(es, q')
    ensures !e.thrown && Holds(m, ms, k, w) ==> Holds(e, es, k, w)
  {
    p', q' := p + 1, q + 1;
    PartAt(buf, full, k, p, q);
    es := TakenByte(move, runs, ms, full, q, l);
    e := move(m, buf[p], buf, p);
    RunByte(move, run, m, buf, p);
    SameState(move, m, ms, buf[p], buf, full, p, q);
    if !e.thrown {
      BothOn(move, m, ms, buf, full, k, p, q, l, w);
    }
  }

  lemma SameState(move: Mover, m: Machine, ms: Machine, b: char, buf: string, full: string, p: nat, q: nat)
    requires Moves(move) && m.cs == ms.cs && m.grammar == ms.grammar
    ensures move(m, b, buf, p).cs == move(ms, b, full, q).cs
  {
    var e, es := Effect(m, b, buf, p), Effect(ms, b, full, q);
  }

  /** Both runs over the rest of a piece: the one in calls throws, or both end, or both go on. */
  lemma {:induction false} PieceOn(move: Mover, run: Runner<Machine>, runs: Runner<Machine>, m: Machine, ms: Machine,
                                   buf: string, full: string, k: nat, p: nat, q: nat, l: nat, w: Watch)
    returns (e: Machine, es: Machine, end: nat)
    requires Moves(move) && Runs(run, Step, buf) && Runs(runs, Step, full)
    requires Paired(m, ms, full, k, p, q, l) && Fits(buf, full, k, l, w) && p <= |buf| && runs(ms, q).0.cs == Done
    ensures e == run(m, p).0 && end == k + |buf|
    ensures e.thrown || e.cs == Done || (Paired(e, es, full, k, |buf|, end, l) && runs(ms, q) == runs(es, end))
    ensures !e.thrown && e.cs == Done ==> es == runs(ms, q).0
    ensures Holds(m, ms, k, w) && !e.thrown ==> Holds(e, es, k, w)
    decreases |buf| - p
  {
    end := k + |buf|;
    if p == |buf| {
      e, es := m, ms;
      RunEnds(run, m, buf);
    } else {
      var m1, ms1, p', q' := ByteOn(move, run, runs, m, ms, buf, full, k, p, q, l, w);
      if m1.thrown {
        e, es := run(m, p).0, ms;
      } else if m1.cs == Done {
        e, es := m1.(bodyStart := p'), ms1.(bodyStart := q');
        if Holds(m, ms, k, w) {
          HoldsIgnoresBody(m1, ms1, k, w, p', q');
        }
      } else {
        e, es, end := PieceOn(move, run, runs, m1, ms1, buf, full, k, p', q', l, w);
      }
    }
  }

  lemma RunEnds(run: Runner<Machine>, m: Machine, buf: string)
    requires Runs(run, Step, buf)
    ensures run(m, |buf|) == (m, |buf|)
  {
    assert Scan(Step, m, buf, |buf|) == (m, |buf|);
  }
}
