/**
 The loop every generated parser runs: look at one byte, go on, stop after it, or stop at it.
 */
module Scanning {
  import opened HttpText

  datatype Verdict<M> = Go(m: M) | Halt(m: M) | Fail(m: M)

  type Stepper<!M> = (M, char, string, nat) -> Verdict<M>

  /** Running from offset `p`: the machine and the offset it stopped at. */
  function Scan<M>(step: Stepper<M>, m: M, buf: string, p: nat): (r: (M, nat))
    requires p <= |buf|
    ensures p <= r.1 <= |buf|
    decreases |buf| - p
  {
    if p == |buf| then (m, p)
    else
      match step(m, buf[p], buf, p)
      case Go(m') => Scan(step, m', buf, p + 1)
      case Halt(m') => (m', p + 1)
      case Fail(m') => (m', p)
  }

  /** The loop itself. */
  method Loop<M>(step: Stepper<M>, start: M, buf: string) returns (m: M, p: nat)
    ensures (m, p) == Scan(step, start, buf, 0)
  {
    m, p := start, 0;
    while p < |buf|
      invariant p <= |buf| && Scan(step, m, buf, p) == Scan(step, start, buf, 0)
    {
      var v := step(m, buf[p], buf, p);
      m := v.m;
      match v {
        case Go(_) => p := p + 1;
        case Halt(_) => return m, p + 1;
        case Fail(_) => return;
      }
    }
  }

  type Runner<!M> = (M, nat) -> (M, nat)

  /** `run` is the scan of `buf` by `step`. The lemmas below speak of `run`, which nothing unfolds. */
  ghost predicate Runs<M(!new)>(run: Runner<M>, step: Stepper<M>, buf: string) {
    forall m, p: nat {:trigger Scan(step, m, buf, p)} :: p <= |buf| ==> run(m, p) == Scan(step, m, buf, p)
  }

  /** `Scan` itself, as a runner. */
  function Running<M>(step: Stepper<M>, buf: string): Runner<M> {
    (m: M, p: nat) => if p <= |buf| then Scan(step, m, buf, p) else (m, p)
  }

  lemma RunningRuns<M(!new)>(step: Stepper<M>, buf: string)
    ensures Runs(Running(step, buf), step, buf)
  {
  }

  lemma One<M(!new)>(run: Runner<M>, step: Stepper<M>, m: M, buf: string, p: nat, b: char, m': M)
    requires Runs(run, step, buf) && At(buf, p, [b]) && step(m, b, buf, p) == Go(m')
    ensures run(m, p) == run(m', p + 1)
  {
    AtChar(buf, p, [b], 0);
    assert Scan(step, m, buf, p) == Scan(step, m', buf, p + 1);
  }

  lemma Stop<M(!new)>(run: Runner<M>, step: Stepper<M>, m: M, buf: string, p: nat, b: char, m': M)
    requires Runs(run, step, buf) && At(buf, p, [b]) && step(m, b, buf, p) == Halt(m')
    ensures run(m, p) == (m', p + 1)
  {
    AtChar(buf, p, [b], 0);
    assert Scan(step, m, buf, p) == (m', p + 1);
  }

  lemma Refuse<M(!new)>(run: Runner<M>, step: Stepper<M>, m: M, buf: string, p: nat, b: char, m': M)
    requires Runs(run, step, buf) && At(buf, p, [b]) && step(m, b, buf, p) == Fail(m')
    ensures run(m, p) == (m', p)
  {
    AtChar(buf, p, [b], 0);
    assert Scan(step, m, buf, p) == (m', p);
  }

  /** A text with the machine before each of its bytes given. */
  lemma {:induction false} Chain<M(!new)>(run: Runner<M>, step: Stepper<M>, at: nat -> M, buf: string, p: nat,
                                          t: string, i: nat)
    requires Runs(run, step, buf) && i <= |t| && At(buf, p, t)
    requires forall j :: 0 <= j < |t| ==> step(at(j), t[j], buf, p + j) == Go(at(j + 1))
    ensures run(at(i), p + i) == run(at(|t|), p + |t|)
    decreases |t| - i
  {
    if i < |t| {
      AtSplit(buf, p, t[..i], t[i..]);
      AtFirst(buf, p + i, t[i..]);
      One(run, step, at(i), buf, p + i, t[i], at(i + 1));
      Chain(run, step, at, buf, p, t, i + 1);
    }
  }

  /** `at(w)` is the machine once the token so far is `w`, as long as its bytes are `ok`. */
  ghost predicate Absorbs<M(!new)>(step: Stepper<M>, at: string -> M, ok: char -> bool, buf: string) {
    forall w, b, q: nat :: w != "" && ok(b) ==> step(at(w), b, buf, q) == Go(at(w + [b]))
  }

  /** The rest of a token. */
  lemma {:induction false} Absorb<M(!new)>(run: Runner<M>, step: Stepper<M>, at: string -> M, ok: char -> bool,
                                           buf: string, p: nat, w: string, t: string)
    requires Runs(run, step, buf) && Absorbs(step, at, ok, buf) && w != "" && At(buf, p, t)
    requires forall i :: 0 <= i < |t| ==> ok(t[i])
    ensures run(at(w), p) == run(at(w + t), p + |t|)
    decreases |t|
  {
    if t == "" {
      assert w + t == w;
    } else {
      AtFirst(buf, p, t);
      One(run, step, at(w), buf, p, t[0], at(w + [t[0]]));
      Absorb(run, step, at, ok, buf, p + 1, w + [t[0]], t[1..]);
      assert w + [t[0]] + t[1..] == w + t;
    }
  }

  /** A whole token, its first byte being special. */
  lemma AbsorbToken<M(!new)>(run: Runner<M>, step: Stepper<M>, at: string -> M, ok: char -> bool, m: M,
                             buf: string, p: nat, t: string)
    requires Runs(run, step, buf) && Absorbs(step, at, ok, buf) && t != "" && At(buf, p, t)
    requires forall i :: 1 <= i < |t| ==> ok(t[i])
    requires step(m, t[0], buf, p) == Go(at([t[0]]))
    ensures run(m, p) == run(at(t), p + |t|)
  {
    AtFirst(buf, p, t);
    One(run, step, m, buf, p, t[0], at([t[0]]));
    Absorb(run, step, at, ok, buf, p + 1, [t[0]], t[1..]);
    assert [t[0]] + t[1..] == t;
  }

  /** A whole token and the byte that ends it. */
  lemma TokenThen<M(!new)>(run: Runner<M>, step: Stepper<M>, at: string -> M, ok: char -> bool, m: M,
                           buf: string, p: nat, t: string, c: char, m': M)
    requires Runs(run, step, buf) && Absorbs(step, at, ok, buf) && t != "" && At(buf, p, t + [c])
    requires forall i :: 1 <= i < |t| ==> ok(t[i])
    requires step(m, t[0], buf, p) == Go(at([t[0]]))
    requires step(at(t), c, buf, p + |t|) == Go(m')
    ensures run(m, p) == run(m', p + |t| + 1)
  {
    AtSplit(buf, p, t, [c]);
    AbsorbToken(run, step, at, ok, m, buf, p, t);
    One(run, step, at(t), buf, p + |t|, c, m');
  }
}
