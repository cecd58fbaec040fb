/**
 A target with an authority, read through a sub-table.
 */
module AuthorityTargets {
  import opened Wrappers
  import opened HttpText
  import opened RequestMachine
  import opened Scanning
  import opened Cuts
  import opened Sessions

  /** A sub-table in which a letter is a host and a slash ends it, as in the generated code. */
  predicate TakesHost(g: Grammar) {
    && OutsideEdge(g, 34, 'h') == Some(Edge(Stay(35), false, false))
    && OutsideEdge(g, 35, '/') == Some(Edge(ToPath, false, false))
  }

  /** The states along a text. */
  ghost predicate Along(g: Grammar, ss: seq<State>, text: string) {
    |ss| == |text| + 1 && forall i :: 0 <= i < |text| ==> Control(ss[i], text[i], g) == Go(ss[i + 1])
  }

  lemma {:induction false} FeedAlong(g: Grammar, ss: seq<State>, text: string)
    requires Along(g, ss, text)
    ensures Feed(RequestTable(g), ss[0], text) == More(ss[|text|])
    decreases |text|
  {
    if text != "" {
      assert RequestTable(g)(ss[0], text[0]) == Go(ss[1]);
      assert Along(g, ss[1..], text[1..]) by {
        forall i | 0 <= i < |text| - 1 ensures Control(ss[1..][i], text[1..][i], g) == Go(ss[1..][i + 1]) {
          assert Control(ss[i + 1], text[i + 1], g) == Go(ss[i + 2]);
        }
      }
      FeedAlong(g, ss[1..], text[1..]);
    }
  }

  lemma ToThePath(g: Grammar)
    requires TakesHost(g)
    ensures Feed(RequestTable(g), Start, "GET //h/") == More(In(Path, 0))
  {
    var ss := [Start, Method(1), Method(2), Method(3), Target, FirstSlash, Outside(34), Outside(35), In(Path, 0)];
    FeedAlong(g, ss, "GET //h/");
  }

  lemma ToTheVersion(g: Grammar)
    ensures Feed(RequestTable(g), In(Path, 0), " HTTP/1.") == More(Protocol(7))
  {
    var ss := [In(Path, 0), Protocol(0), Protocol(1), Protocol(2), Protocol(3), Protocol(4), Protocol(5), Protocol(6),
               Protocol(7)];
    FeedAlong(g, ss, " HTTP/1.");
  }

  lemma ToTheEnd(g: Grammar)
    ensures Feed(RequestTable(g), Protocol(7), "1\r\n\r" + "\n") == Stopped(Done, 5, true)
  {
    FeedAlong(g, [Protocol(7), Minor, Return, Line, LastReturn], "1\r\n\r");
    FeedSplit(RequestTable(g), Protocol(7), "1\r\n\r", "\n");
    LastByte(g);
  }

  lemma LastByte(g: Grammar)
    ensures Feed(RequestTable(g), LastReturn, "\n") == Stopped(Done, 1, true)
  {
  }

  lemma FeedPart<S>(table: Table<S>, s: S, a: string, b: string, s': S, r: Feeding<S>)
    requires Feed(table, s, a) == More(s') && Feed(table, s', b) == r
    ensures Feed(table, s, a + b) == Later(r, |a|)
  {
    FeedSplit(table, s, a, b);
  }

  /** `GET //h/` is a request like any other. */
  lemma AuthorityFinishes(g: Grammar)
    requires TakesHost(g)
    ensures HeaderVerdict(g, "GET //h/" + (" HTTP/1." + ("1\r\n\r" + "\n"))) == Stopped(Done, 21, true)
  {
    ToThePath(g);
    ToTheVersion(g);
    ToTheEnd(g);
    var end := "1\r\n\r" + "\n";
    FeedPart(RequestTable(g), In(Path, 0), " HTTP/1.", end, Protocol(7), Stopped(Done, 5, true));
    FeedPart(RequestTable(g), Start, "GET //h/", " HTTP/1." + end, In(Path, 0), Stopped(Done, 13, true));
  }
}
