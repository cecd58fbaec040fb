/**
 The header lines both kinds of message print.
 */
module HeaderPrinting {
  import opened HttpText

  function HeaderLine(name: string, sep: string, value: string): string {
    name + sep + value + CRLF
  }

  /** The headers in the order of the map, `connection` left out. */
  function HeaderLines(h: Headers, order: seq<string>, sep: string): string
    requires forall i :: 0 <= i < |order| ==> order[i] in h
    decreases |order|
  {
    if order == [] then ""
    else
      (if order[0] == "connection" then "" else HeaderLine(h[order[0]].name, sep, h[order[0]].value))
      + HeaderLines(h, order[1..], sep)
  }

  function LengthLine(body: string): string {
    if body == "" then "" else HeaderLine("content-length", ": ", Decimal(|body|))
  }

  lemma {:induction false} LinesMore(h: Headers, order: seq<string>, sep: string, i: nat)
    requires i < |order| && forall i :: 0 <= i < |order| ==> order[i] in h
    ensures HeaderLines(h, order[..i + 1], sep) == HeaderLines(h, order[..i], sep) +
              (if order[i] == "connection" then "" else HeaderLine(h[order[i]].name, sep, h[order[i]].value))
    decreases i
  {
    if i == 0 {
      assert order[..1][1..] == [] && order[..0] == [];
    } else {
      assert order[..i + 1][1..] == order[1..][..i] && order[..i][1..] == order[1..][..i - 1];
      LinesMore(h, order[1..], sep, i - 1);
    }
  }

  /** The loop of `dump` over the map, in its order. */
  method DumpHeaders(line: string, h: Headers, order: seq<string>, sep: string) returns (os: string)
    requires forall i :: 0 <= i < |order| ==> order[i] in h
    ensures os == line + HeaderLines(h, order, sep)
  {
    os := line;
    for i := 0 to |order|
      invariant os == line + HeaderLines(h, order[..i], sep)
    {
      LinesMore(h, order, sep, i);
      if order[i] == "connection" {
        continue;
      }
      os := os + HeaderLine(h[order[i]].name, sep, h[order[i]].value);
    }
    assert order[..|order|] == order;
  }

  lemma Joined(a: string, b: string, c: string, d: string, body: string)
    ensures a + b + c + d + body == (a + (b + (c + d))) + body
  {
  }

  /** How a version is printed, the major number in the high four bits. */
  function VersionText(version: nat): string {
    "HTTP/" + Decimal(version / 16) + "." + Decimal(version % 16)
  }

  lemma ShortDecimal(n: nat)
    ensures |Decimal(n)| == 1 ==> n < 10 && Decimal(n) == [Digit(n)]
  {
    if n >= 10 {
      assert |Decimal(n / 10)| >= 1;
    }
  }

  lemma VersionIs(version: nat, minor: nat)
    requires minor < 10
    ensures VersionText(version) <= "HTTP/1." + [Digit(minor)] <==> version == 16 + minor
  {
    var a, b := version / 16, version % 16;
    ShortDecimal(a);
    ShortDecimal(b);
    var text, want := VersionText(version), "HTTP/1." + [Digit(minor)];
    if text <= want {
      assert |text| == 6 + |Decimal(a)| + |Decimal(b)|;
      assert text[5] == want[5] && text[7] == want[7];
    }
  }
}
