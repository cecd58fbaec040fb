/**
 Text of HTTP messages: character classes, decimal numbers as `<<` prints and `strtol` reads them, and
 the case-insensitive header map. A byte is a `char`; the machines treat all chars above 127 alike.
 */
module HttpText {

  const TAB: char := '\t'
  const LF: char := '\n'
  const CR: char := '\r'
  const CRLF: string := [CR, LF]

  // ---------------------------------------------------------------------------------------
  // Characters
  // ---------------------------------------------------------------------------------------

  predicate IsDigit(c: char) {
    '0' <= c <= '9'
  }

  predicate IsHex(c: char) {
    IsDigit(c) || 'A' <= c <= 'F' || 'a' <= c <= 'f'
  }

  predicate IsToken(c: char) {
    || c == '!' || '#' <= c <= '\'' || '*' <= c <= '+' || '-' <= c <= '.' || IsDigit(c)
    || 'A' <= c <= 'Z' || '^' <= c <= 'z' || c == '|' || c == '~'
  }

  function Lower(c: char): char {
    if 'A' <= c <= 'Z' then (c as int + 32) as char else c
  }

  function LowerAll(s: string): (r: string)
    ensures |r| == |s|
    ensures forall i :: 0 <= i < |s| ==> r[i] == Lower(s[i])
  {
    seq(|s|, i requires 0 <= i < |s| => Lower(s[i]))
  }

  predicate AllDigits(s: string) {
    forall i :: 0 <= i < |s| ==> IsDigit(s[i])
  }

  /** No line break. */
  ghost predicate OneLine(s: string) {
    forall i :: 0 <= i < |s| ==> s[i] != CR && s[i] != LF
  }

  /** `s` without its leading blanks. */
  function TrimLeft(s: string, blanks: string): string {
    if s == "" || s[0] !in blanks then s else TrimLeft(s[1..], blanks)
  }

  /** Exactly the leading blanks go; none go exactly when there are none. */
  lemma {:induction false} TrimExact(s: string, blanks: string)
    ensures var t := TrimLeft(s, blanks);
            && |t| <= |s| && t == s[|s| - |t|..]
            && (t != "" ==> t[0] !in blanks)
            && (forall i :: 0 <= i < |s| - |t| ==> s[i] in blanks)
            && (t == s <==> s == "" || s[0] !in blanks)
    decreases |s|
  {
    if s != "" && s[0] in blanks {
      TrimExact(s[1..], blanks);
    }
  }

  // ---------------------------------------------------------------------------------------
  // Numbers
  // ---------------------------------------------------------------------------------------

  function Digit(d: nat): (c: char)
    requires d < 10
    ensures IsDigit(c) && Value(c) == d
  {
    (d + 48) as char
  }

  function Value(c: char): int {
    c as int - 48
  }

  /** How `<<` prints an unsigned number. */
  function Decimal(n: nat): (s: string)
    ensures s != "" && AllDigits(s)
  {
    if n < 10 then [Digit(n)] else Decimal(n / 10) + [Digit(n % 10)]
  }

  function Number(s: string): (n: int)
    ensures AllDigits(s) ==> n >= 0
  {
    if s == "" then 0 else 10 * Number(s[..|s| - 1]) + Value(s[|s| - 1])
  }

  lemma {:induction false} NumberOfDecimal(n: nat)
    ensures Number(Decimal(n)) == n
  {
    if n >= 10 {
      NumberOfDecimal(n / 10);
      assert Decimal(n)[..|Decimal(n)| - 1] == Decimal(n / 10);
    } else {
      assert Decimal(n)[..0] == "";
    }
  }

  /** The digits a number starts with. */
  function LeadingDigits(s: string): (r: string)
    ensures AllDigits(r)
  {
    if s == "" || !IsDigit(s[0]) then "" else [s[0]] + LeadingDigits(s[1..])
  }

  lemma {:induction false} LeadingDigitsEnd(d: string, rest: string)
    requires AllDigits(d) && rest != "" && !IsDigit(rest[0])
    ensures LeadingDigits(d + rest) == d
    decreases |d|
  {
    if d == "" {
      assert d + rest == rest;
    } else {
      LeadingDigitsEnd(d[1..], rest);
      assert (d + rest)[1..] == d[1..] + rest;
      assert d == [d[0]] + d[1..];
    }
  }

  const LONG_MAX: int := 0x7fff_ffff_ffff_ffff

  /** `strtol` on text that starts with a digit: saturating. */
  function Strtol(s: string): int {
    var n := Number(LeadingDigits(s));
    if n > LONG_MAX then LONG_MAX else n
  }

  /** All of a run of digits, as a `long` stored in an `int`. */
  function ReadInt(digits: string): int {
    var n := Number(digits);
    ToInt32(if n > LONG_MAX then LONG_MAX else n)
  }

  /** A `long` stored in an `int`. */
  function ToInt32(n: int): (r: int)
    ensures -0x8000_0000 <= r < 0x8000_0000
    ensures r == n <==> -0x8000_0000 <= n < 0x8000_0000
  {
    var u := n % 0x1_0000_0000;
    if u < 0x8000_0000 then u else u - 0x1_0000_0000
  }

  /** A decimal read back into an `int` is right exactly when it fits. */
  lemma DecimalReadsBack(n: nat)
    ensures ReadInt(Decimal(n)) == n <==> n < 0x8000_0000
  {
    NumberOfDecimal(n);
  }

  // ---------------------------------------------------------------------------------------
  // Places in a buffer
  // ---------------------------------------------------------------------------------------

  /** `text` stands in `buf` at offset `p`. */
  ghost predicate At(buf: string, p: nat, text: string) {
    p + |text| <= |buf| && forall i :: 0 <= i < |text| ==> buf[p + i] == text[i]
  }

  lemma AtSlice(buf: string, p: nat, text: string)
    requires At(buf, p, text)
    ensures buf[p..p + |text|] == text
  {
  }

  lemma AtSplit(buf: string, p: nat, a: string, b: string)
    ensures At(buf, p, a + b) <==> At(buf, p, a) && At(buf, p + |a|, b)
  {
    assert forall i :: 0 <= i < |a| ==> (a + b)[i] == a[i];
    if At(buf, p, a + b) {
      forall i | 0 <= i < |b| ensures buf[p + |a| + i] == b[i] {
        assert buf[p + (|a| + i)] == (a + b)[|a| + i];
      }
    }
    if At(buf, p, a) && At(buf, p + |a|, b) {
      forall i | 0 <= i < |a + b| ensures buf[p + i] == (a + b)[i] {
        if i >= |a| {
          assert buf[p + |a| + (i - |a|)] == b[i - |a|];
        }
      }
    }
  }

  /** `std::string(buffer + from, to - from)`, for the part that lies in the buffer. */
  function Text(buf: string, from: nat, to: nat): string {
    if from <= to <= |buf| then buf[from..to] else if from <= |buf| then buf[from..] else ""
  }

  /** `strtol` at a run of digits that ends in the buffer reads the run. */
  lemma StrtolAt(buf: string, p: nat, digits: string, b: char)
    requires AllDigits(digits) && !IsDigit(b) && At(buf, p, digits + [b])
    ensures ToInt32(Strtol(buf[p..])) == ReadInt(digits)
  {
    var n := |digits|;
    AtSlice(buf, p, digits + [b]);
    assert buf[p..] == buf[p..p + n + 1] + buf[p + n + 1..] == digits + ([b] + buf[p + n + 1..]);
    LeadingDigitsEnd(digits, [b] + buf[p + n + 1..]);
  }

  lemma AtFirst(buf: string, p: nat, t: string)
    requires At(buf, p, t) && t != ""
    ensures At(buf, p, [t[0]]) && At(buf, p + 1, t[1..])
  {
    assert t == [t[0]] + t[1..];
    AtSplit(buf, p, [t[0]], t[1..]);
  }

  lemma FourPlaces(buf: string, a: string, b: string, c: string, d: string) returns (p1: nat, p2: nat, p3: nat)
    requires At(buf, 0, a + (b + (c + d)))
    ensures p1 == |a| && p2 == p1 + |b| && p3 == p2 + |c|
    ensures At(buf, 0, a) && At(buf, p1, b) && At(buf, p2, c) && At(buf, p3, d)
  {
    AtSplit(buf, 0, a, b + (c + d));
    AtSplit(buf, |a|, b, c + d);
    AtSplit(buf, |a| + |b|, c, d);
    p1, p2, p3 := |a|, |a| + |b|, |a| + |b| + |c|;
  }

  lemma AtChar(buf: string, p: nat, text: string, i: nat)
    requires At(buf, p, text) && i < |text|
    ensures p + i < |buf| && buf[p + i] == text[i]
  {
  }

  // ---------------------------------------------------------------------------------------
  // The header map
  // ---------------------------------------------------------------------------------------

  datatype Header = Header(name: string, value: string)

  /** A map ordered by `strcasecmp`: one entry for all spellings of a name, under the lower-case one. */
  type Headers = map<string, Header>

  ghost predicate KeyedByName(h: Headers) {
    forall k :: k in h ==> LowerAll(h[k].name) == k
  }

  /** `m_headers[name] = value`: an entry keeps the spelling it was made with. */
  function SetHeader(h: Headers, name: string, value: string): (r: Headers)
  {
    var k := LowerAll(name);
    h[k := Header(if k in h then h[k].name else name, value)]
  }

  /** `order` lists the keys of `h`, each once. */
  ghost predicate Enumerates(order: seq<string>, h: Headers) {
    && (forall i :: 0 <= i < |order| ==> order[i] in h)
    && (forall k :: k in h ==> k in order)
    && Distinct(order)
  }

  function ConnectionWord(close: bool): string {
    if close then "close" else "keep-alive"
  }

  /** What a reader that strips `blanks` makes of the headers of a printed message, key by key. */
  function Expected(h: Headers, close: bool, body: string, blanks: string): Headers {
    map k | k in h.Keys + {"connection"} + (if body == "" then {} else {"content-length"}) ::
      if k == "connection" then Header(k, ConnectionWord(close))
      else if k == "content-length" && body != "" then Header(if k in h then h[k].name else k, Decimal(|body|))
      else Header(h[k].name, TrimLeft(h[k].value, blanks))
  }

  /** Header by header, `connection` left out. */
  function SetAll(base: Headers, h: Headers, order: seq<string>, blanks: string): Headers
    requires forall i :: 0 <= i < |order| ==> order[i] in h
    decreases |order|
  {
    if order == [] then base
    else
      var k := order[0];
      var next := if k == "connection" then base else SetHeader(base, h[k].name, TrimLeft(h[k].value, blanks));
      SetAll(next, h, order[1..], blanks)
  }

  ghost predicate Distinct(order: seq<string>) {
    forall i, j :: 0 <= i < j < |order| ==> order[i] != order[j]
  }

  /** Setting distinct new headers adds exactly them. */
  lemma {:induction false} SetAllAdds(base: Headers, h: Headers, order: seq<string>, blanks: string, k: string)
    requires KeyedByName(h) && Distinct(order) && forall i :: 0 <= i < |order| ==> order[i] in h
    requires forall i :: 0 <= i < |order| && order[i] != "connection" ==> order[i] !in base
    ensures k in SetAll(base, h, order, blanks) <==> k in base || (k in order && k != "connection")
    ensures k in base ==> SetAll(base, h, order, blanks)[k] == base[k]
    ensures k !in base && k in order && k != "connection" ==>
              SetAll(base, h, order, blanks)[k] == Header(h[k].name, TrimLeft(h[k].value, blanks))
    decreases |order|
  {
    if order != [] {
      var first, rest := order[0], order[1..];
      assert order == [first] + rest;
      var next := if first == "connection" then base
                  else SetHeader(base, h[first].name, TrimLeft(h[first].value, blanks));
      assert Distinct(rest) && first !in rest;
      assert next.Keys <= base.Keys + {first};
      SetAllAdds(next, h, rest, blanks, k);
    }
  }

  function WithLength(h: Headers, body: string): Headers {
    if body == "" then h else SetHeader(h, "content-length", Decimal(|body|))
  }

  lemma LowerWords()
    ensures LowerAll("connection") == "connection" && LowerAll("content-length") == "content-length"
  {
  }

  ghost predicate SameAt(a: Headers, b: Headers, k: string) {
    (k in a <==> k in b) && (k in a ==> a[k] == b[k])
  }

  lemma SameEverywhere(a: Headers, b: Headers)
    requires forall k :: SameAt(a, b, k)
    ensures a == b
  {
    assert forall k :: k in a ==> SameAt(a, b, k);
    assert forall k :: k in b ==> SameAt(a, b, k);
  }

  /** The map built from `all`, which has every header but `connection` and `content-length`. */
  lemma ExpectedAt(all: Headers, h: Headers, close: bool, body: string, blanks: string, k: string)
    requires k in all <==> k in h || k == "connection"
    requires k in all ==>
               all[k] == if k == "connection" then Header(k, ConnectionWord(close))
                         else Header(h[k].name, TrimLeft(h[k].value, blanks))
    ensures SameAt(WithLength(all, body), Expected(h, close, body, blanks), k)
  {
    LowerWords();
  }

  /** The order of a response: the headers, then `connection`, then `content-length`. */
  lemma ConnectionLast(h: Headers, order: seq<string>, close: bool, body: string, blanks: string)
    requires KeyedByName(h) && Enumerates(order, h)
    ensures WithLength(SetHeader(SetAll(map[], h, order, blanks), "connection", ConnectionWord(close)), body)
         == Expected(h, close, body, blanks)
  {
    LowerWords();
    var own := SetAll(map[], h, order, blanks);
    SetAllAdds(map[], h, order, blanks, "connection");
    var all := SetHeader(own, "connection", ConnectionWord(close));
    var r := WithLength(all, body);
    forall k ensures SameAt(r, Expected(h, close, body, blanks), k) {
      SetAllAdds(map[], h, order, blanks, k);
      ExpectedAt(all, h, close, body, blanks, k);
    }
    SameEverywhere(r, Expected(h, close, body, blanks));
  }

  /** The order of a request: `connection`, then the headers, then `content-length`. */
  lemma ConnectionFirst(h: Headers, order: seq<string>, close: bool, body: string, blanks: string)
    requires KeyedByName(h) && Enumerates(order, h)
    ensures WithLength(SetAll(SetHeader(map[], "connection", ConnectionWord(close)), h, order, blanks), body)
         == Expected(h, close, body, blanks)
  {
    LowerWords();
    var base := SetHeader(map[], "connection", ConnectionWord(close));
    assert base == map["connection" := Header("connection", ConnectionWord(close))];
    var all := SetAll(base, h, order, blanks);
    var r := WithLength(all, body);
    forall k ensures SameAt(r, Expected(h, close, body, blanks), k) {
      SetAllAdds(base, h, order, blanks, k);
      ExpectedAt(all, h, close, body, blanks, k);
    }
    SameEverywhere(r, Expected(h, close, body, blanks));
  }

  /** A value is its leading blanks and the rest. */
  lemma SplitBlanks(v: string, blanks: string) returns (lead: string, t: string)
    ensures t == TrimLeft(v, blanks) && v == lead + t && (t == "" || t[0] !in blanks)
    ensures forall i :: 0 <= i < |lead| ==> lead[i] in blanks
  {
    t := TrimLeft(v, blanks);
    TrimExact(v, blanks);
    lead := v[..|v| - |t|];
  }

  /** The places of the parts of a header line. */
  lemma LinePlaces(buf: string, p: nat, name: string, blanks: string, t: string, q: nat)
      returns (p1: nat, p2: nat, p3: nat)
    requires At(buf, p, name + ":" + (blanks + t) + CRLF) && q == p + |name + ":" + (blanks + t) + CRLF|
    ensures p1 == p + |name| + 1 && p2 == p1 + |blanks| && p3 == p2 + |t| && q == p3 + 2
    ensures At(buf, p, name + ":") && At(buf, p1, blanks) && At(buf, p2, t + CRLF) && At(buf, p2, t)
    ensures At(buf, p3, CRLF)
  {
    assert name + ":" + (blanks + t) + CRLF == (name + ":") + (blanks + (t + CRLF));
    AtSplit(buf, p, name + ":", blanks + (t + CRLF));
    AtSplit(buf, p + |name| + 1, blanks, t + CRLF);
    AtSplit(buf, p + |name| + 1 + |blanks|, t, CRLF);
    p1, p2, p3 := p + |name| + 1, p + |name| + 1 + |blanks|, p + |name| + 1 + |blanks| + |t|;
  }
}
