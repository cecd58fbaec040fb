/**
 What comes back of the headers of a printed message, said header by header.
 */
module HeaderReturns {
  import opened HttpText

  /** `t` is `v` without its leading blanks. */
  ghost predicate Stripped(v: string, t: string, blanks: string) {
    && |t| <= |v| && t == v[|v| - |t|..]
    && (forall i :: 0 <= i < |v| - |t| ==> v[i] in blanks)
    && (t != "" ==> t[0] !in blanks)
  }

  /** `s` is the number `n` in decimal, without leading zeros. */
  predicate Says(s: string, n: nat) {
    AllDigits(s) && Number(s) == n && s != "" && (s[0] == '0' ==> s == "0")
  }

  /** The value header `k` comes back with. */
  ghost predicate ValueBack(h: Headers, k: string, close: bool, body: string, blanks: string, value: string)
    requires k == "connection" || k == "content-length" || k in h
    requires k == "content-length" ==> body != "" || k in h
  {
    if k == "connection" then value == if close then "close" else "keep-alive"
    else if k == "content-length" && body != "" then Says(value, |body|)
    else Stripped(h[k].value, value, blanks)
  }

  /** Every header of the message comes back in its own spelling, its value without leading blanks, but for
      `connection`, which says whether the sender closes, and a `content-length` beside a body, which says
      how long that is; and there is no other. */
  ghost predicate ComeBack(h: Headers, close: bool, body: string, blanks: string, got: Headers) {
    && (forall k :: k in got <==> k in h || k == "connection" || (k == "content-length" && body != ""))
    && (forall k :: k in got ==>
          && got[k].name == (if k in h && k != "connection" then h[k].name else k)
          && ValueBack(h, k, close, body, blanks, got[k].value))
  }

  lemma {:induction false} NoLeadingZero(n: nat)
    ensures Decimal(n)[0] == '0' <==> n == 0
    ensures |Decimal(n)| == 1 <==> n < 10
  {
    if n >= 10 {
      NoLeadingZero(n / 10);
    }
  }

  lemma DecimalSays(n: nat)
    ensures Says(Decimal(n), n)
  {
    NumberOfDecimal(n);
    NoLeadingZero(n);
  }

  lemma ExpectedComesBack(h: Headers, close: bool, body: string, blanks: string)
    ensures ComeBack(h, close, body, blanks, Expected(h, close, body, blanks))
  {
    var got := Expected(h, close, body, blanks);
    DecimalSays(|body|);
    forall k | k in got ensures ValueBack(h, k, close, body, blanks, got[k].value) {
      if k in h {
        TrimExact(h[k].value, blanks);
      }
    }
  }
}
