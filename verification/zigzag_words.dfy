/**
 The zigzag decoder of the source, bit by bit on a word of any number of bytes, is the decoder of the
 typed reads.
 */
module ZigzagWords {
  import opened Codec

  /** A word, its lowest bit first. */
  type Word = seq<bool>

  function Bit(b: bool): nat {
    if b then 1 else 0
  }

  function Power(n: nat): (p: nat)
    ensures p > 0
  {
    if n == 0 then 1 else 2 * Power(n - 1)
  }

  /** What the bits say. */
  function Unsigned(w: Word): nat {
    if w == [] then 0 else Bit(w[0]) + 2 * Unsigned(w[1..])
  }

  function ShiftRight(w: Word): (r: Word)
    requires w != []
    ensures |r| == |w|
  {
    w[1..] + [false]
  }

  function Xor(a: Word, b: Word): (r: Word)
    requires |a| == |b|
    ensures |r| == |a|
  {
    seq(|a|, i requires 0 <= i < |a| => a[i] != b[i])
  }

  function Everywhere(n: nat, b: bool): (w: Word)
    ensures |w| == n
  {
    seq(n, _ => b)
  }

  /** `(v >> 1) ^ -(v & 1)`: the negation of the lowest bit has that bit in every place. */
  function ShippedDecode(w: Word): (r: Word)
    requires w != []
    ensures |r| == |w|
  {
    Xor(ShiftRight(w), Everywhere(|w|, w[0]))
  }

  lemma {:induction false} UnsignedBound(w: Word)
    ensures Unsigned(w) < Power(|w|)
    decreases |w|
  {
    if w != [] {
      UnsignedBound(w[1..]);
    }
  }

  /** The lowest bit in every place is minus that bit, wrapped around. */
  lemma {:induction false} EverywhereIsNegation(n: nat, b: bool)
    ensures Unsigned(Everywhere(n, b)) == if b then Power(n) - 1 else 0
    decreases n
  {
    if n > 0 {
      assert Everywhere(n, b)[1..] == Everywhere(n - 1, b);
      EverywhereIsNegation(n - 1, b);
    }
  }

  lemma {:induction false} AppendZero(w: Word)
    ensures Unsigned(w + [false]) == Unsigned(w)
    decreases |w|
  {
    if w == [] {
      assert w + [false] == [false] && [false][1..] == [];
    } else {
      assert (w + [false])[1..] == w[1..] + [false];
      AppendZero(w[1..]);
    }
  }

  lemma {:induction false} XorValue(w: Word, b: bool)
    ensures Unsigned(Xor(w, Everywhere(|w|, b))) == if b then Power(|w|) - 1 - Unsigned(w) else Unsigned(w)
    decreases |w|
  {
    if w != [] {
      var r := Xor(w, Everywhere(|w|, b));
      assert r[1..] == Xor(w[1..], Everywhere(|w[1..]|, b));
      XorValue(w[1..], b);
      assert r[0] == (w[0] != b);
    }
  }

  /** Every byte doubles the word eight times. */
  lemma {:induction false} PowerOfBytes(n: nat)
    ensures Power(8 * n) == Words(n)
    decreases n
  {
    if n > 0 {
      var p := Power(8 * (n - 1));
      PowerOfBytes(n - 1);
      EightTimes(8 * (n - 1));
      assert 8 * n == 8 * (n - 1) + 8;
    }
  }

  lemma EightTimes(n: nat)
    ensures Power(n + 8) == 256 * Power(n)
  {
    assert Power(n + 2) == 4 * Power(n);
    assert Power(n + 4) == 4 * Power(n + 2);
    assert Power(n + 6) == 4 * Power(n + 4);
    assert Power(n + 8) == 4 * Power(n + 6);
  }

  /** The shipped decoder, its result taken as a signed word, is `ZigDecode`. */
  lemma ShippedDecodeIsZigDecode(w: Word, bytes: nat)
    requires bytes > 0 && |w| == 8 * bytes
    ensures Unsigned(w) < Words(bytes) && Unsigned(ShippedDecode(w)) < Words(bytes)
    ensures ToSigned(Unsigned(ShippedDecode(w)), Words(bytes)) == ZigDecode(Unsigned(w), Words(bytes))
  {
    PowerOfBytes(bytes);
    UnsignedBound(w);
    UnsignedBound(ShippedDecode(w));
    AppendZero(w[1..]);
    XorValue(ShiftRight(w), w[0]);
  }

  /** So the shipped decoder undoes the encoder on every value of the word. */
  lemma ShippedDecodeUndoes(v: int, bytes: nat, w: Word)
    requires bytes > 0 && |w| == 8 * bytes && Words(bytes) % 2 == 0 && FitsSigned(v, Words(bytes))
    requires Unsigned(w) == ZigEncode(v, Words(bytes))
    ensures Unsigned(ShippedDecode(w)) < Words(bytes) && ToSigned(Unsigned(ShippedDecode(w)), Words(bytes)) == v
  {
    ShippedDecodeIsZigDecode(w, bytes);
    ZigRoundTrip(v, Words(bytes));
  }
}
