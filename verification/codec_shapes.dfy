/**
 The wire formats byte by byte: how many bytes each typed write takes, and which; and what the readers make
 of any bytes at all, not only of those the writers made.
 */
module CodecShapes {
  import opened Wrappers
  import opened Codec

  // ---------------------------------------------------------------------------------------
  // Fixed width
  // ---------------------------------------------------------------------------------------

  lemma {:induction false} LittleByteAt(v: nat, n: nat, i: nat)
    requires i < n
    ensures LittleBytes(v, n)[i] == (v / Words(i)) % 256
    decreases n
  {
    if i > 0 {
      LittleByteAt(v / 256, n - 1, i - 1);
      DivDiv(v, Words(i - 1));
    }
  }

  lemma DivDiv(v: nat, m: nat)
    requires m > 0
    ensures (v / 256) / m == v / (256 * m)
  {
    var a, b := v / 256, (v / 256) / m;
    var x, y := v % 256, a % m;
    assert v == 256 * a + x && a == m * b + y;
    assert 256 * a == 256 * (m * b) + 256 * y;
    assert 256 * (m * b) == (256 * m) * b;
    var r := 256 * y + x;
    assert v == (256 * m) * b + r && 0 <= r < 256 * m;
    QuotientIs(v, 256 * m, b, r);
  }

  lemma QuotientIs(v: nat, m: nat, q: nat, r: nat)
    requires m > 0 && v == m * q + r && r < m
    ensures v / m == q
  {
    var q', r' := v / m, v % m;
    assert v == m * q' + r';
    if q < q' {
      assert m * (q + 1) <= m * q' by { MulMono(m, q + 1, q'); }
    } else if q' < q {
      assert m * (q' + 1) <= m * q by { MulMono(m, q' + 1, q); }
    }
  }

  lemma MulMono(m: nat, a: nat, b: nat)
    requires a <= b
    ensures m * a <= m * b
  {
  }

  /** A fixed-width word on the wire, whatever the host: byte `i`, counted from the least significant end, stands
      at place `i` in little-endian order and at the mirrored place in big-endian order. */
  lemma FixedBytesAt(v: nat, n: nat, order: Endian, host: Endian, i: nat)
    requires v < Words(n) && i < n
    ensures FixedBytes(v, n, order, host)[if order == Little then i else n - 1 - i] == (v / Words(i)) % 256
  {
    WireOrder(v, n, order, host);
    LittleByteAt(v, n, i);
  }

  /** The byte order of a word of two bytes, in full. */
  lemma TwoBytes(v: nat, host: Endian)
    requires v < 0x1_0000
    ensures FixedBytes(v, 2, Little, host) == [v % 256, v / 256]
    ensures FixedBytes(v, 2, Big, host) == [v / 256, v % 256]
  {
    PowersMeet();
    WireOrder(v, 2, Little, host);
    WireOrder(v, 2, Big, host);
    var bs := LittleBytes(v, 2);
    assert bs == [v % 256, v / 256] by {
      assert LittleBytes(v / 256, 1) == [(v / 256) % 256] + LittleBytes(v / 256 / 256, 0);
    }
  }

  // ---------------------------------------------------------------------------------------
  // Varints
  // ---------------------------------------------------------------------------------------

  /** How many bytes of `bs`, at most `k`, continue: the place of the first byte below 128. */
  function Continued(bs: seq<Byte>, k: nat): (j: nat)
    ensures j <= k && j <= |bs|
    ensures forall i :: 0 <= i < j ==> bs[i] >= 128
    ensures j < k && j < |bs| ==> bs[j] < 128
  {
    if k == 0 || bs == [] || bs[0] < 128 then 0 else 1 + Continued(bs[1..], k - 1)
  }

  /** The seven-bit groups of `n` bytes, least significant first. */
  function GroupSum(bs: seq<Byte>): nat {
    if bs == [] then 0 else bs[0] % 128 + 128 * GroupSum(bs[1..])
  }

  /** How many bytes a read of at most `k` groups takes, if there are that many. */
  function Taken(bs: seq<Byte>, k: nat): (n: nat)
    ensures n <= k
  {
    var j := Continued(bs, k);
    if j < k then j + 1 else k
  }

  lemma GroupsFirst(bs: seq<Byte>, n: nat)
    requires n < |bs|
    ensures GroupSum(bs[..n + 1]) == bs[0] % 128 + 128 * GroupSum(bs[1..][..n])
    ensures bs[n + 1..] == bs[1..][n..]
  {
    assert bs[..n + 1][1..] == bs[1..][..n];
  }

  /** A varint read of at most `k` groups, on any bytes: it takes the bytes that continue and the one that does
      not, or just `k` if all of those continue; it runs out exactly when the bytes end before that; and its
      value is that of the seven-bit groups taken. */
  lemma {:induction false} UnVarintExact(bs: seq<Byte>, k: nat)
    ensures UnVarint(bs, k) == GroupsOf(bs, Taken(bs, k))
    decreases k
  {
    if k == 0 {
      assert bs[..0] == [] && bs[0..] == bs;
    } else if bs != [] {
      if bs[0] < 128 {
        LastGroup(bs, k);
      } else {
        UnVarintExact(bs[1..], k - 1);
        MoreGroups(bs, k, Taken(bs[1..], k - 1));
      }
    }
  }

  /** The value of the first `n` bytes, and the rest, if there are that many. */
  function GroupsOf(bs: seq<Byte>, n: nat): Option<(nat, seq<Byte>)> {
    if |bs| < n then None else Some((GroupSum(bs[..n]), bs[n..]))
  }

  lemma LastGroup(bs: seq<Byte>, k: nat)
    requires k > 0 && bs != [] && bs[0] < 128
    ensures UnVarint(bs, k) == GroupsOf(bs, Taken(bs, k))
  {
    GroupsFirst(bs, 0);
    assert bs[1..][..0] == [];
  }

  lemma MoreGroups(bs: seq<Byte>, k: nat, n: nat)
    requires k > 0 && bs != [] && bs[0] >= 128
    requires n == Taken(bs[1..], k - 1) && UnVarint(bs[1..], k - 1) == GroupsOf(bs[1..], n)
    ensures UnVarint(bs, k) == GroupsOf(bs, Taken(bs, k))
  {
    assert Taken(bs, k) == n + 1;
    if n < |bs| {
      GroupsFirst(bs, n);
    }
  }

  /** The readers of 32 and 64 bits look at five and ten groups, and keep the low bits. */
  lemma TakesGroups(bs: seq<Byte>)
    ensures TakeVar(bs, false) == match UnVarint(bs, 5)
                                  case None => None
                                  case Some((v, rest)) => Some((v % 0x1_0000_0000, rest))
    ensures TakeVar(bs, true) == match UnVarint(bs, 10)
                                 case None => None
                                 case Some((v, rest)) => Some((v % 0x1_0000_0000_0000_0000, rest))
  {
    PowersMeet();
  }

  /** A varint has the least number of groups for its value; all its bytes but the last continue; and its groups
      are the base-128 digits of the value. */
  lemma {:induction false} VarintShape(v: nat)
    ensures var bs := Varint(v);
            && v < Groups(|bs|) && (|bs| > 1 ==> Groups(|bs| - 1) <= v)
            && (forall i :: 0 <= i < |bs| - 1 ==> bs[i] >= 128) && bs[|bs| - 1] < 128
            && GroupSum(bs) == v
    decreases v
  {
    var bs := Varint(v);
    if v < 128 {
      assert Groups(1) == 128 * Groups(0) && bs[1..] == [];
    } else {
      VarintShape(v / 128);
      var rest := Varint(v / 128);
      assert bs[1..] == rest;
      assert v == 128 * (v / 128) + v % 128;
      assert |rest| > 1 ==> 128 * Groups(|rest| - 1) <= 128 * (v / 128);
      assert forall i :: 0 < i < |bs| ==> bs[i] == rest[i - 1];
    }
  }

  // ---------------------------------------------------------------------------------------
  // Typed writes
  // ---------------------------------------------------------------------------------------

  /** The types of the interface, by the suffix of their `write` and `read`. */
  datatype Suffix =
    | Fint8 | Fuint8 | Fint16 | Fuint16 | Fint32 | Fuint32 | Fint64 | Fuint64
    | Int32 | Uint32 | Int64 | Uint64
    | StringF16 | StringF32 | StringF64 | StringVint

  function TypeOf(s: Suffix): Type {
    match s
    case Fint8 => Fixed(W1, true)
    case Fuint8 => Fixed(W1, false)
    case Fint16 => Fixed(W2, true)
    case Fuint16 => Fixed(W2, false)
    case Fint32 => Fixed(W4, true)
    case Fuint32 => Fixed(W4, false)
    case Fint64 => Fixed(W8, true)
    case Fuint64 => Fixed(W8, false)
    case Int32 => Var(false, true)
    case Uint32 => Var(false, false)
    case Int64 => Var(true, true)
    case Uint64 => Var(true, false)
    case StringF16 => Str(F16)
    case StringF32 => Str(F32)
    case StringF64 => Str(F64)
    case StringVint => Str(Vint)
  }

  /** The values the parameter type admits. */
  lemma TypedExactly(s: Suffix, x: Value)
    ensures Typed(TypeOf(s), x) <==>
      match s
      case Fint8 => x.Num? && -0x80 <= x.v < 0x80
      case Fuint8 => x.Num? && 0 <= x.v < 0x100
      case Fint16 => x.Num? && -0x8000 <= x.v < 0x8000
      case Fuint16 => x.Num? && 0 <= x.v < 0x1_0000
      case Fint32 => x.Num? && -0x8000_0000 <= x.v < 0x8000_0000
      case Int32 => x.Num? && -0x8000_0000 <= x.v < 0x8000_0000
      case Fuint32 => x.Num? && 0 <= x.v < 0x1_0000_0000
      case Uint32 => x.Num? && 0 <= x.v < 0x1_0000_0000
      case Fint64 => x.Num? && -0x8000_0000_0000_0000 <= x.v < 0x8000_0000_0000_0000
      case Int64 => x.Num? && -0x8000_0000_0000_0000 <= x.v < 0x8000_0000_0000_0000
      case Fuint64 => x.Num? && 0 <= x.v < 0x1_0000_0000_0000_0000
      case Uint64 => x.Num? && 0 <= x.v < 0x1_0000_0000_0000_0000
      case _ => x.Text?
  {
    PowersMeet();
    assert Words(1) == 256 * Words(0) == 256;
  }

  /** A fixed-width number takes 1, 2, 4 or 8 bytes, in two's complement. */
  lemma FixedShape(s: Suffix, x: Value, order: Endian, host: Endian)
    requires Typed(TypeOf(s), x) && TypeOf(s).Fixed?
    ensures var n := match s
                     case Fint8 => 1 case Fuint8 => 1
                     case Fint16 => 2 case Fuint16 => 2
                     case Fint32 => 4 case Fuint32 => 4
                     case _ => 8;
            var u := if x.v < 0 then x.v + Words(n) else x.v;
            && 0 <= u < Words(n)
            && Encode(TypeOf(s), x, order, host) == FixedBytes(u, n, order, host)
            && |Encode(TypeOf(s), x, order, host)| == n
  {
  }

  /** A `uint` is a varint, an `int` the varint of twice the number, or of twice its negation less one. */
  lemma VarShape(s: Suffix, x: Value, order: Endian, host: Endian)
    requires Typed(TypeOf(s), x) && s in {Int32, Uint32, Int64, Uint64}
    ensures var u: nat := if s in {Uint32, Uint64} then x.v else if x.v < 0 then -2 * x.v - 1 else 2 * x.v;
            && Encode(TypeOf(s), x, order, host) == Varint(u)
            && |Varint(u)| <= if s in {Int32, Uint32} then 5 else 10
  {
    PowersMeet();
    var u: nat := if s in {Uint32, Uint64} then x.v else if x.v < 0 then -2 * x.v - 1 else 2 * x.v;
    VarintFits(u);
  }

  /** A string is its length, in the format its suffix says, and its bytes. */
  lemma StringShape(s: Suffix, x: Value, order: Endian, host: Endian)
    requires Typed(TypeOf(s), x) && TypeOf(s).Str?
    ensures var n := |x.s|;
            Encode(TypeOf(s), x, order, host) ==
              (match s
               case StringF16 => FixedBytes(n % 0x1_0000, 2, order, host)
               case StringF32 => FixedBytes(n % 0x1_0000_0000, 4, order, host)
               case StringF64 => FixedBytes(n % 0x1_0000_0000_0000_0000, 8, order, host)
               case _ => Varint(n % 0x1_0000_0000_0000_0000))
              + x.s
  {
    PowersMeet();
  }
}
