/**
 The wire formats of `ByteArray`: fixed-width integers in either byte order, base-128 varints, zigzag
 and length-prefixed strings. Words are unsigned integers below a power of two and all wrap-around is
 written out; the bit-level form of zigzag is in `ZigzagBits`.
 */
module Codec {
  import opened Wrappers

  type Byte = n: int | 0 <= n < 256

  datatype Endian = Little | Big

  // ---------------------------------------------------------------------------------------
  // Words
  // ---------------------------------------------------------------------------------------

  /** The number of values of an `n`-byte word. */
  function Words(n: nat): (m: nat)
    ensures m > 0
  {
    if n == 0 then 1 else 256 * Words(n - 1)
  }

  function LittleBytes(v: nat, n: nat): (bs: seq<Byte>)
    ensures |bs| == n
  {
    if n == 0 then [] else [v % 256] + LittleBytes(v / 256, n - 1)
  }

  function FromLittle(bs: seq<Byte>): (v: nat)
    ensures v < Words(|bs|)
  {
    if bs == [] then 0 else bs[0] + 256 * FromLittle(bs[1..])
  }

  function Reverse(bs: seq<Byte>): (r: seq<Byte>)
    ensures |r| == |bs|
    ensures forall i :: 0 <= i < |bs| ==> r[i] == bs[|bs| - 1 - i]
  {
    seq(|bs|, i requires 0 <= i < |bs| => bs[|bs| - 1 - i])
  }

  lemma {:induction false} FromLittleBytes(v: nat, n: nat)
    requires v < Words(n)
    ensures FromLittle(LittleBytes(v, n)) == v
  {
    if n > 0 {
      FromLittleBytes(v / 256, n - 1);
      assert LittleBytes(v, n)[1..] == LittleBytes(v / 256, n - 1);
    }
  }

  lemma {:induction false} LittleBytesFrom(bs: seq<Byte>)
    ensures LittleBytes(FromLittle(bs), |bs|) == bs
  {
    if bs != [] {
      LittleBytesFrom(bs[1..]);
      LowByte(bs[0], FromLittle(bs[1..]));
      assert bs == [bs[0]] + bs[1..];
    }
  }

  lemma LowByte(b: Byte, x: nat)
    ensures (b + 256 * x) % 256 == b && (b + 256 * x) / 256 == x
  {
  }

  lemma ReverseTwice(bs: seq<Byte>)
    ensures Reverse(Reverse(bs)) == bs
  {
  }

  /** A word in memory on a host of the given byte order. */
  function InMemory(v: nat, n: nat, host: Endian): (bs: seq<Byte>)
    ensures |bs| == n
  {
    if host == Little then LittleBytes(v, n) else Reverse(LittleBytes(v, n))
  }

  function FromMemory(bs: seq<Byte>, host: Endian): (v: nat)
    ensures v < Words(|bs|)
  {
    if host == Little then FromLittle(bs) else FromLittle(Reverse(bs))
  }

  function ByteSwap(v: nat, n: nat): (r: nat)
    ensures r < Words(n)
  {
    FromLittle(Reverse(LittleBytes(v, n)))
  }

  /** `writeFuint16` and its siblings: swap when the array's order is not the host's, then copy. */
  function FixedBytes(v: nat, n: nat, order: Endian, host: Endian): (bs: seq<Byte>)
    ensures |bs| == n
  {
    InMemory(if order != host then ByteSwap(v, n) else v, n, host)
  }

  /** `readFuint16` and its siblings. */
  function FromFixed(bs: seq<Byte>, order: Endian, host: Endian): (v: nat)
    ensures v < Words(|bs|)
  {
    var v := FromMemory(bs, host);
    if order == host then v else ByteSwap(v, |bs|)
  }

  /** The bytes on the wire are in the array's order, whatever the host's. */
  lemma WireOrder(v: nat, n: nat, order: Endian, host: Endian)
    requires v < Words(n)
    ensures FixedBytes(v, n, order, host) == if order == Little then LittleBytes(v, n) else Reverse(LittleBytes(v, n))
  {
    LittleBytesFrom(Reverse(LittleBytes(v, n)));
    ReverseTwice(LittleBytes(v, n));
  }

  lemma FixedRoundTrip(v: nat, n: nat, order: Endian, host: Endian)
    requires v < Words(n)
    ensures FromFixed(FixedBytes(v, n, order, host), order, host) == v
  {
    WireOrder(v, n, order, host);
    var bs := LittleBytes(v, n);
    FromLittleBytes(v, n);
    ReverseTwice(bs);
    LittleBytesFrom(bs);
    LittleBytesFrom(Reverse(bs));
  }

  /** Two's complement in a word of `m` values. */
  function ToUnsigned(v: int, m: nat): (u: nat)
    requires m > 0 && 0 <= v + m && v < m
    ensures u < m
  {
    Wrap(v, m)
  }

  function ToSigned(u: nat, m: nat): int
    requires u < m
  {
    if 2 * u < m then u else u - m
  }

  // ---------------------------------------------------------------------------------------
  // Varints
  // ---------------------------------------------------------------------------------------

  function Groups(k: nat): (m: nat)
    ensures m > 0
  {
    if k == 0 then 1 else 128 * Groups(k - 1)
  }

  /** Seven bits a byte, least significant first, the top bit set on all but the last. */
  function Varint(v: nat): (bs: seq<Byte>)
    ensures |bs| > 0
  {
    if v < 128 then [v] else [v % 128 + 128] + Varint(v / 128)
  }

  /** Reading at most `k` bytes; the value before truncation to the word, and what is left. */
  function UnVarint(bs: seq<Byte>, k: nat): (r: Option<(nat, seq<Byte>)>)
    ensures r.Some? ==> |r.value.1| <= |bs| && r.value.1 == bs[|bs| - |r.value.1|..]
    decreases k
  {
    if k == 0 then Some((0, bs))
    else if bs == [] then None
    else if bs[0] < 128 then Some((bs[0], bs[1..]))
    else match UnVarint(bs[1..], k - 1)
      case None => None
      case Some((v, rest)) => Some((bs[0] - 128 + 128 * v, rest))
  }

  lemma {:induction false} VarintRoundTrip(v: nat, k: nat, rest: seq<Byte>)
    requires v < Groups(k) && k > 0
    ensures |Varint(v)| <= k
    ensures UnVarint(Varint(v) + rest, k) == Some((v, rest))
    decreases k
  {
    if v < 128 {
      assert (Varint(v) + rest)[1..] == rest;
    } else {
      SevenBits(v, Groups(k - 1));
      VarintRoundTrip(v / 128, k - 1, rest);
      assert Varint(v) + rest == [v % 128 + 128] + (Varint(v / 128) + rest);
    }
  }

  lemma SevenBits(v: nat, g: nat)
    requires v < 128 * g
    ensures v / 128 < g && v % 128 + 128 * (v / 128) == v
  {
  }

  /** A 32-bit value takes at most 5 bytes and a 64-bit value at most 10. */
  lemma VarintFits(v: nat)
    ensures v < Words(4) ==> |Varint(v)| <= 5
    ensures v < Words(8) ==> |Varint(v)| <= 10
  {
    PowersMeet();
    if v < Words(4) { VarintRoundTrip(v, 5, []); }
    if v < Words(8) { VarintRoundTrip(v, 10, []); }
  }

  lemma PowersMeet()
    ensures Words(2) == 0x1_0000 && Words(4) == 0x1_0000_0000 && Words(8) == 0x1_0000_0000_0000_0000
    ensures Words(4) <= Groups(5) && Words(8) <= Groups(10)
  {
    assert Words(4) == 256 * Words(3) && Words(3) == 256 * Words(2) && Words(2) == 256 * Words(1);
    assert Words(8) == 256 * Words(7) && Words(7) == 256 * Words(6);
    assert Words(6) == 256 * Words(5) && Words(5) == 256 * Words(4);
    assert Groups(5) == 128 * Groups(4) && Groups(4) == 128 * Groups(3) && Groups(3) == 128 * Groups(2);
    assert Groups(10) == 128 * Groups(9) && Groups(9) == 128 * Groups(8) && Groups(8) == 128 * Groups(7);
    assert Groups(7) == 128 * Groups(6) && Groups(6) == 128 * Groups(5);
  }

  lemma {:induction false} BelowGroups(v: nat) returns (k: nat)
    ensures k > 0 && v < Groups(k)
    decreases v
  {
    if v == 0 {
      k := 1;
    } else {
      k := BelowGroups(v - 1);
      k := k + 1;
    }
  }

  lemma {:induction false} GroupsGrow(j: nat, k: nat)
    requires j <= k
    ensures Groups(j) <= Groups(k)
    decreases k
  {
    if j < k {
      GroupsGrow(j, k - 1);
    }
  }

  /** No varint is a prefix of another. */
  lemma PrefixFree(a: nat, b: nat)
    requires Varint(a) <= Varint(b)
    ensures a == b
  {
    var j := BelowGroups(a);
    var k := BelowGroups(b);
    var m := if j < k then k else j;
    GroupsGrow(j, m);
    GroupsGrow(k, m);
    var rest := Varint(b)[|Varint(a)|..];
    assert Varint(b) == Varint(a) + rest && Varint(b) + [] == Varint(b);
    VarintRoundTrip(a, m, rest);
    VarintRoundTrip(b, m, []);
  }

  // ---------------------------------------------------------------------------------------
  // Zigzag
  // ---------------------------------------------------------------------------------------

  predicate FitsSigned(v: int, m: nat) {
    0 <= 2 * v + m && 2 * v < m
  }

  /** One addition's worth of wrap-around in a word of `m` values. */
  function Wrap(x: int, m: nat): (r: nat)
    requires 0 <= x + m && x < 2 * m
    ensures r < m || m == 0
  {
    if x < 0 then x + m else if x >= m then x - m else x
  }

  /** The branching encoder in a word of `m` values; at the minimum, negation wraps to itself. */
  function ZigEncode(v: int, m: nat): (u: nat)
    requires m > 0 && m % 2 == 0 && FitsSigned(v, m)
    ensures u < m
    ensures u == if v < 0 then -2 * v - 1 else 2 * v
  {
    if v < 0 then Wrap(Wrap(2 * -v, m) - 1, m) else Wrap(2 * v, m)
  }

  /** Half the word, complemented when the low bit is set. */
  function ZigDecode(u: nat, m: nat): int
    requires u < m
  {
    ToSigned(if u % 2 == 0 then u / 2 else m - 1 - u / 2, m)
  }

  lemma ZigRoundTrip(v: int, m: nat)
    requires m > 0 && m % 2 == 0 && FitsSigned(v, m)
    ensures ZigDecode(ZigEncode(v, m), m) == v
  {
    if v < 0 {
      var u := -2 * v - 1;
      assert u % 2 == 1 && u / 2 == -v - 1;
    } else {
      assert (2 * v) % 2 == 0 && (2 * v) / 2 == v;
    }
  }

  // ---------------------------------------------------------------------------------------
  // Typed values
  // ---------------------------------------------------------------------------------------

  datatype Width = W1 | W2 | W4 | W8

  function Bytes(w: Width): nat {
    match w
    case W1 => 1
    case W2 => 2
    case W4 => 4
    case W8 => 8
  }

  /** How the length of a string is written. */
  datatype Prefix = F16 | F32 | F64 | Vint

  datatype Type =
    | Fixed(width: Width, signed: bool)
    | Var(wide: bool, signed: bool)
    | Str(prefix: Prefix)

  datatype Value = Num(v: int) | Text(s: seq<Byte>)

  function VarBytes(wide: bool): nat {
    if wide then 8 else 4
  }

  function PrefixBytes(p: Prefix): nat {
    match p
    case F16 => 2
    case F32 => 4
    case _ => 8
  }

  /** What the source's parameter types admit. */
  predicate Typed(ty: Type, x: Value) {
    match ty
    case Fixed(w, signed) => x.Num? && NumFits(x.v, Bytes(w), signed)
    case Var(wide, signed) => x.Num? && NumFits(x.v, VarBytes(wide), signed)
    case Str(_) => x.Text?
  }

  predicate NumFits(v: int, n: nat, signed: bool) {
    if signed then FitsSigned(v, Words(n)) else 0 <= v < Words(n)
  }

  /** The length prefix holds the length of the string. */
  predicate PrefixFits(ty: Type, x: Value) {
    ty.Str? && x.Text? ==> |x.s| < Words(PrefixBytes(ty.prefix))
  }

  function NumBytes(v: int, n: nat, signed: bool): nat
    requires NumFits(v, n, signed)
  {
    if signed then ToUnsigned(v, Words(n)) else v
  }

  function FromNum(u: nat, n: nat, signed: bool): int
    requires u < Words(n)
  {
    if signed then ToSigned(u, Words(n)) else u
  }

  /** The length prefix of `n` bytes, truncated to the width of its type. */
  function LengthBytes(n: nat, p: Prefix, order: Endian, host: Endian): seq<Byte> {
    if p == Vint then Varint(n % Words(8)) else FixedBytes(n % Words(PrefixBytes(p)), PrefixBytes(p), order, host)
  }

  function Encode(ty: Type, x: Value, order: Endian, host: Endian): seq<Byte>
    requires Typed(ty, x)
  {
    match ty
    case Fixed(w, signed) => FixedBytes(NumBytes(x.v, Bytes(w), signed), Bytes(w), order, host)
    case Var(wide, signed) =>
      EvenWords(VarBytes(wide));
      Varint(if signed then ZigEncode(x.v, Words(VarBytes(wide))) else x.v)
    case Str(p) => LengthBytes(|x.s|, p, order, host) + x.s
  }

  lemma EvenWords(n: nat)
    requires n > 0
    ensures Words(n) % 2 == 0
  {
    assert Words(n) == 2 * (128 * Words(n - 1));
  }

  /** Reading `n` bytes of an integer. */
  function TakeFixed(bs: seq<Byte>, n: nat, order: Endian, host: Endian): (r: Option<(nat, seq<Byte>)>)
    ensures r.Some? ==> r.value.0 < Words(n)
  {
    if |bs| < n then None else Some((FromFixed(bs[..n], order, host), bs[n..]))
  }

  function TakeVar(bs: seq<Byte>, wide: bool): (r: Option<(nat, seq<Byte>)>)
    ensures r.Some? ==> r.value.0 < Words(VarBytes(wide))
  {
    match UnVarint(bs, if wide then 10 else 5)
    case None => None
    case Some((v, rest)) => Some((v % Words(VarBytes(wide)), rest))
  }

  function TakeLength(bs: seq<Byte>, p: Prefix, order: Endian, host: Endian): Option<(nat, seq<Byte>)> {
    if p == Vint then TakeVar(bs, true) else TakeFixed(bs, PrefixBytes(p), order, host)
  }

  /** The matching `read` on the readable bytes; None when they run out. */
  function Decode(ty: Type, bs: seq<Byte>, order: Endian, host: Endian): Option<(Value, seq<Byte>)> {
    match ty
    case Fixed(w, signed) =>
      (match TakeFixed(bs, Bytes(w), order, host)
       case None => None
       case Some((u, rest)) => Some((Num(FromNum(u, Bytes(w), signed)), rest)))
    case Var(wide, signed) =>
      (match TakeVar(bs, wide)
       case None => None
       case Some((u, rest)) => Some((Num(if signed then ZigDecode(u, Words(VarBytes(wide))) else u), rest)))
    case Str(p) =>
      (match TakeLength(bs, p, order, host)
       case None => None
       case Some((n, rest)) => if |rest| < n then None else Some((Text(rest[..n]), rest[n..])))
  }

  lemma FixedTakes(u: nat, n: nat, rest: seq<Byte>, order: Endian, host: Endian)
    requires u < Words(n)
    ensures TakeFixed(FixedBytes(u, n, order, host) + rest, n, order, host) == Some((u, rest))
  {
    FixedRoundTrip(u, n, order, host);
    assert (FixedBytes(u, n, order, host) + rest)[..n] == FixedBytes(u, n, order, host);
  }

  lemma VarTakes(u: nat, wide: bool, rest: seq<Byte>)
    requires u < Words(VarBytes(wide))
    ensures TakeVar(Varint(u) + rest, wide) == Some((u, rest))
  {
    PowersMeet();
    VarintRoundTrip(u, if wide then 10 else 5, rest);
    SmallMod(u, Words(VarBytes(wide)));
  }

  lemma SmallMod(u: nat, m: nat)
    requires u < m
    ensures u % m == u
  {
  }

  lemma LengthTakes(n: nat, p: Prefix, rest: seq<Byte>, order: Endian, host: Endian)
    ensures TakeLength(LengthBytes(n, p, order, host) + rest, p, order, host) == Some((n % Words(PrefixBytes(p)), rest))
  {
    if p == Vint {
      VarTakes(n % Words(8), true, rest);
    } else {
      FixedTakes(n % Words(PrefixBytes(p)), PrefixBytes(p), rest, order, host);
    }
  }

  /** What comes back of a string: as many bytes as the truncated length says. */
  lemma StringDecodes(s: seq<Byte>, p: Prefix, rest: seq<Byte>, order: Endian, host: Endian)
    ensures var n := |s| % Words(PrefixBytes(p));
            n <= |s| &&
            Decode(Str(p), Encode(Str(p), Text(s), order, host) + rest, order, host)
              == Some((Text((s + rest)[..n]), (s + rest)[n..]))
  {
    var prefix := LengthBytes(|s|, p, order, host);
    assert Encode(Str(p), Text(s), order, host) + rest == prefix + (s + rest);
    LengthTakes(|s|, p, s + rest, order, host);
    ModAtMost(|s|, Words(PrefixBytes(p)));
  }

  lemma ModAtMost(n: nat, m: nat)
    requires m > 0
    ensures n % m <= n && (n % m == n <==> n < m)
  {
    if n < m {
      SmallMod(n, m);
    }
  }

  /** A string survives the round trip exactly when its length fits its prefix. */
  lemma StringRoundTripIff(s: seq<Byte>, p: Prefix, rest: seq<Byte>, order: Endian, host: Endian)
    ensures Decode(Str(p), Encode(Str(p), Text(s), order, host) + rest, order, host) == Some((Text(s), rest))
            <==> |s| < Words(PrefixBytes(p))
  {
    StringDecodes(s, p, rest, order, host);
    ModAtMost(|s|, Words(PrefixBytes(p)));
    var n := |s| % Words(PrefixBytes(p));
    if n == |s| {
      assert (s + rest)[..n] == s && (s + rest)[n..] == rest;
    } else {
      assert |(s + rest)[..n]| < |s|;
    }
  }

  /** Any typed value whose prefix fits survives, whatever follows it, in either byte order. */
  lemma RoundTrip(ty: Type, x: Value, rest: seq<Byte>, order: Endian, host: Endian)
    requires Typed(ty, x) && PrefixFits(ty, x)
    ensures Decode(ty, Encode(ty, x, order, host) + rest, order, host) == Some((x, rest))
  {
    match ty
    case Fixed(w, signed) =>
      FixedTakes(NumBytes(x.v, Bytes(w), signed), Bytes(w), rest, order, host);
    case Var(wide, signed) => VarValueRoundTrip(wide, signed, x, rest, order, host);
    case Str(p) => StringRoundTripIff(x.s, p, rest, order, host);
  }

  lemma VarValueRoundTrip(wide: bool, signed: bool, x: Value, rest: seq<Byte>, order: Endian, host: Endian)
    requires Typed(Var(wide, signed), x)
    ensures Decode(Var(wide, signed), Encode(Var(wide, signed), x, order, host) + rest, order, host) == Some((x, rest))
  {
    EvenWords(VarBytes(wide));
    if signed {
      ZigRoundTrip(x.v, Words(VarBytes(wide)));
      VarTakes(ZigEncode(x.v, Words(VarBytes(wide))), wide, rest);
    } else {
      VarTakes(x.v, wide, rest);
    }
  }

  datatype Item = Item(ty: Type, x: Value)

  ghost predicate AllTyped(items: seq<Item>) {
    forall i :: 0 <= i < |items| ==> Typed(items[i].ty, items[i].x)
  }

  ghost predicate AllFit(items: seq<Item>) {
    forall i :: 0 <= i < |items| ==> PrefixFits(items[i].ty, items[i].x)
  }

  ghost function EncodeAll(items: seq<Item>, order: Endian, host: Endian): seq<Byte>
    requires AllTyped(items)
  {
    if items == [] then []
    else Encode(items[0].ty, items[0].x, order, host) + EncodeAll(items[1..], order, host)
  }

  ghost function Types(items: seq<Item>): (tys: seq<Type>)
    ensures |tys| == |items|
  {
    seq(|items|, i requires 0 <= i < |items| => items[i].ty)
  }

  /** Reading a list of types one after the other. */
  ghost function DecodeAll(tys: seq<Type>, bs: seq<Byte>, order: Endian, host: Endian): Option<(seq<Item>, seq<Byte>)> {
    if tys == [] then Some(([], bs))
    else match Decode(tys[0], bs, order, host)
      case None => None
      case Some((x, rest)) =>
        match DecodeAll(tys[1..], rest, order, host)
        case None => None
        case Some((items, left)) => Some(([Item(tys[0], x)] + items, left))
  }

  lemma DecodeMore(tys: seq<Type>, bs: seq<Byte>, x: Value, tail: seq<Byte>, items: seq<Item>, left: seq<Byte>,
                   order: Endian, host: Endian)
    requires tys != [] && Decode(tys[0], bs, order, host) == Some((x, tail))
    requires DecodeAll(tys[1..], tail, order, host) == Some((items, left))
    ensures DecodeAll(tys, bs, order, host) == Some(([Item(tys[0], x)] + items, left))
  {
  }

  lemma EncodeMore(items: seq<Item>, rest: seq<Byte>, order: Endian, host: Endian)
    requires AllTyped(items) && items != []
    ensures AllTyped(items[1..])
    ensures EncodeAll(items, order, host) + rest
              == Encode(items[0].ty, items[0].x, order, host) + (EncodeAll(items[1..], order, host) + rest)
  {
  }

  lemma TypesMore(items: seq<Item>)
    requires items != []
    ensures Types(items)[0] == items[0].ty && Types(items)[1..] == Types(items[1..])
    ensures [Item(items[0].ty, items[0].x)] + items[1..] == items
  {
  }

  /** Reading back the same types returns the same list and consumes exactly what was written. */
  lemma {:induction false} RoundTripAll(items: seq<Item>, rest: seq<Byte>, order: Endian, host: Endian)
    requires AllTyped(items) && AllFit(items)
    ensures DecodeAll(Types(items), EncodeAll(items, order, host) + rest, order, host) == Some((items, rest))
    decreases |items|
  {
    if items == [] {
      assert EncodeAll(items, order, host) + rest == rest;
    } else {
      EncodeMore(items, rest, order, host);
      TypesMore(items);
      var tail := EncodeAll(items[1..], order, host) + rest;
      var bytes := EncodeAll(items, order, host) + rest;
      RoundTripAll(items[1..], rest, order, host);
      assert Decode(items[0].ty, bytes, order, host) == Some((items[0].x, tail)) by {
        assert Typed(items[0].ty, items[0].x) && PrefixFits(items[0].ty, items[0].x);
        RoundTrip(items[0].ty, items[0].x, tail, order, host);
      }
      DecodeMore(Types(items), bytes, items[0].x, tail, items[1..], rest, order, host);
    }
  }
}
