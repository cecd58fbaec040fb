/**
 The typed reads and writes of `ByteArray`, on top of `Write` and `Read`. A value is written in one or
 two chunks, each with its own growth; everything written is read back unless a growth fell short or
 the last value is an empty string that ends exactly at the capacity.
 */
module ByteArrayCodec {
  import opened Wrappers
  import opened Codec
  import opened Blocks
  import opened ByteArrays

  /** The calls of `write` one value makes. */
  ghost function Chunks(ty: Type, x: Value, order: Endian, host: Endian): seq<seq<Byte>>
    requires Typed(ty, x)
  {
    if ty.Str? then [LengthBytes(|x.s|, ty.prefix, order, host), x.s] else [Encode(ty, x, order, host)]
  }

  /** The free room after `n` bytes were written into `room`. */
  ghost function RoomAfter(n: nat, room: nat, base: nat): int
    requires base > 0
  {
    room + Origin(base, ShippedCount(n, room, base)) - n
  }

  /** Every chunk in turn finds room after the shipped growth. */
  ghost predicate ChunksFit(chunks: seq<seq<Byte>>, room: int, base: nat)
    requires base > 0
    decreases |chunks|
  {
    chunks != [] ==>
      && room >= 0
      && GrowthFits(|chunks[0]|, room, base)
      && ChunksFit(chunks[1..], RoomAfter(|chunks[0]|, room, base), base)
  }

  lemma WrittenTwice(m: seq<Byte>, m1: seq<Byte>, m2: seq<Byte>, p: nat, a: seq<Byte>, b: seq<Byte>)
    requires Written(m, m1, p, a) && Written(m1, m2, p + |a|, b)
    ensures Written(m, m2, p, a + b)
  {
    assert m2[..p] == m2[..p + |a|][..p] == m1[..p + |a|][..p] == m1[..p];
    assert m2[p..p + |a|] == m2[..p + |a|][p..] == m1[..p + |a|][p..] == a;
    assert m2[p..p + |a + b|] == m2[p..p + |a|] + m2[p + |a|..p + |a| + |b|];
    if p + |a| + |b| <= |m| {
      var q := p + |a| + |b|;
      assert m2[q..|m|] == m2[q..|m1|][..|m| - q] == m1[q..][..|m| - q] == m1[q..|m|];
      assert m1[q..|m|] == m1[p + |a|..|m|][|b|..] == m[p + |a|..][|b|..] == m[q..];
    }
  }

  /** The loop of `writeUint32` and `writeUint64`. */
  method VarintBytes(value: nat) returns (tmp: seq<Byte>)
    ensures tmp == Varint(value)
  {
    var v := value;
    tmp := [];
    while v >= 0x80
      invariant tmp + Varint(v) == Varint(value)
    {
      assert tmp + Varint(v) == tmp + [v % 128 + 128] + Varint(v / 128);
      tmp := tmp + [v % 128 + 128];
      v := v / 128;
    }
    tmp := tmp + [v];
  }

  /** The bytes of a value, chunk by chunk, as the typed writes compute them. */
  method ChunksOf(ty: Type, x: Value, order: Endian, host: Endian) returns (chunks: seq<seq<Byte>>)
    requires Typed(ty, x)
    ensures chunks == Chunks(ty, x, order, host)
  {
    match ty {
      case Fixed(w, signed) =>
        return [FixedBytes(NumBytes(x.v, Bytes(w), signed), Bytes(w), order, host)];
      case Var(wide, signed) =>
        EvenWords(VarBytes(wide));
        var tmp := VarintBytes(if signed then ZigEncode(x.v, Words(VarBytes(wide))) else x.v);
        return [tmp];
      case Str(Vint) =>
        var tmp := VarintBytes(|x.s| % Words(8));
        return [tmp, x.s];
      case Str(p) =>
        return [FixedBytes(|x.s| % Words(PrefixBytes(p)), PrefixBytes(p), order, host), x.s];
    }
  }

  ghost function Concat(chunks: seq<seq<Byte>>): seq<Byte> {
    if chunks == [] then [] else chunks[0] + Concat(chunks[1..])
  }

  /** What a successful series of writes leaves behind. */
  ghost predicate Wrote(m: seq<Byte>, p: nat, size: nat, bs: seq<Byte>, m': seq<Byte>, p': nat, size': nat) {
    p' == p + |bs| && size' == Max(size, p') && Written(m, m', p, bs)
  }

  /** One call of `write`, with the room it leaves. */
  method WriteChunk(ba: ByteArray, chunk: seq<Byte>) returns (ok: bool)
    requires ba.Valid()
    modifies ba`position, ba`cur, ba`capacity, ba`nodes, ba`mem, ba`size, ba.nodes
    ensures ok <==> GrowthFits(|chunk|, old(ba.Room()), ba.base)
    ensures ok ==> ba.Valid() && ba.Room() == RoomAfter(|chunk|, old(ba.Room()), ba.base)
    ensures ok ==> Wrote(old(ba.mem), old(ba.position), old(ba.size), chunk, ba.mem, ba.position, ba.size)
    ensures ok ==> forall i :: 0 <= i < |ba.nodes| ==> ba.nodes[i] in old(ba.nodes) || fresh(ba.nodes[i])
  {
    ghost var before := ba.nodes;
    ok := ba.Write(chunk);
    assert ok ==> forall i :: 0 <= i < |before| ==> ba.nodes[..|before|][i] == before[i];
  }

  lemma WroteTwice(m: seq<Byte>, p: nat, size: nat, a: seq<Byte>, m1: seq<Byte>, p1: nat, size1: nat,
                   b: seq<Byte>, m2: seq<Byte>, p2: nat, size2: nat)
    requires Wrote(m, p, size, a, m1, p1, size1) && Wrote(m1, p1, size1, b, m2, p2, size2)
    ensures Wrote(m, p, size, a + b, m2, p2, size2)
  {
    WrittenTwice(m, m1, m2, p, a, b);
  }

  /** One call of `write` after the other. All of them succeed exactly when every chunk finds room. */
  method WriteChunks(ba: ByteArray, chunks: seq<seq<Byte>>) returns (ok: bool)
    requires ba.Valid()
    modifies ba`position, ba`cur, ba`capacity, ba`nodes, ba`mem, ba`size, ba.nodes
    ensures ok <==> ChunksFit(chunks, old(ba.Room()), ba.base)
    ensures ok ==> ba.Valid()
    ensures ok ==> Wrote(old(ba.mem), old(ba.position), old(ba.size), Concat(chunks), ba.mem, ba.position, ba.size)
    decreases |chunks|
  {
    if chunks == [] {
      return true;
    }
    ok := WriteChunk(ba, chunks[0]);
    if ok {
      ghost var m, p, size := ba.mem, ba.position, ba.size;
      ok := WriteChunks(ba, chunks[1..]);
      if ok {
        WroteTwice(old(ba.mem), old(ba.position), old(ba.size), chunks[0], m, p, size,
                   Concat(chunks[1..]), ba.mem, ba.position, ba.size);
      }
    }
  }

  // ---------------------------------------------------------------------------------------
  // Reading
  // ---------------------------------------------------------------------------------------

  /** The bytes between the position and the size. */
  ghost function Readable(ba: ByteArray): seq<Byte>
    requires ba.position <= ba.size <= |ba.mem|
    reads ba
  {
    ba.mem[ba.position..ba.size]
  }

  lemma TakeSlice(m: seq<Byte>, p: nat, n: nat, size: nat)
    requires p + n <= size <= |m|
    ensures m[p..p + n] == m[p..size][..n] && m[p + n..size] == m[p..size][n..]
  {
  }

  /** Reading `n > 0` bytes takes them off the front of what is readable. */
  method Take(ba: ByteArray, n: nat) returns (r: Outcome<seq<Byte>>)
    requires ba.Valid() && n > 0
    modifies ba`position, ba`cur
    ensures ba.Valid()
    ensures |old(Readable(ba))| < n ==> r.OutOfRange? && unchanged(ba)
    ensures n <= |old(Readable(ba))| ==> r == Ok(old(Readable(ba))[..n]) && Readable(ba) == old(Readable(ba))[n..]
  {
    ghost var p := ba.position;
    r := ba.Read(n);
    if r.Ok? {
      TakeSlice(ba.mem, p, n, ba.size);
    }
  }

  method ReadFixed(ba: ByteArray, n: nat, host: Endian) returns (r: Outcome<nat>)
    requires ba.Valid() && n > 0
    modifies ba`position, ba`cur
    ensures ba.Valid() && !r.Crash?
    ensures TakeFixed(old(Readable(ba)), n, ba.order, host) == if r.Ok? then Some((r.value, Readable(ba))) else None
  {
    var bs := Take(ba, n);
    match bs {
      case Ok(v) => return Ok(FromFixed(v, ba.order, host));
      case _ => return OutOfRange;
    }
  }

  /** `UnVarint` seen from inside the loop: `result` is read already, the rest counts `scale` times. */
  ghost function Resumed(result: nat, scale: nat, bs: seq<Byte>, k: nat): Option<(nat, seq<Byte>)> {
    match UnVarint(bs, k)
    case None => None
    case Some((v, rest)) => Some((result + scale * v, rest))
  }

  /** `result |= (b & 0x7f) << i`, the bits being disjoint. */
  function Accumulate(result: nat, scale: nat, group: nat): nat {
    result + scale * group
  }

  function Shift(scale: nat): nat {
    scale * 128
  }

  lemma ResumeOne(result: nat, scale: nat, bs: seq<Byte>, k: nat)
    requires k > 0 && bs != []
    ensures bs[0] < 128 ==> Resumed(result, scale, bs, k) == Some((Accumulate(result, scale, bs[0]), bs[1..]))
    ensures bs[0] >= 128 ==>
              Resumed(result, scale, bs, k)
              == Resumed(Accumulate(result, scale, bs[0] % 128), Shift(scale), bs[1..], k - 1)
  {
    if bs[0] >= 128 {
      match UnVarint(bs[1..], k - 1)
      case None =>
      case Some((v, rest)) =>
        assert scale * (bs[0] - 128 + 128 * v) == scale * (bs[0] - 128) + (scale * 128) * v;
    }
  }

  /** `readFuint8`. */
  method TakeByte(ba: ByteArray) returns (r: Outcome<Byte>)
    requires ba.Valid()
    modifies ba`position, ba`cur
    ensures ba.Valid()
    ensures if old(Readable(ba)) == [] then r.OutOfRange?
            else r == Ok(old(Readable(ba))[0]) && Readable(ba) == old(Readable(ba))[1..]
  {
    var b := Take(ba, 1);
    return if b.Ok? then Ok(b.value[0]) else OutOfRange;
  }

  lemma ResumeNone(result: nat, scale: nat, k: nat)
    requires k > 0
    ensures Resumed(result, scale, [], k) == None
  {
  }

  lemma ResumeEdges(result: nat, scale: nat, bs: seq<Byte>, k: nat)
    ensures Resumed(0, 1, bs, k) == UnVarint(bs, k)
    ensures Resumed(result, scale, bs, 0) == Some((result, bs))
  {
  }

  /** The loop of `readUint32` and `readUint64`, up to the truncation to the word. */
  method ReadGroups(ba: ByteArray, k: nat) returns (r: Outcome<nat>)
    requires ba.Valid()
    modifies ba`position, ba`cur
    ensures ba.Valid() && !r.Crash?
    ensures UnVarint(old(Readable(ba)), k) == if r.Ok? then Some((r.value, Readable(ba))) else None
  {
    var result: nat, scale: nat, i := 0, 1, k;
    ghost var goal := UnVarint(Readable(ba), k);
    ResumeEdges(0, 1, Readable(ba), k);
    while i > 0
      invariant 0 <= i && ba.Valid()
      invariant goal == Resumed(result, scale, Readable(ba), i)
    {
      ghost var bs := Readable(ba);
      var b := TakeByte(ba);
      if !b.Ok? {
        ResumeNone(result, scale, i);
        return OutOfRange;
      }
      ResumeOne(result, scale, bs, i);
      if b.value < 0x80 {
        return Ok(Accumulate(result, scale, b.value));
      }
      result, scale, i := Accumulate(result, scale, b.value % 128), Shift(scale), i - 1;
    }
    ResumeEdges(result, scale, Readable(ba), 0);
    return Ok(result);
  }

  method ReadVarint(ba: ByteArray, wide: bool) returns (r: Outcome<nat>)
    requires ba.Valid()
    modifies ba`position, ba`cur
    ensures ba.Valid() && !r.Crash?
    ensures TakeVar(old(Readable(ba)), wide) == if r.Ok? then Some((r.value, Readable(ba))) else None
  {
    r := ReadGroups(ba, if wide then 10 else 5);
    if r.Ok? {
      r := Ok(r.value % Words(VarBytes(wide)));
    }
  }

  method ReadLength(ba: ByteArray, p: Prefix, host: Endian) returns (r: Outcome<nat>)
    requires ba.Valid()
    modifies ba`position, ba`cur
    ensures ba.Valid() && !r.Crash?
    ensures TakeLength(old(Readable(ba)), p, ba.order, host) == if r.Ok? then Some((r.value, Readable(ba))) else None
  {
    if p == Vint {
      r := ReadVarint(ba, true);
    } else {
      r := ReadFixed(ba, PrefixBytes(p), host);
    }
  }

  /** The payload of a string: a zero-length read at full capacity crashes. */
  method ReadPayload(ba: ByteArray, n: nat) returns (r: Outcome<seq<Byte>>)
    requires ba.Valid()
    modifies ba`position, ba`cur
    ensures ba.Valid()
    ensures r.OutOfRange? <==> |old(Readable(ba))| < n
    ensures r.Crash? <==> n == 0 && old(ba.position) == ba.capacity
    ensures r.Ok? ==> r.value == old(Readable(ba))[..n] && Readable(ba) == old(Readable(ba))[n..]
  {
    ghost var p := ba.position;
    r := ba.Read(n);
    if r.Ok? {
      TakeSlice(ba.mem, p, n, ba.size);
    }
  }

  /** Reading back this value, with `rest` left over, makes a zero-length read at full capacity. */
  ghost predicate EmptyAtEnd(x: Value, rest: seq<Byte>, size: nat, capacity: nat) {
    x == Text([]) && size - |rest| == capacity
  }

  /** What a typed read returns and leaves, given what the flat bytes decode to. */
  ghost predicate Returns(r: Outcome<Value>, decoded: Option<(Value, seq<Byte>)>, left: seq<Byte>, size: nat,
                          capacity: nat) {
    match decoded
    case None => r.OutOfRange?
    case Some((x, rest)) => if EmptyAtEnd(x, rest, size, capacity) then r.Crash? else r == Ok(x) && left == rest
  }

  method ReadString(ba: ByteArray, p: Prefix, host: Endian) returns (r: Outcome<Value>)
    requires ba.Valid()
    modifies ba`position, ba`cur
    ensures ba.Valid()
    ensures Returns(r, Decode(Str(p), old(Readable(ba)), ba.order, host), Readable(ba), ba.size, ba.capacity)
  {
    var n := ReadLength(ba, p, host);
    if !n.Ok? {
      return OutOfRange;
    }
    var s := ReadPayload(ba, n.value);
    match s {
      case Ok(bytes) => return Ok(Text(bytes));
      case OutOfRange => return OutOfRange;
      case Crash => return Crash;
    }
  }

  /** One typed read: it fails when the bytes run out, and crashes exactly for an empty string that ends
      at the capacity. */
  method ReadValue(ba: ByteArray, ty: Type, host: Endian) returns (r: Outcome<Value>)
    requires ba.Valid()
    modifies ba`position, ba`cur
    ensures ba.Valid()
    ensures Returns(r, Decode(ty, old(Readable(ba)), ba.order, host), Readable(ba), ba.size, ba.capacity)
  {
    match ty {
      case Fixed(w, signed) =>
        var u := ReadFixed(ba, Bytes(w), host);
        if !u.Ok? { return OutOfRange; }
        return Ok(Num(FromNum(u.value, Bytes(w), signed)));
      case Var(wide, signed) =>
        var u := ReadVarint(ba, wide);
        if !u.Ok? { return OutOfRange; }
        return Ok(Num(if signed then ZigDecode(u.value, Words(VarBytes(wide))) else u.value));
      case Str(p) =>
        r := ReadString(ba, p, host);
    }
  }

  // ---------------------------------------------------------------------------------------
  // Lists of values
  // ---------------------------------------------------------------------------------------

  ghost function AllChunks(items: seq<Item>, order: Endian, host: Endian): seq<seq<Byte>>
    requires AllTyped(items)
  {
    if items == [] then []
    else Chunks(items[0].ty, items[0].x, order, host) + AllChunks(items[1..], order, host)
  }

  lemma {:induction false} ConcatAppend(a: seq<seq<Byte>>, b: seq<seq<Byte>>)
    ensures Concat(a + b) == Concat(a) + Concat(b)
    decreases |a|
  {
    if a == [] {
      assert a + b == b;
    } else {
      ConcatAppend(a[1..], b);
      assert (a + b)[1..] == a[1..] + b;
    }
  }

  lemma ConcatChunks(ty: Type, x: Value, order: Endian, host: Endian)
    requires Typed(ty, x)
    ensures Concat(Chunks(ty, x, order, host)) == Encode(ty, x, order, host)
  {
    var cs := Chunks(ty, x, order, host);
    if ty.Str? {
      assert cs[1..] == [x.s] && [x.s][1..] == [];
      assert Concat([x.s]) == x.s;
    } else {
      assert cs[1..] == [];
    }
  }

  lemma {:induction false} ConcatAll(items: seq<Item>, order: Endian, host: Endian)
    requires AllTyped(items)
    ensures Concat(AllChunks(items, order, host)) == EncodeAll(items, order, host)
    decreases |items|
  {
    if items != [] {
      ConcatAll(items[1..], order, host);
      assert Typed(items[0].ty, items[0].x);
      ConcatChunks(items[0].ty, items[0].x, order, host);
      ConcatAppend(Chunks(items[0].ty, items[0].x, order, host), AllChunks(items[1..], order, host));
    }
  }

  /** The chunks of a list of values, in the order they are written. */
  method ChunksOfAll(items: seq<Item>, order: Endian, host: Endian) returns (chunks: seq<seq<Byte>>)
    requires AllTyped(items)
    ensures chunks == AllChunks(items, order, host)
    decreases |items|
  {
    chunks := [];
    if items != [] {
      assert Typed(items[0].ty, items[0].x);
      var first := ChunksOf(items[0].ty, items[0].x, order, host);
      var rest := ChunksOfAll(items[1..], order, host);
      chunks := first + rest;
    }
  }

  /** Writing a list of values: all of it lands in place exactly when every chunk finds room. */
  method WriteAll(ba: ByteArray, items: seq<Item>, host: Endian) returns (ok: bool)
    requires ba.Valid() && AllTyped(items)
    modifies ba`position, ba`cur, ba`capacity, ba`nodes, ba`mem, ba`size, ba.nodes
    ensures ok <==> ChunksFit(AllChunks(items, ba.order, host), old(ba.Room()), ba.base)
    ensures ok ==> ba.Valid()
    ensures ok ==>
              Wrote(old(ba.mem), old(ba.position), old(ba.size), EncodeAll(items, ba.order, host),
                    ba.mem, ba.position, ba.size)
  {
    var chunks := ChunksOfAll(items, ba.order, host);
    ConcatAll(items, ba.order, host);
    ok := WriteChunks(ba, chunks);
  }

  /** Every encoding has at least one byte. */
  lemma EncodeNonEmpty(ty: Type, x: Value, order: Endian, host: Endian)
    requires Typed(ty, x)
    ensures |Encode(ty, x, order, host)| > 0
  {
  }

  /** The first value decodes, and the others are what it leaves. */
  lemma FirstDecodes(items: seq<Item>, rest: seq<Byte>, order: Endian, host: Endian) returns (tail: seq<Byte>)
    requires items != [] && AllTyped(items) && AllFit(items)
    ensures tail == EncodeAll(items[1..], order, host) + rest && AllTyped(items[1..]) && AllFit(items[1..])
    ensures Decode(items[0].ty, EncodeAll(items, order, host) + rest, order, host) == Some((items[0].x, tail))
  {
    EncodeMore(items, rest, order, host);
    tail := EncodeAll(items[1..], order, host) + rest;
    assert Typed(items[0].ty, items[0].x) && PrefixFits(items[0].ty, items[0].x);
    RoundTrip(items[0].ty, items[0].x, tail, order, host);
  }

  /** The first of several values: it comes back, unless it is the last, empty and at the capacity. */
  method ReadFirst(ba: ByteArray, items: seq<Item>, host: Endian, ghost rest: seq<Byte>)
    returns (r: Outcome<Value>)
    requires ba.Valid() && items != [] && AllTyped(items) && AllFit(items)
    requires Readable(ba) == EncodeAll(items, ba.order, host) + rest
    modifies ba`position, ba`cur
    ensures ba.Valid() && AllTyped(items[1..]) && AllFit(items[1..])
    ensures if |items| == 1 && EmptyAtEnd(items[0].x, rest, ba.size, ba.capacity) then r.Crash?
            else r == Ok(items[0].x) && Readable(ba) == EncodeAll(items[1..], ba.order, host) + rest
  {
    ghost var tail := FirstDecodes(items, rest, ba.order, host);
    NotLastNotEmpty(items, tail, rest, ba.order, host, ba.size, ba.capacity);
    r := ReadValue(ba, items[0].ty, host);
  }

  /** Reading the types of `items` off bytes that start with their encodings. The list comes back and
      exactly its bytes are consumed, unless the last value is an empty string ending at the capacity,
      and then the last read crashes. */
  method ReadAll(ba: ByteArray, items: seq<Item>, host: Endian, ghost rest: seq<Byte>) returns (r: Outcome<seq<Item>>)
    requires ba.Valid() && AllTyped(items) && AllFit(items)
    requires Readable(ba) == EncodeAll(items, ba.order, host) + rest
    modifies ba`position, ba`cur
    ensures ba.Valid()
    ensures if items != [] && EmptyAtEnd(items[|items| - 1].x, rest, ba.size, ba.capacity) then r.Crash?
            else r == Ok(items) && Readable(ba) == rest
    decreases |items|
  {
    if items == [] {
      assert EncodeAll(items, ba.order, host) + rest == rest;
      return Ok([]);
    }
    var first := ReadFirst(ba, items, host, rest);
    if !first.Ok? {
      return Crash;
    }
    var others := ReadAll(ba, items[1..], host, rest);
    if !others.Ok? {
      return Crash;
    }
    assert [Item(items[0].ty, items[0].x)] + items[1..] == items;
    return Ok([Item(items[0].ty, first.value)] + others.value);
  }

  /** Only the last value can end at the capacity, since every later one takes a byte. */
  lemma NotLastNotEmpty(items: seq<Item>, tail: seq<Byte>, rest: seq<Byte>, order: Endian, host: Endian, size: nat,
                        capacity: nat)
    requires AllTyped(items) && items != [] && tail == EncodeAll(items[1..], order, host) + rest
    requires |tail| <= size <= capacity
    ensures |items| > 1 ==> size - |tail| < capacity
    ensures |items| == 1 ==> tail == rest && items[1..] == []
    ensures |items| > 1 ==> items[1..][|items| - 2] == items[|items| - 1]
  {
    if |items| > 1 {
      assert Typed(items[1].ty, items[1].x);
      EncodeNonEmpty(items[1].ty, items[1].x, order, host);
    } else {
      assert [] + rest == rest;
    }
  }

  /** Back at `start`, what lies ahead begins with the bytes just written. */
  lemma AheadOfStart(m: seq<Byte>, start: nat, bs: seq<Byte>, size: nat)
    requires start + |bs| <= size <= |m| && m[start..start + |bs|] == bs
    ensures m[start..size] == bs + m[start + |bs|..size]
  {
    assert m[start..size] == m[start..start + |bs|] + m[start + |bs|..size];
  }

  /** Reading `items` back, up to `finish`: they come back and nothing else is consumed, unless the last
      one is an empty string that ends at the capacity. */
  ghost predicate CameBack(items: seq<Item>, r: Outcome<seq<Item>>, position: nat, finish: nat, capacity: nat) {
    if items != [] && items[|items| - 1].x == Text([]) && finish == capacity then r.Crash?
    else r == Ok(items) && position == finish
  }

  /** Repositioning and reading the types of values that lie in the array. */
  method ReadBack(ba: ByteArray, start: nat, items: seq<Item>, host: Endian, ghost bs: seq<Byte>)
      returns (r: Outcome<seq<Item>>)
    requires ba.Valid() && AllTyped(items) && AllFit(items) && bs == EncodeAll(items, ba.order, host)
    requires start + |bs| <= ba.size && ba.mem[start..start + |bs|] == bs
    modifies ba`position, ba`size, ba`cur
    ensures ba.Valid()
    ensures CameBack(items, r, ba.position, start + |bs|, ba.capacity)
  {
    ghost var rest := ba.mem[start + |bs|..ba.size];
    AheadOfStart(ba.mem, start, bs, ba.size);
    var moved := ba.SetPosition(start);
    assert moved;
    r := ReadAll(ba, items, host, rest);
    assert r.Ok? ==> |Readable(ba)| == |rest|;
  }

  /** Write any list of typed values, go back, read the same types: the list comes back, and exactly the
      bytes written are consumed, for every node size, start position and byte order. The exact
      exceptions are a growth that falls short and a last value that is an empty string ending at the
      capacity. */
  method WriteBackRead(ba: ByteArray, items: seq<Item>, host: Endian) returns (wrote: bool, r: Outcome<seq<Item>>)
    requires ba.Valid() && AllTyped(items) && AllFit(items)
    modifies ba`position, ba`cur, ba`capacity, ba`nodes, ba`mem, ba`size, ba.nodes
    ensures wrote <==> ChunksFit(AllChunks(items, ba.order, host), old(ba.Room()), ba.base)
    ensures wrote ==>
              CameBack(items, r, ba.position, old(ba.position) + |EncodeAll(items, ba.order, host)|, ba.capacity)
  {
    var start := ba.position;
    ghost var bs := EncodeAll(items, ba.order, host);
    wrote := WriteAll(ba, items, host);
    if !wrote {
      return false, Crash;
    }
    r := ReadBack(ba, start, items, host, bs);
  }
}
