/**
 Concrete arrays on which `ByteArray` departs from what its callers expect; each is made with its own
 calls.
 */
module ByteArrayDepartures {
  import opened Wrappers
  import opened Codec
  import opened Blocks
  import opened ByteArrays
  import opened ByteArrayCodec

  /** A new array with nodes of more than one byte cannot take one byte more than a node. */
  method GrowthFallsShort(base: nat, bytes: seq<Byte>) returns (ok: bool)
    requires base > 1 && |bytes| == base + 1
    ensures !ok
  {
    var ba := new ByteArray(base);
    DivModUnique(1, 0, 1, base);
    ok := ba.Write(bytes);
  }

  lemma TwoLengthBytes(host: Endian)
    ensures |LengthBytes(0, F16, Big, host)| == 2
    ensures Encode(Str(F16), Text([]), Big, host) == LengthBytes(0, F16, Big, host) + []
  {
  }

  lemma NoGrowth()
    ensures GrowthFits(2, 2, 2) && ShippedCount(2, 2, 2) == 0 && Origin(2, 0) == 0
    ensures GrowthFits(2, 0, 2) && ShippedCount(2, 0, 2) == 1 && Origin(2, 1) == 2
  {
    assert 2 / 2 == 1 && 2 % 2 == 0;
    assert Origin(2, 1) == Origin(2, 0) + 2;
  }

  lemma TwoAndTwo(m: seq<Byte>, m1: seq<Byte>, m2: seq<Byte>, a: seq<Byte>, b: seq<Byte>)
    requires Written(m, m1, 0, a) && Written(m1, m2, |a|, b) && |m2| == |a| + |b|
    ensures m2 == a + b
  {
    WrittenTwice(m, m1, m2, 0, a, b);
    assert m2 == m2[0..|a + b|];
  }

  /** Two bytes in nodes of two. */
  method OneNode(a: seq<Byte>) returns (ba: ByteArray, ghost before: seq<Byte>)
    requires |a| == 2
    ensures fresh(ba) && fresh(ba.nodes) && ba.Valid() && ba.order == Big && ba.base == 2
    ensures ba.position == ba.capacity == ba.size == 2 && Written(before, ba.mem, 0, a)
  {
    ba := new ByteArray(2);
    NoGrowth();
    before := ba.mem;
    var ok := ba.Write(a);
  }

  /** And, in a second write, nothing more, or another node. */
  method Filled(a: seq<Byte>, b: seq<Byte>) returns (ba: ByteArray)
    requires |a| == 2 && (|b| == 0 || |b| == 2)
    ensures fresh(ba) && fresh(ba.nodes) && ba.Valid() && ba.order == Big && ba.base == 2
    ensures ba.capacity == ba.size == 2 + |b| && ba.mem == a + b
  {
    ghost var m;
    ba, m := OneNode(a);
    NoGrowth();
    ghost var m1 := ba.mem;
    var ok := ba.Write(b);
    TwoAndTwo(m, m1, ba.mem, a, b);
  }

  lemma EmptyDecodes(ty: Type, host: Endian, bytes: seq<Byte>)
    requires ty == Str(F16) && bytes == Encode(ty, Text([]), Big, host)
    ensures Decode(ty, bytes, Big, host) == Some((Text([]), []))
  {
    RoundTrip(ty, Text([]), [], Big, host);
    assert bytes + [] == bytes;
  }

  /** Going back to an empty string behind which the capacity ends. */
  method ReadEmpty(ba: ByteArray, ty: Type, host: Endian) returns (r: Outcome<Value>)
    requires ba.Valid() && ba.size == ba.capacity && Decode(ty, ba.mem, ba.order, host) == Some((Text([]), []))
    modifies ba`position, ba`size, ba`cur
    ensures r.Crash?
  {
    var back := ba.SetPosition(0);
    assert Readable(ba) == ba.mem;
    r := ReadValue(ba, ty, host);
  }

  /** An empty string that fills the last node: reading it back crashes. */
  method EmptyStringCrashes(host: Endian) returns (r: Outcome<Value>)
    ensures r.Crash?
  {
    var chunks := ChunksOf(Str(F16), Text([]), Big, host);
    TwoLengthBytes(host);
    var ba := Filled(chunks[0], chunks[1]);
    EmptyDecodes(Str(F16), host, ba.mem);
    r := ReadEmpty(ba, Str(F16), host);
  }

  method ReadFirst(ba: ByteArray) returns (r: Outcome<seq<Byte>>)
    requires ba.Valid() && ba.size >= 1
    modifies ba`position, ba`size, ba`cur
    ensures ba.Valid() && ba.size == old(ba.size) && r == Ok([ba.mem[0]])
  {
    var moved := ba.SetPosition(0);
    r := ba.Read(1);
    assert r.Ok? ==> ba.mem[0..1] == [ba.mem[0]];
  }

  method ReadAtFromSecond(ba: ByteArray) returns (r: Outcome<seq<Byte>>)
    requires ba.Valid() && ba.size == ba.capacity == 4 && ba.base == 2
    modifies ba`position, ba`size, ba`cur
    ensures r == Ok([ba.mem[2]])
  {
    var moved := ba.SetPosition(2);
    ba.CursorIsQuotient();
    NoGrowth();
    assert ba.cur == 1 && 0 % 2 == 0;
    r := ba.ReadAt(1, 0);
    assert r.Ok? ==> ba.mem[2..3] == [ba.mem[2]];
  }

  /** A positional read of byte 0 while the cursor is in the second node returns byte 2. */
  method ReadAtElsewhere(a: seq<Byte>, b: seq<Byte>) returns (first: Outcome<seq<Byte>>, r: Outcome<seq<Byte>>)
    requires |a| == 2 && |b| == 2
    ensures first == Ok([a[0]]) && r == Ok([b[0]])
  {
    var ba := Filled(a, b);
    first := ReadFirst(ba);
    r := ReadAtFromSecond(ba);
  }
}
