/**
 `ByteArray`: a list of equally sized nodes with a cursor. The nodes are the elements of a sequence and
 `cur` is the place of the current one, the length of the sequence standing for the null pointer; the
 node buffers are arrays written in place. `Mem()` is the flat view all contracts speak of. Where the
 shipped code would dereference a null node the methods report a crash, and the contracts say exactly
 when that is.
 */
module ByteArrays {
  import opened Wrappers
  import opened Codec
  import opened Blocks

  datatype Outcome<+T> = Ok(value: T) | OutOfRange | Crash

  /** A stretch of one node: the `iovec` entries handed to the socket calls. */
  datatype Segment = Segment(node: nat, off: nat, len: nat)

  function Max(a: nat, b: nat): nat {
    if a < b then b else a
  }

  /** `memcpy` into a buffer. */
  method Store(a: array<Byte>, off: nat, bs: seq<Byte>)
    requires off + |bs| <= a.Length
    modifies a
    ensures a[..] == Splice(old(a[..]), off, bs)
  {
    forall i | 0 <= i < |bs| {
      a[off + i] := bs[i];
    }
  }

  /** The segments lie in nodes below `n`, follow one another without gap from `start`, and hold `len`
      bytes in all. */
  ghost predicate Covers(segs: seq<Segment>, base: nat, n: nat, start: nat, len: nat) {
    if segs == [] then len == 0
    else
      var last := segs[|segs| - 1];
      && 0 < last.len <= len && last.node < n && last.off + last.len <= base
      && Origin(base, last.node) + last.off + last.len == start + len
      && Covers(segs[..|segs| - 1], base, n, start, len - last.len)
  }

  /** The bytes a segment stands for. */
  ghost function Piece(cs: seq<seq<Byte>>, seg: Segment): seq<Byte> {
    if seg.node < |cs| && seg.off + seg.len <= |cs[seg.node]| then cs[seg.node][seg.off..seg.off + seg.len] else []
  }

  /** What a gathering write sends: the bytes of the segments, in order. */
  ghost function Gather(cs: seq<seq<Byte>>, segs: seq<Segment>): seq<Byte> {
    if segs == [] then [] else Gather(cs, segs[..|segs| - 1]) + Piece(cs, segs[|segs| - 1])
  }

  lemma PieceIsSlice(cs: seq<seq<Byte>>, base: nat, seg: Segment, m: seq<Byte>, p: nat)
    requires Uniform(cs, base) && seg.node < |cs| && seg.off + seg.len <= base && m == Flat(cs)
    requires p == Origin(base, seg.node) + seg.off
    ensures p + seg.len <= |m| && Piece(cs, seg) == m[p..p + seg.len]
  {
    FlatSlice(cs, base, seg.node, seg.off, seg.len);
  }

  /** Segments that cover a stretch gather to that stretch of the flat view. */
  lemma {:induction false} GatherIsSlice(cs: seq<seq<Byte>>, base: nat, segs: seq<Segment>, m: seq<Byte>, start: nat,
                                         len: nat)
    requires Uniform(cs, base) && Covers(segs, base, |cs|, start, len) && start <= |m| && m == Flat(cs)
    ensures start + len <= |m| && Gather(cs, segs) == m[start..start + len]
    decreases |segs|
  {
    if segs != [] {
      var last, before := segs[|segs| - 1], segs[..|segs| - 1];
      var done := len - last.len;
      GatherIsSlice(cs, base, before, m, start, done);
      PieceIsSlice(cs, base, last, m, start + done);
      GatherOne(Gather(cs, before), Piece(cs, last), m, start, done, start + done, last.len);
      GatherSnoc(cs, segs);
    }
  }

  lemma GatherSnoc(cs: seq<seq<Byte>>, segs: seq<Segment>)
    requires segs != []
    ensures Gather(cs, segs) == Gather(cs, segs[..|segs| - 1]) + Piece(cs, segs[|segs| - 1])
  {
  }

  lemma GatherOne(g: seq<Byte>, piece: seq<Byte>, m: seq<Byte>, start: nat, done: nat, p: nat, n: nat)
    requires p == start + done && p + n <= |m| && g == m[start..start + done] && piece == m[p..p + n]
    ensures g + piece == m[start..start + (done + n)]
  {
  }

  lemma CoversMore(segs: seq<Segment>, seg: Segment, base: nat, n: nat, start: nat, len: nat)
    requires Covers(segs, base, n, start, len) && 0 < seg.len && seg.node < n && seg.off + seg.len <= base
    requires Origin(base, seg.node) + seg.off == start + len
    ensures Covers(segs + [seg], base, n, start, len + seg.len)
  {
    assert (segs + [seg])[..|segs|] == segs;
  }

  /** The walk that lists the segments of `len` bytes from offset `off` of node `k`, over a list of `n`
      nodes. It reaches the null node, and reports false, exactly when the list ends too early. */
  method ListSegments(k: nat, off: nat, len: nat, base: nat, n: nat) returns (ok: bool, segs: seq<Segment>)
    requires off < base && k <= n
    ensures ok <==> len == 0 || Origin(base, k) + off + len <= Origin(base, n)
    ensures ok ==> Covers(segs, base, n, Origin(base, k) + off, len)
  {
    segs := [];
    var node: nat, npos: nat, left: nat := k, off, len;
    ghost var start := Origin(base, k) + off;
    while left > 0
      invariant 0 <= left <= len && node <= n && 0 <= npos < base
      invariant left > 0 ==> Origin(base, node) + npos == start + (len - left)
      invariant Covers(segs, base, n, start, len - left)
      invariant left < len ==> start + (len - left) <= Origin(base, n)
      decreases left
    {
      if node == n {
        return false, segs;
      }
      OriginMono(base, node, n);
      var ncap := base - npos;
      var taken := if ncap >= left then left else ncap;
      CoversMore(segs, Segment(node, npos, taken), base, n, start, len - left);
      segs := segs + [Segment(node, npos, taken)];
      left := left - taken;
      node, npos := node + 1, 0;
    }
    return true, segs;
  }

  /** The walk of `setPosition` from the root to the node that holds place `v`. */
  method Locate(v: nat, base: nat, n: nat) returns (k: nat)
    requires base > 0 && n > 0 && v <= Origin(base, n)
    ensures k <= n && Lies(v, base, k)
  {
    k := 0;
    var left := v;
    while left > base
      invariant k < n && 0 <= left && Origin(base, k) + left == v
    {
      OriginBelow(base, k + 1, n);
      left := left - base;
      k := k + 1;
    }
    if left == base {
      k := k + 1;
    }
  }

  /** What the buffers of a list of nodes hold. */
  ghost function Buffers(nodes: seq<array<Byte>>): (cs: seq<seq<Byte>>)
    reads nodes
    ensures |cs| == |nodes|
  {
    seq(|nodes|, i requires 0 <= i < |nodes| reads nodes => nodes[i][..])
  }

  class ByteArray {
    const base: nat
    var position: nat
    var capacity: nat
    var size: nat
    var order: Endian
    var nodes: seq<array<Byte>>
    var cur: nat

    /** The flat view: the node buffers end to end. */
    ghost var mem: seq<Byte>

    /** The list of nodes is well formed and `mem` is its flat view. */
    ghost predicate Nodes()
      reads this`nodes, this`capacity, this`mem, nodes
    {
      && base > 0 && |nodes| > 0
      && (forall i :: 0 <= i < |nodes| ==> nodes[i].Length == base)
      && (forall i, j :: 0 <= i < j < |nodes| ==> nodes[i] != nodes[j])
      && capacity == |mem|
      && mem == Flat(Buffers(nodes))
    }

    /** Position within size within capacity, and the cursor node is the one the position lies in,
        null exactly when the position is the capacity. */
    ghost predicate Valid()
      reads this, nodes
    {
      && Nodes()
      && position <= size <= capacity
      && Lies(position, base, cur)
    }

    /** With nodes of no bytes the object is made, and every later call divides by their size. */
    constructor (baseSize: nat)
      ensures Valid() <==> baseSize > 0
      ensures base == baseSize && position == 0 && size == 0 && capacity == baseSize && order == Big
      ensures fresh(nodes)
    {
      base := baseSize;
      position, capacity, size, order := 0, baseSize, 0, Big;
      var root := new Byte[baseSize];
      nodes, cur := [root], 0;
      mem := root[..];
      new;
      assert Buffers(nodes) == [mem];
      assert Flat([]) + mem == mem;
    }

    /** `memcpy` into one node. */
    method CopyIn(k: nat, off: nat, bs: seq<Byte>)
      requires Nodes() && k < |nodes| && off + |bs| <= base
      modifies this`mem, nodes[k]
      ensures Nodes()
      ensures Origin(base, k) + off + |bs| <= capacity && mem == Splice(old(mem), Origin(base, k) + off, bs)
    {
      ghost var before := Buffers(nodes);
      FlatUpdate(before, base, k, off, bs);
      Store(nodes[k], off, bs);
      assert Buffers(nodes) == before[k := Splice(before[k], off, bs)];
      mem := Splice(mem, Origin(base, k) + off, bs);
    }

    /** `memcpy` out of one node. */
    method CopyOut(k: nat, off: nat, n: nat) returns (bs: seq<Byte>)
      requires Nodes() && k < |nodes| && off + n <= base
      ensures Origin(base, k) + off + n <= capacity && bs == mem[Origin(base, k) + off..Origin(base, k) + off + n]
    {
      bs := nodes[k][off..off + n];
      FlatSlice(Buffers(nodes), base, k, off, n);
    }

    function Room(): nat
      requires position <= capacity
      reads this
    {
      capacity - position
    }

    /** One more node at the end of the list. */
    method AddNode()
      requires Nodes()
      modifies this`nodes, this`capacity, this`mem
      ensures Nodes() && |nodes| == |old(nodes)| + 1 && nodes[..|old(nodes)|] == old(nodes)
      ensures capacity == old(capacity) + base && mem[..old(capacity)] == old(mem)
      ensures fresh(nodes[|old(nodes)|])
    {
      ghost var before := Buffers(nodes);
      var node := new Byte[base];
      nodes := nodes + [node];
      capacity := capacity + base;
      mem := mem + node[..];
      assert Buffers(nodes) == before + [node[..]];
      FlatGrows(before, node[..]);
    }

    /** The loop that links `count` new nodes to the end of the list. */
    method AddNodes(count: nat)
      requires Nodes()
      modifies this`nodes, this`capacity, this`mem
      ensures Nodes() && capacity == old(capacity) + Origin(base, count) && mem[..old(capacity)] == old(mem)
      ensures |old(nodes)| <= |nodes| && nodes[..|old(nodes)|] == old(nodes)
      ensures forall j :: |old(nodes)| <= j < |nodes| ==> fresh(nodes[j])
    {
      var i := 0;
      while i < count
        invariant 0 <= i <= count
        invariant Nodes() && capacity == old(capacity) + Origin(base, i) && mem[..old(capacity)] == old(mem)
        invariant |old(nodes)| <= |nodes| && nodes[..|old(nodes)|] == old(nodes)
        invariant forall j :: |old(nodes)| <= j < |nodes| ==> fresh(nodes[j])
      {
        ghost var soFar := mem;
        AddNode();
        assert mem[..old(capacity)] == mem[..|soFar|][..old(capacity)];
        i := i + 1;
      }
    }

    /** The shipped growth rule; `ShippedCountIff` says when it makes enough room. */
    method AddCapacity(n: nat)
      requires Valid()
      modifies this`nodes, this`capacity, this`cur, this`mem
      ensures Valid()
      ensures capacity == old(capacity) + Origin(base, ShippedCount(n, old(Room()), base))
      ensures mem[..old(capacity)] == old(mem)
      ensures |old(nodes)| <= |nodes| && nodes[..|old(nodes)|] == old(nodes)
      ensures forall i :: |old(nodes)| <= i < |nodes| ==> fresh(nodes[i])
    {
      var room := capacity - position;
      if n == 0 || room >= n {
        return;
      }
      var first := |nodes|;
      FlatLength(Buffers(nodes), base);
      AddNodes(ShippedCount(n, room, base));
      if room == 0 {
        cur := first;
      }
    }

    /** Copy the next `n` bytes of `buf` to their place, `bpos` of them being there already. */
    method CopyNext(k: nat, npos: nat, buf: seq<Byte>, bpos: nat, n: nat, ghost before: seq<Byte>, ghost start: nat)
      requires Nodes() && bpos + n <= |buf| && k < |nodes| && npos + n <= base
      requires Origin(base, k) + npos == start + bpos <= |before| == capacity
      requires mem == Splice(before, start, buf[..bpos])
      modifies this`mem, nodes[k]
      ensures Nodes() && start + bpos + n <= capacity
      ensures mem == Splice(before, start, buf[..bpos + n])
    {
      ghost var soFar := mem;
      CopyIn(k, npos, buf[bpos..bpos + n]);
      SplicedFurther(before, start, buf, bpos, n, soFar, mem);
    }

    /** One turn of the copy loop of `write`: fill what the current node has left, and move to the next
        node when it is full. */
    method WriteTurn(buf: seq<Byte>, bpos: nat, npos: nat, ghost before: seq<Byte>, ghost start: nat)
      returns (taken: nat, next: nat)
      requires Nodes() && bpos < |buf| && cur < |nodes| && npos < base
      requires position == Origin(base, cur) + npos == start + bpos <= |before| == capacity
      requires mem == Splice(before, start, buf[..bpos])
      modifies this`position, this`cur, this`mem, nodes[cur]
      ensures Nodes() && 0 < taken <= |buf| - bpos
      ensures next < base && position == Origin(base, cur) + next == start + bpos + taken <= capacity
      ensures mem == Splice(before, start, buf[..bpos + taken])
    {
      var ncap, left := base - npos, |buf| - bpos;
      taken := if ncap >= left then left else ncap;
      CopyNext(cur, npos, buf, bpos, taken, before, start);
      position := position + taken;
      next := npos + taken;
      if next == base {
        cur, next := cur + 1, 0;
      }
    }

    /** The cursor node exists exactly when the position is below the capacity. */
    lemma CursorNull()
      requires Nodes() && position <= capacity && Lies(position, base, cur)
      ensures cur <= |nodes| && (cur == |nodes| <==> position == capacity)
    {
      FlatLength(Buffers(nodes), base);
      if cur <= |nodes| {
        OriginMono(base, cur, |nodes|);
      } else {
        OriginMono(base, |nodes|, cur);
      }
    }

    /** The copy loop of `write`. It runs off the end of the list, and then reports false, exactly when
        the bytes do not fit. */
    method WriteLoop(buf: seq<Byte>, off: nat) returns (ok: bool)
      requires Nodes() && cur < |nodes| && off < base && position == Origin(base, cur) + off < capacity
      modifies this`position, this`cur, this`mem, nodes
      ensures ok <==> old(position) + |buf| <= capacity
      ensures ok ==> Nodes() && position == old(position) + |buf| && Lies(position, base, cur)
      ensures ok ==> mem == Splice(old(mem), old(position), buf)
    {
      var npos, bpos := off, 0;
      ghost var start, before := position, mem;
      assert mem == Splice(before, start, buf[..0]);
      while bpos < |buf|
        invariant Nodes() && 0 <= bpos <= |buf| && position == start + bpos <= capacity
        invariant 0 <= npos < base && position == Origin(base, cur) + npos
        invariant bpos < |buf| ==> cur < |nodes|
        invariant mem == Splice(before, start, buf[..bpos])
      {
        var taken;
        taken, npos := WriteTurn(buf, bpos, npos, before, start);
        bpos := bpos + taken;
        CursorNull();
        if bpos < |buf| && cur == |nodes| {
          return false;
        }
      }
      assert bpos == |buf|;
      assert buf[..bpos] == buf;
      return true;
    }

    /** The part of `write` after the growth. */
    method WriteGrown(buf: seq<Byte>) returns (ok: bool)
      requires Valid() && position < capacity
      modifies this`position, this`cur, this`mem, this`size, nodes
      ensures ok <==> old(position) + |buf| <= capacity
      ensures ok ==> Valid() && position == old(position) + |buf| && size == Max(old(size), position)
      ensures ok ==> mem == Splice(old(mem), old(position), buf)
    {
      CursorNull();
      LiesAt(position, base, cur);
      ok := WriteLoop(buf, position % base);
      if ok && position > size {
        size := position;
      }
    }

    /** `write`: grow, copy, advance. Succeeds exactly when the shipped growth makes enough room; then it
        changes the bytes from the old position on and nothing else. */
    method Write(buf: seq<Byte>) returns (ok: bool)
      requires Valid()
      modifies this`position, this`cur, this`capacity, this`nodes, this`mem, this`size, nodes
      ensures ok <==> GrowthFits(|buf|, old(Room()), base)
      ensures ok ==> Valid() && position == old(position) + |buf| && size == Max(old(size), position)
      ensures ok ==> capacity == old(capacity) + Origin(base, ShippedCount(|buf|, old(Room()), base))
      ensures ok ==> Written(old(mem), mem, old(position), buf)
      ensures ok ==> |old(nodes)| <= |nodes| && nodes[..|old(nodes)|] == old(nodes)
      ensures forall i :: |old(nodes)| <= i < |nodes| ==> fresh(nodes[i])
    {
      if |buf| == 0 {
        assert Written(mem, mem, position, []);
        return true;
      }
      GrowthIff(|buf|, Room(), base);
      AddCapacity(|buf|);
      ghost var grown := mem;
      ok := WriteGrown(buf);
      if ok {
        GrownThenSpliced(old(mem), grown, old(position), buf);
      }
    }

    /** One turn of the copy loop of `read`. */
    method ReadTurn(left: nat, npos: nat) returns (bs: seq<Byte>, next: nat)
      requires Nodes() && left > 0 && cur < |nodes| && npos < base && position == Origin(base, cur) + npos
      modifies this`position, this`cur
      ensures 0 < |bs| <= left && next < base
      ensures position == Origin(base, cur) + next == old(position) + |bs| <= capacity
      ensures bs == mem[old(position)..position]
    {
      var ncap := base - npos;
      var taken := if ncap >= left then left else ncap;
      bs := CopyOut(cur, npos, taken);
      position := position + taken;
      next := npos + taken;
      if next == base {
        cur, next := cur + 1, 0;
      }
    }

    /** The copy loop of `read`. */
    method ReadLoop(n: nat, off: nat) returns (buf: seq<Byte>)
      requires Nodes() && cur < |nodes| && off < base && position == Origin(base, cur) + off
      requires position + n <= capacity
      modifies this`position, this`cur
      ensures position == old(position) + n && Lies(position, base, cur)
      ensures buf == mem[old(position)..position]
    {
      var npos := off;
      ghost var start := position;
      buf := [];
      while |buf| < n
        invariant |buf| <= n && position == start + |buf| <= capacity
        invariant 0 <= npos < base && position == Origin(base, cur) + npos
        invariant |buf| < n ==> cur < |nodes|
        invariant buf == mem[start..position]
      {
        var piece;
        ghost var mid := position;
        piece, npos := ReadTurn(n - |buf|, npos);
        assert mem[start..mid] + mem[mid..position] == mem[start..position];
        buf := buf + piece;
        CursorNull();
      }
    }

    /** `read`: out of range when there is less to read; a crash exactly for a zero-length read with the
        position at the capacity, where the current node is null; else the bytes at the position. */
    method Read(n: nat) returns (r: Outcome<seq<Byte>>)
      requires Valid()
      modifies this`position, this`cur
      ensures r.OutOfRange? <==> size - old(position) < n
      ensures r.Crash? <==> n == 0 && old(position) == capacity
      ensures !r.Ok? ==> unchanged(this)
      ensures r.Ok? ==> Valid() && position == old(position) + n && r.value == mem[old(position)..position]
    {
      if n > size - position {
        return OutOfRange;
      }
      CursorNull();
      if cur == |nodes| {
        return Crash;
      }
      LiesAt(position, base, cur);
      var buf := ReadLoop(n, position % base);
      return Ok(buf);
    }

    /** `setPosition`: refused beyond the capacity, else the cursor moves and the size grows to it. */
    method SetPosition(v: nat) returns (ok: bool)
      requires Valid()
      modifies this`position, this`size, this`cur
      ensures ok <==> v <= capacity
      ensures !ok ==> unchanged(this)
      ensures ok ==> Valid() && position == v && size == Max(old(size), v)
    {
      if v > capacity {
        return false;
      }
      position := v;
      if position > size {
        size := position;
      }
      FlatLength(Buffers(nodes), base);
      cur := Locate(v, base, |nodes|);
      return true;
    }

    /** `clear`: one node, nothing in it. */
    method Clear()
      requires Valid()
      modifies this`position, this`size, this`capacity, this`nodes, this`cur, this`mem
      ensures Valid() && position == 0 && size == 0 && capacity == base
      ensures nodes == old(nodes)[..1] && mem == old(mem)[..base]
    {
      FirstBlock(Buffers(nodes), base);
      mem := mem[..base];
      nodes := nodes[..1];
      position, size, capacity, cur := 0, 0, base, 0;
      assert Buffers(nodes) == [nodes[0][..]];
    }

    /** The segments of the next `len` bytes from the position. */
    method SegmentsHere(len: nat) returns (ok: bool, segs: seq<Segment>)
      requires Nodes() && position < capacity && Lies(position, base, cur)
      ensures ok <==> position + len <= capacity
      ensures ok ==> Covers(segs, base, |nodes|, position, len)
    {
      CursorNull();
      LiesAt(position, base, cur);
      FlatLength(Buffers(nodes), base);
      ok, segs := ListSegments(cur, position % base, len, base, |nodes|);
    }

    /** `getReadBuffers`: at most what is left to read, as segments that hold exactly those bytes. */
    method GetReadBuffers(len: nat) returns (n: nat, segs: seq<Segment>)
      requires Valid()
      ensures n == if len > size - position then size - position else len
      ensures position + n <= capacity && Gather(Buffers(nodes), segs) == mem[position..position + n]
    {
      n := if len > size - position then size - position else len;
      segs := [];
      if n > 0 {
        var ok;
        ok, segs := SegmentsHere(n);
      }
      GatherIsSlice(Buffers(nodes), base, segs, mem, position, n);
    }

    /** The positional form walks from the root. The length is clipped by the reading position, so from
        any place up to it there are always enough bytes; from a later one the walk crashes exactly
        when it passes the capacity. */
    method GetReadBuffersAt(len: nat, at: nat) returns (r: Outcome<seq<Segment>>, n: nat)
      requires Valid()
      ensures n == if len > size - position then size - position else len
      ensures !r.OutOfRange?
      ensures r.Crash? <==> n > 0 && at + n > capacity
      ensures at <= position ==> r.Ok?
      ensures r.Ok? && n > 0 ==> at + n <= capacity && Gather(Buffers(nodes), r.value) == mem[at..at + n]
    {
      n := if len > size - position then size - position else len;
      if n == 0 {
        return Ok([]), n;
      }
      FlatLength(Buffers(nodes), base);
      var count := at / base;
      LiesSomewhere(at, base);
      LiesAt(at, base, count);
      if count > |nodes| {
        OriginMono(base, |nodes|, count);
        return Crash, n;
      }
      var ok, segs := ListSegments(count, at % base, n, base, |nodes|);
      if !ok {
        return Crash, n;
      }
      GatherIsSlice(Buffers(nodes), base, segs, mem, at, n);
      return Ok(segs), n;
    }

    /** `getWriteBuffers`: grow, then list the places for `len` bytes. It crashes exactly when `write` of
        as many bytes would. */
    method GetWriteBuffers(len: nat) returns (ok: bool, segs: seq<Segment>)
      requires Valid()
      modifies this`cur, this`capacity, this`nodes, this`mem
      ensures Valid()
      ensures ok <==> GrowthFits(len, old(Room()), base)
      ensures ok ==> Covers(segs, base, |nodes|, position, len)
      ensures capacity == old(capacity) + Origin(base, ShippedCount(len, old(Room()), base))
      ensures mem[..old(capacity)] == old(mem)
      ensures |old(nodes)| <= |nodes| && nodes[..|old(nodes)|] == old(nodes)
      ensures forall i :: |old(nodes)| <= i < |nodes| ==> fresh(nodes[i])
    {
      if len == 0 {
        return true, [];
      }
      GrowthIff(len, Room(), base);
      AddCapacity(len);
      ok, segs := SegmentsHere(len);
    }

    /** A scattering read into listed segments: the bytes land where a copy would put them. */
    method Fill(segs: seq<Segment>, start: nat, bytes: seq<Byte>)
      requires Nodes() && Covers(segs, base, |nodes|, start, |bytes|) && start <= capacity
      modifies this`mem, nodes
      ensures Nodes() && start + |bytes| <= capacity && mem == Splice(old(mem), start, bytes)
      decreases |segs|
    {
      if segs == [] {
        return;
      }
      var last := segs[|segs| - 1];
      var done := |bytes| - last.len;
      Fill(segs[..|segs| - 1], start, bytes[..done]);
      CopyNext(last.node, last.off, bytes, done, last.len, old(mem), start);
      assert bytes[..|bytes|] == bytes;
    }

    /** A receive into the write buffers followed by `setPosition`: the same outcome as `write`. */
    method Receive(bytes: seq<Byte>) returns (ok: bool)
      requires Valid()
      modifies this`position, this`cur, this`capacity, this`nodes, this`mem, this`size, nodes
      ensures ok <==> GrowthFits(|bytes|, old(Room()), base)
      ensures ok ==> Valid() && position == old(position) + |bytes| && size == Max(old(size), position)
      ensures ok ==> capacity == old(capacity) + Origin(base, ShippedCount(|bytes|, old(Room()), base))
      ensures ok ==> Written(old(mem), mem, old(position), bytes)
    {
      var segs;
      ok, segs := GetWriteBuffers(|bytes|);
      if ok {
        ghost var grown := mem;
        ghost var inner := nodes;
        Fill(segs, position, bytes);
        GrownThenSpliced(old(mem), grown, old(position), bytes);
        var moved := SetPosition(position + |bytes|);
      }
    }

    /** The positional `read` starts in the current node whatever the position asked for. */
    method ReadAt(n: nat, at: nat) returns (r: Outcome<seq<Byte>>)
      requires Valid()
      ensures r.OutOfRange? <==> size - position < n
      ensures r.Crash?
         <==> n <= size - position && (position == capacity || (n > 0 && Origin(base, cur) + at % base + n > capacity))
      ensures r.Ok? ==> Origin(base, cur) + at % base + n <= capacity
      ensures r.Ok? ==> r.value == mem[Origin(base, cur) + at % base..Origin(base, cur) + at % base + n]
    {
      if n > size - position {
        return OutOfRange;
      }
      CursorNull();
      if cur == |nodes| {
        return Crash;
      }
      FlatLength(Buffers(nodes), base);
      OriginMono(base, cur, |nodes|);
      var ok, segs := ListSegments(cur, at % base, n, base, |nodes|);
      if !ok {
        return Crash;
      }
      var buf := ReadSegments(segs, Origin(base, cur) + at % base, n);
      return Ok(buf);
    }

    /** Copy listed segments out. */
    method ReadSegments(segs: seq<Segment>, ghost start: nat, ghost len: nat) returns (buf: seq<Byte>)
      requires Nodes() && Covers(segs, base, |nodes|, start, len) && start <= capacity
      ensures start + len <= capacity && buf == mem[start..start + len]
      decreases |segs|
    {
      buf := [];
      if segs != [] {
        var last := segs[|segs| - 1];
        buf := ReadSegments(segs[..|segs| - 1], start, len - last.len);
        var piece := CopyOut(last.node, last.off, last.len);
        GatherOne(buf, piece, mem, start, len - last.len, Origin(base, last.node) + last.off, last.len);
        buf := buf + piece;
      }
    }

    /** So it returns the bytes at the position asked for exactly when that position lies in the
        current node. */
    lemma ReadAtRightIff(at: nat)
      requires Valid()
      ensures Origin(base, cur) + at % base == at <==> at / base == cur
    {
      LiesSomewhere(at, base);
      LiesAt(at, base, at / base);
      if at / base < cur {
        OriginMono(base, at / base, cur);
      } else {
        OriginMono(base, cur, at / base);
      }
    }

    /** The representation in numbers: the cursor is the quotient of the position by the node size, the
        capacity a whole number of nodes, and the cursor null exactly at full capacity. */
    lemma CursorIsQuotient()
      requires Valid()
      ensures cur == position / base && capacity == |nodes| * base && (cur == |nodes| <==> position == capacity)
    {
      LiesAt(position, base, cur);
      CursorNull();
      FlatLength(Buffers(nodes), base);
      OriginProduct(base, |nodes|);
    }
  }

  /** `m'` is `m`, possibly longer, with `buf` at `p`. */
  ghost predicate Written(m: seq<Byte>, m': seq<Byte>, p: nat, buf: seq<Byte>) {
    && p <= |m| <= |m'| && p + |buf| <= |m'|
    && m'[..p] == m[..p]
    && m'[p..p + |buf|] == buf
    && (p + |buf| <= |m| ==> m'[p + |buf|..|m|] == m[p + |buf|..])
  }

  lemma GrownThenSpliced(m: seq<Byte>, grown: seq<Byte>, p: nat, buf: seq<Byte>)
    requires p <= |m| <= |grown| && grown[..|m|] == m && p + |buf| <= |grown|
    ensures Written(m, Splice(grown, p, buf), p, buf)
  {
    var r := Splice(grown, p, buf);
    assert r[..p] == grown[..p] == m[..p];
    if p + |buf| <= |m| {
      assert r[p + |buf|..|m|] == grown[p + |buf|..|m|] == m[p + |buf|..];
    }
  }
}
