/**
 The flat view of a list of equal blocks, and the growth arithmetic of `ByteArray::addCapacity`.
 */
module Blocks {
  import opened Codec

  ghost predicate Uniform(cs: seq<seq<Byte>>, base: nat) {
    forall i :: 0 <= i < |cs| ==> |cs[i]| == base
  }

  /** The blocks end to end. */
  ghost function Flat(cs: seq<seq<Byte>>): seq<Byte> {
    if cs == [] then [] else Flat(cs[..|cs| - 1]) + cs[|cs| - 1]
  }

  /** `m` with the bytes from `p` on replaced by `bs`. */
  ghost function Splice(m: seq<Byte>, p: nat, bs: seq<Byte>): (r: seq<Byte>)
    requires p + |bs| <= |m|
    ensures |r| == |m|
  {
    m[..p] + bs + m[p + |bs|..]
  }

  /** Where block `k` starts. */
  ghost function Origin(base: nat, k: nat): nat {
    if k == 0 then 0 else Origin(base, k - 1) + base
  }

  lemma {:induction false} OriginProduct(base: nat, k: nat)
    ensures Origin(base, k) == k * base
  {
    if k > 0 {
      OriginProduct(base, k - 1);
      assert (k - 1) * base + base == k * base;
    }
  }

  lemma {:induction false} OriginMono(base: nat, j: nat, k: nat)
    requires j <= k
    ensures Origin(base, j) <= Origin(base, k)
    ensures j < k ==> Origin(base, j) + base <= Origin(base, k)
    decreases k
  {
    if j < k {
      OriginMono(base, j, k - 1);
    }
  }

  lemma OriginBelow(base: nat, j: nat, k: nat)
    requires Origin(base, j) < Origin(base, k)
    ensures j < k
  {
    if k <= j {
      OriginMono(base, k, j);
    }
  }

  /** The place `x` lies in block `k`. */
  ghost predicate Lies(x: nat, base: nat, k: nat) {
    Origin(base, k) <= x < Origin(base, k) + base
  }

  lemma LiesAt(x: nat, base: nat, k: nat)
    requires base > 0 && Lies(x, base, k)
    ensures x / base == k && x % base == x - Origin(base, k)
  {
    OriginProduct(base, k);
    DivModUnique(x, k, x - Origin(base, k), base);
  }

  lemma LiesSomewhere(x: nat, base: nat)
    requires base > 0
    ensures Lies(x, base, x / base)
  {
    DivMod(x, base);
    OriginProduct(base, x / base);
  }

  lemma {:induction false} FlatLength(cs: seq<seq<Byte>>, base: nat)
    requires Uniform(cs, base)
    ensures |Flat(cs)| == Origin(base, |cs|)
  {
    if cs != [] {
      FlatLength(cs[..|cs| - 1], base);
    }
  }

  lemma FlatGrows(cs: seq<seq<Byte>>, c: seq<Byte>)
    ensures Flat(cs + [c]) == Flat(cs) + c
  {
    assert (cs + [c])[..|cs|] == cs;
  }

  lemma {:induction false} FlatSplit(cs: seq<seq<Byte>>, k: nat)
    requires k < |cs|
    ensures Flat(cs) == Flat(cs[..k]) + cs[k] + Flat(cs[k + 1..])
  {
    var n := |cs| - 1;
    if k < n {
      FlatSplit(cs[..n], k);
      assert cs[..n][..k] == cs[..k];
      assert cs[k + 1..][..n - k - 1] == cs[..n][k + 1..];
      assert Flat(cs[k + 1..]) == Flat(cs[..n][k + 1..]) + cs[n];
    }
  }

  lemma FlatSlice(cs: seq<seq<Byte>>, base: nat, k: nat, off: nat, n: nat)
    requires Uniform(cs, base) && k < |cs| && off + n <= base
    ensures Origin(base, k) + off + n <= |Flat(cs)|
    ensures Flat(cs)[Origin(base, k) + off..Origin(base, k) + off + n] == cs[k][off..off + n]
  {
    FlatSplit(cs, k);
    FlatLength(cs[..k], base);
    SliceMiddle(Flat(cs[..k]), cs[k], Flat(cs[k + 1..]), off, n);
  }

  lemma FirstBlock(cs: seq<seq<Byte>>, base: nat)
    requires Uniform(cs, base) && cs != []
    ensures base <= |Flat(cs)| && Flat(cs)[..base] == cs[0] && Flat([cs[0]]) == cs[0]
  {
    FlatSlice(cs, base, 0, 0, base);
    FlatGrows([], cs[0]);
    assert [] + [cs[0]] == [cs[0]];
  }

  lemma SliceMiddle(a: seq<Byte>, c: seq<Byte>, b: seq<Byte>, off: nat, n: nat)
    requires off + n <= |c|
    ensures (a + c + b)[|a| + off..|a| + off + n] == c[off..off + n]
  {
  }

  /** Writing inside one block is writing into the flat view. */
  lemma FlatUpdate(cs: seq<seq<Byte>>, base: nat, k: nat, off: nat, bs: seq<Byte>)
    requires Uniform(cs, base) && k < |cs| && off + |bs| <= base
    ensures Origin(base, k) + off + |bs| <= |Flat(cs)|
    ensures Flat(cs[k := Splice(cs[k], off, bs)]) == Splice(Flat(cs), Origin(base, k) + off, bs)
  {
    FlatSplit(cs, k);
    FlatReplaced(cs, k, Splice(cs[k], off, bs));
    FlatLength(cs[..k], base);
    UpdateMiddle(Flat(cs), Flat(cs[k := Splice(cs[k], off, bs)]), Flat(cs[..k]), cs[k], Flat(cs[k + 1..]), off, bs);
  }

  lemma UpdateMiddle(m: seq<Byte>, m': seq<Byte>, a: seq<Byte>, c: seq<Byte>, b: seq<Byte>, off: nat, bs: seq<Byte>)
    requires off + |bs| <= |c| && m == a + c + b && m' == a + Splice(c, off, bs) + b
    ensures |a| + off + |bs| <= |m| && m' == Splice(m, |a| + off, bs)
  {
    SpliceMiddle(a, c, b, off, bs);
  }

  lemma FlatReplaced(cs: seq<seq<Byte>>, k: nat, c: seq<Byte>)
    requires k < |cs|
    ensures Flat(cs[k := c]) == Flat(cs[..k]) + c + Flat(cs[k + 1..])
  {
    FlatSplit(cs[k := c], k);
    assert cs[k := c][..k] == cs[..k] && cs[k := c][k + 1..] == cs[k + 1..];
  }

  lemma SpliceMiddle(a: seq<Byte>, c: seq<Byte>, b: seq<Byte>, off: nat, bs: seq<Byte>)
    requires off + |bs| <= |c|
    ensures Splice(a + c + b, |a| + off, bs) == a + Splice(c, off, bs) + b
  {
    assert (a + c + b)[..|a| + off] == a + c[..off];
    assert (a + c + b)[|a| + off + |bs|..] == c[off + |bs|..] + b;
  }

  lemma SpliceMore(m: seq<Byte>, p: nat, a: seq<Byte>, b: seq<Byte>)
    requires p + |a| + |b| <= |m|
    ensures Splice(Splice(m, p, a), p + |a|, b) == Splice(m, p, a + b)
  {
  }

  /** After the first `done` bytes of `buf` the next `n` were written. */
  lemma SplicedFurther(m: seq<Byte>, p: nat, buf: seq<Byte>, done: nat, n: nat, before: seq<Byte>, after: seq<Byte>)
    requires done + n <= |buf| && p + done + n <= |m|
    requires before == Splice(m, p, buf[..done]) && after == Splice(before, p + done, buf[done..done + n])
    ensures after == Splice(m, p, buf[..done + n])
  {
    assert buf[..done] + buf[done..done + n] == buf[..done + n];
    SpliceMore(m, p, buf[..done], buf[done..done + n]);
  }

  // ---------------------------------------------------------------------------------------
  // Growth
  // ---------------------------------------------------------------------------------------

  /** The number of nodes `addCapacity` adds for `size` bytes when `room` are free. */
  function ShippedCount(size: nat, room: nat, base: nat): nat
    requires base > 0
  {
    if size <= room then 0
    else
      var need := size - room;
      need / base + (if need % base > room then 1 else 0)
  }

  /** The least number of nodes that makes room for `size` bytes. */
  function RoundUpCount(size: nat, room: nat, base: nat): nat
    requires base > 0
  {
    if size <= room then 0 else (size - room + base - 1) / base
  }

  /** The guard under which the shipped count makes enough room. */
  predicate GrowthFits(size: nat, room: nat, base: nat)
    requires base > 0
  {
    size <= room || (size - room) % base == 0 || (size - room) % base > room
  }

  lemma DivMod(x: nat, base: nat)
    requires base > 0
    ensures x == (x / base) * base + x % base && x % base < base
  {
  }

  lemma DivModUnique(x: nat, q: nat, r: nat, base: nat)
    requires base > 0 && x == q * base + r && r < base
    ensures x / base == q && x % base == r
  {
    DivMod(x, base);
    if x / base < q {
      assert (x / base + 1) * base <= q * base by { MulMono(x / base + 1, q, base); }
    } else if q < x / base {
      assert (q + 1) * base <= (x / base) * base by { MulMono(q + 1, x / base, base); }
    }
  }

  lemma MulMono(a: nat, b: nat, c: nat)
    requires a <= b
    ensures a * c <= b * c
  {
  }

  /** Rounding up is enough, and one node fewer is not. */
  lemma RoundUpIsLeast(size: nat, room: nat, base: nat)
    requires base > 0 && size > room
    ensures var c := RoundUpCount(size, room, base);
            c > 0 && size <= room + c * base && room + (c - 1) * base < size
  {
    var need := size - room;
    var c := (need + base - 1) / base;
    DivMod(need + base - 1, base);
    assert (c - 1) * base == c * base - base;
    if c == 0 {
      assert false;
    }
  }

  /** The shipped count falls short, and then by one node, exactly when the remainder is non-zero and at most
      the old room; otherwise it is the one of rounding up. */
  lemma ShippedCountIff(size: nat, room: nat, base: nat)
    requires base > 0
    ensures size <= room + ShippedCount(size, room, base) * base <==> GrowthFits(size, room, base)
    ensures ShippedCount(size, room, base) ==
              RoundUpCount(size, room, base) - (if GrowthFits(size, room, base) then 0 else 1)
  {
    if size > room {
      var need := size - room;
      var q, r := need / base, need % base;
      DivMod(need, base);
      assert (q + 1) * base == q * base + base;
      if r == 0 {
        DivModUnique(need + base - 1, q, base - 1, base);
      } else {
        DivModUnique(need + base - 1, q + 1, r - 1, base);
      }
    }
  }

  /** The smallest shortfall: one free byte, two to write. */
  lemma ShippedCountFallsShort(base: nat)
    requires base > 1
    ensures !GrowthFits(2, 1, base) && ShippedCount(2, 1, base) == 0 && RoundUpCount(2, 1, base) == 1
  {
    assert 1 % base == 1 && 1 / base == 0 by { DivModUnique(1, 0, 1, base); }
    DivModUnique(base, 1, 0, base);
  }

  /** In terms of the room after growing: something fits iff the guard holds, and there is always some
      room when there is something to write. */
  lemma GrowthIff(size: nat, room: nat, base: nat)
    requires base > 0
    ensures size <= room + Origin(base, ShippedCount(size, room, base)) <==> GrowthFits(size, room, base)
    ensures size > 0 ==> room + Origin(base, ShippedCount(size, room, base)) > 0
  {
    ShippedCountIff(size, room, base);
    OriginProduct(base, ShippedCount(size, room, base));
  }
}
