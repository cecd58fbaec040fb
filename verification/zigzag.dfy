/**
 The zigzag transformation on the machine words themselves: the branching encoder and the bit-trick
 decoder of the source, as 32- and 64-bit vectors in two's complement.
 */
module ZigzagBits {

  function Encode32(v: bv32): bv32 {
    if v & 0x8000_0000 != 0 then (0 - v) * 2 - 1 else v * 2
  }

  function Decode32(u: bv32): bv32 {
    (u >> 1) ^ (0 - (u & 1))
  }

  function Encode64(v: bv64): bv64 {
    if v & 0x8000_0000_0000_0000 != 0 then (0 - v) * 2 - 1 else v * 2
  }

  function Decode64(u: bv64): bv64 {
    (u >> 1) ^ (0 - (u & 1))
  }

  lemma NonNegative32(v: bv32)
    requires v & 0x8000_0000 == 0
    ensures (v * 2) & 1 == 0 && (v * 2) >> 1 == v
  {
  }

  lemma Negative32(v: bv32)
    ensures (0 - v) * 2 - 1 == ((v ^ 0xFFFF_FFFF) << 1) | 1
  {
  }

  lemma Odd32(x: bv32)
    ensures ((x << 1) | 1) & 1 == 1
    ensures x & 0x8000_0000 == 0 ==> ((x << 1) | 1) >> 1 == x
    ensures x & 1 == 1 ==> ((x >> 1) << 1) | 1 == x
    ensures x & 1 == 0 ==> (x >> 1) * 2 == x
    ensures x & 1 == 0 || x & 1 == 1
    ensures (x >> 1) & 0x8000_0000 == 0
  {
  }

  lemma Complement32(x: bv32)
    ensures x ^ (0 - (1 as bv32)) == x ^ 0xFFFF_FFFF && (x ^ 0xFFFF_FFFF) ^ 0xFFFF_FFFF == x && x ^ 0 == x
    ensures (x ^ 0xFFFF_FFFF) & 0x8000_0000 == 0 <==> x & 0x8000_0000 != 0
  {
  }

  /** Decoding undoes encoding on every word, the minimum included. */
  lemma DecodeEncode32(v: bv32)
    ensures Decode32(Encode32(v)) == v
  {
    if v & 0x8000_0000 == 0 {
      NonNegative32(v);
      Complement32(v);
    } else {
      Negative32(v);
      Complement32(v);
      Odd32(v ^ 0xFFFF_FFFF);
      Complement32(v ^ 0xFFFF_FFFF);
    }
  }

  lemma DecodeParity32(u: bv32)
    ensures Decode32(u) == if u & 1 == 0 then u >> 1 else (u >> 1) ^ 0xFFFF_FFFF
  {
    Odd32(u);
    Complement32(u >> 1);
  }

  lemma UndoEven32(u: bv32, d: bv32)
    requires u & 1 == 0 && d == u >> 1
    ensures Encode32(d) == u
  {
  }

  lemma UndoOdd32(u: bv32, d: bv32)
    requires u & 1 == 1 && d == (u >> 1) ^ 0xFFFF_FFFF
    ensures Encode32(d) == u
  {
    Negative32(d);
  }

  /** Encoding undoes decoding on every word. */
  lemma EncodeDecode32(u: bv32)
    ensures Encode32(Decode32(u)) == u
  {
    DecodeParity32(u);
    Odd32(u);
    var d := Decode32(u);
    if u & 1 == 0 {
      UndoEven32(u, d);
    } else {
      UndoOdd32(u, d);
    }
  }

  lemma NonNegative64(v: bv64)
    requires v & 0x8000_0000_0000_0000 == 0
    ensures (v * 2) & 1 == 0 && (v * 2) >> 1 == v
  {
  }

  lemma Negative64(v: bv64)
    ensures (0 - v) * 2 - 1 == ((v ^ 0xFFFF_FFFF_FFFF_FFFF) << 1) | 1
  {
  }

  lemma Odd64(x: bv64)
    ensures ((x << 1) | 1) & 1 == 1
    ensures x & 0x8000_0000_0000_0000 == 0 ==> ((x << 1) | 1) >> 1 == x
    ensures x & 1 == 1 ==> ((x >> 1) << 1) | 1 == x
    ensures x & 1 == 0 ==> (x >> 1) * 2 == x
    ensures x & 1 == 0 || x & 1 == 1
    ensures (x >> 1) & 0x8000_0000_0000_0000 == 0
  {
  }

  lemma Complement64(x: bv64)
    ensures x ^ (0 - (1 as bv64)) == x ^ 0xFFFF_FFFF_FFFF_FFFF
    ensures (x ^ 0xFFFF_FFFF_FFFF_FFFF) ^ 0xFFFF_FFFF_FFFF_FFFF == x && x ^ 0 == x
    ensures (x ^ 0xFFFF_FFFF_FFFF_FFFF) & 0x8000_0000_0000_0000 == 0 <==> x & 0x8000_0000_0000_0000 != 0
  {
  }

  /** Decoding undoes encoding on every word, the minimum included. */
  lemma DecodeEncode64(v: bv64)
    ensures Decode64(Encode64(v)) == v
  {
    if v & 0x8000_0000_0000_0000 == 0 {
      NonNegative64(v);
      Complement64(v);
    } else {
      Negative64(v);
      Complement64(v);
      Odd64(v ^ 0xFFFF_FFFF_FFFF_FFFF);
      Complement64(v ^ 0xFFFF_FFFF_FFFF_FFFF);
    }
  }

  lemma DecodeParity64(u: bv64)
    ensures Decode64(u) == if u & 1 == 0 then u >> 1 else (u >> 1) ^ 0xFFFF_FFFF_FFFF_FFFF
  {
    Odd64(u);
    Complement64(u >> 1);
  }

  lemma UndoEven64(u: bv64, d: bv64)
    requires u & 1 == 0 && d == u >> 1
    ensures Encode64(d) == u
  {
  }

  lemma UndoOdd64(u: bv64, d: bv64)
    requires u & 1 == 1 && d == (u >> 1) ^ 0xFFFF_FFFF_FFFF_FFFF
    ensures Encode64(d) == u
  {
    Negative64(d);
  }

  /** Encoding undoes decoding on every word. */
  lemma EncodeDecode64(u: bv64)
    ensures Encode64(Decode64(u)) == u
  {
    DecodeParity64(u);
    Odd64(u);
    var d := Decode64(u);
    if u & 1 == 0 {
      UndoEven64(u, d);
    } else {
      UndoOdd64(u, d);
    }
  }
}
