/**
 `Stream`: reads and writes that move as much as they like, and the loops that move all of it.
 */
module Streams {
  import opened HttpText

  /** `memcpy` of `bytes` to offset `at`. */
  method Copy(data: array<char>, at: nat, bytes: string)
    requires at + |bytes| <= data.Length
    modifies data
    ensures data[..] == old(data[..at]) + bytes + old(data[at + |bytes|..])
  {
    for i := 0 to |bytes|
      invariant forall j :: 0 <= j < i ==> data[at + j] == bytes[j]
      invariant forall j :: 0 <= j < data.Length && (j < at || at + i <= j) ==> data[j] == old(data[j])
    {
      data[at + i] := bytes[i];
    }
    Pasted(data[..], old(data[..]), at, bytes);
  }

  lemma Pasted(now: string, before: string, at: nat, bytes: string)
    requires |now| == |before| && at + |bytes| <= |before|
    requires forall j :: 0 <= j < |bytes| ==> now[at + j] == bytes[j]
    requires forall j :: 0 <= j < |before| && (j < at || at + |bytes| <= j) ==> now[j] == before[j]
    ensures now == before[..at] + bytes + before[at + |bytes|..]
  {
    forall j | 0 <= j < |now| ensures now[j] == (before[..at] + bytes + before[at + |bytes|..])[j] {
      if at <= j < at + |bytes| {
        assert now[at + (j - at)] == bytes[j - at];
      }
    }
  }

  /** `memmove` of the bytes from `n` to `len` to the front. */
  method MoveToFront(data: array<char>, n: nat, len: nat)
    requires n <= len <= data.Length
    modifies data
    ensures data[..] == old(data[n..len]) + old(data[len - n..])
  {
    Copy(data, 0, data[n..len]);
  }

  /** The receiving side of a connection. `pending` is what its reads will deliver before they fail or
      the peer closes; each read delivers as much of it as it likes. */
  class Source {
    var pending: string

    constructor (bytes: string)
      ensures pending == bytes
    {
      pending := bytes;
    }

    method Read(data: array<char>, at: nat, limit: nat) returns (len: int)
      requires at + limit <= data.Length
      modifies this, data
      ensures len <= limit && (len <= 0 <==> limit == 0 || old(pending) == "")
      ensures len <= 0 ==> pending == old(pending) && data[..] == old(data[..])
      ensures 0 < len ==> len <= |old(pending)| && pending == old(pending)[len..]
      ensures 0 < len ==> data[..] == old(data[..at]) + old(pending)[..len] + old(data[at + len..])
    {
      if limit == 0 || pending == "" {
        return 0;
      }
      var n: nat :| 1 <= n <= limit && n <= |pending|;
      Copy(data, at, pending[..n]);
      pending := pending[n..];
      return n;
    }
  }

  /** `pend[..offset]` and then `len` more bytes, written one behind the other at offset `at`. */
  lemma PastedOn(before: string, at: nat, pend: string, offset: nat, len: nat, prev: string, now: string)
    requires offset + len <= |pend| && at + offset + len <= |before|
    requires prev == before[..at] + pend[..offset] + before[at + offset..]
    requires now == prev[..at + offset] + pend[offset..][..len] + prev[at + offset + len..]
    ensures now == before[..at] + pend[..offset + len] + before[at + offset + len..]
  {
    assert prev[..at + offset] == before[..at] + pend[..offset];
    assert prev[at + offset + len..] == before[at + offset + len..];
    assert pend[..offset] + pend[offset..][..len] == pend[..offset + len];
  }

  /** `readFixSize`: all of `length` bytes, or a failure once the source runs dry. The count is returned
      as an `int`. */
  method ReadFixSize(source: Source, data: array<char>, at: nat, length: nat) returns (r: int)
    requires at + length <= data.Length
    modifies source, data
    ensures length <= |old(source.pending)| ==>
              && r == ToInt32(length) && source.pending == old(source.pending)[length..]
              && data[..] == old(data[..at]) + old(source.pending)[..length] + old(data[at + length..])
    ensures length > |old(source.pending)| ==> r <= 0 && source.pending == ""
  {
    var offset, left := 0, length;
    while left > 0
      invariant 0 <= offset && 0 <= left && offset + left == length
      invariant offset <= |old(source.pending)| && source.pending == old(source.pending)[offset..]
      invariant data[..] == old(data[..at]) + old(source.pending)[..offset] + old(data[at + offset..])
      decreases left
    {
      ghost var prev := data[..];
      var len := source.Read(data, at + offset, left);
      if len <= 0 {
        return len;
      }
      PastedOn(old(data[..]), at, old(source.pending), offset, len, prev, data[..]);
      offset := offset + len;
      left := left - len;
    }
    return ToInt32(length);
  }

  /** The sending side. `room` is what its writes will still take before they fail; each write takes as
      much as it likes. */
  class Sink {
    var sent: string
    var room: nat

    constructor (capacity: nat)
      ensures sent == "" && room == capacity
    {
      sent, room := "", capacity;
    }

    method Write(bytes: string) returns (len: int)
      modifies this
      ensures len <= |bytes| && (len <= 0 <==> bytes == "" || old(room) == 0)
      ensures len <= 0 ==> sent == old(sent) && room == old(room)
      ensures 0 < len ==> len <= old(room) && sent == old(sent) + bytes[..len] && room == old(room) - len
    {
      if bytes == "" || room == 0 {
        return 0;
      }
      var n: nat :| 1 <= n <= |bytes| && n <= room;
      sent, room := sent + bytes[..n], room - n;
      return n;
    }
  }

  /** `writeFixSize`: all of the bytes in order, or as many as the sink takes and a failure. */
  method WriteFixSize(sink: Sink, bytes: string) returns (r: int)
    modifies sink
    ensures |bytes| <= old(sink.room) ==> r == ToInt32(|bytes|) && sink.sent == old(sink.sent) + bytes
    ensures |bytes| > old(sink.room) ==> r <= 0 && sink.sent == old(sink.sent) + bytes[..old(sink.room)]
  {
    var offset, left := 0, |bytes|;
    while left > 0
      invariant 0 <= offset && 0 <= left && offset + left == |bytes|
      invariant offset <= old(sink.room) && sink.room == old(sink.room) - offset
      invariant sink.sent == old(sink.sent) + bytes[..offset]
      decreases left
    {
      var len := sink.Write(bytes[offset..]);
      if len <= 0 {
        return len;
      }
      assert bytes[..offset] + bytes[offset..][..len] == bytes[..offset + len];
      offset := offset + len;
      left := left - len;
    }
    return ToInt32(|bytes|);
  }

  /** The counts that, as an `int`, look like a failure. */
  predicate LooksFailed(n: nat) {
    n % 0x1_0000_0000 == 0 || n % 0x1_0000_0000 >= 0x8000_0000
  }

  lemma LooksFailedIff(n: nat)
    ensures ToInt32(n) <= 0 <==> LooksFailed(n)
    ensures 0 < n < 0x8000_0000 ==> !LooksFailed(n)
    ensures LooksFailed(0x8000_0000)
  {
  }
}
