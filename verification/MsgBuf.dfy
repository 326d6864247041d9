/**
 The growable byte queue of `examples/flow_table/msgbuf.c`.
 */
module MsgBuf {

  type Byte = x: int | 0 <= x < 256

  // What a transfer on a socket gives: an error, or some bytes.
  datatype Transfer = Failed | Moved(bytes: seq<Byte>)

  function Min(a: int, b: int): int { if a < b then a else b }

  method CopyFrom(dst: array<Byte>, at: nat, bytes: seq<Byte>)
    requires at + |bytes| <= dst.Length
    modifies dst
    ensures dst[at..at + |bytes|] == bytes
    ensures forall k | at <= k < at + |bytes| :: dst[k] == bytes[k - at]
    ensures forall k | 0 <= k < at || at + |bytes| <= k < dst.Length :: dst[k] == old(dst[k])
  {
    for i := 0 to |bytes|
      invariant dst[at..at + i] == bytes[..i]
      invariant forall k | 0 <= k < at || at + i <= k < dst.Length :: dst[k] == old(dst[k])
    {
      dst[at + i] := bytes[i];
      assert dst[at..at + i] == bytes[..i];
      assert dst[at..at + (i + 1)] == dst[at..at + i] + [dst[at + i]];
    }
    assert forall k | at <= k < at + |bytes| :: dst[k] == dst[at..at + |bytes|][k - at];
  }

  class MsgBuf {
    var buf: array<Byte>
    var len: nat
    var start: nat
    var end: nat

    ghost predicate Valid()
      reads this
    {
      start <= end <= len && len == buf.Length && len > 0
    }

    // What is queued: `msgbuf_count_buffered` bytes.
    ghost function Contents(): (c: seq<Byte>)
      reads this, buf
      requires Valid()
      ensures |c| == end - start
    {
      buf[start..end]
    }

    constructor (bufsize: nat)
      requires bufsize > 0
      ensures Valid() && fresh(buf) && Contents() == [] && len == bufsize
    {
      buf := new Byte[bufsize];
      len, start, end := bufsize, 0, 0;
    }

    // `realloc` to twice the size.
    method Grow()
      requires Valid()
      modifies this
      ensures Valid() && fresh(buf) && len == 2 * old(len) && start == old(start) && end == old(end)
      ensures Contents() == old(Contents())
    {
      var bigger := new Byte[2 * len];
      CopyFrom(bigger, 0, buf[..]);
      assert bigger[start..end] == buf[start..end];
      buf, len := bigger, 2 * len;
    }

    // One `read` of whatever the socket has for the room that is left. The buffer never stays full.
    method Read(incoming: Transfer) returns (count: int)
      requires Valid()
      requires incoming.Moved? ==> |incoming.bytes| <= len - end
      modifies this, buf
      ensures Valid() && (buf == old(buf) || fresh(buf))
      ensures end < len
      ensures count == if incoming.Moved? then |incoming.bytes| else -1
      ensures Contents() == old(Contents()) + if incoming.Moved? then incoming.bytes else []
    {
      count := -1;
      if incoming.Moved? {
        count := |incoming.bytes|;
        CopyFrom(buf, end, incoming.bytes);
        end := end + count;
        assert buf[start..end] == buf[start..old(end)] + buf[old(end)..end];
      }
      if end >= len {
        Grow();
      }
    }

    // One `write` of at most `limit` bytes (of everything if `limit <= 0`); the socket takes the
    // `accepted` first of them, or fails.
    method Write(limit: int, accepted: int) returns (count: int, sent: seq<Byte>)
      requires Valid() && -1 <= accepted
      requires accepted <= if limit > 0 then Min(limit, end - start) else end - start
      modifies this
      ensures Valid() && buf == old(buf)
      ensures limit > |old(Contents())| ==> count == -1 && sent == []
      ensures !(limit > |old(Contents())|) ==> count == accepted && |sent| == if accepted > 0 then accepted else 0
      ensures old(Contents()) == sent + Contents()
      ensures Contents() == [] && !(limit > |old(Contents())|) ==> start == end == 0
    {
      sent := [];
      var sendLen := end - start;
      if limit > 0 {
        if sendLen < limit {
          return -1, [];
        }
        if sendLen > limit {
          sendLen := limit;
        }
      }
      count := accepted;
      if count > 0 {
        sent := buf[start..start + count];
        start := start + count;
      }
      if start >= end {
        start, end := 0, 0;
      }
    }

    method Clear()
      requires Valid()
      modifies this
      ensures Valid() && buf == old(buf) && Contents() == []
    {
      start, end := 0, 0;
    }

    // The index of the next byte, if there is one (`NULL` otherwise).
    method Peek() returns (at: int)
      requires Valid()
      ensures at == -1 <==> Contents() == []
      ensures at != -1 ==> at == start && buf[at..end] == Contents()
    {
      at := if start >= end then -1 else start;
    }

    // Takes up to `count` bytes off the front; -1 and no change if there is nothing to take.
    method Pull(count: int) returns (n: int, bytes: seq<Byte>)
      requires Valid()
      modifies this
      ensures Valid() && buf == old(buf)
      ensures var least := Min(count, |old(Contents())|);
              if least <= 0 then n == -1 && bytes == [] && Contents() == old(Contents()) && start == old(start)
              else n == least && bytes == old(Contents())[..n] && Contents() == old(Contents())[n..]
    {
      var least := Min(count, end - start);
      if least <= 0 {
        return -1, [];
      }
      ghost var queued := Contents();
      bytes := buf[start..start + least];
      assert bytes == queued[..least];
      start := start + least;
      assert buf[start..end] == queued[least..];
      if start >= end {
        start, end := 0, 0;
      }
      n := least;
    }

    method Push(bytes: seq<Byte>)
      requires Valid()
      modifies this, buf
      ensures Valid() && (buf == old(buf) || fresh(buf))
      ensures Contents() == old(Contents()) + bytes
    {
      while end + |bytes| > len
        invariant Valid() && (buf == old(buf) || fresh(buf))
        invariant Contents() == old(Contents())
        decreases end + |bytes| - len
      {
        Grow();
      }
      ghost var queued := buf[start..end];
      CopyFrom(buf, end, bytes);
      assert buf[start..end] == queued;
      end := end + |bytes|;
      assert buf[start..end] == queued + bytes;
    }
  }
}
