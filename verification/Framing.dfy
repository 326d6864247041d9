/**
 Messages in a byte stream, as `datapath_handle_read` of `examples/flow_table/sdn.c` cuts them
 (sections 5.1 and 5.3 of the OpenFlow Switch Specification 1.0.0).
 */
module Framing {
  import opened MsgBuf

  type Bytes = seq<Byte>

  // `sizeof(struct ofp_header)`: version, type, length, transaction id.
  const HEADER := 8

  // A 16-bit field in network byte order.
  function Short(b: Bytes, at: nat): nat
    requires at + 2 <= |b|
  {
    (b[at] as int) * 256 + (b[at + 1] as int)
  }

  function Length(b: Bytes): nat
    requires |b| >= HEADER
  {
    Short(b, 2)
  }

  // Whether the message at the front is all there.
  predicate Complete(b: Bytes) {
    |b| >= HEADER && Length(b) <= |b|
  }

  // What a handler sees of it: its bytes, and at least a header.
  function Message(b: Bytes): Bytes
    requires Complete(b)
  {
    if Length(b) < HEADER then b[..HEADER] else b[..Length(b)]
  }

  // No message at the front of what is left ever has length zero.
  predicate Framed(b: Bytes) {
    Complete(b) ==> Length(b) > 0 && Framed(b[Length(b)..])
  }

  function Messages(b: Bytes): seq<Bytes>
    requires Framed(b)
  {
    if Complete(b) then [Message(b)] + Messages(b[Length(b)..]) else []
  }

  // The tail that is not a message yet.
  function Unparsed(b: Bytes): Bytes
    requires Framed(b)
  {
    if Complete(b) then Unparsed(b[Length(b)..]) else b
  }

  // ---- The parse of a stream does not depend on how it arrives ----

  lemma FrontStays(b: Bytes, more: Bytes)
    requires Complete(b)
    ensures Complete(b + more) && Length(b + more) == Length(b) && Message(b + more) == Message(b)
    ensures (b + more)[Length(b)..] == b[Length(b)..] + more
  {}

  lemma {:induction false} FramedPrefix(b: Bytes, more: Bytes)
    requires Framed(b + more)
    ensures Framed(b) && Framed(Unparsed(b) + more)
    decreases |b|
  {
    if Complete(b) {
      FrontStays(b, more);
      FramedPrefix(b[Length(b)..], more);
    }
  }

  // Parsing goes on from the unparsed tail as if the stream had come at once.
  lemma {:induction false} ParseGoesOn(b: Bytes, more: Bytes)
    requires Framed(b + more)
    ensures Framed(b) && Framed(Unparsed(b) + more)
    ensures Messages(b + more) == Messages(b) + Messages(Unparsed(b) + more)
    ensures Unparsed(b + more) == Unparsed(Unparsed(b) + more)
    decreases |b|
  {
    FramedPrefix(b, more);
    if Complete(b) {
      FrontStays(b, more);
      var rest := b[Length(b)..];
      ParseGoesOn(rest, more);
      Parsed(b);
      Parsed(b + more);
      hide Framed, Messages, Unparsed, Complete, Message, Length;
      PlusIsAssociative([Message(b)], Messages(rest), Messages(Unparsed(rest) + more));
    } else {
      assert [] + Messages(b + more) == Messages(b + more);
    }
  }

  lemma Parsed(b: Bytes)
    requires Framed(b) && Complete(b)
    ensures Framed(b[Length(b)..])
    ensures Messages(b) == [Message(b)] + Messages(b[Length(b)..]) && Unparsed(b) == Unparsed(b[Length(b)..])
  {}

  lemma PlusIsAssociative<T>(a: seq<T>, b: seq<T>, c: seq<T>)
    ensures a + (b + c) == (a + b) + c
  {}

  function Concat<T>(parts: seq<seq<T>>): seq<T> {
    if parts == [] then [] else parts[0] + Concat(parts[1..])
  }

  // What a run over chunks handles and keeps, one read at a time.
  datatype Reading = Reading(handled: seq<Bytes>, buffered: Bytes)

  function ReadAll(buffered: Bytes, chunks: seq<Bytes>): Reading
    requires Framed(buffered + Concat(chunks))
    decreases |chunks|
  {
    if chunks == [] then Reading([], buffered)
    else
      var now := buffered + chunks[0];
      assert now + Concat(chunks[1..]) == buffered + Concat(chunks);
      FramedPrefix(now, Concat(chunks[1..]));
      var later := ReadAll(Unparsed(now), chunks[1..]);
      Reading(Messages(now) + later.handled, later.buffered)
  }

  // However the stream is cut into reads, the messages handled are those of the whole stream and
  // the buffer ends up with exactly its unparsed tail.
  lemma {:induction false} ChunksDoNotMatter(buffered: Bytes, chunks: seq<Bytes>)
    requires Framed(buffered + Concat(chunks)) && !Complete(buffered)
    ensures var stream := buffered + Concat(chunks);
            ReadAll(buffered, chunks) == Reading(Messages(stream), Unparsed(stream))
    decreases |chunks|
  {
    if chunks == [] {
      assert buffered + [] == buffered;
    } else {
      var now, later := buffered + chunks[0], Concat(chunks[1..]);
      assert now + later == buffered + Concat(chunks);
      ParseGoesOn(now, later);
      UnparsedIsIncomplete(now);
      ChunksDoNotMatter(Unparsed(now), chunks[1..]);
    }
  }

  lemma {:induction false} UnparsedIsIncomplete(b: Bytes)
    requires Framed(b)
    ensures !Complete(Unparsed(b))
    decreases |b|
  {
    if Complete(b) {
      UnparsedIsIncomplete(b[Length(b)..]);
    }
  }

  // ---- Parsing loses nothing ----

  // Messages of proper length, back to back, are parsed into themselves.
  lemma {:induction false} ParseUndoesSend(messages: seq<Bytes>, tail: Bytes)
    requires forall m | m in messages :: |m| >= HEADER && Length(m) == |m|
    requires !Complete(tail)
    ensures Framed(Concat(messages) + tail)
    ensures Messages(Concat(messages) + tail) == messages
    ensures Unparsed(Concat(messages) + tail) == tail
    decreases |messages|
  {
    if messages == [] {
      assert [] + tail == tail;
    } else {
      var m, rest := messages[0], Concat(messages[1..]) + tail;
      assert Concat(messages) + tail == m + rest;
      FrontStays(m, rest);
      assert m[|m|..] + rest == rest;
      ParseUndoesSend(messages[1..], tail);
    }
  }

  // Messages of which some may not be of proper length, but those longer than a header, are parsed
  // into themselves if and only if their lengths are proper after all.
  lemma {:induction false} ParseIsExact(messages: seq<Bytes>)
    requires forall m | m in messages :: |m| >= HEADER && (Length(m) == |m| || |m| > HEADER)
    ensures var c := Concat(messages);
            (Framed(c) && Messages(c) == messages && Unparsed(c) == []) <==>
            forall m | m in messages :: Length(m) == |m|
  {
    if forall m | m in messages :: Length(m) == |m| {
      ParseUndoesSend(messages, []);
      assert Concat(messages) + [] == Concat(messages);
    }
    hide *;
    if Framed(Concat(messages)) && Messages(Concat(messages)) == messages {
      ParsedIsProper(messages);
    }
  }

  lemma {:induction false} ParsedIsProper(messages: seq<Bytes>)
    requires forall m | m in messages :: |m| >= HEADER && (Length(m) == |m| || |m| > HEADER)
    requires Framed(Concat(messages)) && Messages(Concat(messages)) == messages
    ensures forall m | m in messages :: Length(m) == |m|
    decreases |messages|
  {
    if messages != [] {
      var m, rest, all := messages[0], Concat(messages[1..]), Concat(messages);
      assert Complete(all) && m == Message(all);
      assert Length(all) == Length(m);
      assert Length(m) == |m|;
      assert all[|m|..] == rest;
      Parsed(all);
      assert Messages(rest) == messages[1..];
      assert messages == [m] + messages[1..];
      hide *;
      ParsedIsProper(messages[1..]);
    }
  }

  // ---- The loop ends, or does not ----

  // One pass of the loop of `datapath_handle_read`, on the buffer alone: what `msgbuf_pull` leaves.
  function AfterPull(b: Bytes): Bytes
    requires Complete(b)
  {
    var least := Min(Length(b), |b|);
    if least <= 0 then b else b[least..]
  }

  // The buffer after at most `n` passes.
  function Passes(b: Bytes, n: nat): Bytes {
    if n == 0 || !Complete(b) then b else Passes(AfterPull(b), n - 1)
  }

  // The loop ends if and only if no message that it meets has length zero. It then has taken out
  // every message and left the tail.
  lemma LoopEnds(b: Bytes)
    ensures (exists n: nat :: !Complete(Passes(b, n))) <==> Framed(b)
    ensures Framed(b) ==> Passes(b, |Messages(b)|) == Unparsed(b)
  {
    if Framed(b) {
      FramedEnds(b);
      UnparsedIsIncomplete(b);
    } else {
      forall n: nat
        ensures Complete(Passes(b, n))
      {
        UnframedGoesOn(b, n);
      }
    }
  }

  lemma {:induction false} FramedEnds(b: Bytes)
    requires Framed(b)
    ensures Passes(b, |Messages(b)|) == Unparsed(b)
    decreases |b|
  {
    if Complete(b) {
      assert AfterPull(b) == b[Length(b)..];
      FramedEnds(AfterPull(b));
    }
  }

  lemma {:induction false} UnframedGoesOn(b: Bytes, n: nat)
    requires !Framed(b)
    ensures Complete(Passes(b, n))
    decreases n
  {
    if n > 0 {
      assert !Framed(AfterPull(b));
      UnframedGoesOn(AfterPull(b), n - 1);
    }
  }

  // A HELLO whose length field is zero is met again and again.
  lemma {:induction false} ZeroLengthNeverEnds(n: nat)
    ensures var hello := [1, 0, 0, 0, 0, 0, 0, 1]; Passes(hello, n) == hello && Complete(hello)
    decreases n
  {
    if n > 0 {
      ZeroLengthNeverEnds(n - 1);
    }
  }
}
