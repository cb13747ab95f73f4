/**
 That the local connection gets on: what `send` takes goes out, what is pending can be flushed,
 and a poll hands over every message that has arrived (lib/ipc/UDS.cpp,
 lib/SocketStreamConnection.h, daemon/LocalClient.cpp).
 */
module IpcProgress {
  import opened Bytes
  import opened ByteArrays
  import opened IpcStream

  // ---- The sending side ----

  /** How many of `n` bytes the socket takes. */
  function Taken(outcome: SendOutcome, n: nat): (k: nat)
    ensures k <= n
  {
    if outcome.Accepted? then Min(outcome.count, n) else 0
  }

  /** Everything was taken, or nothing and nobody said so. */
  predicate LooksSent(outcome: SendOutcome, n: nat) {
    outcome == BadDescriptor || (outcome.Accepted? && outcome.count >= n)
  }

  /**
   A message behind pending bytes waits, and nothing is sent. Otherwise exactly the bytes that the
   two calls of `send` take go out, the second call being made only if the first looked complete.
   The report is DISCONNECTED exactly if a call found the connection broken, and OK exactly if
   both looked complete.
   */
  lemma {:induction false} WriteMessageTakes(
    order: ByteOrder, w: Writer, payload: bytes, first: SendOutcome, second: SendOutcome)
    requires w.connected
    ensures var s := WriteMessage(order, w, payload, first, second);
            var on := LooksSent(first, 8);
            if w.pending != [] then
              s.data == [] && s.report == BUFFER_FULL && s.writer == Writer(true, w.pending + Frame(order, payload))
            else
              && |s.data| == Taken(first, 8) + (if on then Taken(second, |payload|) else 0)
              && (s.report == DISCONNECTED <==> first == Broken || (on && second == Broken))
              && (s.report == DISCONNECTED <==> !s.writer.connected)
              && (s.report == OK <==> on && LooksSent(second, |payload|))
              && (s.report == OK ==> s.writer.pending == [])
  {
    var size := MemoryBytes(order, |payload|, SIZE_WIDTH);
    assert w.pending + size + payload == w.pending + Frame(order, payload);
  }

  /** A flush sends what the socket takes of the pending bytes, from the front, and reports likewise. */
  lemma {:induction false} FlushTakes(w: Writer, outcome: SendOutcome)
    requires w.connected && w.pending != []
    ensures var s, k := FlushPending(w, outcome), Taken(outcome, |w.pending|);
            && s.data == w.pending[..k]
            && (s.writer.connected <==> outcome != Broken) && (s.report == DISCONNECTED <==> outcome == Broken)
            && (outcome.Accepted? || outcome == WouldBlock ==> s.writer.pending == w.pending[k..])
            && (s.report == OK <==> LooksSent(outcome, |w.pending|))
  {
  }

  // ---- The receiving side ----

  /** The first `calls` reads can take everything there is. */
  predicate Generous(chunks: seq<(nat, nat)>, calls: nat, size: nat) {
    calls <= |chunks| && forall i | 0 <= i < calls :: chunks[i].0 >= size && chunks[i].1 >= size
  }

  /** One generous read completes the message whose frame has arrived. */
  lemma {:induction false} ReadCompletes(
    order: ByteOrder, r: Reader, inFlight: bytes, chunks: (nat, nat), payload: bytes, rest: bytes)
    requires Waiting(order, r) && |payload| < 0x1_0000_0000_0000_0000
    requires chunks.0 >= |inFlight| && chunks.1 >= |inFlight|
    requires Partial(r) + inFlight == Frame(order, payload) + rest && |Partial(r)| <= |Frame(order, payload)|
    ensures var q := Read(order, r, inFlight, chunks);
            IsComplete(order, q.reader) && q.reader.body == payload && q.inFlight == rest
  {
    var q := Read(order, r, inFlight, chunks);
    ReadTakesFrame(order, r, inFlight, chunks);
    ReadTakesAll(order, r, inFlight, chunks, payload, rest);
    CompleteExactlyAtFrameEnd(order, q.reader, payload);
    if IsComplete(order, q.reader) {
      SameFirstFrame(order, q.reader.body, payload, q.inFlight, rest);
    }
  }

  /** It takes exactly the missing bytes of the frame. */
  lemma {:induction false} ReadTakesAll(
    order: ByteOrder, r: Reader, inFlight: bytes, chunks: (nat, nat), payload: bytes, rest: bytes)
    requires Waiting(order, r) && |payload| < 0x1_0000_0000_0000_0000
    requires chunks.0 >= |inFlight| && chunks.1 >= |inFlight|
    requires Partial(r) + inFlight == Frame(order, payload) + rest && |Partial(r)| <= |Frame(order, payload)|
    ensures Partial(Read(order, r, inFlight, chunks).reader) == Frame(order, payload)
  {
    var q, f := Read(order, r, inFlight, chunks), Frame(order, payload);
    var g := if r.lengthCount < SIZE_WIDTH then ReadLength(r, inFlight, chunks.0) else Got(r, inFlight, []);
    assert Partial(g.reader) + g.inFlight == f + rest by {
      if r.lengthCount < SIZE_WIDTH {
        ReadLengthKeepsBytes(order, r, inFlight, chunks.0);
      }
    }
    assert g.reader.lengthCount == SIZE_WIDTH && |Partial(g.reader)| <= |f|;
    SizeArrived(order, g.reader, g.inFlight, payload, rest);
    assert |Partial(q.reader)| == |f|;
    ReadKeepsBytes(order, r, inFlight, chunks);
    FrontIs(Partial(q.reader), q.inFlight, f, rest);
  }

  lemma {:induction false} SizeArrived(order: ByteOrder, r: Reader, inFlight: bytes, payload: bytes, rest: bytes)
    requires |r.sizeField| == r.lengthCount == SIZE_WIDTH && |payload| < 0x1_0000_0000_0000_0000
    requires Partial(r) + inFlight == Frame(order, payload) + rest
    ensures Size(order, r) == |payload|
  {
    var f := Frame(order, payload);
    assert r.sizeField == (Partial(r) + inFlight)[..SIZE_WIDTH] == (f + rest)[..SIZE_WIDTH] == f[..SIZE_WIDTH];
    FrameSize(order, payload);
  }

  lemma {:induction false} FrontIs(a: bytes, s: bytes, b: bytes, t: bytes)
    requires a + s == b + t && |a| == |b|
    ensures a == b
  {
    assert (a + s)[..|a|] == a && (b + t)[..|b|] == b;
  }

  /** A message that is not complete is at most as long as the frame it belongs to. */
  lemma {:induction false} PartialFits(order: ByteOrder, r: Reader, inFlight: bytes, payload: bytes, rest: bytes)
    requires ValidReader(order, r) && |payload| < 0x1_0000_0000_0000_0000
    requires Partial(r) + inFlight == Frame(order, payload) + rest
    ensures |Partial(r)| <= |Frame(order, payload)|
  {
    if r.lengthCount == SIZE_WIDTH {
      SizeArrived(order, r, inFlight, payload, rest);
    }
  }

  lemma {:induction false} NothingToRead(order: ByteOrder, r: Reader, chunks: seq<(nat, nat)>)
    requires Waiting(order, r)
    ensures Poll(order, r, [], chunks) == Got(r, [], [])
  {
    if chunks != [] {
      ReadKeepsBytes(order, r, [], chunks[0]);
    }
  }

  /** The poll has handed over exactly these messages and left nothing. */
  ghost predicate Drained(order: ByteOrder, q: Got, payloads: seq<bytes>) {
    q.handed == payloads && q.inFlight == [] && ValidReader(order, q.reader) && Partial(q.reader) == []
  }

  /** The first message is complete after one read, which leaves the others. */
  lemma {:induction false} FirstRead(
    order: ByteOrder, r: Reader, inFlight: bytes, chunks: (nat, nat), payload: bytes, rest: bytes)
    requires Waiting(order, r) && |payload| < 0x1_0000_0000_0000_0000
    requires Partial(r) + inFlight == Frame(order, payload) + rest
    requires chunks.0 >= |inFlight| && chunks.1 >= |inFlight|
    ensures var q := Read(order, r, inFlight, chunks);
            IsComplete(order, q.reader) && q.reader.body == payload && q.inFlight == rest && |rest| <= |inFlight|
  {
    PartialFits(order, r, inFlight, payload, rest);
    ReadCompletes(order, r, inFlight, chunks, payload, rest);
    ReadKeepsBytes(order, r, inFlight, chunks);
  }

  lemma {:induction false} PollOneMore(
    order: ByteOrder, r: Reader, inFlight: bytes, chunks: seq<(nat, nat)>, payloads: seq<bytes>)
    requires ValidReader(order, r) && chunks != [] && payloads != []
    requires var q := Read(order, r, inFlight, chunks[0]);
             && IsComplete(order, q.reader) && q.reader.body == payloads[0]
             && ValidReader(order, NewReader)
             && Drained(order, Poll(order, NewReader, q.inFlight, chunks[1..]), payloads[1..])
    ensures Drained(order, Poll(order, r, inFlight, chunks), payloads)
  {
    assert [payloads[0]] + payloads[1..] == payloads;
  }

  lemma {:induction false} GenerousRest(chunks: seq<(nat, nat)>, calls: nat, size: nat, less: nat)
    requires Generous(chunks, calls, size) && calls > 0 && less <= size
    ensures Generous(chunks[1..], calls - 1, less) && chunks[0].0 >= size && chunks[0].1 >= size
  {
    assert forall i | 0 <= i < calls - 1 :: chunks[1..][i] == chunks[i + 1];
  }

  /** A poll that can read everything hands over all messages that have arrived. */
  lemma {:induction false} PollHandsAll(
    order: ByteOrder, r: Reader, inFlight: bytes, chunks: seq<(nat, nat)>, payloads: seq<bytes>)
    requires Waiting(order, r) && Sendable(payloads) && Partial(r) + inFlight == Stream(order, payloads)
    requires Generous(chunks, |payloads|, |inFlight|)
    ensures Drained(order, Poll(order, r, inFlight, chunks), payloads)
    decreases |payloads|
  {
    if payloads == [] {
      assert inFlight == [] && Partial(r) == [];
      NothingToRead(order, r, chunks);
    } else {
      var rest := Stream(order, payloads[1..]);
      GenerousRest(chunks, |payloads|, |inFlight|, 0);
      FirstRead(order, r, inFlight, chunks[0], payloads[0], rest);
      GenerousRest(chunks, |payloads|, |inFlight|, |rest|);
      SendableRest(payloads, 1);
      assert Waiting(order, NewReader) && Partial(NewReader) + rest == rest by { NewReaderWaits(order); }
      PollHandsAll(order, NewReader, rest, chunks[1..], payloads[1..]);
      PollOneMore(order, r, inFlight, chunks, payloads);
    }
  }

  /** What is undelivered of a connection on which nothing is pending. */
  lemma {:induction false} Undelivered(order: ByteOrder, l: Link)
    requires Conserved(order, l) && l.writer.connected && l.writer.pending == []
    ensures l.delivered <= l.written
    ensures Partial(l.reader) + l.inFlight == Stream(order, l.written[|l.delivered|..])
  {
    var rest := Partial(l.reader) + l.inFlight;
    assert Stream(order, l.written) == Stream(order, l.delivered) + rest by {
      Assoc(Stream(order, l.delivered), Partial(l.reader), l.inFlight);
      assert OnSocket(order, l) + [] == OnSocket(order, l);
    }
    StreamPrefix(order, l.written, l.delivered, rest);
  }

  lemma {:induction false} ReceiveDeliversAll(order: ByteOrder, l: Link, chunks: seq<(nat, nat)>)
    requires Conserved(order, l) && l.writer.connected && l.writer.pending == []
    requires Generous(chunks, |l.written|, |l.inFlight|)
    ensures var r := Step(order, l, Receive(chunks));
            && r.delivered == l.written && r.writer == l.writer && r.inFlight == []
            && ValidReader(order, r.reader) && Partial(r.reader) == []
  {
    var owed := PollHandsOwed(order, l, chunks);
  }

  lemma {:induction false} PollHandsOwed(order: ByteOrder, l: Link, chunks: seq<(nat, nat)>) returns (owed: seq<bytes>)
    requires Conserved(order, l) && l.writer.connected && l.writer.pending == []
    requires Generous(chunks, |l.written|, |l.inFlight|)
    ensures l.delivered + owed == l.written && Drained(order, Poll(order, l.reader, l.inFlight, chunks), owed)
  {
    assert l.delivered <= l.written && Partial(l.reader) + l.inFlight == Stream(order, l.written[|l.delivered|..]) by {
      Undelivered(order, l);
    }
    owed := l.written[|l.delivered|..];
    assert Sendable(owed) by { SendableRest(l.written, |l.delivered|); }
    assert Generous(chunks, |owed|, |l.inFlight|);
    PollHandsAll(order, l.reader, l.inFlight, chunks, owed);
  }

  lemma {:induction false} SendableRest(payloads: seq<bytes>, n: nat)
    requires Sendable(payloads) && n <= |payloads|
    ensures Sendable(payloads[n..])
  {
    assert forall i | 0 <= i < |payloads[n..]| :: payloads[n..][i] == payloads[n + i];
  }

  /**
   From any moment of any run without EBADF, on an open connection: one flush that the socket
   takes and one poll that can read what is there deliver everything that was ever written.
   */
  lemma {:induction false} FlushAndPollDeliverAll(
    order: ByteOrder, events: seq<Event>, links: seq<Link>, n: nat, count: nat, chunks: seq<(nat, nat)>)
    requires IsRun(order, events, links) && n < |links| && Lossless(events, links, n)
    requires links[n].writer.connected && count >= |links[n].writer.pending|
    requires Generous(chunks, |links[n].written|, |links[n].inFlight| + |links[n].writer.pending|)
    ensures ValidReader(order, links[n].reader)
    ensures var flushed := Step(order, links[n], Flush(Accepted(count)));
            && ValidReader(order, flushed.reader)
            && var r := Step(order, flushed, Receive(chunks));
               r.delivered == links[n].written && r.inFlight == [] && r.writer.pending == []
  {
    RunConserves(order, events, links, n);
    FlushEmpties(order, links[n], count);
    ReceiveDeliversAll(order, Step(order, links[n], Flush(Accepted(count))), chunks);
  }

  lemma {:induction false} FlushEmpties(order: ByteOrder, l: Link, count: nat)
    requires Conserved(order, l) && l.writer.connected && count >= |l.writer.pending|
    ensures var r := Step(order, l, Flush(Accepted(count)));
            && Conserved(order, r) && r.writer == Writer(true, []) && r.written == l.written
            && r.inFlight == l.inFlight + l.writer.pending
  {
    FlushConserves(order, l, Accepted(count));
    if l.writer.pending != [] {
      FlushTakes(l.writer, Accepted(count));
      assert l.writer.pending[..|l.writer.pending|] == l.writer.pending;
    }
  }
}
