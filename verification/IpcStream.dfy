/**
 Length-prefixed messages over a local stream socket (lib/ipc/UDS.cpp,
 lib/SocketStreamConnection.h, lib/ipc/UDSConnection.h, lib/ipc.h).

 The kernel decides how many bytes each `send` and `recv` moves. Those decisions are inputs
 here, so a statement about every run is a statement about every behaviour of the socket.
 */
module IpcStream {
  import opened Bytes
  import opened ByteArrays

  /** `sizeof(size_t)`: the width of the length prefix, which is in host byte order. */
  const SIZE_WIDTH: nat := 8

  // ---- Frames ----

  predicate Sendable(payloads: seq<bytes>) {
    forall i | 0 <= i < |payloads| :: |payloads[i]| < 0x1_0000_0000_0000_0000
  }

  function Frame(order: ByteOrder, payload: bytes): (s: bytes)
    ensures |s| == SIZE_WIDTH + |payload|
  {
    MemoryBytes(order, |payload|, SIZE_WIDTH) + payload
  }

  function Stream(order: ByteOrder, payloads: seq<bytes>): (s: bytes) {
    if payloads == [] then [] else Frame(order, payloads[0]) + Stream(order, payloads[1..])
  }

  lemma {:induction false} StreamConcat(order: ByteOrder, a: seq<bytes>, b: seq<bytes>)
    ensures Stream(order, a + b) == Stream(order, a) + Stream(order, b)
  {
    if a == [] {
      assert a + b == b;
    } else {
      assert (a + b)[1..] == a[1..] + b;
      StreamConcat(order, a[1..], b);
    }
  }

  lemma {:induction false} StreamOne(order: ByteOrder, payload: bytes)
    ensures Stream(order, [payload]) == Frame(order, payload)
  {
    assert Stream(order, [payload][1..]) == [];
  }

  lemma {:induction false} StreamCons(order: ByteOrder, payload: bytes, payloads: seq<bytes>, s: bytes, t: bytes)
    ensures Stream(order, [payload] + payloads) + s + t == Frame(order, payload) + (Stream(order, payloads) + s + t)
  {
    assert ([payload] + payloads)[1..] == payloads;
  }

  /** A frame starts with the number of bytes that follow its prefix. */
  lemma {:induction false} FrameSize(order: ByteOrder, payload: bytes)
    requires |payload| < 0x1_0000_0000_0000_0000
    ensures MemoryValue(order, Frame(order, payload)[..SIZE_WIDTH]) == |payload|
  {
    assert Pow256(SIZE_WIDTH) == 0x1_0000_0000_0000_0000 by { Pow256Values(); }
    MemoryRoundTripExact(order, |payload|, SIZE_WIDTH, 0x1_0000_0000_0000_0000);
    assert Frame(order, payload)[..SIZE_WIDTH] == MemoryBytes(order, |payload|, SIZE_WIDTH);
  }

  /** Two streams that agree start with the same frame. */
  lemma {:induction false} SameFirstFrame(order: ByteOrder, p: bytes, q: bytes, s: bytes, t: bytes)
    requires |p| < 0x1_0000_0000_0000_0000 && |q| < 0x1_0000_0000_0000_0000
    requires Frame(order, p) + s == Frame(order, q) + t
    ensures p == q && s == t
  {
    var all := Frame(order, p) + s;
    FrameSize(order, p);
    FrameSize(order, q);
    assert all[..SIZE_WIDTH] == Frame(order, p)[..SIZE_WIDTH] == Frame(order, q)[..SIZE_WIDTH];
    assert p == all[SIZE_WIDTH..SIZE_WIDTH + |p|] == q;
    assert s == all[SIZE_WIDTH + |p|..] == t;
  }

  /** Frames can be cut off a stream in one way only. */
  lemma {:induction false} StreamPrefix(order: ByteOrder, a: seq<bytes>, b: seq<bytes>, rest: bytes)
    requires Sendable(a) && Sendable(b)
    requires Stream(order, a) == Stream(order, b) + rest
    ensures b <= a && rest == Stream(order, a[|b|..])
  {
    if b == [] {
      assert a[0..] == a;
      assert Stream(order, b) + rest == rest;
    } else {
      var t := Stream(order, b[1..]);
      assert |Stream(order, b)| >= SIZE_WIDTH;
      assert a != [];
      Assoc(Frame(order, b[0]), t, rest);
      SameFirstFrame(order, a[0], b[0], Stream(order, a[1..]), t + rest);
      StreamPrefix(order, a[1..], b[1..], rest);
      ConsPrefix(a, b);
    }
  }

  lemma {:induction false} ConsPrefix(a: seq<bytes>, b: seq<bytes>)
    requires a != [] && b != [] && a[0] == b[0] && b[1..] <= a[1..]
    ensures b <= a && a[1..][|b[1..]|..] == a[|b|..]
  {
    assert a == [a[0]] + a[1..] && b == [b[0]] + b[1..];
  }

  // ---- The sending side ----

  datatype Report = OK | BUFFER_FULL | DISCONNECTED

  /** What `send` does: takes a prefix, takes nothing, or fails (EPIPE and the like, EBADF). */
  datatype SendOutcome = Accepted(count: nat) | WouldBlock | Broken | BadDescriptor

  datatype Writer = Writer(connected: bool, pending: bytes)

  /** The writer after a call, the bytes put on the socket, and what the call reports. */
  datatype Sent = Sent(writer: Writer, data: bytes, report: Report)

  /** `writeBytesNonBlocking`: the pending buffer is appended to but not looked at. */
  function WriteBytes(w: Writer, data: bytes, outcome: SendOutcome): (r: Sent) {
    match outcome
    case Accepted(n) =>
      var k := Min(n, |data|);
      if k == |data| then Sent(w, data, OK)
      else Sent(w.(pending := w.pending + data[k..]), data[..k], BUFFER_FULL)
    case WouldBlock => Sent(w.(pending := w.pending + data), [], BUFFER_FULL)
    case Broken => Sent(w.(connected := false), [], DISCONNECTED)
    case BadDescriptor => Sent(w, [], OK)
  }

  function WriteMessage(order: ByteOrder, w: Writer, payload: bytes, first: SendOutcome, second: SendOutcome)
    : (r: Sent)
  {
    var size := MemoryBytes(order, |payload|, SIZE_WIDTH);
    if w.pending != [] then
      Sent(w.(pending := w.pending + size + payload), [], BUFFER_FULL)
    else
      var a := WriteBytes(w, size, first);
      match a.report
      case OK => var b := WriteBytes(a.writer, payload, second); b.(data := a.data + b.data)
      case BUFFER_FULL => a.(writer := a.writer.(pending := a.writer.pending + payload))
      case DISCONNECTED => a
  }

  function FlushPending(w: Writer, outcome: SendOutcome): (r: Sent) {
    if w.pending == [] then Sent(w, [], OK) else WriteBytes(w.(pending := []), w.pending, outcome)
  }

  /** `front` and `back` are `all` cut in two. */
  predicate Cut(all: bytes, front: bytes, back: bytes) {
    |front| <= |all| && front == all[..|front|] && back == all[|front|..]
  }

  lemma {:induction false} CutHead(a: bytes, b: bytes, front: bytes, back: bytes)
    requires Cut(a, front, back)
    ensures Cut(a + b, front, back + b)
  {
  }

  lemma {:induction false} CutTail(a: bytes, b: bytes, front: bytes, back: bytes)
    ensures front <= b ==> a + front <= a + b
    ensures Cut(b, front, back) ==> Cut(a + b, a + front, back)
  {
  }

  /** With nothing pending, every byte given is sent or queued, in order, unless the call fails. */
  lemma {:induction false} WriteBytesCuts(w: Writer, data: bytes, outcome: SendOutcome)
    requires w.pending == [] && w.connected
    ensures var s := WriteBytes(w, data, outcome);
            && (s.writer.connected <==> outcome != Broken)
            && (outcome == Broken ==> s.data == [])
            && (outcome != Broken ==>
                  (Cut(data, s.data, s.writer.pending) <==> outcome != BadDescriptor || data == []))
            && (s.report == OK && outcome != BadDescriptor ==> s.data == data)
  {
  }

  /** `send` fails with EBADF on bytes that nothing keeps. */
  predicate LosesMessage(w: Writer, payload: bytes, first: SendOutcome, second: SendOutcome) {
    && w.pending == []
    && (first == BadDescriptor ||
        (first.Accepted? && first.count >= SIZE_WIDTH && second == BadDescriptor && payload != []))
  }

  /**
   Behind the pending bytes, a framed message is sent or queued, in order and completely,
   exactly when no `send` fails with EBADF; what is sent before a connection breaks is a prefix.
   */
  lemma {:induction false} WriteMessageCuts(
    order: ByteOrder, w: Writer, payload: bytes, first: SendOutcome, second: SendOutcome)
    requires w.connected
    ensures var s := WriteMessage(order, w, payload, first, second);
            var all := w.pending + Frame(order, payload);
            && (!LosesMessage(w, payload, first, second) ==> s.data <= all)
            && (s.writer.connected ==>
                  (Cut(all, s.data, s.writer.pending) <==> !LosesMessage(w, payload, first, second)))
            && |s.data| + |s.writer.pending| <= |all|
            && (LosesMessage(w, payload, first, second) ==> |s.data| + |s.writer.pending| < |all|)
  {
    var size := MemoryBytes(order, |payload|, SIZE_WIDTH);
    var all := w.pending + Frame(order, payload);
    if w.pending == [] {
      assert all == size + payload;
      WriteBytesCuts(w, size, first);
      var a := WriteBytes(w, size, first);
      if a.report == OK {
        WriteBytesCuts(a.writer, payload, second);
        var b := WriteBytes(a.writer, payload, second);
        CutTail(size, payload, b.data, b.writer.pending);
      } else if a.report == BUFFER_FULL {
        CutHead(size, payload, a.data, a.writer.pending);
      }
    } else {
      assert all == w.pending + size + payload;
    }
  }

  /** Bytes on the socket and then bytes pending are the old pending bytes and then the data. */
  predicate InOrder(pending: bytes, data: bytes, outcome: SendOutcome) {
    var s := WriteBytes(Writer(true, pending), data, outcome);
    s.data + s.writer.pending == pending + data
  }

  lemma {:induction false} OrderKept(pending: bytes, data: bytes, count: nat)
    requires count <= |data| && (pending == [] || count == 0)
    ensures InOrder(pending, data, Accepted(count))
  {
    assert data[..count] + data[count..] == data;
  }

  lemma {:induction false} OrderBroken(pending: bytes, length: nat, count: nat) returns (data: bytes)
    requires 0 < count <= length && pending != []
    ensures |data| == length && !InOrder(pending, data, Accepted(count))
  {
    var other: byte := if pending[0] == 0 then 1 else 0;
    data := seq(length, _ => other);
    var s := WriteBytes(Writer(true, pending), data, Accepted(count));
    assert (s.data + s.writer.pending)[0] == other;
    assert (pending + data)[0] == pending[0];
  }

  /**
   The documentation of the stream class promises that pending bytes always go first. The
   byte-level write used for TCP does not look at the pending buffer: whatever is being
   written, order is kept for all contents exactly when nothing is pending or nothing is taken.
   */
  lemma {:induction false} UncheckedWriteKeepsOrder(pending: bytes, length: nat, count: nat)
    requires count <= length
    ensures (forall data: bytes | |data| == length :: InOrder(pending, data, Accepted(count))) <==>
            pending == [] || count == 0
  {
    if pending == [] || count == 0 {
      forall data: bytes | |data| == length ensures InOrder(pending, data, Accepted(count)) {
        OrderKept(pending, data, count);
      }
    } else {
      var data := OrderBroken(pending, length, count);
    }
  }

  // ---- The receiving side ----

  /**
   The message being received. The length prefix is read straight into the size field, whose
   initial value is all ones; `body` is the part of the payload buffer filled so far.
   */
  datatype Reader = Reader(sizeField: bytes, lengthCount: nat, body: bytes)

  /** The reader after a call, the bytes still in flight, and the messages handed over. */
  datatype Got = Got(reader: Reader, inFlight: bytes, handed: seq<bytes>)

  const NewReader: Reader := Reader([0xFF, 0xFF, 0xFF, 0xFF, 0xFF, 0xFF, 0xFF, 0xFF], 0, [])

  function Size(order: ByteOrder, r: Reader): (n: nat) {
    MemoryValue(order, r.sizeField)
  }

  predicate IsComplete(order: ByteOrder, r: Reader) {
    Size(order, r) == |r.body|
  }

  predicate ValidReader(order: ByteOrder, r: Reader) {
    && |r.sizeField| == SIZE_WIDTH && r.lengthCount <= SIZE_WIDTH
    && (forall i | r.lengthCount <= i < SIZE_WIDTH :: r.sizeField[i] == 0xFF)
    && (r.lengthCount < SIZE_WIDTH ==> r.body == [])
    && (r.lengthCount == SIZE_WIDTH ==> |r.body| <= Size(order, r))
  }

  /** The bytes received for the current message. */
  function Partial(r: Reader): (s: bytes)
    requires r.lengthCount <= |r.sizeField|
  {
    r.sizeField[..r.lengthCount] + r.body
  }

  /** A size field of which only a part has been overwritten never reads as zero. */
  lemma {:induction false} PartialSizeNotZero(order: ByteOrder, r: Reader)
    requires ValidReader(order, r) && r.lengthCount < SIZE_WIDTH
    ensures Size(order, r) != 0 && !IsComplete(order, r)
  {
    NonzeroByte(r.sizeField, SIZE_WIDTH - 1);
    NonzeroByte(Reversed(r.sizeField), 0);
  }

  /** Receiving a prefix of a frame, the message is complete exactly when the prefix is the frame. */
  lemma {:induction false} CompleteExactlyAtFrameEnd(order: ByteOrder, r: Reader, payload: bytes)
    requires ValidReader(order, r) && |payload| < 0x1_0000_0000_0000_0000
    requires Partial(r) <= Frame(order, payload)
    ensures IsComplete(order, r) <==> Partial(r) == Frame(order, payload)
    ensures IsComplete(order, r) ==> r.body == payload
  {
    if r.lengthCount < SIZE_WIDTH {
      PartialSizeNotZero(order, r);
    } else {
      assert Partial(r)[..SIZE_WIDTH] == r.sizeField;
      assert Frame(order, payload)[..SIZE_WIDTH] == r.sizeField;
      FrameSize(order, payload);
      assert r.body == Partial(r)[SIZE_WIDTH..];
      assert payload == Frame(order, payload)[SIZE_WIDTH..];
    }
  }

  /** A complete message has consumed exactly its frame. */
  lemma {:induction false} CompleteConsumedFrame(order: ByteOrder, r: Reader)
    requires ValidReader(order, r) && IsComplete(order, r)
    ensures Partial(r) == Frame(order, r.body) && |r.body| < 0x1_0000_0000_0000_0000
  {
    if r.lengthCount < SIZE_WIDTH {
      PartialSizeNotZero(order, r);
    }
    Pow256Values();
    MemoryBytesOfValue(order, r.sizeField);
    assert r.sizeField[..SIZE_WIDTH] == r.sizeField;
  }

  function ReadLength(r: Reader, inFlight: bytes, chunk: nat): (q: Got)
    requires r.lengthCount <= SIZE_WIDTH == |r.sizeField|
  {
    var k := Min(chunk, Min(SIZE_WIDTH - r.lengthCount, |inFlight|));
    var field := r.sizeField[..r.lengthCount] + inFlight[..k] + r.sizeField[r.lengthCount + k..];
    Got(r.(sizeField := field, lengthCount := r.lengthCount + k), inFlight[k..], [])
  }

  function ReadBody(order: ByteOrder, r: Reader, inFlight: bytes, chunk: nat): (q: Got)
    requires |r.body| <= Size(order, r)
  {
    var k := Min(chunk, Min(Size(order, r) - |r.body|, |inFlight|));
    Got(r.(body := r.body + inFlight[..k]), inFlight[k..], [])
  }

  /** `read` without blocking: at most one `recv` for the prefix and one for the payload. */
  function Read(order: ByteOrder, r: Reader, inFlight: bytes, chunks: (nat, nat)): (q: Got)
    requires ValidReader(order, r)
    ensures ValidReader(order, q.reader)
  {
    var g := if r.lengthCount < SIZE_WIDTH then ReadLength(r, inFlight, chunks.0) else Got(r, inFlight, []);
    if g.reader.lengthCount == SIZE_WIDTH then ReadBody(order, g.reader, g.inFlight, chunks.1) else g
  }

  lemma {:induction false} ReadLengthKeepsBytes(order: ByteOrder, r: Reader, inFlight: bytes, chunk: nat)
    requires ValidReader(order, r) && r.lengthCount < SIZE_WIDTH
    ensures var q := ReadLength(r, inFlight, chunk);
            && Partial(q.reader) + q.inFlight == Partial(r) + inFlight
            && |q.inFlight| <= |inFlight| && (|q.inFlight| == |inFlight| ==> q.reader == r)
  {
    var q := ReadLength(r, inFlight, chunk);
    var k := q.reader.lengthCount - r.lengthCount;
    assert q.reader.sizeField[..q.reader.lengthCount] == r.sizeField[..r.lengthCount] + inFlight[..k];
    assert k == 0 ==> q.reader.sizeField == r.sizeField;
  }

  lemma {:induction false} ReadBodyKeepsBytes(order: ByteOrder, r: Reader, inFlight: bytes, chunk: nat)
    requires ValidReader(order, r) && r.lengthCount == SIZE_WIDTH
    ensures var q := ReadBody(order, r, inFlight, chunk);
            && Partial(q.reader) + q.inFlight == Partial(r) + inFlight
            && |q.inFlight| <= |inFlight| && (|q.inFlight| == |inFlight| ==> q.reader == r)
  {
    var q := ReadBody(order, r, inFlight, chunk);
    assert q.reader.body + q.inFlight == r.body + inFlight;
  }

  lemma {:induction false} ReadKeepsBytes(order: ByteOrder, r: Reader, inFlight: bytes, chunks: (nat, nat))
    requires ValidReader(order, r)
    ensures var q := Read(order, r, inFlight, chunks);
            && Partial(q.reader) + q.inFlight == Partial(r) + inFlight
            && |q.inFlight| <= |inFlight| && (|q.inFlight| == |inFlight| ==> q.reader == r)
  {
    if r.lengthCount < SIZE_WIDTH {
      ReadLengthKeepsBytes(order, r, inFlight, chunks.0);
      var g := ReadLength(r, inFlight, chunks.0);
      if g.reader.lengthCount == SIZE_WIDTH {
        ReadBodyKeepsBytes(order, g.reader, g.inFlight, chunks.1);
      }
    } else {
      ReadBodyKeepsBytes(order, r, inFlight, chunks.1);
    }
  }

  /** The read loop: hands over complete messages until a `recv` leaves one incomplete. */
  function Poll(order: ByteOrder, r: Reader, inFlight: bytes, chunks: seq<(nat, nat)>)
    : (q: Got)
    requires ValidReader(order, r)
    decreases |chunks|
  {
    if chunks == [] then Got(r, inFlight, [])
    else
      var q := Read(order, r, inFlight, chunks[0]);
      if IsComplete(order, q.reader) then
        var more := Poll(order, NewReader, q.inFlight, chunks[1..]);
        more.(handed := [q.reader.body] + more.handed)
      else q
  }

  ghost predicate Waiting(order: ByteOrder, r: Reader) {
    ValidReader(order, r) && !IsComplete(order, r)
  }

  lemma {:induction false} NewReaderWaits(order: ByteOrder)
    ensures Waiting(order, NewReader) && Partial(NewReader) == []
  {
    PartialSizeNotZero(order, NewReader);
  }

  /** The `i`-th pair of `recv` results; after the last one the socket would block. */
  function ChunkAt(chunks: seq<(nat, nat)>, i: nat): (c: (nat, nat)) {
    if i < |chunks| then chunks[i] else (0, 0)
  }

  function Later(chunks: seq<(nat, nat)>, i: nat): (c: seq<(nat, nat)>) {
    if i < |chunks| then chunks[i..] else []
  }

  /** What the read loop ends with when `handed` has been handed over before turn `i`. */
  function Resume(order: ByteOrder, r: Reader, inFlight: bytes, chunks: seq<(nat, nat)>, i: nat, handed: seq<bytes>)
    : (q: Got)
    requires ValidReader(order, r)
  {
    var rest := Poll(order, r, inFlight, Later(chunks, i));
    rest.(handed := handed + rest.handed)
  }

  /** One turn of the read loop. */
  lemma {:induction false} PollTurn(
    order: ByteOrder, r: Reader, inFlight: bytes, chunks: seq<(nat, nat)>, i: nat, handed: seq<bytes>)
    requires Waiting(order, r)
    ensures var q := Read(order, r, inFlight, ChunkAt(chunks, i));
            var all := Resume(order, r, inFlight, chunks, i, handed);
            if IsComplete(order, q.reader) then
              && |q.inFlight| < |inFlight|
              && all == Resume(order, NewReader, q.inFlight, chunks, i + 1, handed + [q.reader.body])
            else all == q.(handed := handed)
  {
    ReadKeepsBytes(order, r, inFlight, ChunkAt(chunks, i));
    var q := Read(order, r, inFlight, ChunkAt(chunks, i));
    var later := Later(chunks, i);
    if i < |chunks| {
      assert later[0] == chunks[i] && later[1..] == Later(chunks, i + 1);
      if IsComplete(order, q.reader) {
        var rest := Poll(order, NewReader, q.inFlight, later[1..]);
        assert Poll(order, r, inFlight, later) == rest.(handed := [q.reader.body] + rest.handed);
        assert handed + ([q.reader.body] + rest.handed) == handed + [q.reader.body] + rest.handed;
      } else {
        assert Poll(order, r, inFlight, later) == q;
      }
    } else {
      assert q == Got(r, inFlight, []);
      assert handed + [] == handed;
    }
  }

  /** A read that completes a message takes the rest of its frame off the socket. */
  lemma {:induction false} ReadTakesFrame(order: ByteOrder, r: Reader, inFlight: bytes, chunks: (nat, nat))
    requires ValidReader(order, r)
    ensures var g := Read(order, r, inFlight, chunks);
            if IsComplete(order, g.reader) then
              && |g.reader.body| < 0x1_0000_0000_0000_0000
              && Partial(r) + inFlight == Frame(order, g.reader.body) + g.inFlight
            else Partial(r) + inFlight == Partial(g.reader) + g.inFlight
  {
    ReadKeepsBytes(order, r, inFlight, chunks);
    var g := Read(order, r, inFlight, chunks);
    if IsComplete(order, g.reader) {
      CompleteConsumedFrame(order, g.reader);
    }
  }

  /** `q` accounts for the bytes of `total`, and its reader is inside a message. */
  ghost predicate Accounts(order: ByteOrder, total: bytes, q: Got) {
    && Waiting(order, q.reader) && Sendable(q.handed)
    && total == Stream(order, q.handed) + Partial(q.reader) + q.inFlight
  }

  lemma {:induction false} AccountsForNone(order: ByteOrder, q: Got)
    requires Waiting(order, q.reader) && q.handed == []
    ensures Accounts(order, Partial(q.reader) + q.inFlight, q)
  {
    assert Stream(order, []) + Partial(q.reader) + q.inFlight == Partial(q.reader) + q.inFlight;
  }

  lemma {:induction false} AccountsForOneMore(order: ByteOrder, total: bytes, q: Got, payload: bytes)
    requires Accounts(order, total, q) && |payload| < 0x1_0000_0000_0000_0000
    ensures Accounts(order, Frame(order, payload) + total, q.(handed := [payload] + q.handed))
  {
    StreamCons(order, payload, q.handed, Partial(q.reader), q.inFlight);
  }

  lemma {:induction false} PollKeepsBytes(order: ByteOrder, r: Reader, inFlight: bytes, chunks: seq<(nat, nat)>)
    requires Waiting(order, r)
    ensures Accounts(order, Partial(r) + inFlight, Poll(order, r, inFlight, chunks))
    decreases |chunks|
  {
    if chunks == [] {
      AccountsForNone(order, Got(r, inFlight, []));
    } else {
      ReadTakesFrame(order, r, inFlight, chunks[0]);
      var g := Read(order, r, inFlight, chunks[0]);
      if IsComplete(order, g.reader) {
        assert Accounts(order, g.inFlight, Poll(order, NewReader, g.inFlight, chunks[1..])) by {
          NewReaderWaits(order);
          PollKeepsBytes(order, NewReader, g.inFlight, chunks[1..]);
          assert Partial(NewReader) + g.inFlight == g.inFlight;
        }
        AccountsForOneMore(order, g.inFlight, Poll(order, NewReader, g.inFlight, chunks[1..]), g.reader.body);
      } else {
        AccountsForNone(order, g);
      }
    }
  }

  // ---- Runs ----

  /** Both ends of a connection and the bytes between them, with what was written and delivered. */
  datatype Link = Link(
    written: seq<bytes>, writer: Writer, inFlight: bytes, reader: Reader, delivered: seq<bytes>)

  const NewLink: Link := Link([], Writer(true, []), [], NewReader, [])

  datatype Event =
    | Write(payload: bytes, first: SendOutcome, second: SendOutcome)
    | Flush(outcome: SendOutcome)
    | Receive(chunks: seq<(nat, nat)>)

  /** A closed link takes no more writes: the source asserts an open descriptor. */
  predicate Enabled(l: Link, e: Event) {
    match e
    case Write(payload, first, second) => l.writer.connected && |payload| < 0x1_0000_0000_0000_0000
    case Flush(outcome) => l.writer.connected
    case Receive(_) => true
  }

  /** The event drops bytes because `send` fails with EBADF, which is reported as success. */
  predicate Loses(l: Link, e: Event) {
    match e
    case Write(payload, first, second) => LosesMessage(l.writer, payload, first, second)
    case Flush(outcome) => l.writer.pending != [] && outcome == BadDescriptor
    case Receive(_) => false
  }

  function Step(order: ByteOrder, l: Link, e: Event): (l': Link)
    requires ValidReader(order, l.reader)
  {
    match e
    case Write(payload, first, second) =>
      var s := WriteMessage(order, l.writer, payload, first, second);
      l.(written := l.written + [payload], writer := s.writer, inFlight := l.inFlight + s.data)
    case Flush(outcome) =>
      var s := FlushPending(l.writer, outcome);
      l.(writer := s.writer, inFlight := l.inFlight + s.data)
    case Receive(chunks) =>
      var q := Poll(order, l.reader, l.inFlight, chunks);
      l.(reader := q.reader, inFlight := q.inFlight, delivered := l.delivered + q.handed)
  }

  /** Everything that ever reached the socket, in the order it was taken. */
  function OnSocket(order: ByteOrder, l: Link): (s: bytes)
    requires ValidReader(order, l.reader)
  {
    Stream(order, l.delivered) + Partial(l.reader) + l.inFlight
  }

  /**
   No byte is lost, duplicated or moved: the messages written are the messages delivered,
   the partial message, the bytes in flight and the pending buffer, in this order. When the
   connection breaks, what reached the socket is still a prefix of what was written.
   */
  ghost predicate Conserved(order: ByteOrder, l: Link) {
    && Sendable(l.written) && Sendable(l.delivered) && Waiting(order, l.reader)
    && OnSocket(order, l) <= Stream(order, l.written)
    && (l.writer.connected ==> Stream(order, l.written) == OnSocket(order, l) + l.writer.pending)
  }

  /** Moving the front of what is owed onto the socket keeps the sum. */
  lemma {:induction false} Advance(s: bytes, all: bytes, front: bytes, back: bytes)
    requires front <= all
    ensures s + front <= s + all
    ensures Cut(all, front, back) ==> s + front + back == s + all
  {
    assert s + all == s + front + all[|front|..];
  }

  lemma {:induction false} WriteConserves(
    order: ByteOrder, l: Link, payload: bytes, first: SendOutcome, second: SendOutcome)
    requires Conserved(order, l) && Enabled(l, Write(payload, first, second)) && !Loses(l, Write(payload, first, second))
    ensures Conserved(order, Step(order, l, Write(payload, first, second)))
  {
    var l' := Step(order, l, Write(payload, first, second));
    var s := WriteMessage(order, l.writer, payload, first, second);
    var all := l.writer.pending + Frame(order, payload);
    WriteMessageCuts(order, l.writer, payload, first, second);
    StreamConcat(order, l.written, [payload]);
    StreamOne(order, payload);
    Assoc(OnSocket(order, l), l.writer.pending, Frame(order, payload));
    Assoc(Stream(order, l.delivered) + Partial(l.reader), l.inFlight, s.data);
    Advance(OnSocket(order, l), all, s.data, s.writer.pending);
  }

  lemma {:induction false} FlushConserves(order: ByteOrder, l: Link, outcome: SendOutcome)
    requires Conserved(order, l) && Enabled(l, Flush(outcome)) && !Loses(l, Flush(outcome))
    ensures Conserved(order, Step(order, l, Flush(outcome)))
  {
    var l' := Step(order, l, Flush(outcome));
    var s := FlushPending(l.writer, outcome);
    if l.writer.pending != [] {
      WriteBytesCuts(l.writer.(pending := []), l.writer.pending, outcome);
    }
    Assoc(Stream(order, l.delivered) + Partial(l.reader), l.inFlight, s.data);
    Advance(OnSocket(order, l), l.writer.pending, s.data, s.writer.pending);
  }

  lemma {:induction false} ReceiveKeepsSocket(order: ByteOrder, l: Link, chunks: seq<(nat, nat)>)
    requires Waiting(order, l.reader)
    ensures var l' := Step(order, l, Receive(chunks));
            && Waiting(order, l'.reader) && OnSocket(order, l') == OnSocket(order, l)
            && (Sendable(l.delivered) ==> Sendable(l'.delivered))
  {
    PollKeepsBytes(order, l.reader, l.inFlight, chunks);
    var q := Poll(order, l.reader, l.inFlight, chunks);
    var s, t := Stream(order, l.delivered), Stream(order, q.handed);
    StreamConcat(order, l.delivered, q.handed);
    Assoc4(s, t, Partial(q.reader), q.inFlight);
    Assoc(s, Partial(l.reader), l.inFlight);
  }

  lemma {:induction false} StepConserves(order: ByteOrder, l: Link, e: Event)
    requires Conserved(order, l) && Enabled(l, e) && !Loses(l, e)
    ensures Conserved(order, Step(order, l, e))
  {
    match e
    case Write(payload, first, second) => WriteConserves(order, l, payload, first, second);
    case Flush(outcome) => FlushConserves(order, l, outcome);
    case Receive(chunks) => ReceiveKeepsSocket(order, l, chunks);
  }

  /** `links` is the run of `events` from a new connection. */
  ghost predicate IsRun(order: ByteOrder, events: seq<Event>, links: seq<Link>) {
    && |links| == |events| + 1 && links[0] == NewLink
    && forall i {:trigger events[i]} | 0 <= i < |events| ::
         && ValidReader(order, links[i].reader) && Enabled(links[i], events[i])
         && links[i + 1] == Step(order, links[i], events[i])
  }

  /** None of the first `n` events drops bytes. */
  ghost predicate Lossless(events: seq<Event>, links: seq<Link>, n: nat)
    requires n <= |events| <= |links|
  {
    forall i {:trigger events[i]} | 0 <= i < n :: !Loses(links[i], events[i])
  }

  lemma {:induction false} RunConserves(order: ByteOrder, events: seq<Event>, links: seq<Link>, n: nat)
    requires IsRun(order, events, links) && n < |links| && Lossless(events, links, n)
    ensures Conserved(order, links[n])
  {
    if n == 0 {
      NewReaderWaits(order);
    } else {
      RunConserves(order, events, links, n - 1);
      StepConserves(order, links[n - 1], events[n - 1]);
    }
  }

  /** How many of the bytes written are neither received, in flight nor pending. */
  function Missing(order: ByteOrder, l: Link): (n: int)
    requires ValidReader(order, l.reader)
  {
    |Stream(order, l.written)| - |OnSocket(order, l)| - |l.writer.pending|
  }

  /** Bytes are missing after an event if they were before, or if the event drops some. */
  lemma {:induction false} StepMissing(order: ByteOrder, l: Link, e: Event)
    requires Waiting(order, l.reader) && Enabled(l, e)
    ensures var l' := Step(order, l, e);
            && Waiting(order, l'.reader) && (l'.writer.connected ==> l.writer.connected)
            && (l'.writer.connected ==> Missing(order, l') >= Missing(order, l) + if Loses(l, e) then 1 else 0)
  {
    match e
    case Write(payload, first, second) =>
      WriteMessageCuts(order, l.writer, payload, first, second);
      StreamConcat(order, l.written, [payload]);
      StreamOne(order, payload);
    case Flush(outcome) =>
      if l.writer.pending != [] {
        WriteBytesCuts(l.writer.(pending := []), l.writer.pending, outcome);
      }
    case Receive(chunks) => ReceiveKeepsSocket(order, l, chunks);
  }

  /** The reader waits, and bytes are missing on an open connection if some were lost. */
  ghost predicate MissingInv(order: ByteOrder, l: Link, lossless: bool) {
    && Waiting(order, l.reader)
    && (l.writer.connected ==> Missing(order, l) >= 0 && (!lossless ==> Missing(order, l) > 0))
  }

  lemma {:induction false} MissingNext(order: ByteOrder, l: Link, e: Event, lossless: bool)
    requires MissingInv(order, l, lossless) && Enabled(l, e)
    ensures MissingInv(order, Step(order, l, e), lossless && !Loses(l, e))
  {
    StepMissing(order, l, e);
  }

  lemma {:induction false} RunMissing(order: ByteOrder, events: seq<Event>, links: seq<Link>, n: nat)
    requires IsRun(order, events, links) && n < |links|
    ensures MissingInv(order, links[n], Lossless(events, links, n))
  {
    if n == 0 {
      NewReaderWaits(order);
    } else {
      RunMissing(order, events, links, n - 1);
      var lossless := Lossless(events, links, n - 1);
      MissingNext(order, links[n - 1], events[n - 1], lossless);
      assert Lossless(events, links, n) <==> lossless && !Loses(links[n - 1], events[n - 1]);
    }
  }

  /** On an open connection nothing has been lost if and only if no `send` failed with EBADF. */
  lemma {:induction false} RunConservedIff(order: ByteOrder, events: seq<Event>, links: seq<Link>, n: nat)
    requires IsRun(order, events, links) && n < |links| && links[n].writer.connected
    ensures Conserved(order, links[n]) <==> Lossless(events, links, n)
  {
    RunMissing(order, events, links, n);
    if Lossless(events, links, n) {
      RunConserves(order, events, links, n);
    }
  }

  /**
   After every interleaving of writes, flushes and reads with any socket behaviour, the
   messages delivered are the first ones written, in order; and on an open connection with
   nothing pending and nothing in flight they are all of them.
   */
  lemma {:induction false} DeliveryIsPrefix(order: ByteOrder, events: seq<Event>, links: seq<Link>, n: nat)
    requires IsRun(order, events, links) && n < |links| && Lossless(events, links, n)
    ensures Conserved(order, links[n])
    ensures var l := links[n];
            && l.delivered <= l.written
            && (l.writer.connected ==>
                  Stream(order, l.written[|l.delivered|..]) == Partial(l.reader) + l.inFlight + l.writer.pending)
            && (l.writer.connected && l.inFlight == [] && l.writer.pending == [] ==> l.delivered == l.written)
  {
    RunConserves(order, events, links, n);
    ConservedDelivery(order, links[n]);
  }

  lemma {:induction false} ConservedDelivery(order: ByteOrder, l: Link)
    requires Conserved(order, l)
    ensures l.delivered <= l.written
    ensures l.writer.connected ==>
              Stream(order, l.written[|l.delivered|..]) == Partial(l.reader) + l.inFlight + l.writer.pending
    ensures l.writer.connected && l.inFlight == [] && l.writer.pending == [] ==> l.delivered == l.written
  {
    var s, partial := Stream(order, l.delivered), Partial(l.reader);
    var tail := Stream(order, l.written)[|OnSocket(order, l)|..];
    Assoc4(s, partial, l.inFlight, tail);
    StreamPrefix(order, l.written, l.delivered, partial + l.inFlight + tail);
    if l.writer.connected {
      assert tail == l.writer.pending;
      if l.inFlight == [] && l.writer.pending == [] {
        assert partial + l.inFlight + tail == partial;
        NothingLeft(order, l.reader, l.written[|l.delivered|..]);
      }
    }
  }

  /** A reader that has received a whole frame is complete. */
  lemma {:induction false} WholeFrameCompletes(order: ByteOrder, r: Reader, payload: bytes)
    requires ValidReader(order, r) && |payload| < 0x1_0000_0000_0000_0000
    ensures Frame(order, payload) <= Partial(r) ==> IsComplete(order, r)
  {
    if Frame(order, payload) <= Partial(r) {
      assert r.lengthCount == SIZE_WIDTH;
      assert r.sizeField == Partial(r)[..SIZE_WIDTH] == Frame(order, payload)[..SIZE_WIDTH];
      FrameSize(order, payload);
    }
  }

  /** So a reader that is waiting holds none. */
  lemma {:induction false} NothingLeft(order: ByteOrder, r: Reader, next: seq<bytes>)
    requires Waiting(order, r) && Sendable(next) && Stream(order, next) == Partial(r)
    ensures next == []
  {
    if next != [] {
      WholeFrameCompletes(order, r, next[0]);
    }
  }

  /**
   A descriptor that is bad for both sends: success is reported, the message is neither on the
   socket nor queued, and the connection counts as open.
   */
  lemma {:induction false} BadDescriptorLosesMessage(order: ByteOrder, payload: bytes)
    ensures var s := WriteMessage(order, Writer(true, []), payload, BadDescriptor, BadDescriptor);
            s == Sent(Writer(true, []), [], OK) && !Cut(Frame(order, payload), s.data, s.writer.pending)
  {
    assert |Frame(order, payload)| >= SIZE_WIDTH;
  }

  /** Such a write after any run: the reader is left one whole message short for good. */
  lemma {:induction false} BadDescriptorBreaksRun(order: ByteOrder, events: seq<Event>, links: seq<Link>, payload: bytes)
    requires IsRun(order, events, links) && Lossless(events, links, |events|)
    requires links[|events|].writer == Writer(true, []) && |payload| < 0x1_0000_0000_0000_0000
    ensures var l := links[|events|];
            var e := Write(payload, BadDescriptor, BadDescriptor);
            && ValidReader(order, l.reader) && Enabled(l, e)
            && var l' := Step(order, l, e);
               l'.written == l.written + [payload] && l'.(written := l.written) == l && !Conserved(order, l')
  {
    var l := links[|events|];
    RunMissing(order, events, links, |events|);
    RunConserves(order, events, links, |events|);
    BadDescriptorLosesMessage(order, payload);
    StepMissing(order, l, Write(payload, BadDescriptor, BadDescriptor));
    assert l.inFlight + [] == l.inFlight;
  }
}
