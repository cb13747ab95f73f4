/**
 SOME/IP messages over TCP: the framer and the deframer of lib/TCPClient.cpp.

 The deframer keeps one message object for the life of the connection. It writes the header
 into the message buffer before resizing the buffer, and a resize that leaves the static
 buffer copies only the bytes inside the old length (utilLib/common.h). Both are modelled.
 */
module TcpFraming {
  import opened Bytes
  import opened ByteArrays
  import opened Wire
  import opened SomeIp

  datatype Packet = Packet(header: Header, payload: bytes)

  /** The payload lengths the 32-bit length field can announce. */
  predicate Framable(packets: seq<Packet>) {
    forall i | 0 <= i < |packets| :: |packets[i].payload| < 0x1_0000_0000 - 8
  }

  /** What `sendMessage` puts on the stream: the length counts everything after itself. */
  function FramePacket(p: Packet): (s: bytes)
    ensures |s| == HEADER_SIZE + |p.payload|
  {
    EncodeHeader(p.header, 8 + |p.payload|) + p.payload
  }

  /** The header fields after the length. */
  const HEADER_TAIL: seq<nat> := [4, 1, 1, 1, 1]

  function TailValues(h: Header): (values: seq<nat>)
    ensures |values| == 5
  {
    [h.requestID, h.protocolVersion, h.interfaceVersion, h.messageType, h.returnCode]
  }

  lemma {:induction false} HeaderParts(h: Header, length: nat)
    ensures |EncodeFields([4], [h.messageID])| == 4 && |EncodeFields(HEADER_TAIL, TailValues(h))| == 8
    ensures EncodeHeader(h, length) ==
            EncodeFields([4], [h.messageID]) + NetworkBytes(length, 4) + EncodeFields(HEADER_TAIL, TailValues(h))
  {
    HeaderWidths();
    assert HEADER_WIDTHS == [4] + [4] + HEADER_TAIL;
    assert HeaderValues(h, length) == [h.messageID] + [length] + TailValues(h);
    EncodeFieldsConcat([4] + [4], [h.messageID] + [length], HEADER_TAIL, TailValues(h));
    EncodeFieldsConcat([4], [h.messageID], [4], [length]);
    EncodeOneField(4, length);
    EncodeOneField(4, h.messageID);
  }

  lemma {:induction false} FrameParts(before: bytes, h: Header, payload: bytes)
    ensures before + EncodeFields([4], [h.messageID]) + NetworkBytes(8 + |payload|, 4) +
            (EncodeFields(HEADER_TAIL, TailValues(h)) + payload) == before + FramePacket(Packet(h, payload))
  {
    HeaderParts(h, 8 + |payload|);
    Regrouped(before, EncodeFields([4], [h.messageID]), NetworkBytes(8 + |payload|, 4),
              EncodeFields(HEADER_TAIL, TailValues(h)), payload);
  }

  lemma {:induction false} Regrouped(o: bytes, a: bytes, b: bytes, c: bytes, d: bytes)
    ensures o + a + b + (c + d) == o + (a + b + c + d)
  {
  }

  function PacketStream(packets: seq<Packet>): (s: bytes) {
    if packets == [] then [] else FramePacket(packets[0]) + PacketStream(packets[1..])
  }

  lemma {:induction false} PacketStreamConcat(a: seq<Packet>, b: seq<Packet>)
    ensures PacketStream(a + b) == PacketStream(a) + PacketStream(b)
  {
    if a == [] {
      assert a + b == b;
    } else {
      assert (a + b)[1..] == a[1..] + b;
      PacketStreamConcat(a[1..], b);
      Assoc(FramePacket(a[0]), PacketStream(a[1..]), PacketStream(b));
    }
  }

  lemma {:induction false} PacketStreamSplit(packets: seq<Packet>, n: nat)
    requires n <= |packets|
    ensures PacketStream(packets) == PacketStream(packets[..n]) + PacketStream(packets[n..])
  {
    assert packets == packets[..n] + packets[n..];
    PacketStreamConcat(packets[..n], packets[n..]);
  }

  lemma {:induction false} PacketStreamNext(packets: seq<Packet>, n: nat)
    requires n < |packets|
    ensures PacketStream(packets[..n + 1]) == PacketStream(packets[..n]) + FramePacket(packets[n])
  {
    var p := packets[n];
    assert packets[..n + 1] == packets[..n] + [p];
    PacketStreamConcat(packets[..n], [p]);
    assert PacketStream([p]) == FramePacket(p) by {
      assert PacketStream([p][1..]) == [];
    }
  }

  // ---- The message buffer ----

  const IPC_HEADER_SIZE: nat := 4
  const INPUT_HEADER_SIZE: nat := 16
  const STORED_SIZE: nat := 12

  /** Where the payload starts in the message buffer. */
  const PAYLOAD_AT: nat := IPC_HEADER_SIZE + INPUT_HEADER_SIZE
  const ZERO_HEADER: Header := Header(0, 0, 0, 0, 0, 0)

  /** The fields of a header as they lie in memory. */
  function StoreHeader(order: ByteOrder, h: Header): (s: bytes)
    ensures |s| == STORED_SIZE
  {
    MemoryBytes(order, h.messageID, 4) + MemoryBytes(order, h.requestID, 4) +
    [h.protocolVersion, h.interfaceVersion, h.messageType, h.returnCode]
  }

  function Value32(order: ByteOrder, s: bytes): (v: u32)
    requires |s| == 4
  {
    MemoryBytesOfValue(order, s);
    Pow256Values();
    MemoryValue(order, s)
  }

  function LoadHeader(order: ByteOrder, s: bytes): (h: Header)
    requires |s| == STORED_SIZE
  {
    Header(Value32(order, s[..4]), Value32(order, s[4..8]), s[8], s[9], s[10], s[11])
  }

  lemma {:induction false} StoredHeader(order: ByteOrder, h: Header)
    ensures LoadHeader(order, StoreHeader(order, h)) == h
  {
    var s := StoreHeader(order, h);
    assert s[..4] == MemoryBytes(order, h.messageID, 4) && s[4..8] == MemoryBytes(order, h.requestID, 4);
    Pow256Values();
    MemoryRoundTripExact(order, h.messageID, 4, 0x1_0000_0000);
    MemoryRoundTripExact(order, h.requestID, 4, 0x1_0000_0000);
  }

  /** Memory that holds zeros holds the header with all fields zero. */
  lemma {:induction false} ZeroHeader(order: ByteOrder, s: bytes)
    requires |s| == STORED_SIZE && forall i | 0 <= i < STORED_SIZE :: s[i] == 0
    ensures LoadHeader(order, s) == ZERO_HEADER
  {
    ZeroBytes(order, 4);
    assert s[..4] == MemoryBytes(order, 0, 4) && s[4..8] == MemoryBytes(order, 0, 4);
    Pow256Values();
    MemoryRoundTripExact(order, 0, 4, 0x1_0000_0000);
  }

  /** `getHeader`: the header read from the memory of the message. */
  function HeaderIn(order: ByteOrder, b: Storage): (h: Header)
    requires |Raw(b)| >= PAYLOAD_AT
  {
    LoadHeader(order, Raw(b)[IPC_HEADER_SIZE..IPC_HEADER_SIZE + STORED_SIZE])
  }

  /** `getHeaderPrivate`: the fields are assigned in place, whatever the length of the buffer. */
  function WithHeader(order: ByteOrder, b: Storage, h: Header): (r: Storage)
    requires |Raw(b)| >= PAYLOAD_AT
    ensures |Raw(r)| == |Raw(b)| && SizeOf(r) == SizeOf(b) && (ValidStorage(b) ==> ValidStorage(r))
  {
    Poked(b, IPC_HEADER_SIZE, StoreHeader(order, h))
  }

  /**
   The header survives the resize for the payload unless the static buffer is left while the
   length does not cover the header: then it is zeros.
   */
  lemma {:induction false} HeaderAfterResize(order: ByteOrder, b: Storage, h: Header, needed: nat)
    requires ValidMessage(b) && needed >= PAYLOAD_AT
    ensures |Raw(Resized(WithHeader(order, b, h), needed))| >= needed
    ensures HeaderIn(order, Resized(WithHeader(order, b, h), needed)) ==
            if b.vector.None? && b.length == IPC_HEADER_SIZE && needed > STATIC_SIZE then ZERO_HEADER else h
  {
    var w := WithHeader(order, b, h);
    var r := Resized(w, needed);
    var s := Raw(r)[IPC_HEADER_SIZE..IPC_HEADER_SIZE + STORED_SIZE];
    var moved := b.vector.None? && needed > STATIC_SIZE;
    forall i | IPC_HEADER_SIZE <= i < IPC_HEADER_SIZE + STORED_SIZE
      ensures Raw(r)[i] == if moved && i >= b.length then 0 else Raw(w)[i]
    {
      ResizedMemory(w, needed, i);
    }
    if moved && b.length == IPC_HEADER_SIZE {
      ZeroHeader(order, s);
    } else {
      assert s == Raw(w)[IPC_HEADER_SIZE..IPC_HEADER_SIZE + STORED_SIZE] == StoreHeader(order, h);
      StoredHeader(order, h);
    }
  }

  // ---- The deframer ----

  /**
   `headerBytes` is what the header reader has received. The payload reader fills the buffer
   of the message object from `PAYLOAD_AT` on; `received` bytes of `payloadSize` are there.
   */
  datatype Deframer = Deframer(
    order: ByteOrder, headerBytes: bytes, buffer: Storage, payloadSize: nat, received: nat)

  /** A new message object has room for the IPC header only; its memory holds anything. */
  predicate NewDeframer(d: Deframer) {
    && d.headerBytes == [] && d.payloadSize == d.received == 0
    && ValidMessage(d.buffer) && d.buffer.vector.None? && d.buffer.length == IPC_HEADER_SIZE
  }

  function ReceivedPayload(d: Deframer): (s: bytes)
    requires ValidDeframer(d)
    ensures |s| == if |d.headerBytes| == HEADER_SIZE then d.received else 0
  {
    if |d.headerBytes| == HEADER_SIZE then Raw(d.buffer)[PAYLOAD_AT..PAYLOAD_AT + d.received] else []
  }

  /** What the dispatcher or the discovery decoder is given. */
  datatype Handed =
    | Discovery(header: Header, payload: bytes)
    | Message(header: Header, client: Option<u16>, payload: bytes)

  /** A reply gives up the client identifier carried in its request ID. */
  function Hand(h: Header, payload: bytes): (m: Handed) {
    if h.messageID == SERVICE_DISCOVERY then Discovery(h, payload)
    else if IsReply(h) then Message(TagClientIdentifier(h, 0), Some(ExtractClientIdentifier(h)), payload)
    else Message(h, None, payload)
  }

  /** `messageLength - 8` in 64-bit arithmetic. */
  function PayloadSize(length: u32): (n: nat) {
    if length >= 8 then length - 8 else length + 0x1_0000_0000_0000_0000 - 8
  }

  /** The header is complete: it is stored in the message, then the buffer is resized for the payload. */
  function BeginPayload(d: Deframer): (d': Deframer)
    requires |d.headerBytes| == HEADER_SIZE && ValidMessage(d.buffer)
    ensures ValidDeframer(d') && d'.headerBytes == d.headerBytes
  {
    var parsed := DecodeHeader(d.headerBytes);
    var stored := WithHeader(d.order, d.buffer, parsed.0);
    var size := PayloadSize(parsed.1);
    d.(buffer := Resized(stored, size + PAYLOAD_AT), payloadSize := size, received := 0)
  }

  lemma {:induction false} BeginPayloadIs(d: Deframer)
    requires |d.headerBytes| == HEADER_SIZE && ValidMessage(d.buffer)
    ensures var parsed := DecodeHeader(d.headerBytes);
            var size := PayloadSize(parsed.1);
            BeginPayload(d) ==
            Deframer(d.order, d.headerBytes, Resized(WithHeader(d.order, d.buffer, parsed.0), size + PAYLOAD_AT), size, 0)
  {
  }

  /** A reply is handed over with its request ID cleared in place and its client identifier beside it. */
  function Settled(order: ByteOrder, b: Storage, h: Header): (r: Storage)
    requires |Raw(b)| >= PAYLOAD_AT
    ensures |Raw(r)| == |Raw(b)| && SizeOf(r) == SizeOf(b) && (ValidStorage(b) ==> ValidStorage(r))
  {
    if h.messageID == SERVICE_DISCOVERY || !IsReply(h) then b
    else Poked(WithHeader(order, b, TagClientIdentifier(h, 0)), IPC_HEADER_SIZE + STORED_SIZE,
               MemoryBytes(order, ExtractClientIdentifier(h), 2))
  }

  /** One turn of the receive loop: `keep` says whether the loop goes on. */
  datatype Turned = Turned(deframer: Deframer, inFlight: bytes, handed: seq<Handed>, keep: bool)

  /** More of the header has arrived, perhaps the last of it. */
  function Headed(d: Deframer, data: bytes): (r: Deframer)
    requires ValidDeframer(d) && |d.headerBytes| + |data| <= HEADER_SIZE && |d.headerBytes| < HEADER_SIZE
    ensures ValidDeframer(r) && |r.headerBytes| == |d.headerBytes| + |data|
  {
    var d1 := d.(headerBytes := d.headerBytes + data);
    if |d1.headerBytes| == HEADER_SIZE then BeginPayload(d1) else d1
  }

  function HeaderTurn(d: Deframer, inFlight: bytes, chunk: nat): (t: Turned)
    requires ValidDeframer(d) && |d.headerBytes| < HEADER_SIZE
    ensures t.keep ==> |t.inFlight| < |inFlight| && |t.deframer.headerBytes| == HEADER_SIZE
    ensures ValidDeframer(t.deframer)
  {
    var k := Min(chunk, Min(HEADER_SIZE - |d.headerBytes|, |inFlight|));
    var d1 := Headed(d, inFlight[..k]);
    Turned(d1, inFlight[k..], [], |d1.headerBytes| == HEADER_SIZE)
  }

  /** More payload has arrived in the buffer. */
  function Filled(d: Deframer, data: bytes): (r: Deframer)
    requires ValidDeframer(d) && |d.headerBytes| == HEADER_SIZE && d.received + |data| <= d.payloadSize
    ensures ValidDeframer(r) && r.headerBytes == d.headerBytes
  {
    d.(buffer := Poked(d.buffer, PAYLOAD_AT + d.received, data), received := d.received + |data|)
  }

  /** The message has been handed over; both readers start again. */
  function Finished(d: Deframer): (r: Deframer)
    requires ValidDeframer(d)
    ensures ValidDeframer(r) && r.headerBytes == []
  {
    d.(headerBytes := [], buffer := Settled(d.order, d.buffer, HeaderIn(d.order, d.buffer)), received := 0)
  }

  function PayloadTurn(d: Deframer, inFlight: bytes, chunk: nat): (t: Turned)
    requires ValidDeframer(d) && |d.headerBytes| == HEADER_SIZE
    ensures t.keep ==> |t.inFlight| <= |inFlight| && t.deframer.headerBytes == []
    ensures ValidDeframer(t.deframer)
  {
    var k := Min(chunk, Min(d.payloadSize - d.received, |inFlight|));
    var d1 := Filled(d, inFlight[..k]);
    if d1.received == d1.payloadSize then
      Turned(Finished(d1), inFlight[k..], [Hand(HeaderIn(d1.order, d1.buffer), ReceivedPayload(d1))], true)
    else Turned(d1, inFlight[k..], [], false)
  }

  /** The message buffer is new or has been resized for a payload. */
  predicate ValidMessage(b: Storage) {
    && ValidStorage(b) && |Raw(b)| >= PAYLOAD_AT
    && (SizeOf(b) == IPC_HEADER_SIZE || SizeOf(b) >= PAYLOAD_AT)
  }

  predicate ValidDeframer(d: Deframer) {
    && |d.headerBytes| <= HEADER_SIZE && ValidMessage(d.buffer)
    && (|d.headerBytes| == HEADER_SIZE ==>
          d.received <= d.payloadSize && PAYLOAD_AT + d.payloadSize <= |Raw(d.buffer)|)
  }

  function Turn(d: Deframer, inFlight: bytes, chunk: nat): (t: Turned)
    requires ValidDeframer(d)
    ensures ValidDeframer(t.deframer)
    ensures t.keep ==> Fuel(t.deframer, t.inFlight) < Fuel(d, inFlight)
  {
    if |d.headerBytes| < HEADER_SIZE then HeaderTurn(d, inFlight, chunk) else PayloadTurn(d, inFlight, chunk)
  }

  function Fuel(d: Deframer, inFlight: bytes): (n: nat) {
    2 * |inFlight| + if |d.headerBytes| == HEADER_SIZE then 1 else 0
  }

  function ChunkAt(chunks: seq<nat>, i: nat): (n: nat) {
    if i < |chunks| then chunks[i] else 0
  }

  /** `processIncomingData` from turn `i`; after the given chunks the socket would block. */
  function Process(d: Deframer, inFlight: bytes, chunks: seq<nat>, i: nat, handed: seq<Handed>): (t: Turned)
    requires ValidDeframer(d)
    ensures ValidDeframer(t.deframer) && !t.keep
    decreases Fuel(d, inFlight)
  {
    var t := Turn(d, inFlight, ChunkAt(chunks, i));
    if t.keep then Process(t.deframer, t.inFlight, chunks, i + 1, handed + t.handed)
    else t.(handed := handed + t.handed)
  }

  function Partial(d: Deframer): (s: bytes)
    requires ValidDeframer(d)
  {
    d.headerBytes + ReceivedPayload(d)
  }

  // ---- The deframer follows the framer ----

  /** The largest payload that fits the static buffer together with both headers. */
  const STATIC_PAYLOAD: nat := STATIC_SIZE - PAYLOAD_AT

  /** The header that reaches the handler: lost for a first message that leaves the static buffer. */
  function KeptHeader(packets: seq<Packet>, i: nat): (h: Header)
    requires i < |packets|
  {
    if i == 0 && |packets[0].payload| > STATIC_PAYLOAD then ZERO_HEADER else packets[i].header
  }

  function Expected(packets: seq<Packet>, n: nat): (handed: seq<Handed>)
    requires n <= |packets|
    ensures |handed| == n
  {
    if n == 0 then []
    else Expected(packets, n - 1) + [Hand(KeptHeader(packets, n - 1), packets[n - 1].payload)]
  }

  /** The deframer is somewhere inside message `n`. */
  ghost predicate Following(d: Deframer, packets: seq<Packet>, n: nat) {
    && n <= |packets| && ValidDeframer(d)
    && (|d.headerBytes| == HEADER_SIZE ==>
          n < |packets| && d.payloadSize == |packets[n].payload| && HeaderIn(d.order, d.buffer) == KeptHeader(packets, n))
    && (if n == 0 && |d.headerBytes| < HEADER_SIZE then SizeOf(d.buffer) == IPC_HEADER_SIZE && d.buffer.vector.None?
        else SizeOf(d.buffer) >= PAYLOAD_AT)
  }

  /** The loop has stopped: a header or a payload is incomplete. */
  predicate Waiting(d: Deframer) {
    |d.headerBytes| < HEADER_SIZE || d.received < d.payloadSize
  }

  /** All bytes that have arrived, when `n` messages have been handed over. */
  function Arrived(d: Deframer, inFlight: bytes, packets: seq<Packet>, n: nat): (s: bytes)
    requires n <= |packets| && ValidDeframer(d)
  {
    PacketStream(packets[..n]) + (Partial(d) + inFlight)
  }

  lemma {:induction false} NextStarts(packets: seq<Packet>, n: nat, s: bytes)
    requires n <= |packets| && PacketStream(packets[..n]) + s <= PacketStream(packets)
    ensures s <= PacketStream(packets[n..])
    ensures s != [] ==> n < |packets|
    ensures n < |packets| ==> PacketStream(packets[n..]) == FramePacket(packets[n]) + PacketStream(packets[n..][1..])
  {
    PacketStreamSplit(packets, n);
    var head := PacketStream(packets[..n]);
    assert s == (head + s)[|head|..];
    assert PacketStream(packets[n..]) == PacketStream(packets)[|head|..];
  }

  lemma {:induction false} HeaderDecodes(headerBytes: bytes, p: Packet, rest: bytes)
    requires |headerBytes| == HEADER_SIZE && headerBytes <= FramePacket(p) + rest
    requires |p.payload| < 0x1_0000_0000 - 8
    ensures DecodeHeader(headerBytes) == (p.header, 8 + |p.payload|)
  {
    var s := EncodeHeader(p.header, 8 + |p.payload|);
    assert (FramePacket(p) + rest)[..HEADER_SIZE] == s;
    assert headerBytes == s + [];
    HeaderRoundTrip(p.header, 8 + |p.payload|, []);
  }

  /** Beginning the payload of message `n`: this is where a first header can get lost. */
  lemma {:induction false} BeginFollows(d: Deframer, packets: seq<Packet>, n: nat)
    requires ValidMessage(d.buffer) && |d.headerBytes| == HEADER_SIZE
    requires n < |packets| && DecodeHeader(d.headerBytes) == (packets[n].header, 8 + |packets[n].payload|)
    requires if n == 0 then SizeOf(d.buffer) == IPC_HEADER_SIZE && d.buffer.vector.None?
             else SizeOf(d.buffer) >= PAYLOAD_AT
    ensures Following(BeginPayload(d), packets, n) && ReceivedPayload(BeginPayload(d)) == []
  {
    HeaderAfterResize(d.order, d.buffer, packets[n].header, |packets[n].payload| + PAYLOAD_AT);
  }

  lemma {:induction false} HeadedFollows(d: Deframer, inFlight: bytes, k: nat, packets: seq<Packet>, n: nat)
    requires Framable(packets) && Following(d, packets, n) && |d.headerBytes| < HEADER_SIZE
    requires k <= |inFlight| && |d.headerBytes| + k <= HEADER_SIZE
    requires Arrived(d, inFlight, packets, n) <= PacketStream(packets)
    ensures Following(Headed(d, inFlight[..k]), packets, n)
    ensures Partial(Headed(d, inFlight[..k])) + inFlight[k..] == Partial(d) + inFlight
  {
    if |d.headerBytes| + k == HEADER_SIZE {
      HeaderCompletes(d, inFlight, k, packets, n);
    } else {
      HeaderGrows(d, inFlight, k, packets, n);
    }
  }

  lemma {:induction false} HeaderBytes(d: Deframer, inFlight: bytes, k: nat)
    requires ValidDeframer(d) && |d.headerBytes| < HEADER_SIZE && k <= |inFlight|
    ensures d.headerBytes + inFlight[..k] + inFlight[k..] == Partial(d) + inFlight
  {
    assert inFlight[..k] + inFlight[k..] == inFlight;
    assert Partial(d) == d.headerBytes;
  }

  lemma {:induction false} HeaderGrows(d: Deframer, inFlight: bytes, k: nat, packets: seq<Packet>, n: nat)
    requires Following(d, packets, n) && k <= |inFlight| && |d.headerBytes| + k < HEADER_SIZE
    ensures var d1 := d.(headerBytes := d.headerBytes + inFlight[..k]);
            Following(d1, packets, n) && Partial(d1) + inFlight[k..] == Partial(d) + inFlight
  {
    HeaderBytes(d, inFlight, k);
  }

  lemma {:induction false} HeaderCompletes(d: Deframer, inFlight: bytes, k: nat, packets: seq<Packet>, n: nat)
    requires Framable(packets) && Following(d, packets, n) && |d.headerBytes| < HEADER_SIZE
    requires k <= |inFlight| && |d.headerBytes| + k == HEADER_SIZE
    requires Arrived(d, inFlight, packets, n) <= PacketStream(packets)
    ensures var d1 := BeginPayload(d.(headerBytes := d.headerBytes + inFlight[..k]));
            Following(d1, packets, n) && Partial(d1) + inFlight[k..] == Partial(d) + inFlight
  {
    var d1 := d.(headerBytes := d.headerBytes + inFlight[..k]);
    HeaderBytes(d, inFlight, k);
    NextHeader(d1.headerBytes, Partial(d) + inFlight, packets, n);
    BeginFollows(d1, packets, n);
    assert Partial(BeginPayload(d1)) == d1.headerBytes;
  }

  lemma {:induction false} NextHeader(headerBytes: bytes, s: bytes, packets: seq<Packet>, n: nat)
    requires Framable(packets) && n <= |packets| && PacketStream(packets[..n]) + s <= PacketStream(packets)
    requires |headerBytes| == HEADER_SIZE && headerBytes <= s
    ensures n < |packets| && DecodeHeader(headerBytes) == (packets[n].header, 8 + |packets[n].payload|)
  {
    NextStarts(packets, n, s);
    HeaderDecodes(headerBytes, packets[n], PacketStream(packets[n..][1..]));
  }

  /** Receiving more payload leaves the header alone and extends what is there. */
  lemma {:induction false} PayloadGrows(d: Deframer, data: bytes)
    requires ValidDeframer(d) && |d.headerBytes| == HEADER_SIZE && d.received + |data| <= d.payloadSize
    ensures var d1 := Filled(d, data);
            && HeaderIn(d1.order, d1.buffer) == HeaderIn(d.order, d.buffer)
            && ReceivedPayload(d1) == ReceivedPayload(d) + data
  {
    var s := Raw(d.buffer);
    var r := Patch(s, PAYLOAD_AT + d.received, data);
    assert r[IPC_HEADER_SIZE..IPC_HEADER_SIZE + STORED_SIZE] == s[IPC_HEADER_SIZE..IPC_HEADER_SIZE + STORED_SIZE];
    PatchExtends(s, PAYLOAD_AT, d.received, data);
  }

  lemma {:induction false} FilledFollows(d: Deframer, data: bytes, packets: seq<Packet>, n: nat)
    requires Following(d, packets, n) && |d.headerBytes| == HEADER_SIZE && d.received + |data| <= d.payloadSize
    ensures Following(Filled(d, data), packets, n)
  {
    PayloadGrows(d, data);
  }

  lemma {:induction false} FinishedFollows(d: Deframer, packets: seq<Packet>, n: nat)
    requires Following(d, packets, n) && |d.headerBytes| == HEADER_SIZE
    ensures Following(Finished(d), packets, n + 1) && Partial(Finished(d)) == []
  {
  }

  lemma {:induction false} PatchExtends(s: bytes, from: nat, count: nat, data: bytes)
    requires from + count + |data| <= |s|
    ensures Patch(s, from + count, data)[from..from + count + |data|] == s[from..from + count] + data
  {
    var r := Patch(s, from + count, data);
    assert r[from..from + count] == s[from..from + count];
    assert r[from + count..from + count + |data|] == data;
    assert r[from..from + count + |data|] == r[from..from + count] + r[from + count..from + count + |data|];
  }

  lemma {:induction false} PayloadTurnIs(d: Deframer, inFlight: bytes, chunk: nat, k: nat)
    requires ValidDeframer(d) && |d.headerBytes| == HEADER_SIZE
    requires k == Min(chunk, Min(d.payloadSize - d.received, |inFlight|))
    ensures var d1 := Filled(d, inFlight[..k]);
            PayloadTurn(d, inFlight, chunk) ==
            if d1.received == d1.payloadSize then
              Turned(Finished(d1), inFlight[k..], [Hand(HeaderIn(d1.order, d1.buffer), ReceivedPayload(d1))], true)
            else Turned(d1, inFlight[k..], [], false)
  {
  }

  lemma {:induction false} PayloadTurnFollows(d: Deframer, inFlight: bytes, chunk: nat, packets: seq<Packet>, n: nat)
    requires Framable(packets) && Following(d, packets, n) && |d.headerBytes| == HEADER_SIZE
    requires Arrived(d, inFlight, packets, n) <= PacketStream(packets)
    ensures var t := PayloadTurn(d, inFlight, chunk);
            if t.keep then
              && Following(t.deframer, packets, n + 1)
              && t.handed == [Hand(KeptHeader(packets, n), packets[n].payload)]
              && Partial(t.deframer) == [] && FramePacket(packets[n]) + t.inFlight == Partial(d) + inFlight
            else
              && Following(t.deframer, packets, n) && t.handed == [] && Waiting(t.deframer)
              && Partial(t.deframer) + t.inFlight == Partial(d) + inFlight
  {
    var k := Min(chunk, Min(d.payloadSize - d.received, |inFlight|));
    var d1 := Filled(d, inFlight[..k]);
    assert Following(d1, packets, n) by { FilledFollows(d, inFlight[..k], packets, n); }
    assert Partial(d1) + inFlight[k..] == Partial(d) + inFlight by { FilledBytes(d, inFlight, k); }
    PayloadTurnIs(d, inFlight, chunk, k);
    if d1.received == d1.payloadSize {
      PayloadCompletes(d, inFlight, d1, inFlight[k..], packets, n);
    }
  }

  lemma {:induction false} PayloadCompletes(
    d: Deframer, inFlight: bytes, d1: Deframer, rest: bytes, packets: seq<Packet>, n: nat)
    requires Following(d, packets, n) && Following(d1, packets, n) && |d1.headerBytes| == HEADER_SIZE
    requires Partial(d1) + rest == Partial(d) + inFlight && d1.received == d1.payloadSize
    requires Arrived(d, inFlight, packets, n) <= PacketStream(packets)
    ensures Following(Finished(d1), packets, n + 1) && Partial(Finished(d1)) == []
    ensures Hand(HeaderIn(d1.order, d1.buffer), ReceivedPayload(d1)) == Hand(KeptHeader(packets, n), packets[n].payload)
    ensures FramePacket(packets[n]) + rest == Partial(d) + inFlight
  {
    WholePayload(d, inFlight, d1, rest, packets, n);
    FinishedFollows(d1, packets, n);
  }

  lemma {:induction false} FilledBytes(d: Deframer, inFlight: bytes, k: nat)
    requires ValidDeframer(d) && |d.headerBytes| == HEADER_SIZE && k <= |inFlight| && d.received + k <= d.payloadSize
    ensures Partial(Filled(d, inFlight[..k])) + inFlight[k..] == Partial(d) + inFlight
  {
    var a, b := inFlight[..k], inFlight[k..];
    PayloadGrows(d, a);
    assert a + b == inFlight;
    MovedOver(d.headerBytes, ReceivedPayload(d), a, b);
  }

  lemma {:induction false} MovedOver(header: bytes, payload: bytes, a: bytes, b: bytes)
    ensures header + (payload + a) + b == header + payload + (a + b)
  {
  }

  lemma {:induction false} WholePayload(
    d: Deframer, inFlight: bytes, d1: Deframer, rest: bytes, packets: seq<Packet>, n: nat)
    requires Following(d, packets, n) && Following(d1, packets, n) && |d1.headerBytes| == HEADER_SIZE
    requires Partial(d1) + rest == Partial(d) + inFlight && d1.received == d1.payloadSize
    requires Arrived(d, inFlight, packets, n) <= PacketStream(packets)
    ensures ReceivedPayload(d1) == packets[n].payload && Partial(d1) == FramePacket(packets[n])
  {
    NextStarts(packets, n, Partial(d) + inFlight);
    assert |Partial(d1)| == |FramePacket(packets[n])|;
    SamePrefix(Partial(d1), FramePacket(packets[n]), PacketStream(packets[n..]));
    assert ReceivedPayload(d1) == Partial(d1)[HEADER_SIZE..] == FramePacket(packets[n])[HEADER_SIZE..];
  }

  lemma {:induction false} SamePrefix(a: bytes, b: bytes, s: bytes)
    requires a <= s && b <= s && |a| == |b|
    ensures a == b
  {
  }

  /** Handing over a message moves its frame from the partial bytes to the stream behind. */
  lemma {:induction false} ArrivedNext(d: Deframer, inFlight: bytes, packets: seq<Packet>, n: nat)
    requires n < |packets| && ValidDeframer(d) && Partial(d) == []
    ensures Arrived(d, inFlight, packets, n + 1) == PacketStream(packets[..n]) + (FramePacket(packets[n]) + inFlight)
  {
    PacketStreamNext(packets, n);
    Assoc(PacketStream(packets[..n]), FramePacket(packets[n]), inFlight);
    assert Partial(d) + inFlight == inFlight;
  }

  lemma {:induction false} HeaderTurnFollows(d: Deframer, inFlight: bytes, chunk: nat, packets: seq<Packet>, n: nat)
    requires Framable(packets) && Following(d, packets, n) && |d.headerBytes| < HEADER_SIZE
    requires Arrived(d, inFlight, packets, n) <= PacketStream(packets)
    ensures var t := HeaderTurn(d, inFlight, chunk);
            && Following(t.deframer, packets, n) && t.handed == [] && (t.keep || Waiting(t.deframer))
            && Partial(t.deframer) + t.inFlight == Partial(d) + inFlight
  {
    var k := Min(chunk, Min(HEADER_SIZE - |d.headerBytes|, |inFlight|));
    var t := HeaderTurn(d, inFlight, chunk);
    assert t.deframer == Headed(d, inFlight[..k]) && t.inFlight == inFlight[k..];
    HeadedFollows(d, inFlight, k, packets, n);
  }

  /** One turn, of either kind: `m` packets have been handed over after it. */
  lemma {:induction false} TurnFollows(d: Deframer, inFlight: bytes, chunk: nat, packets: seq<Packet>, n: nat)
    returns (m: nat)
    requires Framable(packets) && Following(d, packets, n)
    requires Arrived(d, inFlight, packets, n) <= PacketStream(packets)
    ensures var t := Turn(d, inFlight, chunk);
            && Following(t.deframer, packets, m) && (t.keep || Waiting(t.deframer))
            && Expected(packets, n) + t.handed == Expected(packets, m)
            && Arrived(t.deframer, t.inFlight, packets, m) == Arrived(d, inFlight, packets, n)
  {
    m := n;
    assert Expected(packets, n) + [] == Expected(packets, n);
    if |d.headerBytes| < HEADER_SIZE {
      HeaderTurnFollows(d, inFlight, chunk, packets, n);
    } else {
      PayloadTurnFollows(d, inFlight, chunk, packets, n);
      var t := PayloadTurn(d, inFlight, chunk);
      if t.keep {
        ArrivedNext(t.deframer, t.inFlight, packets, n);
        m := n + 1;
      }
    }
  }

  lemma {:induction false} ProcessFollows(
    d: Deframer, inFlight: bytes, chunks: seq<nat>, i: nat, packets: seq<Packet>, n: nat) returns (m: nat)
    requires Framable(packets) && Following(d, packets, n)
    requires Arrived(d, inFlight, packets, n) <= PacketStream(packets)
    ensures var t := Process(d, inFlight, chunks, i, Expected(packets, n));
            && Following(t.deframer, packets, m) && Waiting(t.deframer)
            && t.handed == Expected(packets, m)
            && Arrived(t.deframer, t.inFlight, packets, m) == Arrived(d, inFlight, packets, n)
    decreases Fuel(d, inFlight)
  {
    var t := Turn(d, inFlight, ChunkAt(chunks, i));
    m := TurnFollows(d, inFlight, ChunkAt(chunks, i), packets, n);
    if t.keep {
      m := ProcessFollows(t.deframer, t.inFlight, chunks, i + 1, packets, m);
    }
  }

  // ---- Runs ----

  /** A readiness event: bytes that have arrived since the last one, and the `recv` results. */
  datatype Event = Event(arrived: bytes, chunks: seq<nat>)

  datatype Connection = Connection(deframer: Deframer, inFlight: bytes, handed: seq<Handed>)

  predicate NewConnection(c: Connection) {
    NewDeframer(c.deframer) && c.inFlight == [] && c.handed == []
  }

  function Receive(c: Connection, e: Event): (c': Connection)
    requires ValidDeframer(c.deframer)
    ensures ValidDeframer(c'.deframer)
  {
    var t := Process(c.deframer, c.inFlight + e.arrived, e.chunks, 0, c.handed);
    Connection(t.deframer, t.inFlight, t.handed)
  }

  function ReceiveAll(c: Connection, events: seq<Event>): (c': Connection)
    requires ValidDeframer(c.deframer)
    ensures ValidDeframer(c'.deframer)
  {
    if events == [] then c else Receive(ReceiveAll(c, events[..|events| - 1]), events[|events| - 1])
  }

  function AllArrived(events: seq<Event>): (s: bytes) {
    if events == [] then [] else AllArrived(events[..|events| - 1]) + events[|events| - 1].arrived
  }

  lemma {:induction false} RunFollows(start: Connection, packets: seq<Packet>, events: seq<Event>) returns (n: nat)
    requires NewConnection(start)
    requires Framable(packets) && AllArrived(events) <= PacketStream(packets)
    ensures var c := ReceiveAll(start, events);
            && Following(c.deframer, packets, n) && Waiting(c.deframer) && c.handed == Expected(packets, n)
            && Arrived(c.deframer, c.inFlight, packets, n) == AllArrived(events)
  {
    if events == [] {
      n := 0;
      assert packets[..0] == [];
    } else {
      var before, e := events[..|events| - 1], events[|events| - 1];
      var c := ReceiveAll(start, before);
      var k := RunFollows(start, packets, before);
      var head, partial := PacketStream(packets[..k]), Partial(c.deframer);
      Assoc4(head, partial, c.inFlight, e.arrived);
      Assoc(partial, c.inFlight, e.arrived);
      Assoc(head, partial, c.inFlight);
      n := ProcessFollows(c.deframer, c.inFlight + e.arrived, e.chunks, 0, packets, k);
    }
  }

  /**
   However the stream of framed messages is cut into arrivals and `recv` results, the
   messages handed over are the first ones sent, in order, and all of them once every byte
   has arrived and been received. The one departure is the header of a first message whose
   payload leaves the static buffer: it arrives as zeros.
   */
  lemma {:induction false} DeframerInvertsFramer(start: Connection, packets: seq<Packet>, events: seq<Event>)
    requires NewConnection(start)
    requires Framable(packets) && AllArrived(events) <= PacketStream(packets)
    ensures var c := ReceiveAll(start, events);
            && |c.handed| <= |packets| && c.handed == Expected(packets, |c.handed|)
            && (AllArrived(events) == PacketStream(packets) && c.inFlight == [] ==> |c.handed| == |packets|)
  {
    var n := RunFollows(start, packets, events);
    var c := ReceiveAll(start, events);
    if n < |packets| {
      StillOwed(packets, n);
      assert |AllArrived(events)| == |PacketStream(packets[..n])| + |Partial(c.deframer)| + |c.inFlight|;
      assert |Partial(c.deframer)| < HEADER_SIZE + |packets[n].payload|;
    }
  }

  lemma {:induction false} StillOwed(packets: seq<Packet>, n: nat)
    requires n < |packets|
    ensures |PacketStream(packets)| >= |PacketStream(packets[..n])| + HEADER_SIZE + |packets[n].payload|
  {
    PacketStreamSplit(packets, n);
  }

  /** What the handler should see of a message. */
  function Sent(packets: seq<Packet>): (handed: seq<Handed>)
    ensures |handed| == |packets|
  {
    if packets == [] then []
    else Sent(packets[..|packets| - 1]) +
         [Hand(packets[|packets| - 1].header, packets[|packets| - 1].payload)]
  }

  lemma {:induction false} ExpectedIsSent(packets: seq<Packet>, n: nat)
    requires n <= |packets|
    requires |packets| > 0 ==> KeptHeader(packets, 0) == packets[0].header
    ensures Expected(packets, n) == Sent(packets[..n])
  {
    if n > 0 {
      ExpectedIsSent(packets, n - 1);
      assert packets[..n][..n - 1] == packets[..n - 1];
    }
  }

  /**
   The deframer hands over exactly what was sent if and only if the first payload fits the
   static buffer with its headers, or the first header is the one a lost header turns into.
   */
  lemma {:induction false} DeliveredIntactIff(start: Connection, packets: seq<Packet>, events: seq<Event>)
    requires NewConnection(start)
    requires Framable(packets) && AllArrived(events) == PacketStream(packets)
    requires ReceiveAll(start, events).inFlight == []
    ensures ReceiveAll(start, events).handed == Sent(packets) <==>
            packets == [] || |packets[0].payload| <= STATIC_PAYLOAD || packets[0].header == ZERO_HEADER
  {
    DeframerInvertsFramer(start, packets, events);
    assert packets[..|packets|] == packets;
    if packets != [] {
      ExpectedAt(packets, |packets|, 0);
      if KeptHeader(packets, 0) == packets[0].header {
        ExpectedIsSent(packets, |packets|);
      } else {
        SentAt(packets, 0);
        HandInjective(ZERO_HEADER, packets[0].header, packets[0].payload);
      }
    }
  }

  lemma {:induction false} ExpectedAt(packets: seq<Packet>, n: nat, i: nat)
    requires i < n <= |packets|
    ensures Expected(packets, n)[i] == Hand(KeptHeader(packets, i), packets[i].payload)
  {
    if i < n - 1 {
      ExpectedAt(packets, n - 1, i);
    }
  }

  lemma {:induction false} SentAt(packets: seq<Packet>, i: nat)
    requires i < |packets|
    ensures Sent(packets)[i] == Hand(packets[i].header, packets[i].payload)
  {
    if i < |packets| - 1 {
      SentAt(packets[..|packets| - 1], i);
    }
  }

  // ---- The input that fails ----

  lemma {:induction false} OnePacket(p: Packet)
    ensures PacketStream([p]) == FramePacket(p)
    ensures AllArrived([Event(FramePacket(p), [HEADER_SIZE, |p.payload|])]) == FramePacket(p)
  {
    var e := Event(FramePacket(p), [HEADER_SIZE, |p.payload|]);
    assert [p][1..] == [] && [e][..0] == [];
    assert PacketStream([]) == [] && AllArrived([]) == [];
  }

  /** A packet that arrives whole is received in two reads. */
  lemma {:induction false} ReadWhole(d: Deframer, p: Packet)
    requires NewDeframer(d) && |p.payload| < 0x1_0000_0000 - 8
    ensures Process(d, FramePacket(p), [HEADER_SIZE, |p.payload|], 0, []).inFlight == []
  {
    var s, chunks := FramePacket(p), [HEADER_SIZE, |p.payload|];
    var t := HeaderTurn(d, s, HEADER_SIZE);
    var d1 := d.(headerBytes := s[..HEADER_SIZE]);
    assert DecodeHeader(s[..HEADER_SIZE]) == (p.header, 8 + |p.payload|) by {
      assert s == s + [];
      HeaderDecodes(s[..HEADER_SIZE], p, []);
    }
    assert d.headerBytes + s[..HEADER_SIZE] == s[..HEADER_SIZE];
    assert t.deframer == BeginPayload(d1) && t.keep && t.inFlight == s[HEADER_SIZE..] == p.payload;
    assert t.deframer.payloadSize == |p.payload| && t.deframer.received == 0;
    var u := PayloadTurn(t.deframer, t.inFlight, |p.payload|);
    assert u.keep && u.inFlight == [];
    assert Process(d, s, chunks, 0, []) == Process(t.deframer, t.inFlight, chunks, 1, []) by { assert [] + t.handed == []; }
    assert Process(t.deframer, t.inFlight, chunks, 1, []) == Process(u.deframer, [], chunks, 2, [] + u.handed);
  }

  lemma {:induction false} AllReceived(start: Connection, p: Packet)
    requires NewConnection(start) && |p.payload| < 0x1_0000_0000 - 8
    ensures ReceiveAll(start, [Event(FramePacket(p), [HEADER_SIZE, |p.payload|])]).inFlight == []
  {
    var e := Event(FramePacket(p), [HEADER_SIZE, |p.payload|]);
    assert ReceiveAll(start, [e]) == Receive(start, e) by { assert [e][..0] == []; }
    assert start.inFlight + e.arrived == e.arrived;
    ReadWhole(start.deframer, p);
  }

  /** Any first message that is too large is handed over without its header. */
  lemma {:induction false} HeaderLost(start: Connection, p: Packet)
    requires NewConnection(start) && STATIC_PAYLOAD < |p.payload| < 0x1_0000_0000 - 8 && p.header != ZERO_HEADER
    ensures var c := ReceiveAll(start, [Event(FramePacket(p), [HEADER_SIZE, |p.payload|])]);
            c.inFlight == [] && c.handed == [Hand(ZERO_HEADER, p.payload)] && c.handed != Sent([p])
  {
    var e := Event(FramePacket(p), [HEADER_SIZE, |p.payload|]);
    assert ReceiveAll(start, [e]).inFlight == [] by { AllReceived(start, p); }
    OnePacket(p);
    DeframerInvertsFramer(start, [p], [e]);
    ExpectedAt([p], 1, 0);
    SentAt([p], 0);
    HandInjective(ZERO_HEADER, p.header, p.payload);
  }

  /** One byte too much, for instance. */
  lemma {:induction false} LargeFirstMessageFails(start: Connection)
    requires NewConnection(start)
    ensures var p := Packet(Header(0x1000_0002, 3, 1, 0, REQUEST, 0), Zeros(1005));
            var c := ReceiveAll(start, [Event(FramePacket(p), [HEADER_SIZE, |p.payload|])]);
            c.inFlight == [] && c.handed != Sent([p])
  {
    HeaderLost(start, Packet(Header(0x1000_0002, 3, 1, 0, REQUEST, 0), Zeros(1005)));
  }

  /** Nothing of a header is lost when it is handed over. */
  lemma {:induction false} HandInjective(h: Header, k: Header, payload: bytes)
    ensures Hand(h, payload) == Hand(k, payload) <==> h == k
  {
    assert h.requestID == ExtractClientIdentifier(h) * 0x1_0000 + h.requestID % 0x1_0000;
    assert k.requestID == ExtractClientIdentifier(k) * 0x1_0000 + k.requestID % 0x1_0000;
    assert TagClientIdentifier(h, 0).(requestID := h.requestID) == h;
    assert TagClientIdentifier(k, 0).(requestID := k.requestID) == k;
  }
}
