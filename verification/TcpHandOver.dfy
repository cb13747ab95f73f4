/**
 What the receive loop of a TCP client (lib/TCPClient.cpp) hands over, told from the packets
 alone, and that it hands over everything that has arrived.
 */
module TcpHandOver {
  import opened Bytes
  import opened ByteArrays
  import opened SomeIp
  import opened TcpFraming

  /**
   The item for a packet with this header and payload. Service discovery goes to the decoder as it
   is. Of a reply (0x80, 0x81) the upper half of the request ID is given beside the header and
   cleared in it. Anything else is handed over as it came, without an identifier.
   */
  predicate IsItemFor(x: Handed, h: Header, payload: bytes) {
    && x.payload == payload
    && (x.Discovery? <==> h.messageID == 0xFFFF_8100)
    && (x.Discovery? ==> x.header == h)
    && (x.Message? && (h.messageType == 0x80 || h.messageType == 0x81) ==>
          x.client == Some(h.requestID / 0x1_0000) && x.header == h.(requestID := h.requestID % 0x1_0000))
    && (x.Message? && h.messageType != 0x80 && h.messageType != 0x81 ==> x.client == None && x.header == h)
  }

  /**
   However the bytes are cut, the i-th item handed over is the one for the i-th packet; only if
   the first payload is above 1004 bytes, the first item has a header of zeros.
   */
  lemma {:induction false} HandedExactly(start: Connection, packets: seq<Packet>, events: seq<Event>, i: nat)
    requires NewConnection(start) && Framable(packets) && AllArrived(events) <= PacketStream(packets)
    requires i < |ReceiveAll(start, events).handed|
    ensures |ReceiveAll(start, events).handed| <= |packets|
    ensures var h := if i == 0 && |packets[0].payload| > 1004 then Header(0, 0, 0, 0, 0, 0) else packets[i].header;
            IsItemFor(ReceiveAll(start, events).handed[i], h, packets[i].payload)
  {
    DeframerInvertsFramer(start, packets, events);
    ExpectedAt(packets, |ReceiveAll(start, events).handed|, i);
  }

  /** The identifier field of the message buffer. */
  function ClientField(order: ByteOrder, b: Storage): (v: nat)
    requires |Raw(b)| >= PAYLOAD_AT
  {
    MemoryValue(order, Raw(b)[16..18])
  }

  /**
   What has been handed over is what the message buffer holds afterwards, header and, for a
   reply, identifier; unless it was a reply the buffer is untouched.
   */
  lemma {:induction false} BufferHoldsItem(d: Deframer, x: Handed)
    requires ValidDeframer(d) && |d.headerBytes| == HEADER_SIZE
    requires IsItemFor(x, HeaderIn(d.order, d.buffer), ReceivedPayload(d))
    ensures var r := Finished(d);
            && HeaderIn(r.order, r.buffer) == x.header
            && (x.Message? && x.client.Some? ==> ClientField(r.order, r.buffer) == x.client.value)
            && (x.Discovery? || x.client.None? ==> r.buffer == d.buffer)
  {
    var h, r := HeaderIn(d.order, d.buffer), Finished(d);
    if x.Message? && x.client.Some? {
      var w := WithHeader(d.order, d.buffer, x.header);
      var id := MemoryBytes(d.order, x.client.value, 2);
      assert x.header == TagClientIdentifier(h, 0) && r.buffer == Poked(w, 16, id);
      assert Raw(r.buffer)[4..16] == Raw(w)[4..16] == StoreHeader(d.order, x.header);
      StoredHeader(d.order, x.header);
      Pow256Values();
      MemoryRoundTripExact(d.order, x.client.value, 2, 0x1_0000);
    }
  }

  /** The payload size is computed modulo 2^64, so a length below eight makes it huge. */
  lemma {:induction false} PayloadSizeWraps(length: u32)
    ensures PayloadSize(length) < 0x1_0000_0000_0000_0000
    ensures (PayloadSize(length) + 8) % 0x1_0000_0000_0000_0000 == length
  {
  }

  // ---- Nothing that has arrived is left lying ----

  /** Every `recv` from the i-th on, for the given number of calls, returns all it can. */
  predicate Generous(chunks: seq<nat>, i: nat, calls: nat, size: nat) {
    forall j | i <= j < i + calls :: ChunkAt(chunks, j) >= size
  }

  /** How many turns of the loop the rest of the packets take. */
  function TurnsLeft(d: Deframer, packets: seq<Packet>, n: nat): (k: int) {
    2 * (|packets| - n) - if |d.headerBytes| == HEADER_SIZE then 1 else 0
  }

  /** With whole packets waiting, a generous turn completes what it is at. */
  lemma {:induction false} TurnGoesOn(d: Deframer, inFlight: bytes, chunk: nat, packets: seq<Packet>, n: nat)
    requires Framable(packets) && Following(d, packets, n) && n < |packets| && chunk >= |inFlight|
    requires Partial(d) + inFlight == PacketStream(packets[n..])
    ensures Turn(d, inFlight, chunk).keep
    ensures |d.headerBytes| < HEADER_SIZE ==> |Turn(d, inFlight, chunk).deframer.headerBytes| == HEADER_SIZE
    ensures |d.headerBytes| == HEADER_SIZE ==> Turn(d, inFlight, chunk).deframer.headerBytes == []
  {
    assert packets[n..][0] == packets[n];
    assert |Partial(d) + inFlight| >= HEADER_SIZE + |packets[n].payload|;
  }

  lemma {:induction false} SamePrefixSameRest(a: bytes, s: bytes, t: bytes)
    requires a + s == a + t
    ensures s == t
  {
    assert (a + s)[|a|..] == s && (a + t)[|a|..] == t;
  }

  /** The rest of the stream after `m` packets, when everything that has arrived is the whole stream. */
  lemma {:induction false} RestOfStream(d: Deframer, inFlight: bytes, packets: seq<Packet>, m: nat)
    requires m <= |packets| && ValidDeframer(d) && Arrived(d, inFlight, packets, m) == PacketStream(packets)
    ensures Partial(d) + inFlight == PacketStream(packets[m..])
  {
    PacketStreamSplit(packets, m);
    SamePrefixSameRest(PacketStream(packets[..m]), Partial(d) + inFlight, PacketStream(packets[m..]));
  }

  lemma {:induction false} ProcessDrains(
    d: Deframer, inFlight: bytes, chunks: seq<nat>, i: nat, packets: seq<Packet>, n: nat, handed: seq<Handed>)
    requires Framable(packets) && Following(d, packets, n) && Arrived(d, inFlight, packets, n) == PacketStream(packets)
    requires TurnsLeft(d, packets, n) >= 0 && Generous(chunks, i, TurnsLeft(d, packets, n), |inFlight|)
    ensures Process(d, inFlight, chunks, i, handed).inFlight == []
    decreases Fuel(d, inFlight)
  {
    RestOfStream(d, inFlight, packets, n);
    var chunk := ChunkAt(chunks, i);
    if n == |packets| {
      assert packets[n..] == [] && Partial(d) + inFlight == [];
    } else {
      TurnGoesOn(d, inFlight, chunk, packets, n);
      var t := Turn(d, inFlight, chunk);
      var m := if |d.headerBytes| < HEADER_SIZE then n else n + 1;
      TurnArrived(d, inFlight, chunk, packets, n, m);
      ProcessDrains(t.deframer, t.inFlight, chunks, i + 1, packets, m, handed + t.handed);
    }
  }

  lemma {:induction false} TurnArrived(
    d: Deframer, inFlight: bytes, chunk: nat, packets: seq<Packet>, n: nat, m: nat)
    requires Framable(packets) && Following(d, packets, n) && Arrived(d, inFlight, packets, n) == PacketStream(packets)
    requires Turn(d, inFlight, chunk).keep && m == if |d.headerBytes| < HEADER_SIZE then n else n + 1
    ensures var t := Turn(d, inFlight, chunk);
            && Following(t.deframer, packets, m) && |t.inFlight| <= |inFlight|
            && Arrived(t.deframer, t.inFlight, packets, m) == PacketStream(packets)
  {
    if |d.headerBytes| < HEADER_SIZE {
      HeaderTurnFollows(d, inFlight, chunk, packets, n);
    } else {
      PayloadTurnFollows(d, inFlight, chunk, packets, n);
      var t := PayloadTurn(d, inFlight, chunk);
      ArrivedNext(t.deframer, t.inFlight, packets, n);
    }
  }

  /**
   Whatever has happened on the connection: once all bytes of the packets have arrived and the
   `recv` calls return what is there, everything is received and all packets have been handed
   over, in this very call.
   */
  lemma {:induction false} EverythingHanded(start: Connection, packets: seq<Packet>, before: seq<Event>, e: Event)
    requires NewConnection(start) && Framable(packets) && AllArrived(before) + e.arrived == PacketStream(packets)
    requires Generous(e.chunks, 0, 2 * |packets|, |PacketStream(packets)|)
    ensures var c := ReceiveAll(start, before + [e]);
            c.inFlight == [] && |c.handed| == |packets|
  {
    var events := before + [e];
    assert events[..|events| - 1] == before && AllArrived(events) == PacketStream(packets);
    var n := RunFollows(start, packets, before);
    var c := ReceiveAll(start, before);
    var inFlight := c.inFlight + e.arrived;
    assert Arrived(c.deframer, inFlight, packets, n) == AllArrived(before) + e.arrived by {
      MoreArrived(c.deframer, c.inFlight, e.arrived, packets, n);
    }
    assert |inFlight| <= |PacketStream(packets)|;
    ProcessDrains(c.deframer, inFlight, e.chunks, 0, packets, n, c.handed);
    DeframerInvertsFramer(start, packets, events);
  }

  lemma {:induction false} MoreArrived(d: Deframer, inFlight: bytes, more: bytes, packets: seq<Packet>, n: nat)
    requires n <= |packets| && ValidDeframer(d)
    ensures Arrived(d, inFlight + more, packets, n) == Arrived(d, inFlight, packets, n) + more
  {
    var a, b := PacketStream(packets[..n]), Partial(d);
    assert a + (b + (inFlight + more)) == a + (b + inFlight) + more;
  }
}
