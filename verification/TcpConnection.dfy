/**
 A TCP connection as an object (lib/TCPClient.cpp): the framer with its back-patched length
 and the receive loop, each proved to do what `TcpFraming` says.
 */
module TcpConnection {
  import opened Bytes
  import opened ByteArrays
  import opened Wire
  import opened SomeIp
  import opened TcpFraming
  import opened IpcConnection
  import IpcStream

  lemma {:induction false} FrameFromBody(h: Header, payload: bytes, body: bytes)
    requires body == EncodeFields(HEADER_TAIL, TailValues(h)) + payload
    ensures |EncodeFields([4], [h.messageID])| == 4
    ensures EncodeFields([4], [h.messageID]) + NetworkBytes(|body|, 4) + body == FramePacket(Packet(h, payload))
  {
    var id, length := EncodeFields([4], [h.messageID]), NetworkBytes(8 + |payload|, 4);
    var tail := EncodeFields(HEADER_TAIL, TailValues(h));
    HeaderParts(h, 8 + |payload|);
    assert |body| == 8 + |payload|;
    Assoc(id + length, tail, payload);
  }

  /** Everything the length counts. */
  method SerializeBody(serializer: NetworkSerializer, h: Header, payload: bytes, ghost before: bytes)
    requires serializer.payload.Valid() && serializer.payload.Contents() == before
    modifies serializer.payload, serializer.payload.staticData
    ensures serializer.payload.Valid()
    ensures serializer.payload.Contents() == before + (EncodeFields(HEADER_TAIL, TailValues(h)) + payload)
  {
    serializer.Write(HEADER_TAIL, TailValues(h));
    serializer.WriteRawData(payload);
    Assoc(before, EncodeFields(HEADER_TAIL, TailValues(h)), payload);
  }

  /** The length is written last, into the space kept for it. */
  method SerializeCounted(serializer: NetworkSerializer, h: Header, payload: bytes, ghost before: bytes)
    requires serializer.payload.Valid() && serializer.payload.Contents() == before
    modifies serializer.payload, serializer.payload.staticData
    ensures serializer.payload.Valid()
    ensures var body := EncodeFields(HEADER_TAIL, TailValues(h)) + payload;
            serializer.payload.Contents() == before + NetworkBytes(|body|, 4) + body
  {
    var basePosition, hole := serializer.OpenLength(4);
    SerializeBody(serializer, h, payload, before + hole);
    serializer.CloseLength(4, basePosition, 0, before, hole, EncodeFields(HEADER_TAIL, TailValues(h)) + payload);
  }

  /** Serializes a message. */
  method Serialize(h: Header, payload: bytes) returns (s: bytes)
    ensures s == FramePacket(Packet(h, payload))
  {
    var headerBytes := new ByteArray();
    var serializer := new NetworkSerializer(headerBytes);
    serializer.Write([4], [h.messageID]);
    SerializeCounted(serializer, h, payload, EncodeFields([4], [h.messageID]));
    FrameFromBody(h, payload, EncodeFields(HEADER_TAIL, TailValues(h)) + payload);
    s := headerBytes.GetData();
  }

  class TcpClient {
    const writer: StreamWriter
    const socket: Socket
    const order: ByteOrder
    const headerBytes: array<byte>
    var headerCount: nat
    /** The buffer of the message being received, kept for the life of the connection. */
    const message: ByteArray
    /** The payload reader: how many bytes it wants and how many it has. */
    var payloadSize: nat
    var received: nat

    ghost predicate Valid()
      reads this, headerBytes, message, message.staticData
    {
      && headerBytes.Length == HEADER_SIZE && headerCount <= HEADER_SIZE && headerBytes != message.staticData
      && message.Valid() && ValidDeframer(Model())
    }

    ghost function Model(): (d: Deframer)
      requires headerBytes.Length == HEADER_SIZE && headerCount <= HEADER_SIZE && message.Valid()
      reads this, headerBytes, message, message.staticData
    {
      Deframer(order, headerBytes[..headerCount], message.Store(), payloadSize, received)
    }

    constructor (order: ByteOrder, writer: StreamWriter, socket: Socket)
      ensures Valid() && NewDeframer(Model()) && fresh(headerBytes) && fresh(message) && fresh(message.staticData)
      ensures this.writer == writer && this.socket == socket && this.order == order
    {
      this.writer := writer;
      this.socket := socket;
      this.order := order;
      headerBytes := new byte[HEADER_SIZE](_ => 0);
      headerCount := 0;
      message := new ByteArray();
      payloadSize := 0;
      received := 0;
      new;
      message.Resize(IPC_HEADER_SIZE);
    }

    /** The frame goes to the socket, what does not fit behind whatever is already pending. */
    method SendMessage(h: Header, data: bytes, outcome: IpcStream.SendOutcome) returns (report: IpcStream.Report)
      requires writer.Valid() && writer.connected
      modifies writer, writer.socket, writer.dataToBeSent, writer.dataToBeSent.staticData
      ensures writer.Valid()
      ensures IpcStream.Sent(writer.Model(), writer.socket.inFlight, report) ==
              var s := IpcStream.WriteBytes(old(writer.Model()), FramePacket(Packet(h, data)), outcome);
              s.(data := old(writer.socket.inFlight) + s.data)
    {
      var frame := Serialize(h, data);
      report := writer.WriteBytesNonBlocking(frame, outcome);
    }

    /** Assigns the header fields in place, as through `getHeaderPrivate`. */
    method StoreFields(h: Header)
      requires message.Valid() && |Raw(message.Store())| >= PAYLOAD_AT
      modifies message, message.staticData
      ensures message.Valid() && message.Store() == WithHeader(order, old(message.Store()), h)
    {
      message.Poke(IPC_HEADER_SIZE, StoreHeader(order, h));
    }

    method LoadFields() returns (h: Header)
      requires message.Valid() && |Raw(message.Store())| >= PAYLOAD_AT
      ensures h == HeaderIn(order, message.Store())
    {
      var s := message.Peek(IPC_HEADER_SIZE, STORED_SIZE);
      h := LoadHeader(order, s);
    }

    /**
     `setPayloadSize`, when the header has been stored: afterwards the header is still there
     unless the buffer had to leave its static storage with a length that did not cover it.
     */
    method SetPayloadSize(size: nat, ghost before: Storage, ghost h: Header)
      requires message.Valid() && ValidMessage(before)
      requires message.Store() == WithHeader(order, before, h)
      modifies message, this`payloadSize, this`received
      ensures message.Valid() && message.Store() == Resized(old(message.Store()), size + PAYLOAD_AT)
      ensures payloadSize == size && received == 0 && |message.Contents()| == size + PAYLOAD_AT
      ensures |Raw(message.Store())| >= PAYLOAD_AT
      ensures HeaderIn(order, message.Store()) ==
              if before.vector.None? && before.length == IPC_HEADER_SIZE && size > STATIC_PAYLOAD
              then ZERO_HEADER else h
    {
      HeaderAfterResize(order, before, h, size + PAYLOAD_AT);
      message.Resize(size + PAYLOAD_AT);
      payloadSize := size;
      received := 0;
    }

    /** `recv` into the free part of the header bytes. */
    method FillHeader(n: nat)
      requires Valid() && headerCount + n <= HEADER_SIZE && n <= |socket.inFlight|
      requires headerCount < HEADER_SIZE
      modifies this`headerCount, headerBytes, socket
      ensures headerCount == old(headerCount) + n && socket.inFlight == old(socket.inFlight)[n..]
      ensures Model() == old(Model()).(headerBytes := old(Model()).headerBytes + old(socket.inFlight)[..n])
    {
      var data := socket.inFlight;
      forall i | 0 <= i < n {
        headerBytes[headerCount + i] := data[i];
      }
      socket.inFlight := data[n..];
      headerCount := headerCount + n;
      assert headerBytes[..headerCount] == old(headerBytes[..headerCount]) + data[..n];
    }

    method StoreAndSize(h: Header, size: nat, ghost before: Storage)
      requires message.Valid() && message.Store() == before && ValidMessage(before)
      modifies message, message.staticData, this`payloadSize, this`received
      ensures message.Valid() && message.Store() == Resized(WithHeader(order, before, h), size + PAYLOAD_AT)
      ensures payloadSize == size && received == 0
    {
      StoreFields(h);
      SetPayloadSize(size, before, h);
    }

    /** The header is complete: it is parsed, stored and the buffer is resized. */
    method BeginMessage(ghost d: Deframer)
      requires headerBytes.Length == HEADER_SIZE == headerCount && headerBytes != message.staticData
      requires message.Valid() && Model() == d && ValidMessage(d.buffer)
      modifies this`payloadSize, this`received, message, message.staticData
      ensures Valid() && Model() == BeginPayload(d)
    {
      ghost var target := BeginPayload(d);
      assert headerBytes[..] == headerBytes[..headerCount] == d.headerBytes;
      var parsed := DecodeHeader(headerBytes[..]);
      var size := PayloadSize(parsed.1);
      BeginPayloadIs(d);
      StoreAndSize(parsed.0, size, d.buffer);
      assert Model() == target;
    }

    method ReceiveHeader(chunk: nat) returns (keep: bool)
      requires Valid() && headerCount < HEADER_SIZE
      modifies this, headerBytes, socket, message, message.staticData
      ensures Valid()
      ensures Turned(Model(), socket.inFlight, [], keep) == HeaderTurn(old(Model()), old(socket.inFlight), chunk)
    {
      FillHeader(Min(chunk, Min(HEADER_SIZE - headerCount, |socket.inFlight|)));
      keep := headerCount == HEADER_SIZE;
      if keep {
        BeginMessage(Model());
      }
    }

    /** A complete message is handed over; a reply first gives up its client identifier, in place. */
    method HandOver() returns (m: Handed)
      requires message.Valid() && PAYLOAD_AT + payloadSize <= |Raw(message.Store())|
      modifies message, message.staticData
      ensures var b := old(message.Store());
              var h := HeaderIn(order, b);
              && message.Valid() && message.Store() == Settled(order, b, h)
              && m == Hand(h, Raw(b)[PAYLOAD_AT..PAYLOAD_AT + payloadSize])
    {
      var h := LoadFields();
      var payload := message.Peek(PAYLOAD_AT, payloadSize);
      if h.messageID == SERVICE_DISCOVERY {
        m := Discovery(h, payload);
      } else if IsReply(h) {
        var client := ExtractClientIdentifier(h);
        StoreFields(TagClientIdentifier(h, 0));
        message.Poke(IPC_HEADER_SIZE + STORED_SIZE, MemoryBytes(order, client, 2));
        m := Message(TagClientIdentifier(h, 0), Some(client), payload);
      } else {
        m := Message(h, None, payload);
      }
    }

    /** `recv` into the free part of the payload. */
    method FillPayload(n: nat)
      requires Valid() && headerCount == HEADER_SIZE && received + n <= payloadSize && n <= |socket.inFlight|
      modifies this`received, socket, message, message.staticData
      ensures Valid() && socket.inFlight == old(socket.inFlight)[n..]
      ensures Model() == Filled(old(Model()), old(socket.inFlight)[..n])
    {
      message.Poke(PAYLOAD_AT + received, socket.inFlight[..n]);
      socket.inFlight := socket.inFlight[n..];
      received := received + n;
    }

    method FinishMessage() returns (m: Handed)
      requires Valid() && headerCount == HEADER_SIZE && received == payloadSize
      modifies this`headerCount, this`received, message, message.staticData
      ensures Valid() && Model() == Finished(old(Model()))
      ensures m == Hand(HeaderIn(order, old(Model()).buffer), ReceivedPayload(old(Model())))
    {
      m := HandOver();
      headerCount := 0;
      received := 0;
    }

    method ReceivePayload(chunk: nat) returns (handed: seq<Handed>)
      requires Valid() && headerCount == HEADER_SIZE
      modifies this, socket, message, message.staticData
      ensures Valid()
      ensures Turned(Model(), socket.inFlight, handed, handed != []) ==
              PayloadTurn(old(Model()), old(socket.inFlight), chunk)
    {
      FillPayload(Min(chunk, Min(payloadSize - received, |socket.inFlight|)));
      handed := [];
      if received == payloadSize {
        var m := FinishMessage();
        handed := [m];
      }
    }

    method ProcessIncomingData(chunks: seq<nat>) returns (handed: seq<Handed>)
      requires Valid()
      modifies this, headerBytes, socket, message, message.staticData
      ensures Valid()
      ensures Turned(Model(), socket.inFlight, handed, false) ==
              Process(old(Model()), old(socket.inFlight), chunks, 0, [])
    {
      handed := [];
      var i := 0;
      var keepProcessing := true;
      ghost var all, d, flight := Process(Model(), socket.inFlight, chunks, 0, []), Model(), socket.inFlight;
      while keepProcessing
        invariant Valid() && Model() == d && socket.inFlight == flight && 0 <= i
        invariant all == if keepProcessing then Process(d, flight, chunks, i, handed)
                         else Turned(d, flight, handed, false)
        decreases keepProcessing, Fuel(d, flight)
      {
        var more: seq<Handed> := [];
        if headerCount < HEADER_SIZE {
          keepProcessing := ReceiveHeader(ChunkAt(chunks, i));
        } else {
          more := ReceivePayload(ChunkAt(chunks, i));
          keepProcessing := more != [];
        }
        d, flight := Model(), socket.inFlight;
        handed := handed + more;
        i := i + 1;
      }
    }
  }
}
