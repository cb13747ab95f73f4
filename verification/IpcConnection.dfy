/**
 The two ends of a local connection as objects (lib/SocketStreamConnection.h,
 lib/ipc/UDS.cpp, lib/ipc/UDSConnection.h), each step proved to be the step of `IpcStream`.
 */
module IpcConnection {
  import opened Bytes
  import opened ByteArrays
  import opened IpcStream

  /** The kernel's part of a stream socket: the bytes taken by `send` and not yet received. */
  class Socket {
    var inFlight: bytes

    constructor ()
      ensures inFlight == []
    {
      inFlight := [];
    }
  }

  class StreamWriter {
    const order: ByteOrder
    const socket: Socket
    const dataToBeSent: ByteArray
    var connected: bool

    ghost predicate Valid()
      reads this, dataToBeSent
    {
      dataToBeSent.Valid()
    }

    ghost function Model(): (w: Writer)
      requires Valid()
      reads this, dataToBeSent, dataToBeSent.staticData
    {
      Writer(connected, dataToBeSent.Contents())
    }

    constructor (order: ByteOrder, socket: Socket)
      ensures Valid() && Model() == NewLink.writer && this.order == order && this.socket == socket
      ensures fresh(dataToBeSent) && fresh(dataToBeSent.staticData)
    {
      this.order := order;
      this.socket := socket;
      dataToBeSent := new ByteArray();
      connected := true;
    }

    predicate IsCongested()
      requires Valid()
      reads this, dataToBeSent, dataToBeSent.staticData
      ensures IsCongested() <==> Model().pending != []
    {
      dataToBeSent.Size() != 0
    }

    method WriteBytesNonBlocking(data: bytes, outcome: SendOutcome) returns (report: Report)
      requires Valid() && connected
      modifies this, socket, dataToBeSent, dataToBeSent.staticData
      ensures Valid()
      ensures Sent(Model(), socket.inFlight, report) ==
              var s := WriteBytes(old(Model()), data, outcome); s.(data := old(socket.inFlight) + s.data)
    {
      match outcome {
        case Accepted(n) =>
          var written := Min(n, |data|);
          socket.inFlight := socket.inFlight + data[..written];
          if written == |data| {
            assert data[..written] == data;
            return OK;
          }
          dataToBeSent.Append(data[written..]);
          return BUFFER_FULL;
        case WouldBlock =>
          dataToBeSent.Append(data);
          assert old(socket.inFlight) + [] == socket.inFlight;
          return BUFFER_FULL;
        case Broken =>
          connected := false;
          assert old(socket.inFlight) + [] == socket.inFlight;
          return DISCONNECTED;
        case BadDescriptor =>
          assert old(socket.inFlight) + [] == socket.inFlight;
          return OK;
      }
    }

    method WriteNonBlocking(payload: bytes, first: SendOutcome, second: SendOutcome) returns (report: Report)
      requires Valid() && connected
      modifies this, socket, dataToBeSent, dataToBeSent.staticData
      ensures Valid()
      ensures Sent(Model(), socket.inFlight, report) ==
              var s := WriteMessage(order, old(Model()), payload, first, second);
              s.(data := old(socket.inFlight) + s.data)
    {
      var size := MemoryBytes(order, |payload|, SIZE_WIDTH);
      if IsCongested() {
        dataToBeSent.Append(size);
        dataToBeSent.Append(payload);
        assert old(socket.inFlight) + [] == socket.inFlight;
        return BUFFER_FULL;
      }
      report := WriteBytesNonBlocking(size, first);
      match report {
        case OK =>
          ghost var a := WriteBytes(old(Model()), size, first);
          report := WriteBytesNonBlocking(payload, second);
          Assoc(old(socket.inFlight), a.data, WriteBytes(a.writer, payload, second).data);
        case BUFFER_FULL =>
          dataToBeSent.Append(payload);
        case DISCONNECTED =>
      }
    }

    method WritePendingDataNonBlocking(outcome: SendOutcome) returns (report: Report)
      requires Valid() && connected
      modifies this, socket, dataToBeSent, dataToBeSent.staticData
      ensures Valid()
      ensures Sent(Model(), socket.inFlight, report) ==
              var s := FlushPending(old(Model()), outcome); s.(data := old(socket.inFlight) + s.data)
    {
      if IsCongested() {
        var localContentCopy := dataToBeSent.GetData();
        dataToBeSent.Resize(0);
        assert Model() == old(Model()).(pending := []);
        report := WriteBytesNonBlocking(localContentCopy, outcome);
      } else {
        assert old(socket.inFlight) + [] == socket.inFlight;
        report := OK;
      }
    }
  }

  class MessageReader {
    const order: ByteOrder
    const socket: Socket
    const totalMessageSize: array<byte>
    var lengthCount: nat
    var receivedSize: nat
    const payload: ByteArray

    ghost predicate Valid()
      reads this, totalMessageSize, payload, payload.staticData
    {
      && totalMessageSize.Length == SIZE_WIDTH && totalMessageSize != payload.staticData
      && payload.Valid() && lengthCount <= SIZE_WIDTH
      && (lengthCount < SIZE_WIDTH ==> receivedSize == 0)
      && (lengthCount == SIZE_WIDTH ==>
            receivedSize <= |payload.Contents()| == MemoryValue(order, totalMessageSize[..]))
      && ValidReader(order, Model())
    }

    ghost function Model(): (r: Reader)
      requires totalMessageSize.Length == SIZE_WIDTH && payload.Valid() && lengthCount <= SIZE_WIDTH
      requires lengthCount == SIZE_WIDTH ==> receivedSize <= |payload.Contents()|
      reads this, totalMessageSize, payload, payload.staticData
    {
      Reader(totalMessageSize[..], lengthCount, if lengthCount < SIZE_WIDTH then [] else payload.Contents()[..receivedSize])
    }

    constructor (order: ByteOrder, socket: Socket)
      ensures Valid() && Model() == NewReader && this.order == order && this.socket == socket
      ensures fresh(totalMessageSize) && fresh(payload) && fresh(payload.staticData)
    {
      this.order := order;
      this.socket := socket;
      totalMessageSize := new byte[SIZE_WIDTH](_ => 0xFF);
      payload := new ByteArray();
      lengthCount := 0;
      receivedSize := 0;
      new;
      assert totalMessageSize[..] == NewReader.sizeField;
    }

    /** `setInputMessage`: clears the message and points the length reader at its size field. */
    method SetInputMessage()
      requires Valid()
      modifies this, totalMessageSize
      ensures Valid() && Model() == NewReader
    {
      forall i | 0 <= i < SIZE_WIDTH {
        totalMessageSize[i] := 0xFF;
      }
      lengthCount := 0;
      receivedSize := 0;
      assert totalMessageSize[..] == NewReader.sizeField;
    }

    predicate IsComplete()
      requires Valid()
      reads this, totalMessageSize, payload, payload.staticData
      ensures IsComplete() <==> IpcStream.IsComplete(order, Model())
    {
      MemoryValue(order, totalMessageSize[..]) == receivedSize
    }

    method ReceiveLength(chunk: nat)
      requires Valid() && lengthCount < SIZE_WIDTH
      modifies this, socket, totalMessageSize, payload
      ensures Valid()
      ensures Got(Model(), socket.inFlight, []) == ReadLength(old(Model()), old(socket.inFlight), chunk)
    {
      var n := Min(chunk, Min(SIZE_WIDTH - lengthCount, |socket.inFlight|));
      var data := socket.inFlight;
      forall i | 0 <= i < n {
        totalMessageSize[lengthCount + i] := data[i];
      }
      ghost var field := ReadLength(old(Model()), data, chunk).reader.sizeField;
      assert totalMessageSize[..] == field;
      socket.inFlight := data[n..];
      lengthCount := lengthCount + n;
      if lengthCount == SIZE_WIDTH {
        payload.Resize(MemoryValue(order, totalMessageSize[..]));
        receivedSize := 0;
      }
    }

    method ReceiveBody(chunk: nat)
      requires Valid() && lengthCount == SIZE_WIDTH
      modifies this, socket, payload, payload.staticData
      ensures Valid()
      ensures Got(Model(), socket.inFlight, []) == ReadBody(order, old(Model()), old(socket.inFlight), chunk)
    {
      var bytesToRead := MemoryValue(order, totalMessageSize[..]) - receivedSize;
      var n := Min(chunk, Min(bytesToRead, |socket.inFlight|));
      payload.WriteAt(receivedSize, socket.inFlight[..n]);
      socket.inFlight := socket.inFlight[n..];
      receivedSize := receivedSize + n;
    }

    method ReadNonBlocking(chunks: (nat, nat))
      requires Valid()
      modifies this, socket, totalMessageSize, payload, payload.staticData
      ensures Valid()
      ensures Got(Model(), socket.inFlight, []) == Read(order, old(Model()), old(socket.inFlight), chunks)
    {
      if lengthCount < SIZE_WIDTH {
        ReceiveLength(chunks.0);
      }
      if lengthCount == SIZE_WIDTH {
        ReceiveBody(chunks.1);
      }
    }

    /** One turn of the read loop: a complete message is taken and the next one started. */
    method ReceiveOne(chunk: (nat, nat)) returns (body: Option<bytes>)
      requires Valid() && Waiting(order, Model())
      modifies this, socket, totalMessageSize, payload, payload.staticData
      ensures Valid() && Waiting(order, Model())
      ensures var q := Read(order, old(Model()), old(socket.inFlight), chunk);
              if IpcStream.IsComplete(order, q.reader)
              then body == Some(q.reader.body) && Model() == NewReader && socket.inFlight == q.inFlight
              else body == None && Got(Model(), socket.inFlight, []) == q
    {
      ReadNonBlocking(chunk);
      if IsComplete() {
        if lengthCount < SIZE_WIDTH {
          PartialSizeNotZero(order, Model());
        }
        var data := payload.GetData();
        assert data == Model().body;
        SetInputMessage();
        NewReaderWaits(order);
        body := Some(data);
      } else {
        body := None;
      }
    }

    /** The read loop of a client; after the given chunks the socket would block. */
    method OnIncomingDataAvailable(chunks: seq<(nat, nat)>) returns (handed: seq<bytes>)
      requires Valid() && Waiting(order, Model())
      modifies this, socket, totalMessageSize, payload, payload.staticData
      ensures Valid() && Waiting(order, Model())
      ensures Got(Model(), socket.inFlight, handed) == Poll(order, old(Model()), old(socket.inFlight), chunks)
    {
      handed := [];
      var i := 0;
      var keepProcessing := true;
      ghost var all, reader, flight := Poll(order, Model(), socket.inFlight, chunks), Model(), socket.inFlight;
      assert Later(chunks, 0) == chunks && [] + all.handed == all.handed;
      while keepProcessing
        invariant Valid() && Waiting(order, reader) && Model() == reader && socket.inFlight == flight
        invariant 0 <= i
        invariant all == if keepProcessing then Resume(order, reader, flight, chunks, i, handed)
                         else Got(reader, flight, handed)
        decreases keepProcessing, |flight|
      {
        PollTurn(order, reader, flight, chunks, i, handed);
        var body := ReceiveOne(ChunkAt(chunks, i));
        reader, flight := Model(), socket.inFlight;
        if body.Some? {
          handed := handed + [body.value];
        } else {
          keepProcessing := false;
        }
        i := i + 1;
      }
    }
  }
}
