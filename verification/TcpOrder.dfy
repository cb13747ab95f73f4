/**
 Sending over TCP for a whole connection (lib/TCPClient.cpp, lib/SocketStreamConnection.h).
 Messages are written without looking at the bytes that are still pending, so what reaches the
 socket is in order only if no write moves bytes past pending ones.
 */
module TcpOrder {
  import opened Bytes
  import opened ByteArrays
  import IpcStream
  import TcpFraming

  /** A message is written, or pending bytes are flushed; `send` takes up to `count` bytes. */
  datatype Event = Transmit(data: bytes, count: nat) | Flush(count: nat)

  /** Pending bytes, and everything that has reached the socket. */
  datatype Sender = Sender(pending: bytes, socket: bytes)

  function Step(s: Sender, e: Event): (s': Sender) {
    var w := IpcStream.Writer(true, s.pending);
    var r := match e
             case Transmit(data, count) => IpcStream.WriteBytes(w, data, IpcStream.Accepted(count))
             case Flush(count) => IpcStream.FlushPending(w, IpcStream.Accepted(count));
    Sender(r.writer.pending, s.socket + r.data)
  }

  function Run(events: seq<Event>): (s: Sender) {
    if events == [] then Sender([], []) else Step(Run(events[..|events| - 1]), events[|events| - 1])
  }

  function Data(e: Event): (s: bytes) {
    if e.Transmit? then e.data else []
  }

  /** All bytes given to the connection, in order. */
  function Given(events: seq<Event>): (s: bytes) {
    if events == [] then [] else Given(events[..|events| - 1]) + Data(events[|events| - 1])
  }

  /** The write moves bytes past pending ones. */
  predicate Overtakes(s: Sender, e: Event) {
    e.Transmit? && s.pending != [] && e.data != [] && e.count > 0
  }

  predicate NoneOvertakes(events: seq<Event>) {
    events != [] ==>
      NoneOvertakes(events[..|events| - 1]) && !Overtakes(Run(events[..|events| - 1]), events[|events| - 1])
  }

  lemma {:induction false} StepMoves(s: Sender, e: Event)
    ensures s.socket <= Step(s, e).socket
    ensures !Overtakes(s, e) ==> Step(s, e).socket + Step(s, e).pending == s.socket + s.pending + Data(e)
    ensures |Step(s, e).socket| + |Step(s, e).pending| == |s.socket| + |s.pending| + |Data(e)|
  {
    match e
    case Transmit(data, count) =>
      var k := Min(count, |data|);
      Split(s.socket, data, k);
      if s.pending != [] && k == 0 {
        Split(s.socket, s.pending + data, 0);
        assert data[0..] == data && s.socket + [] == s.socket;
        Assoc(s.socket, s.pending, data);
      }
    case Flush(count) => Split(s.socket, s.pending, Min(count, |s.pending|));
  }

  lemma {:induction false} Split(socket: bytes, data: bytes, k: nat)
    requires k <= |data|
    ensures socket + data[..k] + data[k..] == socket + data
  {
    assert data[..k] + data[k..] == data;
    Assoc(socket, data[..k], data[k..]);
  }

  /** As long as no write overtakes, everything given is on the socket or pending, in order. */
  lemma {:induction false} SentInOrder(events: seq<Event>)
    requires NoneOvertakes(events)
    ensures Run(events).socket + Run(events).pending == Given(events)
  {
    if events != [] {
      var before := events[..|events| - 1];
      SentInOrder(before);
      StepMoves(Run(before), events[|events| - 1]);
    }
  }

  // ---- And only then ----

  /** The same calls with other contents. */
  predicate SameShape(a: seq<Event>, b: seq<Event>) {
    && |a| == |b|
    && forall i | 0 <= i < |a| ::
         a[i].Transmit? == b[i].Transmit? && a[i].count == b[i].count && |Data(a[i])| == |Data(b[i])|
  }

  lemma {:induction false} SameLengths(a: seq<Event>, b: seq<Event>)
    requires SameShape(a, b)
    ensures |Run(a).pending| == |Run(b).pending| && |Run(a).socket| == |Run(b).socket|
    ensures NoneOvertakes(a) == NoneOvertakes(b)
  {
    if a != [] {
      var n := |a| - 1;
      assert SameShape(a[..n], b[..n]);
      SameLengths(a[..n], b[..n]);
      StepLengths(Run(a[..n]), a[n], Run(b[..n]), b[n]);
    }
  }

  lemma {:induction false} StepLengths(s: Sender, e: Event, t: Sender, f: Event)
    requires |s.pending| == |t.pending| && |s.socket| == |t.socket|
    requires e.Transmit? == f.Transmit? && e.count == f.count && |Data(e)| == |Data(f)|
    ensures |Step(s, e).pending| == |Step(t, f).pending| && |Step(s, e).socket| == |Step(t, f).socket|
    ensures Overtakes(s, e) == Overtakes(t, f)
  {
  }

  /** The calls with all contents zero, except that from call `n` on they are ones. */
  function Painted(events: seq<Event>, n: nat): (r: seq<Event>)
    ensures SameShape(events, r)
  {
    seq(|events|, i requires 0 <= i < |events| =>
      if events[i].Transmit? then Transmit(seq(|events[i].data|, _ => if i < n then 0 else 1), events[i].count)
      else events[i])
  }

  predicate AllZero(s: bytes) {
    forall i | 0 <= i < |s| :: s[i] == 0
  }

  lemma {:induction false} ZerosGiven(events: seq<Event>, n: nat, m: nat)
    requires m <= n && m <= |events|
    ensures AllZero(Given(Painted(events, n)[..m]))
  {
    if m > 0 {
      ZerosGiven(events, n, m - 1);
      var p := Painted(events, n);
      assert p[..m][..m - 1] == p[..m - 1] && AllZero(Data(p[m - 1]));
    }
  }

  /** What has reached the socket, and what was given, only grow. */
  lemma {:induction false} BothGrow(events: seq<Event>, m: nat)
    requires m <= |events|
    ensures Run(events[..m]).socket <= Run(events).socket && Given(events[..m]) <= Given(events)
  {
    if m == |events| {
      assert events[..m] == events;
    } else {
      var before := events[..|events| - 1];
      BothGrow(before, m);
      assert before[..m] == events[..m];
      StepMoves(Run(before), events[|events| - 1]);
    }
  }

  /** The first call that overtakes. */
  lemma {:induction false} FirstOvertaker(events: seq<Event>) returns (n: nat)
    requires !NoneOvertakes(events)
    ensures n < |events| && NoneOvertakes(events[..n]) && Overtakes(Run(events[..n]), events[n])
  {
    var last := |events| - 1;
    if NoneOvertakes(events[..last]) {
      n := last;
    } else {
      n := FirstOvertaker(events[..last]);
      assert events[..last][..n] == events[..n];
    }
  }

  /** If a call overtakes, the same calls with other contents put bytes on the socket out of order. */
  lemma {:induction false} OvertakenOutOfOrder(events: seq<Event>) returns (other: seq<Event>)
    requires !NoneOvertakes(events)
    ensures SameShape(events, other) && !(Run(other).socket <= Given(other))
  {
    var n := FirstOvertaker(events);
    other := Painted(events, n);
    var before := other[..n];
    assert SameShape(events[..n], before);
    SameLengths(events[..n], before);
    SentInOrder(before);
    ZerosGiven(events, n, n);
    var s, e := Run(before), other[n];
    var p := |s.socket|;
    assert p < |Given(before)| && Given(before)[p] == 0;
    assert Overtakes(s, e);
    OvertakerFirst(s, e);
    assert other[..n + 1][..n] == before && other[..n + 1][n] == e;
    assert Run(other[..n + 1]) == Step(s, e);
    BothGrow(other, n + 1);
    BothGrow(other, n);
    assert Run(other).socket[p] == e.data[0] == 1 && Given(other)[p] == 0;
  }

  lemma {:induction false} OvertakerFirst(s: Sender, e: Event)
    requires Overtakes(s, e)
    ensures |Step(s, e).socket| > |s.socket| && Step(s, e).socket[|s.socket|] == e.data[0]
  {
  }

  /**
   Whatever is sent, the socket gets the bytes in the order they were given if and only if no
   call moves bytes past pending ones.
   */
  lemma {:induction false} OrderKeptIff(events: seq<Event>)
    ensures (forall other | SameShape(events, other) :: Run(other).socket <= Given(other)) <==> NoneOvertakes(events)
  {
    if NoneOvertakes(events) {
      forall other | SameShape(events, other) ensures Run(other).socket <= Given(other) {
        SameLengths(events, other);
        SentInOrder(other);
      }
    } else {
      var other := OvertakenOutOfOrder(events);
    }
  }

  // ---- From packet to packet ----

  /** The calls that send the packets, flushes between them. */
  predicate Sends(events: seq<Event>, packets: seq<TcpFraming.Packet>) {
    if events == [] then packets == []
    else
      var last := |events| - 1;
      match events[last]
      case Flush(_) => Sends(events[..last], packets)
      case Transmit(data, _) =>
        packets != [] && data == TcpFraming.FramePacket(packets[|packets| - 1]) &&
        Sends(events[..last], packets[..|packets| - 1])
  }

  lemma {:induction false} SendsGiven(events: seq<Event>, packets: seq<TcpFraming.Packet>)
    requires Sends(events, packets)
    ensures Given(events) == TcpFraming.PacketStream(packets)
  {
    if events != [] {
      var last := |events| - 1;
      match events[last]
      case Flush(_) =>
        SendsGiven(events[..last], packets);
        assert Given(events[..last]) + [] == Given(events[..last]);
      case Transmit(data, _) =>
        var n := |packets| - 1;
        assert Given(events[..last]) == TcpFraming.PacketStream(packets[..n]) by {
          SendsGiven(events[..last], packets[..n]);
        }
        assert TcpFraming.PacketStream(packets) == TcpFraming.PacketStream(packets[..n]) + data by {
          TcpFraming.PacketStreamNext(packets, n);
          assert packets[..n + 1] == packets;
        }
    }
  }

  /**
   Packets sent over a connection on which no write overtakes pending bytes, received in any
   chunks: the peer hands over the first of them, in order, and all once everything has arrived.
   */
  lemma {:induction false} PacketsInOrder(
    events: seq<Event>, packets: seq<TcpFraming.Packet>, start: TcpFraming.Connection, chunks: seq<TcpFraming.Event>)
    requires Sends(events, packets) && NoneOvertakes(events) && TcpFraming.Framable(packets)
    requires TcpFraming.NewConnection(start) && TcpFraming.AllArrived(chunks) <= Run(events).socket
    ensures var c := TcpFraming.ReceiveAll(start, chunks);
            && |c.handed| <= |packets| && c.handed == TcpFraming.Expected(packets, |c.handed|)
            && (Run(events).pending == [] && TcpFraming.AllArrived(chunks) == Run(events).socket && c.inFlight == [] ==>
                  |c.handed| == |packets|)
  {
    SentInOrder(events);
    SendsGiven(events, packets);
    if Run(events).pending == [] {
      assert Run(events).socket + [] == Run(events).socket;
    }
    TcpFraming.DeframerInvertsFramer(start, packets, chunks);
  }
}
