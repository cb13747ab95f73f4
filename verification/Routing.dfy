/**
 Where the dispatcher sends a message (lib/Dispatcher.cpp), and the way of a request and its
 reply, inside one daemon and over TCP between two of them (lib/TCPClient.cpp).
 */
module Routing {
  import opened Bytes
  import opened SomeIp
  import TcpFraming
  import opened Lists
  import opened Endpoints
  import opened Daemon
  import opened DaemonInvariant
  import opened Lifecycle

  /** A message inside a daemon: the header and what the IPC message carries beside it. */
  datatype Msg = Msg(header: Header, client: u16, instance: u16, payload: bytes)

  function ServiceOf(m: Msg): (ids: ServiceIDs) {
    ServiceIDs(ServiceIdOf(m.header.messageID), m.instance)
  }

  function MemberOf(m: Msg): (member: MemberIDs) {
    MemberIDs(ServiceOf(m), MemberIdOf(m.header.messageID))
  }

  /** `createMethodReturn`, with the payload and message type the sender fills in. */
  function MethodReturn(m: Msg, messageType: byte, payload: bytes): (r: Msg) {
    Msg(Header(m.header.messageID, m.header.requestID, 1, 0, messageType, 0), m.client, m.instance, payload)
  }

  /** The answer to a request for a service that is not there: nobody's client identifier. */
  function ErrorReply(m: Msg): (r: Msg) {
    MethodReturn(m, ERROR, []).(client := 0xFFFF)
  }

  /** To a client, or to a service that has no client yet. */
  datatype Delivery = ToClient(c: ClientRef, m: Msg) | ToService(k: ServiceKey, m: Msg)

  function Target(s: Service, m: Msg): (r: Delivery) {
    match s.client
    case Some(c) => ToClient(c, m)
    case None => ToService(s.key, m)
  }

  /** Every service that matches gets the request. */
  function ToServices(services: seq<Service>, m: Msg): (r: seq<Delivery>) {
    if services == [] then []
    else (if services[0].key.ids == ServiceOf(m) then [Target(services[0], m)] else []) + ToServices(services[1..], m)
  }

  function ToSubscribers(subscribers: seq<ClientRef>, m: Msg): (r: seq<Delivery>)
    ensures |r| == |subscribers| && forall i | 0 <= i < |r| :: r[i] == ToClient(subscribers[i], m)
  {
    if subscribers == [] then [] else [ToClient(subscribers[0], m)] + ToSubscribers(subscribers[1..], m)
  }

  /** A request is marked with its sender so that the reply finds the way back. */
  function Marked(m: Msg, sender: u16): (r: Msg) {
    if m.header.messageType == REQUEST then m.(client := sender) else m
  }

  /**
   `dispatchMessage`: what is sent where. Discovery messages never come here as notifications;
   the source asserts it.
   */
  function Dispatch(d: State, m: Msg, from: ClientRef, id: u16): (r: seq<Delivery>) {
    if m.header.messageType == NOTIFICATION then
      if m.header.messageID == SERVICE_DISCOVERY then []
      else
        var i := FindNotification(d.notifications, MemberOf(m));
        if i < |d.notifications| then ToSubscribers(d.notifications[i].subscribers, m) else []
    else if IsReply(m.header) then
      match ClientFromId(d, m.client)
      case Some(c) => [ToClient(c, m)]
      case None => []
    else
      var found := ToServices(d.services, Marked(m, id));
      if found == [] then [ToClient(from, ErrorReply(Marked(m, id)))] else found
  }

  /** The identifier of a registered client fits in the message. */
  function IdOf(d: State, c: ClientRef): (id: u16) {
    if IsRegistered(d, c) && d.clients[c].id < 0x1_0000 then d.clients[c].id else 0xFFFF
  }

  // ---- Exactly one destination ----

  lemma {:induction false} ToServicesFound(services: seq<Service>, m: Msg)
    requires DistinctServices(services)
    ensures var i := Find(services, ServiceOf(m));
            ToServices(services, m) == if i < |services| then [Target(services[i], m)] else []
  {
    if services != [] {
      ToServicesFound(services[1..], m);
      if services[0].key.ids == ServiceOf(m) && |services| > 1 {
        assert forall j | 0 <= j < |services| - 1 :: services[1..][j].key.ids != services[0].key.ids;
      }
    }
  }

  predicate IsRequest(m: Msg) {
    m.header.messageType != 0x02 && m.header.messageType != 0x80 && m.header.messageType != 0x81
  }

  /**
   The error that answers the message, sent back to where it came from: message and request ID of
   the request, protocol version one, message type 0x81, no payload, and nobody's identifier.
   */
  predicate IsErrorTo(r: Delivery, from: ClientRef, m: Msg) {
    r == ToClient(from, Msg(Header(m.header.messageID, m.header.requestID, 1, 0, 0x81, 0), 0xFFFF, m.instance, []))
  }

  /**
   In every state of every run a request goes to exactly one place: to the one service with its
   IDs, marked with its sender if it expects an answer, or back to the sender as one error.
   */
  lemma {:induction false} RequestGoesToOne(
    channels: seq<u32>, events: seq<Event>, states: seq<State>, n: nat, m: Msg, from: ClientRef, id: u16)
    requires IsRun(channels, events, states) && n < |states| && IsRequest(m)
    ensures var d := states[n];
            var r := Dispatch(d, m, from, id);
            var ids := ServiceIDs(m.header.messageID / 0x1_0000, m.instance);
            var sent := if m.header.messageType == 0x00 then m.(client := id) else m;
            && |r| == 1
            && (forall s | s in d.services && s.key.ids == ids ::
                  r[0] == if s.client.Some? then ToClient(s.client.value, sent) else ToService(s.key, sent))
            && ((forall s | s in d.services :: s.key.ids != ids) ==> IsErrorTo(r[0], from, m))
  {
    RunKeepsInv(channels, events, states, n);
    var d := states[n];
    ToServicesFound(d.services, Marked(m, id));
    var i := Find(d.services, ServiceOf(m));
    assert i < |d.services| ==> d.services[i] in d.services;
    forall s | s in d.services && s.key.ids == ServiceOf(m) ensures d.services[Find(d.services, ServiceOf(m))] == s {
      var j :| 0 <= j < |d.services| && d.services[j] == s;
      assert Find(d.services, ServiceOf(m)) == j;
    }
  }

  // ---- Notifications ----

  lemma {:induction false} SubscriberCount(subscribers: seq<ClientRef>, m: Msg, c: ClientRef)
    ensures Count(ToSubscribers(subscribers, m), ToClient(c, m)) == Count(subscribers, c)
  {
    if subscribers != [] {
      SubscriberCount(subscribers[1..], m, c);
      assert ToSubscribers(subscribers, m)[1..] == ToSubscribers(subscribers[1..], m);
    }
  }

  /**
   In every state of every run a notification is sent to a registered client once for each
   subscription the client has recorded itself, and to nobody who is not registered.
   */
  lemma {:induction false} NotificationReachesSubscribers(
    channels: seq<u32>, events: seq<Event>, states: seq<State>, n: nat, m: Msg, from: ClientRef, c: ClientRef)
    requires IsRun(channels, events, states) && n < |states|
    requires m.header.messageType == NOTIFICATION && m.header.messageID != SERVICE_DISCOVERY
    ensures var d := states[n];
            var i := FindNotification(d.notifications, MemberOf(m));
            Count(Dispatch(d, m, from, IdOf(d, from)), ToClient(c, m)) ==
            if IsRegistered(d, c) && i < |d.notifications| then Count(d.clients[c].subscriptions, i) else 0
  {
    RunKeepsInv(channels, events, states, n);
    var d := states[n];
    var i := FindNotification(d.notifications, MemberOf(m));
    if i < |d.notifications| {
      var subscribers := d.notifications[i].subscribers;
      SubscriberCount(subscribers, m, c);
      if IsRegistered(d, c) {
        assert Agree(d, c, i);
      } else {
        CountIn(subscribers, c);
      }
    }
  }

  // ---- Requests and replies in one daemon ----

  /** Any reply goes to the registered client whose identifier it carries, unchanged, or nowhere. */
  lemma {:induction false} ReplyGoesToOne(
    channels: seq<u32>, events: seq<Event>, states: seq<State>, n: nat, m: Msg, from: ClientRef, id: u16)
    requires IsRun(channels, events, states) && n < |states|
    requires m.header.messageType == 0x80 || m.header.messageType == 0x81
    ensures var d := states[n];
            && (forall c | IsRegistered(d, c) && d.clients[c].id == m.client :: Dispatch(d, m, from, id) == [ToClient(c, m)])
            && ((forall c | IsRegistered(d, c) :: d.clients[c].id != m.client) ==> Dispatch(d, m, from, id) == [])
  {
    RunKeepsInv(channels, events, states, n);
  }

  /**
   The reply to a request, dispatched at any later moment, reaches the client that sent the
   request with the request ID it chose, or nobody if that client has gone meanwhile.
   */
  lemma {:induction false} ReplyComesBack(
    channels: seq<u32>, events: seq<Event>, states: seq<State>, i: nat, j: nat,
    c: ClientRef, m: Msg, server: ClientRef, messageType: byte, payload: bytes)
    requires IsRun(channels, events, states) && i <= j < |states| && IsRegistered(states[i], c)
    requires m.header.messageType == REQUEST && (messageType == RESPONSE || messageType == ERROR)
    ensures var reply := MethodReturn(Marked(m, IdOf(states[i], c)), messageType, payload);
            && Dispatch(states[j], reply, server, IdOf(states[j], server)) ==
               (if IsRegistered(states[j], c) then [ToClient(c, reply)] else [])
            && reply.header.requestID == m.header.requestID && reply.header.messageID == m.header.messageID
            && reply.header.messageType == messageType && reply.instance == m.instance && reply.payload == payload
  {
    IdentifiersFit(channels, events, states, i, c);
    IdentifierNeverReused(channels, events, states, i, j, c);
  }

  lemma {:induction false} IdentifiersFit(
    channels: seq<u32>, events: seq<Event>, states: seq<State>, n: nat, c: ClientRef)
    requires IsRun(channels, events, states) && n < |states| && IsRegistered(states[n], c)
    ensures IdOf(states[n], c) == states[n].clients[c].id
  {
    RunKeepsInv(channels, events, states, n);
    TableFits(channels, events, states, n);
  }

  lemma {:induction false} TableFits(channels: seq<u32>, events: seq<Event>, states: seq<State>, n: nat)
    requires IsRun(channels, events, states) && n < |states|
    ensures |states[n].table| <= 0x1_0000
  {
    if n > 0 {
      TableFits(channels, events, states, n - 1);
      RunKeepsInv(channels, events, states, n - 1);
      StepTable(states[n - 1], events[n - 1]);
    }
  }

  lemma {:induction false} StepTable(d: State, e: Event)
    requires Inv(d) && Enabled(d, e) && |d.table| <= 0x1_0000
    ensures |Step(d, e).table| <= 0x1_0000
  {
    match e
    case ClientDisconnects(c) => DisconnectGone(d, c);
    case ServiceRegisters(c, ids, isLocal, init) => ClientRegisterProgress(d, c, ids, isLocal, init);
    case _ =>
  }

  // ---- Over TCP ----

  /** `TCPClient::sendMessage`: a request carries the identifier of its sender. */
  function OnTcp(m: Msg): (p: TcpFraming.Packet) {
    var h := if m.header.messageType == REQUEST then TagClientIdentifier(m.header, m.client) else m.header;
    TcpFraming.Packet(h, m.payload)
  }

  /**
   A packet as the input handler passes it on. The instance ID comes from the connection; a
   message that is not a reply keeps whatever client identifier the buffer held.
   */
  function Incoming(handed: TcpFraming.Handed, instance: u16, stale: u16): (m: Option<Msg>) {
    match handed
    case Discovery(_, _) => None
    case Message(h, client, payload) => Some(Msg(h, if client.Some? then client.value else stale, instance, payload))
  }

  function FromTcp(p: TcpFraming.Packet, instance: u16, stale: u16): (m: Option<Msg>) {
    Incoming(TcpFraming.Hand(p.header, p.payload), instance, stale)
  }

  /**
   What `FromTcp` stands for: frame the packets, cut the bytes in any way, and the deframer
   hands over each packet as `FromTcp` says, all of them exactly when the first payload is not
   too large or its header is zero; otherwise all but the first.
   */
  lemma {:induction false} PacketsArrive(
    start: TcpFraming.Connection, packets: seq<TcpFraming.Packet>, chunks: seq<TcpFraming.Event>,
    i: nat, instance: u16, stale: u16)
    requires TcpFraming.NewConnection(start)
    requires TcpFraming.Framable(packets) && TcpFraming.AllArrived(chunks) == TcpFraming.PacketStream(packets)
    requires TcpFraming.ReceiveAll(start, chunks).inFlight == [] && i < |packets|
    ensures var handed := TcpFraming.ReceiveAll(start, chunks).handed;
            && |handed| == |packets|
            && (i > 0 || |packets[0].payload| <= TcpFraming.STATIC_PAYLOAD || packets[0].header == TcpFraming.ZERO_HEADER
                <==> handed[i] == TcpFraming.Hand(packets[i].header, packets[i].payload))
            && (handed[i] == TcpFraming.Hand(packets[i].header, packets[i].payload) ==>
                  Incoming(handed[i], instance, stale) == FromTcp(packets[i], instance, stale))
  {
    TcpFraming.DeframerInvertsFramer(start, packets, chunks);
    TcpFraming.ExpectedAt(packets, |packets|, i);
    TcpFraming.HandInjective(TcpFraming.KeptHeader(packets, i), packets[i].header, packets[i].payload);
  }

  /** A request on its way from daemon A to the daemon of the service. */
  function Arrived(m: Msg, sender: u16, instance: u16, stale: u16): (r: Option<Msg>) {
    FromTcp(OnTcp(Marked(m, sender)), instance, stale)
  }

  lemma {:induction false} RequestArrives(m: Msg, sender: u16, instance: u16, stale: u16)
    requires m.header.messageType == REQUEST && m.header.messageID != SERVICE_DISCOVERY
    ensures Arrived(m, sender, instance, stale) ==
            Some(Msg(TagClientIdentifier(m.header, sender), stale, instance, m.payload))
  {
  }

  /** The reply as it comes back on the same connection. */
  lemma {:induction false} ReplyArrives(reply: Msg, h: Header, sender: u16, instance: u16, stale: u16)
    requires IsReply(reply.header) && reply.header.messageID != SERVICE_DISCOVERY
    requires reply.header.requestID == TagClientIdentifier(h, sender).requestID
    ensures FromTcp(OnTcp(reply), instance, stale) ==
            Some(Msg(reply.header.(requestID := h.requestID % 0x1_0000), sender, instance, reply.payload))
  {
  }

  /**
   A request from client `c` of daemon A to a service of daemon B, and its answer. Runs of the
   two daemons are independent: A sends at `i` and hears back at `j`; B receives the request
   from its client `peer` at `k` and the answer is dispatched at `l`. B sends the answer to
   `peer` and to nobody else, unless `peer` has gone. If it went over the connection, A gives
   it to `c` with the lower half of the request ID it chose, or to nobody if `c` has gone.
   */
  lemma {:induction false} TwoHopReply(
    channels: seq<u32>, events: seq<Event>, a: seq<State>, i: nat, j: nat,
    channels': seq<u32>, events': seq<Event>, b: seq<State>, k: nat, l: nat,
    c: ClientRef, m: Msg, link: ClientRef, peer: ClientRef, server: ClientRef,
    instance: u16, stale: u16, messageType: byte, payload: bytes)
    requires IsRun(channels, events, a) && i <= j < |a| && IsRegistered(a[i], c)
    requires IsRun(channels', events', b) && k <= l < |b| && IsRegistered(b[k], peer)
    requires m.header.messageType == REQUEST && m.header.messageID != SERVICE_DISCOVERY
    requires messageType == RESPONSE || messageType == ERROR
    ensures var request := Arrived(m, IdOf(a[i], c), instance, stale);
            && request.Some?
            && var reply := MethodReturn(Marked(request.value, IdOf(b[k], peer)), messageType, payload);
               var back := FromTcp(OnTcp(reply), m.instance, stale);
               && Dispatch(b[l], reply, server, IdOf(b[l], server)) ==
                  (if IsRegistered(b[l], peer) then [ToClient(peer, reply)] else [])
               && back.Some?
               && Dispatch(a[j], back.value, link, IdOf(a[j], link)) ==
                  (if IsRegistered(a[j], c) then [ToClient(c, back.value)] else [])
               && back.value.header.requestID == m.header.requestID % 0x1_0000
               && (back.value.header.requestID == m.header.requestID <==> m.header.requestID < 0x1_0000)
               && back.value.header.messageID == m.header.messageID && back.value.payload == payload
  {
    var sender := IdOf(a[i], c);
    RequestArrives(m, sender, instance, stale);
    var request := Arrived(m, sender, instance, stale).value;
    ReplyComesBack(channels', events', b, k, l, peer, request, server, messageType, payload);
    var reply := MethodReturn(Marked(request, IdOf(b[k], peer)), messageType, payload);
    ReplyArrives(reply, m.header, sender, m.instance, stale);
    IdentifiersFit(channels, events, a, i, c);
    IdentifierNeverReused(channels, events, a, i, j, c);
  }

  /**
   The way there: A gives the request to the client that stands for the other daemon, and B
   gives what arrives to the provider of the service, both and nobody else, with the sender's
   identifier in the request ID and the peer's beside it.
   */
  lemma {:induction false} TwoHopRequest(
    channels: seq<u32>, events: seq<Event>, a: seq<State>, i: nat,
    channels': seq<u32>, events': seq<Event>, b: seq<State>, k: nat,
    c: ClientRef, m: Msg, link: ClientRef, peer: ClientRef, server: ClientRef, instance: u16, stale: u16,
    s: Service, t: Service)
    requires IsRun(channels, events, a) && i < |a| && IsRegistered(a[i], c)
    requires IsRun(channels', events', b) && k < |b| && IsRegistered(b[k], peer)
    requires m.header.messageType == REQUEST && m.header.messageID != SERVICE_DISCOVERY
    requires s in a[i].services && s.key.ids == ServiceOf(m) && s.client == Some(link)
    requires t in b[k].services && t.client == Some(server)
    requires t.key.ids == ServiceIDs(ServiceIdOf(m.header.messageID), instance)
    ensures var sender, other := IdOf(a[i], c), IdOf(b[k], peer);
            var request := Arrived(m, sender, instance, stale);
            && Dispatch(a[i], m, c, sender) == [ToClient(link, m.(client := sender))]
            && request.Some?
            && Dispatch(b[k], request.value, peer, other) ==
               [ToClient(server, Msg(TagClientIdentifier(m.header, sender), other, instance, m.payload))]
  {
    RequestArrives(m, IdOf(a[i], c), instance, stale);
    RequestGoesToOne(channels, events, a, i, m, c, IdOf(a[i], c));
    var request := Arrived(m, IdOf(a[i], c), instance, stale).value;
    RequestGoesToOne(channels', events', b, k, request, peer, IdOf(b[k], peer));
  }

  /**
   When the remote daemon does not know the service, its error goes back the same way. It
   reaches the sender, if that is still there, exactly when the request expected an answer or
   the upper half of its request ID happens to be the sender's identifier: a request without
   return is not tagged.
   */
  lemma {:induction false} RemoteErrorReachesSenderIff(
    channels: seq<u32>, events: seq<Event>, states: seq<State>, i: nat, j: nat,
    c: ClientRef, m: Msg, link: ClientRef, instance: u16, stale: u16)
    requires IsRun(channels, events, states) && i <= j < |states| && IsRegistered(states[i], c)
    requires IsRequest(m) && m.header.messageID != SERVICE_DISCOVERY
    ensures var request := Arrived(m, IdOf(states[i], c), instance, stale);
            && request.Some?
            && var back := FromTcp(OnTcp(ErrorReply(request.value)), m.instance, stale);
               && back.Some?
               && (Dispatch(states[j], back.value, link, IdOf(states[j], link)) == [ToClient(c, back.value)] <==>
                   && IsRegistered(states[j], c)
                   && (m.header.messageType == REQUEST ||
                       ExtractClientIdentifier(m.header) == states[i].clients[c].id))
  {
    IdentifiersFit(channels, events, states, i, c);
    var id := if m.header.messageType == REQUEST then IdOf(states[i], c) else ExtractClientIdentifier(m.header);
    var request := Arrived(m, IdOf(states[i], c), instance, stale).value;
    ReplyArrives(ErrorReply(request), m.header, id, m.instance, stale);
    OnlyOwnIdentifier(channels, events, states, i, j, c, id);
  }

  lemma {:induction false} OnlyOwnIdentifier(
    channels: seq<u32>, events: seq<Event>, states: seq<State>, i: nat, j: nat, c: ClientRef, id: nat)
    requires IsRun(channels, events, states) && i <= j < |states| && IsRegistered(states[i], c)
    ensures ClientFromId(states[j], id) == Some(c) <==> IsRegistered(states[j], c) && id == states[i].clients[c].id
  {
    IdentifierNeverReused(channels, events, states, i, j, c);
    RunKeepsInv(channels, events, states, j);
  }

  /** The error for a request without return goes to whomever the upper half of its ID names. */
  lemma {:induction false} ErrorFollowsRequestId(
    d: State, m: Msg, sender: u16, x: ClientRef, instance: u16, stale: u16, link: ClientRef)
    requires IsRequest(m) && m.header.messageType != REQUEST && m.header.messageID != SERVICE_DISCOVERY
    requires ClientFromId(d, ExtractClientIdentifier(m.header)) == Some(x)
    ensures var request := Arrived(m, sender, instance, stale);
            && request.Some?
            && var back := FromTcp(OnTcp(ErrorReply(request.value)), m.instance, stale);
               back.Some? && Dispatch(d, back.value, link, IdOf(d, link)) == [ToClient(x, back.value)]
  {
    var request := Arrived(m, sender, instance, stale).value;
    ReplyArrives(ErrorReply(request), m.header, ExtractClientIdentifier(m.header), m.instance, stale);
  }

  /** Two clients, and a request without return from one whose ID names the other: the error goes there. */
  lemma {:induction false} ErrorGoesAstray(channels: seq<u32>, payload: bytes, instance: u16, stale: u16)
    ensures var d := TwoClients(channels);
            var m := Msg(Header(0x1000_0001, 0x0001_0007, 1, 0, REQUEST_NO_RETURN, 0), 0, 2, payload);
            var request := Arrived(m, IdOf(d, 0), instance, stale);
            && Reachable(channels, d) && IsRegistered(d, 0) && request.Some?
            && var back := FromTcp(OnTcp(ErrorReply(request.value)), 2, stale);
               back.Some? && Dispatch(d, back.value, 0, IdOf(d, 0)) == [ToClient(1, back.value)]
  {
    var d := TwoClients(channels);
    var m := Msg(Header(0x1000_0001, 0x0001_0007, 1, 0, REQUEST_NO_RETURN, 0), 0, 2, payload);
    assert ClientFromId(d, 1) == Some(1) && IsRegistered(d, 0) && Reachable(channels, d) by { TwoClientsRun(channels); }
    ErrorFollowsRequestId(d, m, IdOf(d, 0), 1, instance, stale, 0);
  }
}
