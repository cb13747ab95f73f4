/**
 The dispatcher daemon as one state: dispatcher core (lib/Dispatcher.cpp, lib/Dispatcher.h),
 client bookkeeping (lib/Client.cpp), local clients as listeners (daemon/LocalClient.h), TCP
 endpoints (lib/TCPManager.h) and the announcer (lib/ServiceAnnouncer.cpp).

 Objects are named by handles. A client object exists from its creation until it is deleted;
 anything that still refers to it afterwards is a dangling reference.
 */
module Daemon {
  import opened Bytes
  import opened SomeIp
  import opened Announcements
  import opened Lists
  import opened Endpoints

  type ClientRef = nat

  datatype Service = Service(key: ServiceKey, client: Option<ClientRef>)

  datatype Notification = Notification(
    member: MemberIDs, subscribers: seq<ClientRef>, provider: Option<ServiceKey>)

  /** `subscriptions` are positions in the dispatcher's list of notifications. */
  datatype Client = Client(
    id: nat, registered: bool, services: seq<ServiceKey>, subscriptions: seq<nat>, isLocal: bool)

  datatype Listener = TcpListener | AnnouncerListener | LocalListener(client: ClientRef)

  /** SERVICES_REGISTERED and SERVICES_UNREGISTERED. */
  datatype RegistryMessage = Registered(ids: seq<ServiceIDs>) | Unregistered(ids: seq<ServiceIDs>)

  datatype State = State(
    services: seq<Service>,
    notifications: seq<Notification>,
    table: seq<Option<ClientRef>>,
    disconnected: seq<ClientRef>,
    listeners: seq<Listener>,
    /** Client objects that have not been deleted, and the ones that have. */
    clients: map<ClientRef, Client>,
    deleted: seq<ClientRef>,
    nextHandle: nat,
    servers: seq<TcpServer>,
    channels: seq<u32>,
    /** What the announcer has sent, what each local client has been sent about the registry. */
    announced: seq<Announcement>,
    outbox: map<ClientRef, seq<RegistryMessage>>,
    /** Every service list there has been, the current one last. */
    history: seq<seq<ServiceKey>>)

  /** The daemon before any client or service: the TCP manager listens first, then the announcer. */
  function Start(channels: seq<u32>): (d: State) {
    State([], [], [], [], [TcpListener, AnnouncerListener], map[], [], 0, [], channels, [], map[], [[]])
  }

  function Keys(services: seq<Service>): (keys: seq<ServiceKey>)
    ensures |keys| == |services|
    ensures forall i | 0 <= i < |keys| :: keys[i] == services[i].key
  {
    if services == [] then [] else [services[0].key] + Keys(services[1..])
  }

  function Ids(keys: seq<ServiceKey>): (ids: seq<ServiceIDs>)
    ensures |ids| == |keys|
    ensures forall i | 0 <= i < |ids| :: ids[i] == keys[i].ids
  {
    if keys == [] then [] else [keys[0].ids] + Ids(keys[1..])
  }

  /** `getService`: the first service with these IDs, or the number of services. */
  function Find(services: seq<Service>, ids: ServiceIDs): (i: nat)
    ensures i <= |services|
    ensures i < |services| ==> services[i].key.ids == ids
    ensures forall j | 0 <= j < i :: services[j].key.ids != ids
  {
    if services == [] then 0 else if services[0].key.ids == ids then 0 else 1 + Find(services[1..], ids)
  }

  function Lookup(services: seq<Service>, ids: ServiceIDs): (k: Option<ServiceKey>) {
    var i := Find(services, ids);
    if i < |services| then Some(services[i].key) else None
  }

  /** `removeFromVector` on the service objects. */
  function Without(services: seq<Service>, k: ServiceKey): (r: seq<Service>) {
    if services == [] then []
    else if services[0].key == k then services[1..]
    else [services[0]] + Without(services[1..], k)
  }

  // ---- Listeners ----

  /** The endpoints announced: on each channel, the ports with its address. */
  function Matching(channels: seq<u32>, ports: seq<EndPoint>): (r: seq<EndPoint>) {
    if channels == [] then [] else OnChannel(channels[0], ports) + Matching(channels[1..], ports)
  }

  function OnChannel(channel: u32, ports: seq<EndPoint>): (r: seq<EndPoint>) {
    if ports == [] then []
    else (if ports[0].address == channel then [ports[0]] else []) + OnChannel(channel, ports[1..])
  }

  function Offers(ids: ServiceIDs, at: seq<EndPoint>): (r: seq<Announcement>) {
    if at == [] then [] else [Offer(ids, at[0])] + Offers(ids, at[1..])
  }

  function StopOffers(ids: ServiceIDs, at: seq<EndPoint>): (r: seq<Announcement>) {
    if at == [] then [] else [StopOffer(ids, at[0])] + StopOffers(ids, at[1..])
  }

  /** Where the announcer would say the service is: nothing when no server publishes it. */
  function OfferedAt(servers: seq<TcpServer>, channels: seq<u32>, ids: ServiceIDs): (r: seq<EndPoint>) {
    var i := GetEndPoint(servers, ids);
    if i < |servers| then Matching(channels, servers[i].ports) else []
  }

  function OutboxOf(d: State, c: ClientRef): (r: seq<RegistryMessage>) {
    if c in d.outbox then d.outbox[c] else []
  }

  function OnRegistered(d: State, l: Listener, k: ServiceKey, init: Option<seq<EndPoint>>): (r: State)
    ensures r == d.(servers := r.servers, announced := r.announced, outbox := r.outbox)
  {
    match l
    case TcpListener => if k.isLocal then d.(servers := Bind(d.servers, k, init)) else d
    case AnnouncerListener =>
      d.(announced := d.announced + Offers(k.ids, OfferedAt(d.servers, d.channels, k.ids)))
    case LocalListener(c) => d.(outbox := d.outbox[c := OutboxOf(d, c) + [Registered([k.ids])]])
  }

  function OnUnregistered(d: State, l: Listener, k: ServiceKey): (r: State)
    ensures r == d.(servers := r.servers, announced := r.announced, outbox := r.outbox)
  {
    match l
    case TcpListener => if k.isLocal then d.(servers := Unbind(d.servers, k)) else d
    case AnnouncerListener =>
      d.(announced := d.announced + StopOffers(k.ids, OfferedAt(d.servers, d.channels, k.ids)))
    case LocalListener(c) => d.(outbox := d.outbox[c := OutboxOf(d, c) + [Unregistered([k.ids])]])
  }

  /** Listeners hear of a new service in the order they were added, from position `n`. */
  function NotifyRegistered(d: State, n: nat, k: ServiceKey, init: Option<seq<EndPoint>>): (r: State)
    requires n <= |d.listeners|
    ensures r == d.(servers := r.servers, announced := r.announced, outbox := r.outbox)
    decreases |d.listeners| - n
  {
    if n == |d.listeners| then d else NotifyRegistered(OnRegistered(d, d.listeners[n], k, init), n + 1, k, init)
  }

  /** Listeners hear of a service going away in reverse order; `n` are left. */
  function NotifyUnregistered(d: State, n: nat, k: ServiceKey): (r: State)
    requires n <= |d.listeners|
    ensures r == d.(servers := r.servers, announced := r.announced, outbox := r.outbox)
    decreases n
  {
    if n == 0 then d else NotifyUnregistered(OnUnregistered(d, d.listeners[n - 1], k), n - 1, k)
  }

  // ---- The registry ----

  function Provide(notifications: seq<Notification>, k: ServiceKey): (r: seq<Notification>)
    ensures |r| == |notifications|
    ensures forall i | 0 <= i < |r| ::
      r[i] == if notifications[i].member.service == k.ids then notifications[i].(provider := Some(k)) else notifications[i]
  {
    seq(|notifications|, i requires 0 <= i < |notifications| =>
      if notifications[i].member.service == k.ids then notifications[i].(provider := Some(k)) else notifications[i])
  }

  function Withdraw(notifications: seq<Notification>, k: ServiceKey): (r: seq<Notification>)
    ensures |r| == |notifications|
    ensures forall i | 0 <= i < |r| ::
      r[i] == if notifications[i].provider == Some(k) then notifications[i].(provider := None) else notifications[i]
  {
    seq(|notifications|, i requires 0 <= i < |notifications| =>
      if notifications[i].provider == Some(k) then notifications[i].(provider := None) else notifications[i])
  }

  function AddService(d: State, s: Service): (r: State) {
    d.(services := d.services + [s], history := d.history + [Keys(d.services + [s])])
  }

  function DropService(d: State, k: ServiceKey): (r: State) {
    d.(services := Without(d.services, k), history := d.history + [Keys(Without(d.services, k))])
  }

  /** `registerService`: refused when the IDs are taken. */
  function RegisterService(d: State, s: Service, init: Option<seq<EndPoint>>): (r: State) {
    if Find(d.services, s.key.ids) < |d.services| then d
    else
      var d1 := NotifyRegistered(AddService(d, s), 0, s.key, init);
      d1.(notifications := Provide(d1.notifications, s.key))
  }

  /** A service known from the configuration: local, and nobody provides it yet. */
  function RegisterWellKnown(d: State, ids: ServiceIDs, init: Option<seq<EndPoint>>): (r: State) {
    RegisterService(d.(nextHandle := d.nextHandle + 1), Service(ServiceKey(d.nextHandle, ids, true), None), init)
  }

  function UnregisterService(d: State, k: ServiceKey): (r: State) {
    var d1 := NotifyUnregistered(DropService(d, k), |d.listeners|, k);
    d1.(notifications := Withdraw(d1.notifications, k))
  }

  // ---- Clients ----

  predicate IsRegistered(d: State, c: ClientRef) {
    c in d.clients && d.clients[c].registered
  }

  function WithClient(d: State, c: ClientRef, x: Client): (r: State) {
    d.(clients := d.clients[c := x])
  }

  /** The key of the service the client may use, if registration is allowed. */
  function Granted(d: State, c: ClientRef, ids: ServiceIDs, isLocal: bool): (k: Option<ServiceKey>) {
    var i := Find(d.services, ids);
    if i == |d.services| then Some(ServiceKey(d.nextHandle, ids, isLocal))
    else if isLocal && (d.services[i].client == None || d.services[i].client == Some(c)) then Some(d.services[i].key)
    else None
  }

  /**
   `tryRegisterService`: a known service can be taken over by a local client if nobody has it;
   its own client is told yes again.
   */
  function TryRegister(d: State, c: ClientRef, ids: ServiceIDs, isLocal: bool, init: Option<seq<EndPoint>>): (r: State) {
    var i := Find(d.services, ids);
    if i == |d.services| then
      RegisterService(d.(nextHandle := d.nextHandle + 1),
                      Service(ServiceKey(d.nextHandle, ids, isLocal), Some(c)), init)
    else if isLocal && d.services[i].client == None then
      d.(services := d.services[i := d.services[i].(client := Some(c))])
    else d
  }

  /** `Client::registerService`: what was granted is recorded with the client. */
  function ClientRegister(d: State, c: ClientRef, ids: ServiceIDs, isLocal: bool, init: Option<seq<EndPoint>>): (r: State)
    requires c in d.clients
  {
    var k := Granted(d, c, ids, isLocal);
    var d1 := TryRegister(d, c, ids, isLocal, init);
    if k.None? then d1
    else WithClient(d1, c, d.clients[c].(services := d.clients[c].services + [k.value]))
  }

  function FirstWith(keys: seq<ServiceKey>, ids: ServiceIDs): (i: nat)
    ensures i <= |keys| && (i < |keys| ==> keys[i].ids == ids)
    ensures forall j | 0 <= j < i :: keys[j].ids != ids
  {
    if keys == [] then 0 else if keys[0].ids == ids then 0 else 1 + FirstWith(keys[1..], ids)
  }

  function ClientUnregister(d: State, c: ClientRef, ids: ServiceIDs): (r: State)
    requires c in d.clients
  {
    var keys := d.clients[c].services;
    var i := FirstWith(keys, ids);
    if i == |keys| then d
    else WithClient(UnregisterService(d, keys[i]), c, d.clients[c].(services := keys[..i] + keys[i + 1..]))
  }

  /** Position of the notification for a member, or the number of notifications. */
  function FindNotification(notifications: seq<Notification>, member: MemberIDs): (i: nat)
    ensures i <= |notifications| && (i < |notifications| ==> notifications[i].member == member)
    ensures forall j | 0 <= j < i :: notifications[j].member != member
  {
    if notifications == [] then 0
    else if notifications[0].member == member then 0
    else 1 + FindNotification(notifications[1..], member)
  }

  /** `getOrCreateNotification`: a new one looks its provider up. */
  function WithNotification(d: State, member: MemberIDs): (r: State) {
    if FindNotification(d.notifications, member) < |d.notifications| then d
    else d.(notifications := d.notifications + [Notification(member, [], Lookup(d.services, member.service))])
  }

  function Subscribe(d: State, c: ClientRef, member: MemberIDs): (r: State)
    requires c in d.clients
  {
    var d1 := WithNotification(d, member);
    var i := FindNotification(d.notifications, member);
    var n := d1.notifications[i];
    WithClient(d1.(notifications := d1.notifications[i := n.(subscribers := n.subscribers + [c])]),
               c, d.clients[c].(subscriptions := d.clients[c].subscriptions + [i]))
  }

  function Unsubscribe(notifications: seq<Notification>, i: nat, c: ClientRef): (r: seq<Notification>)
    ensures |r| == |notifications|
  {
    if i < |notifications| then
      notifications[i := notifications[i].(subscribers := RemoveFirst(notifications[i].subscribers, c))]
    else notifications
  }

  function UnsubscribeAll(notifications: seq<Notification>, subscriptions: seq<nat>, c: ClientRef): (r: seq<Notification>)
    ensures |r| == |notifications|
    decreases |subscriptions|
  {
    if subscriptions == [] then notifications
    else UnsubscribeAll(Unsubscribe(notifications, subscriptions[0], c), subscriptions[1..], c)
  }

  function UnregisterAll(d: State, keys: seq<ServiceKey>): (r: State)
    decreases |keys|
  {
    if keys == [] then d else UnregisterAll(UnregisterService(d, keys[0]), keys[1..])
  }

  /** A client object is created, entered in the table and, if local, sent the registry. */
  function Connect(d: State, c: ClientRef, isLocal: bool): (r: State) {
    var d1 := WithClient(d.(table := d.table + [Some(c)]), c, Client(|d.table|, true, [], [], isLocal));
    if isLocal then
      d1.(outbox := d.outbox[c := [Registered(Ids(Keys(d.services)))]], listeners := d.listeners + [LocalListener(c)])
    else d1
  }

  /** `onDisconnected` and `unregisterClient`. */
  function Disconnect(d: State, c: ClientRef): (r: State)
    requires IsRegistered(d, c)
  {
    var x := d.clients[c];
    var d1 := if x.isLocal then d.(listeners := RemoveFirst(d.listeners, LocalListener(c))) else d;
    var d2 := d1.(notifications := UnsubscribeAll(d1.notifications, x.subscriptions, c));
    var d3 := UnregisterAll(d2, x.services);
    var d4 := d3.(table := if x.id < |d3.table| then d3.table[x.id := None] else d3.table,
                  disconnected := d3.disconnected + [c]);
    WithClient(d4, c, x.(registered := false))
  }

  /** `cleanDisconnectedClients`. */
  function CleanUp(d: State): (r: State) {
    d.(clients := map c | c in d.clients && c !in d.disconnected :: d.clients[c],
       deleted := d.deleted + d.disconnected, disconnected := [])
  }

  /** `announceServices`: every local service is offered again. */
  function AnnounceAgain(d: State, n: nat): (r: State)
    requires n <= |d.services|
    ensures r == d.(announced := r.announced)
    decreases |d.services| - n
  {
    if n == |d.services| then d
    else
      var k := d.services[n].key;
      AnnounceAgain(if k.isLocal then OnRegistered(d, AnnouncerListener, k, None) else d, n + 1)
  }

  // ---- Events ----

  datatype Event =
    | ClientConnects(c: ClientRef, isLocal: bool)
    | WellKnownRegisters(ids: ServiceIDs, init: Option<seq<EndPoint>>)
    | ServiceRegisters(c: ClientRef, ids: ServiceIDs, isLocal: bool, init: Option<seq<EndPoint>>)
    | ServiceUnregisters(c: ClientRef, ids: ServiceIDs)
    | ClientSubscribes(c: ClientRef, member: MemberIDs)
    | NotificationSent(member: MemberIDs)
    | ClientDisconnects(c: ClientRef)
    | IdleCleanUp
    | AnnounceTimer

  /** Clients act while they are registered; identifiers are 16 bits and a new object is new. */
  predicate Enabled(d: State, e: Event) {
    match e
    case ClientConnects(c, _) => c !in d.clients && c !in d.deleted && |d.table| < 0x1_0000
    case ServiceRegisters(c, _, _, _) => IsRegistered(d, c)
    case ServiceUnregisters(c, _) => IsRegistered(d, c)
    case ClientSubscribes(c, _) => IsRegistered(d, c)
    case ClientDisconnects(c) => IsRegistered(d, c)
    case _ => true
  }

  function Step(d: State, e: Event): (r: State)
    requires Enabled(d, e)
  {
    match e
    case ClientConnects(c, isLocal) => Connect(d, c, isLocal)
    case WellKnownRegisters(ids, init) => RegisterWellKnown(d, ids, init)
    case ServiceRegisters(c, ids, isLocal, init) => ClientRegister(d, c, ids, isLocal, init)
    case ServiceUnregisters(c, ids) => ClientUnregister(d, c, ids)
    case ClientSubscribes(c, member) => Subscribe(d, c, member)
    case NotificationSent(member) => WithNotification(d, member)
    case ClientDisconnects(c) => Disconnect(d, c)
    case IdleCleanUp => CleanUp(d)
    case AnnounceTimer => AnnounceAgain(d, 0)
  }

  /** `states` is the run of `events` from a fresh daemon. */
  ghost predicate IsRun(channels: seq<u32>, events: seq<Event>, states: seq<State>) {
    && |states| == |events| + 1 && states[0] == Start(channels)
    && forall i {:trigger events[i]} | 0 <= i < |events| ::
         Enabled(states[i], events[i]) && states[i + 1] == Step(states[i], events[i])
  }

  /** Some run of a fresh daemon ends in this state. */
  ghost predicate Reachable(channels: seq<u32>, d: State) {
    exists events, states :: IsRun(channels, events, states) && states[|events|] == d
  }
}
