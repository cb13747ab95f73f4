/**
 What the daemon's invariant means over whole runs: no reference to a client outlives its
 registration, every client object is deleted once, and identifiers are never reused.
 */
module Lifecycle {
  import opened Bytes
  import opened SomeIp
  import opened Announcements
  import opened Lists
  import opened Endpoints
  import opened Daemon
  import opened DaemonInvariant

  /** Nothing the dispatcher keeps refers to the client. */
  ghost predicate Unreachable(d: State, c: ClientRef) {
    && Some(c) !in d.table
    && (forall s | s in d.services :: s.client != Some(c))
    && (forall i | 0 <= i < |d.notifications| :: c !in d.notifications[i].subscribers)
    && LocalListener(c) !in d.listeners
  }

  /**
   In every state of every run, a client that is not registered, deleted or not, is reachable
   from no table entry, service, subscriber list or listener.
   */
  lemma {:induction false} NothingDangles(
    channels: seq<u32>, events: seq<Event>, states: seq<State>, n: nat, c: ClientRef)
    requires IsRun(channels, events, states) && n < |states| && !IsRegistered(states[n], c)
    ensures Unreachable(states[n], c)
  {
    RunKeepsInv(channels, events, states, n);
  }

  /** The client has been disconnected, whether or not it has been deleted since. */
  ghost predicate Left(d: State, c: ClientRef) {
    (c in d.clients && !d.clients[c].registered) || c in d.deleted
  }

  /** Disconnected clients are pending deletion or deleted, once in all. */
  lemma {:induction false} DeletedOnce(d: State, c: ClientRef)
    requires Inv(d)
    ensures Count(d.disconnected, c) + Count(d.deleted, c) == if Left(d, c) then 1 else 0
  {
    CountIn(d.disconnected, c);
    CountIn(d.deleted, c);
    NoDupCount(d.disconnected, c);
    NoDupCount(d.deleted, c);
  }

  /** No identifier is given to another client. */
  ghost predicate TableGrows(d: State, r: State) {
    && |d.table| <= |r.table|
    && forall i | 0 <= i < |d.table| :: r.table[i] == d.table[i] || r.table[i] == None
  }

  /** A registered client keeps its identifier until it leaves, and does not come back. */
  ghost predicate OneLife(d: State, r: State) {
    && (forall c | Left(d, c) :: Left(r, c))
    && forall c | IsRegistered(d, c) :: Left(r, c) || (c in r.clients && r.clients[c].id == d.clients[c].id)
  }

  lemma {:induction false} DisconnectProgress(d: State, c: ClientRef)
    requires Inv(d) && IsRegistered(d, c)
    ensures TableGrows(d, Disconnect(d, c)) && OneLife(d, Disconnect(d, c)) && Left(Disconnect(d, c), c)
  {
    DisconnectGone(d, c);
  }

  lemma {:induction false} SameLifeProgress(d: State, r: State)
    requires SameLife(d, r)
    ensures TableGrows(d, r) && OneLife(d, r)
  {
  }

  lemma {:induction false} UnregisterProgress(d: State, c: ClientRef, ids: ServiceIDs)
    requires c in d.clients
    ensures SameLife(d, ClientUnregister(d, c, ids))
  {
  }

  lemma {:induction false} RegisterProgress(d: State, s: Service, init: Option<seq<EndPoint>>)
    ensures SameLife(d, RegisterService(d, s, init)) && RegisterService(d, s, init).clients == d.clients
  {
  }

  lemma {:induction false} WellKnownProgress(d: State, ids: ServiceIDs, init: Option<seq<EndPoint>>)
    ensures SameLife(d, RegisterWellKnown(d, ids, init))
  {
    RegisterProgress(d.(nextHandle := d.nextHandle + 1), Service(ServiceKey(d.nextHandle, ids, true), None), init);
  }

  lemma {:induction false} ClientRegisterProgress(
    d: State, c: ClientRef, ids: ServiceIDs, isLocal: bool, init: Option<seq<EndPoint>>)
    requires c in d.clients
    ensures SameLife(d, ClientRegister(d, c, ids, isLocal, init))
  {
    var d1 := d.(nextHandle := d.nextHandle + 1);
    var s := Service(ServiceKey(d.nextHandle, ids, isLocal), Some(c));
    RegisterProgress(d1, s, init);
    var k := Granted(d, c, ids, isLocal);
    var r := TryRegister(d, c, ids, isLocal, init);
    assert SameLife(d, r) && r.clients == d.clients;
    if k.Some? {
      assert ClientRegister(d, c, ids, isLocal, init) ==
             WithClient(r, c, d.clients[c].(services := d.clients[c].services + [k.value]));
    }
  }

  lemma {:induction false} ConnectProgress(d: State, c: ClientRef, isLocal: bool)
    requires Enabled(d, ClientConnects(c, isLocal))
    ensures TableGrows(d, Connect(d, c, isLocal)) && OneLife(d, Connect(d, c, isLocal))
  {
  }

  lemma {:induction false} CleanUpProgress(d: State)
    requires LifeInv(d)
    ensures TableGrows(d, CleanUp(d)) && OneLife(d, CleanUp(d))
  {
    var r := CleanUp(d);
    assert forall x | x in d.disconnected || x in d.deleted :: x in r.deleted;
  }

  lemma {:induction false} StepProgress(d: State, e: Event)
    requires Inv(d) && Enabled(d, e)
    ensures TableGrows(d, Step(d, e)) && OneLife(d, Step(d, e))
  {
    match e
    case ClientDisconnects(c) => DisconnectProgress(d, c);
    case ClientConnects(c, isLocal) => ConnectProgress(d, c, isLocal);
    case IdleCleanUp => CleanUpProgress(d);
    case WellKnownRegisters(ids, init) =>
      WellKnownProgress(d, ids, init);
      SameLifeProgress(d, RegisterWellKnown(d, ids, init));
    case ServiceRegisters(c, ids, isLocal, init) =>
      ClientRegisterProgress(d, c, ids, isLocal, init);
      SameLifeProgress(d, ClientRegister(d, c, ids, isLocal, init));
    case ServiceUnregisters(c, ids) =>
      UnregisterProgress(d, c, ids);
      SameLifeProgress(d, ClientUnregister(d, c, ids));
    case ClientSubscribes(c, member) => SameLifeProgress(d, Subscribe(d, c, member));
    case NotificationSent(member) => SameLifeProgress(d, WithNotification(d, member));
    case AnnounceTimer => SameLifeProgress(d, AnnounceAgain(d, 0));
  }

  lemma {:induction false} ProgressTrans(a: State, b: State, c: State)
    requires TableGrows(a, b) && TableGrows(b, c) && OneLife(a, b) && OneLife(b, c)
    ensures TableGrows(a, c) && OneLife(a, c)
  {
  }

  lemma {:induction false} NextProgress(channels: seq<u32>, events: seq<Event>, states: seq<State>, n: nat)
    requires IsRun(channels, events, states) && n < |events|
    ensures TableGrows(states[n], states[n + 1]) && OneLife(states[n], states[n + 1])
  {
    RunKeepsInv(channels, events, states, n);
    StepProgress(states[n], events[n]);
  }

  lemma {:induction false} RunProgress(channels: seq<u32>, events: seq<Event>, states: seq<State>, m: nat, n: nat)
    requires IsRun(channels, events, states) && m <= n < |states|
    ensures TableGrows(states[m], states[n]) && OneLife(states[m], states[n])
    decreases n - m
  {
    if m < n {
      RunProgress(channels, events, states, m, n - 1);
      NextProgress(channels, events, states, n - 1);
      ProgressTrans(states[m], states[n - 1], states[n]);
    }
  }

  /** From its disconnection on, a client object is counted once among pending and deleted. */
  lemma {:induction false} DisconnectedDeletedOnce(
    channels: seq<u32>, events: seq<Event>, states: seq<State>, m: nat, n: nat, c: ClientRef)
    requires IsRun(channels, events, states) && m < n < |states| && events[m] == ClientDisconnects(c)
    ensures Count(states[n].disconnected, c) + Count(states[n].deleted, c) == 1
    ensures Unreachable(states[n], c)
  {
    RunKeepsInv(channels, events, states, m);
    DisconnectProgress(states[m], c);
    RunProgress(channels, events, states, m + 1, n);
    RunKeepsInv(channels, events, states, n);
    DeletedOnce(states[n], c);
    assert !IsRegistered(states[n], c);
  }

  /** `getClientFromId`. */
  function ClientFromId(d: State, id: nat): (c: Option<ClientRef>) {
    if id < |d.table| then d.table[id] else None
  }

  /**
   An identifier given to a client leads to that client for as long as it is registered and to
   nobody afterwards, however many clients have come and gone.
   */
  lemma {:induction false} IdentifierNeverReused(
    channels: seq<u32>, events: seq<Event>, states: seq<State>, m: nat, n: nat, c: ClientRef)
    requires IsRun(channels, events, states) && m <= n < |states| && IsRegistered(states[m], c)
    ensures ClientFromId(states[n], states[m].clients[c].id) == if IsRegistered(states[n], c) then Some(c) else None
  {
    RunKeepsInv(channels, events, states, m);
    RunKeepsInv(channels, events, states, n);
    RunProgress(channels, events, states, m, n);
    assert Left(states[n], c) ==> !IsRegistered(states[n], c);
  }

  /** An idle moment deletes every client that has left. */
  lemma {:induction false} NobodyWaitsAfterCleanUp(d: State, c: ClientRef)
    requires Inv(d) && Left(d, c)
    ensures c in CleanUp(d).deleted && c !in CleanUp(d).clients
  {
    var r := CleanUp(d);
    assert c in d.deleted || c in d.disconnected;
    assert forall x | x in d.disconnected :: x in r.deleted;
  }

  // ---- What every state of a run satisfies ----

  /** A client is in a subscriber list as often as the client itself has recorded it. */
  lemma {:induction false} SubscriptionsAgree(
    channels: seq<u32>, events: seq<Event>, states: seq<State>, n: nat, c: ClientRef, i: nat)
    requires IsRun(channels, events, states) && n < |states|
    requires IsRegistered(states[n], c) && i < |states[n].notifications|
    ensures Count(states[n].notifications[i].subscribers, c) == Count(states[n].clients[c].subscriptions, i)
  {
    RunKeepsInv(channels, events, states, n);
    assert Agree(states[n], c, i);
  }

  /**
   No two services have the same IDs, no two notifications the same member, and the provider a
   notification has cached is the one a lookup by its service IDs finds.
   */
  lemma {:induction false} RegistryConsistent(channels: seq<u32>, events: seq<Event>, states: seq<State>, n: nat)
    requires IsRun(channels, events, states) && n < |states|
    ensures var d := states[n];
            && (forall i, j | 0 <= i < j < |d.services| :: d.services[i].key.ids != d.services[j].key.ids)
            && (forall i, j | 0 <= i < j < |d.notifications| :: d.notifications[i].member != d.notifications[j].member)
            && forall i | 0 <= i < |d.notifications| ::
                 d.notifications[i].provider == Lookup(d.services, d.notifications[i].member.service)
  {
    RunKeepsInv(channels, events, states, n);
  }

  // ---- A short run ----

  /** Two local clients have connected. */
  function TwoClients(channels: seq<u32>): (d: State) {
    Connect(Connect(Start(channels), 0, true), 1, true)
  }

  lemma {:induction false} TwoClientsRun(channels: seq<u32>)
    ensures var d := Start(channels);
            IsRun(channels, [ClientConnects(0, true), ClientConnects(1, true)],
                  [d, Connect(d, 0, true), TwoClients(channels)])
    ensures var d := TwoClients(channels);
            && d.table == [Some(0), Some(1)] && d.services == [] && d.nextHandle == 0
            && d.listeners == [TcpListener, AnnouncerListener, LocalListener(0), LocalListener(1)]
            && d.clients == map[0 := Client(0, true, [], [], true), 1 := Client(1, true, [], [], true)]
    ensures Reachable(channels, TwoClients(channels))
  {
    var d := Start(channels);
    var events := [ClientConnects(0, true), ClientConnects(1, true)];
    var states := [d, Connect(d, 0, true), TwoClients(channels)];
    assert IsRun(channels, events, states) && states[|events|] == TwoClients(channels);
  }
}
