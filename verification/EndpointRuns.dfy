/**
 How many TCP servers there are over whole runs of the daemon, when every server that is
 needed can be opened and every unregistration finds its service.
 */
module EndpointRuns {
  import opened Bytes
  import opened SomeIp
  import opened Announcements
  import opened Endpoints
  import opened Daemon
  import opened DaemonInvariant
  import opened Effects
  import opened Ownership
  import opened Placement

  ghost predicate PlaceInv(d: State) {
    Placed(d.servers, Local(Keys(d.services)))
  }

  /** `n` is the largest number of local instances of one service ID there has been at one moment. */
  ghost predicate IsPeak(history: seq<seq<ServiceKey>>, n: nat) {
    && (forall i, id: u16 | 0 <= i < |history| :: IdCount(Local(history[i]), id) <= n)
    && exists i, id: u16 :: 0 <= i < |history| && IdCount(Local(history[i]), id) == n
  }

  ghost predicate Served(d: State) {
    PlaceInv(d) && IsPeak(d.history, |d.servers|)
  }

  // ---- A service comes ----

  /** The list of local services and the servers after a registration. */
  lemma {:induction false} GainedPlaces(d: State, r: State, k: ServiceKey, init: Option<seq<EndPoint>>)
    requires PlaceInv(d) && Gained(d, r, k, init) && CanPlace(d, k, init) && DistinctIds(Keys(r.services))
    ensures PlaceInv(r) && |d.servers| <= |r.servers|
    ensures |r.servers| > |d.servers| ==> IdCount(Local(Keys(r.services)), k.ids.serviceID) == |r.servers|
  {
    var keys := Local(Keys(d.services));
    LocalAppend(Keys(d.services), k);
    LocalDistinct(Keys(r.services));
    if k.isLocal {
      BindKeepsPlaced(d.servers, keys, k, init);
    } else {
      assert keys + [] == keys;
    }
  }

  lemma {:induction false} PeakGrows(history: seq<seq<ServiceKey>>, n: nat, keys: seq<ServiceKey>, n': nat, id: u16)
    requires IsPeak(history, n) && n <= n' && forall x: u16 :: IdCount(Local(keys), x) <= n'
    requires n' > n ==> IdCount(Local(keys), id) == n'
    ensures IsPeak(history + [keys], n')
  {
    var history' := history + [keys];
    if n' == n {
      var i, x: u16 :| 0 <= i < |history| && IdCount(Local(history[i]), x) == n;
      assert history'[i] == history[i];
    } else {
      assert history'[|history|] == keys;
    }
  }

  lemma {:induction false} CountsBounded(servers: seq<TcpServer>, keys: seq<ServiceKey>)
    requires Placed(servers, keys)
    ensures forall id: u16 :: IdCount(keys, id) <= |servers|
  {
    forall id: u16 ensures IdCount(keys, id) <= |servers| {
      assert HoldCount(servers, id) == IdCount(keys, id);
    }
  }

  lemma {:induction false} GainedServed(d: State, r: State, k: ServiceKey, init: Option<seq<EndPoint>>)
    requires Served(d) && Gained(d, r, k, init) && CanPlace(d, k, init) && DistinctIds(Keys(r.services))
    ensures Served(r)
  {
    GainedPlaces(d, r, k, init);
    CountsBounded(r.servers, Local(Keys(r.services)));
    PeakGrows(d.history, |d.servers|, Keys(r.services), |r.servers|, k.ids.serviceID);
  }

  // ---- A service goes ----

  lemma {:induction false} LostServed(d: State, r: State, k: ServiceKey)
    requires Served(d) && Lost(d, r, k) && k in Keys(d.services)
    ensures Served(r)
  {
    LocalRemove(Keys(d.services), k);
    LocalMembers(Keys(d.services), k);
    if k.isLocal {
      UnbindKeepsPlaced(d.servers, Local(Keys(d.services)), k);
    }
    CountsBounded(r.servers, Local(Keys(r.services)));
    PeakGrows(d.history, |d.servers|, Keys(r.services), |r.servers|, 0);
  }

  lemma {:induction false} LoseAllServed(d: State, keys: seq<ServiceKey>)
    requires Served(d) && ListenerShape(d.listeners) && Finds(Keys(d.services), keys)
    ensures Served(UnregisterAll(d, keys))
    decreases |keys|
  {
    if keys != [] {
      var d1 := UnregisterService(d, keys[0]);
      UnregisterLoses(d, keys[0]);
      LostServed(d, d1, keys[0]);
      LoseAllServed(d1, keys[1..]);
    }
  }

  // ---- Runs ----

  lemma {:induction false} SameServed(d: State, r: State)
    requires Served(d) && Keys(r.services) == Keys(d.services) && r.history == d.history && r.servers == d.servers
    ensures Served(r)
  {
  }

  lemma {:induction false} WellKnownServed(d: State, ids: ServiceIDs, init: Option<seq<EndPoint>>)
    requires Inv(d) && Served(d) && InitSucceeds(d, WellKnownRegisters(ids, init))
    ensures Served(RegisterWellKnown(d, ids, init))
  {
    var r := RegisterWellKnown(d, ids, init);
    WellKnownGains(d, ids, init);
    if IsNew(d, ids) {
      GainedServed(d, r, ServiceKey(d.nextHandle, ids, true), init);
    } else {
      SameServed(d, r);
    }
  }

  lemma {:induction false} RegisterServed(
    d: State, c: ClientRef, ids: ServiceIDs, isLocal: bool, init: Option<seq<EndPoint>>)
    requires Inv(d) && Served(d) && IsRegistered(d, c) && InitSucceeds(d, ServiceRegisters(c, ids, isLocal, init))
    ensures Served(ClientRegister(d, c, ids, isLocal, init))
  {
    var r := ClientRegister(d, c, ids, isLocal, init);
    RegisterGainsOrNot(d, c, ids, isLocal, init);
    if IsNew(d, ids) {
      GainedServed(d, r, ServiceKey(d.nextHandle, ids, isLocal), init);
    } else {
      SameServed(d, r);
    }
  }

  lemma {:induction false} UnregisterServed(d: State, c: ClientRef, ids: ServiceIDs)
    requires Inv(d) && Served(d) && IsRegistered(d, c) && !Misses(d, ServiceUnregisters(c, ids))
    ensures Served(ClientUnregister(d, c, ids))
  {
    var keys := d.clients[c].services;
    UnregisterMisses(d, c, ids);
    UnregisterOutcome(d, c, ids);
    if FirstWith(keys, ids) < |keys| {
      LostServed(d, ClientUnregister(d, c, ids), keys[FirstWith(keys, ids)]);
    }
  }

  lemma {:induction false} DisconnectServed(d: State, c: ClientRef)
    requires Inv(d) && Served(d) && IsRegistered(d, c) && Finds(Keys(d.services), d.clients[c].services)
    ensures Served(Disconnect(d, c))
  {
    var d2, keys := Muted(d, c), d.clients[c].services;
    DisconnectOutcome(d, c);
    SameServed(d, d2);
    LoseAllServed(d2, keys);
    SameServed(UnregisterAll(d2, keys), Disconnect(d, c));
  }

  lemma {:induction false} StepServed(d: State, e: Event)
    requires Inv(d) && Served(d) && Enabled(d, e) && !Misses(d, e) && InitSucceeds(d, e)
    ensures Served(Step(d, e))
  {
    match e
    case ClientConnects(c, isLocal) => SameServed(d, Connect(d, c, isLocal));
    case WellKnownRegisters(ids, init) => WellKnownServed(d, ids, init);
    case ServiceRegisters(c, ids, isLocal, init) => RegisterServed(d, c, ids, isLocal, init);
    case ServiceUnregisters(c, ids) => UnregisterServed(d, c, ids);
    case ClientSubscribes(c, member) => SameServed(d, Subscribe(d, c, member));
    case NotificationSent(member) => SameServed(d, WithNotification(d, member));
    case ClientDisconnects(c) =>
      DisconnectMisses(d, c);
      DisconnectServed(d, c);
    case IdleCleanUp => SameServed(d, CleanUp(d));
    case AnnounceTimer => SameServed(d, AnnounceAgain(d, 0));
  }

  lemma {:induction false} StartServed(channels: seq<u32>)
    ensures Served(Start(channels))
  {
    var d := Start(channels);
    assert Keys(d.services) == [] && Local([]) == [];
    assert IsPeak(d.history, 0) by {
      assert d.history[0] == [] && IdCount(Local(d.history[0]), 0) == 0;
    }
  }

  ghost predicate InitsSucceed(events: seq<Event>, states: seq<State>) {
    |states| > |events| && forall i {:trigger events[i]} | 0 <= i < |events| :: InitSucceeds(states[i], events[i])
  }

  ghost predicate GoodRun(channels: seq<u32>, events: seq<Event>, states: seq<State>) {
    IsRun(channels, events, states) && NothingMissed(events, states) && InitsSucceed(events, states)
  }

  lemma {:induction false} RunServed(channels: seq<u32>, events: seq<Event>, states: seq<State>, n: nat)
    requires GoodRun(channels, events, states) && n < |states|
    ensures Served(states[n])
  {
    if n == 0 {
      StartServed(channels);
    } else {
      RunServed(channels, events, states, n - 1);
      RunKeepsInv(channels, events, states, n - 1);
      StepServed(states[n - 1], events[n - 1]);
    }
  }

  /**
   Each registered local service is on exactly one server, a server has at most one instance
   of a service ID and nothing that is not registered, and there are as many servers as there
   ever were instances of one service ID at a time.
   */
  lemma {:induction false} OneServerEach(channels: seq<u32>, events: seq<Event>, states: seq<State>, n: nat)
    requires GoodRun(channels, events, states) && n < |states|
    ensures var d := states[n];
            && (forall k | k in Keys(d.services) && k.isLocal ::
                  exists i :: 0 <= i < |d.servers| && Holds(d.servers[i], k) &&
                    forall j | 0 <= j < |d.servers| && Holds(d.servers[j], k) :: j == i)
            && (forall i, id | 0 <= i < |d.servers| && id in d.servers[i].services ::
                  var k := d.servers[i].services[id];
                  k in Keys(d.services) && k.isLocal && k.ids.serviceID == id)
            && IsPeak(d.history, |d.servers|)
  {
    RunServed(channels, events, states, n);
    ServersHoldRegistered(channels, events, states, n);
    var d := states[n];
    forall k | k in Keys(d.services) && k.isLocal
      ensures exists i :: 0 <= i < |d.servers| && Holds(d.servers[i], k) &&
                forall j | 0 <= j < |d.servers| && Holds(d.servers[j], k) :: j == i
    {
      LocalMembers(Keys(d.services), k);
      var i :| 0 <= i < |d.servers| && Holds(d.servers[i], k);
    }
  }
}
