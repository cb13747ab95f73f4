/**
 What a client that asked twice for a service can do to others without anything being
 undefined: a run after which a registered service is in no replica and on no server.
 */
module StaleService {
  import opened Bytes
  import opened SomeIp
  import opened Announcements
  import opened Lists
  import opened Endpoints
  import opened Daemon
  import opened DaemonInvariant
  import opened Lifecycle
  import opened Ownership
  import opened Replication
  import opened Placement

  /** What there is of clients and services. */
  datatype Scene = Scene(services: seq<Service>, mine: seq<ServiceKey>, theirs: seq<ServiceKey>, nextHandle: nat)

  /** Clients 0 and 1 are there, and have recorded these services. */
  predicate Shows(d: State, s: Scene) {
    && d.services == s.services && d.nextHandle == s.nextHandle
    && IsRegistered(d, 0) && IsRegistered(d, 1) && Listens(d, 1)
    && d.clients[0].services == s.mine && d.clients[1].services == s.theirs
  }

  lemma {:induction false} AsksFirst(d: State, s: Scene, c: ClientRef, ids: ServiceIDs, init: Option<seq<EndPoint>>)
    requires Shows(d, s) && s.services == [] && (c == 0 || c == 1)
    ensures var k := ServiceKey(s.nextHandle, ids, true);
            Shows(ClientRegister(d, c, ids, true, init),
                  Scene([Service(k, Some(c))], if c == 0 then s.mine + [k] else s.mine,
                        if c == 1 then s.theirs + [k] else s.theirs, s.nextHandle + 1))
  {
    RegisterWays(d, c, ids, true, init);
    ClientRegisterProgress(d, c, ids, true, init);
    assert Find(d.services, ids) == |d.services|;
  }

  lemma {:induction false} AsksAgain(d: State, s: Scene, k: ServiceKey, init: Option<seq<EndPoint>>)
    requires Shows(d, s) && s.services == [Service(k, Some(0))]
    ensures Shows(ClientRegister(d, 0, k.ids, true, init), s.(mine := s.mine + [k]))
  {
    RegisterWays(d, 0, k.ids, true, init);
    assert Find(d.services, k.ids) == 0;
  }

  lemma {:induction false} FindsOwn(d: State, s: Scene, k: ServiceKey)
    requires Shows(d, s) && s.services == [Service(k, Some(0))] && s.mine == [k, k]
    ensures !Misses(d, ServiceUnregisters(0, k.ids))
  {
    assert FirstWith([k, k], k.ids) == 0 && Keys(d.services)[0] == k;
    UnregisterMisses(d, 0, k.ids);
  }

  lemma {:induction false} GivesBack(d: State, s: Scene, k: ServiceKey)
    requires Shows(d, s) && s.services == [Service(k, Some(0))] && s.mine == [k, k]
    ensures Shows(ClientUnregister(d, 0, k.ids), s.(services := [], mine := [k]))
  {
    assert FirstWith([k, k], k.ids) == 0;
    assert [k, k][..0] + [k, k][1..] == [k];
    var d1 := UnregisterService(d, k);
    assert d1.services == [];
  }

  lemma {:induction false} Then(channels: seq<u32>, events: seq<Event>, states: seq<State>, e: Event)
    returns (events': seq<Event>, states': seq<State>)
    requires IsRun(channels, events, states) && NothingMissed(events, states)
    requires Enabled(states[|events|], e) && !Misses(states[|events|], e)
    ensures events' == events + [e] && IsRun(channels, events', states') && NothingMissed(events', states')
    ensures states'[|events|] == states[|events|] && states'[|events'|] == Step(states[|events|], e)
  {
    events', states' := events + [e], states + [Step(states[|events|], e)];
    RunExtends(channels, events, states, e);
    forall i | 0 <= i < |events'| ensures !Misses(states'[i], events'[i]) {
      if i < |events| {
        assert events'[i] == events[i] && states'[i] == states[i];
      }
    }
  }

  lemma {:induction false} Begins(channels: seq<u32>) returns (events: seq<Event>, states: seq<State>)
    ensures IsRun(channels, events, states) && NothingMissed(events, states)
    ensures events == [ClientConnects(0, true), ClientConnects(1, true)]
    ensures Shows(states[|events|], Scene([], [], [], 0))
  {
    TwoClientsRun(channels);
    events := [ClientConnects(0, true), ClientConnects(1, true)];
    states := [Start(channels), Connect(Start(channels), 0, true), TwoClients(channels)];
    assert TwoClients(channels).listeners[3] == LocalListener(1);
  }

  lemma {:induction false} Asked(channels: seq<u32>, ids: ServiceIDs, init: Option<seq<EndPoint>>)
    returns (events: seq<Event>, states: seq<State>)
    ensures IsRun(channels, events, states) && NothingMissed(events, states)
    ensures events == [ClientConnects(0, true), ClientConnects(1, true), ServiceRegisters(0, ids, true, init)]
    ensures var k := ServiceKey(0, ids, true);
            Shows(states[|events|], Scene([Service(k, Some(0))], [k], [], 1))
  {
    events, states := Begins(channels);
    AsksFirst(states[|events|], Scene([], [], [], 0), 0, ids, init);
    events, states := Then(channels, events, states, ServiceRegisters(0, ids, true, init));
  }

  lemma {:induction false} AskedTwice(channels: seq<u32>, ids: ServiceIDs, init: Option<seq<EndPoint>>)
    returns (events: seq<Event>, states: seq<State>)
    ensures IsRun(channels, events, states) && NothingMissed(events, states)
    ensures events == [ClientConnects(0, true), ClientConnects(1, true), ServiceRegisters(0, ids, true, init),
                       ServiceRegisters(0, ids, true, init)]
    ensures var k := ServiceKey(0, ids, true);
            Shows(states[|events|], Scene([Service(k, Some(0))], [k, k], [], 1))
  {
    var k := ServiceKey(0, ids, true);
    events, states := Asked(channels, ids, init);
    AsksAgain(states[|events|], Scene([Service(k, Some(0))], [k], [], 1), k, init);
    events, states := Then(channels, events, states, ServiceRegisters(0, ids, true, init));
  }

  lemma {:induction false} GaveBackOnce(channels: seq<u32>, ids: ServiceIDs, init: Option<seq<EndPoint>>)
    returns (events: seq<Event>, states: seq<State>)
    ensures IsRun(channels, events, states) && NothingMissed(events, states)
    ensures events == [ClientConnects(0, true), ClientConnects(1, true), ServiceRegisters(0, ids, true, init),
                       ServiceRegisters(0, ids, true, init), ServiceUnregisters(0, ids)]
    ensures Shows(states[|events|], Scene([], [ServiceKey(0, ids, true)], [], 1))
  {
    var k := ServiceKey(0, ids, true);
    events, states := AskedTwice(channels, ids, init);
    FindsOwn(states[|events|], Scene([Service(k, Some(0))], [k, k], [], 1), k);
    GivesBack(states[|events|], Scene([Service(k, Some(0))], [k, k], [], 1), k);
    events, states := Then(channels, events, states, ServiceUnregisters(0, ids));
  }

  /** Client 0 asks for the service twice and gives it back once; then client 1 takes the IDs. */
  lemma {:induction false} StaleRun(channels: seq<u32>, ids: ServiceIDs, init: Option<seq<EndPoint>>)
    returns (events: seq<Event>, states: seq<State>)
    ensures IsRun(channels, events, states) && NothingMissed(events, states)
    ensures events == [ClientConnects(0, true), ClientConnects(1, true), ServiceRegisters(0, ids, true, init),
                       ServiceRegisters(0, ids, true, init), ServiceUnregisters(0, ids),
                       ServiceRegisters(1, ids, true, init)]
    ensures var k, k' := ServiceKey(0, ids, true), ServiceKey(1, ids, true);
            Shows(states[|events|], Scene([Service(k', Some(1))], [k], [k'], 2)) && states[|events| - 1].services == []
  {
    events, states := GaveBackOnce(channels, ids, init);
    AsksFirst(states[|events|], Scene([], [ServiceKey(0, ids, true)], [], 1), 1, ids, init);
    events, states := Then(channels, events, states, ServiceRegisters(1, ids, true, init));
  }

  lemma {:induction false} StaleTold(channels: seq<u32>, events: seq<Event>, states: seq<State>)
    requires IsRun(channels, events, states) && NothingMissed(events, states) && Listens(states[|events|], 1)
    ensures Inv(states[|events|]) && HistoryInv(states[|events|]) && Told(states[|events|], 1)
  {
    RunKeepsInv(channels, events, states, |events|);
    RunKeepsHistory(channels, events, states, |events|);
    RunTold(channels, events, states, |events|, 1);
  }

  /** The replica of client 1 erases the service that has the IDs now. */
  lemma {:induction false} StaleErases(channels: seq<u32>, events: seq<Event>, states: seq<State>, ids: ServiceIDs)
    requires IsRun(channels, events, states) && NothingMissed(events, states)
    requires var k, k' := ServiceKey(0, ids, true), ServiceKey(1, ids, true);
             Shows(states[|events|], Scene([Service(k', Some(1))], [k], [k'], 2))
    ensures var d := Disconnect(states[|events|], 0);
            Keys(d.services) == [ServiceKey(1, ids, true)] && Replay(OutboxOf(d, 1)) == Some([])
  {
    var d, k, k' := states[|events|], ServiceKey(0, ids, true), ServiceKey(1, ids, true);
    StaleTold(channels, events, states);
    assert Keys(d.services) == [k'] && Ids([k']) == [ids] && RemoveFirst([ids], ids) == [];
    StaleLeaves(d, 0, k, 1);
  }

  /** The service of client 1 was on a server, and is no more. */
  lemma {:induction false} Stranded(
    channels: seq<u32>, events: seq<Event>, states: seq<State>, ids: ServiceIDs, init: Option<seq<EndPoint>>)
    requires IsRun(channels, events, states) && |events| == 7 && init.Some?
    requires events[5] == ServiceRegisters(1, ids, true, init) && events[6] == ClientDisconnects(0)
    requires var k' := ServiceKey(1, ids, true);
             && k' !in Keys(states[5].services) && k' in Keys(states[6].services) && k' in Keys(states[7].services)
    requires IsRegistered(states[6], 0) && ServiceKey(0, ids, true) in states[6].clients[0].services
    ensures var k' := ServiceKey(1, ids, true);
            Held(states[6].servers, k') && !Held(states[7].servers, k')
  {
    var k' := ServiceKey(1, ids, true);
    OnServerIff(channels, events, states, 5, 6, k');
    OnServerIff(channels, events, states, 5, 7, k');
    assert ServiceKey(0, ids, true) in Withdrawn(states[6], events[6]);
    assert Releases(states[6], events[6], ids);
  }

  /**
   Then client 0 disconnects. It unregisters the object that is still on its list, by its IDs:
   client 1's replica erases client 1's own service, and the TCP manager takes it off its
   server, while it stays registered. Nothing is undefined, and both are wrong.
   */
  lemma {:induction false} SilentlyWrong(channels: seq<u32>, ids: ServiceIDs, init: Option<seq<EndPoint>>)
    returns (events: seq<Event>, states: seq<State>)
    ensures IsRun(channels, events, states) && |events| == 7 && events[6] == ClientDisconnects(0)
    ensures var k := ServiceKey(1, ids, true);
            && Keys(states[7].services) == [k] && Replay(OutboxOf(states[7], 1)) == Some([])
            && (init.Some? ==> Held(states[6].servers, k) && !Held(states[7].servers, k))
  {
    var before, past := StaleRun(channels, ids, init);
    events, states := before + [ClientDisconnects(0)], past + [Disconnect(past[|before|], 0)];
    RunExtends(channels, before, past, ClientDisconnects(0));
    StaleErases(channels, before, past, ids);
    if init.Some? {
      Stranded(channels, events, states, ids, init);
    }
  }
}
