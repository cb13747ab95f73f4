/**
 Services started on demand inside the daemon (daemon/Activation.cpp, lib/Dispatcher.cpp): what
 becomes of a request that is routed to a well-known service, from the moment its process is
 started to the moment a client registers the service and takes it over.
 */
module OnDemand {
  import opened Bytes
  import opened SomeIp
  import opened Endpoints
  import opened Daemon
  import opened DaemonInvariant
  import opened Effects
  import opened Ownership
  import opened Routing
  import A = Activation
  import Announcements

  type Well = A.Activatable<Msg>

  /** A request that a service object has passed on to its client. */
  datatype Passed = Passed(k: ServiceKey, c: ClientRef, m: Msg)

  /** The daemon, its well-known service objects, and all requests passed on so far. */
  datatype Hub = Hub(daemon: State, wells: map<ServiceKey, Well>, log: seq<Passed>)

  function StartHub(channels: seq<u32>): (h: Hub) {
    Hub(Start(channels), map[], [])
  }

  datatype Happening =
    | DaemonActs(e: Event)
    /** A client sends a request; `launch` is how starting a process would end, if it comes to that. */
    | RequestSent(m: Msg, from: ClientRef, launch: A.Launch)

  predicate CanHappen(h: Hub, x: Happening) {
    match x
    case DaemonActs(e) => Enabled(h.daemon, e)
    case RequestSent(m, from, _) => IsRequest(m) && IsRegistered(h.daemon, from)
  }

  function AllPassed(k: ServiceKey, c: ClientRef, ms: seq<Msg>): (r: seq<Passed>) {
    if ms == [] then [] else [Passed(k, c, ms[0])] + AllPassed(k, c, ms[1..])
  }

  /** The requests among what the dispatcher sends that go to a client, on behalf of a service. */
  function PassedOn(k: ServiceKey, sent: seq<Delivery>): (r: seq<Passed>) {
    if sent == [] then []
    else (if sent[0].ToClient? then [Passed(k, sent[0].c, sent[0].m)] else []) + PassedOn(k, sent[1..])
  }

  /** The well-known service a client takes over by registering it, if it does. */
  function TakenOver(h: Hub, e: Event): (k: Option<ServiceKey>)
    ensures k.Some? ==> k.value in h.wells && e.ServiceRegisters?
  {
    if !e.ServiceRegisters? || !e.isLocal then None
    else
      var i := Find(h.daemon.services, e.ids);
      if i < |h.daemon.services| && h.daemon.services[i].key in h.wells && h.wells[h.daemon.services[i].key].client.None?
      then Some(h.daemon.services[i].key)
      else None
  }

  /** A new well-known service object, or one that gets its client. */
  function WellsAfter(h: Hub, e: Event): (wells: map<ServiceKey, Well>) {
    var k := TakenOver(h, e);
    if e.WellKnownRegisters? && Find(h.daemon.services, e.ids) == |h.daemon.services| then
      h.wells[ServiceKey(h.daemon.nextHandle, e.ids, true) := A.NewService()]
    else if k.Some? then h.wells[k.value := A.Connected(h.wells[k.value], e.c)]
    else h.wells
  }

  /** An object that is taken over passes on what waits. */
  function LogAfter(h: Hub, e: Event): (log: seq<Passed>) {
    var k := TakenOver(h, e);
    if k.Some? then h.log + AllPassed(k.value, e.c, h.wells[k.value].pending) else h.log
  }

  function DaemonNext(h: Hub, e: Event): (h': Hub)
    requires Enabled(h.daemon, e)
  {
    Hub(Step(h.daemon, e), WellsAfter(h, e), LogAfter(h, e))
  }

  /** The request as the dispatcher marks it. */
  function Request(d: State, m: Msg, from: ClientRef): (r: Msg) {
    Marked(m, IdOf(d, from))
  }

  /** The service object a request is for: it is passed on, kept, answered or ends in an exception. */
  function RequestNext(h: Hub, m: Msg, from: ClientRef, launch: A.Launch): (h': Hub) {
    var d := h.daemon;
    var k := Lookup(d.services, ServiceOf(m));
    if k.None? then h
    else
      Hub(d,
          if k.value !in h.wells then h.wells
          else h.wells[k.value := A.Given(h.wells[k.value], Request(d, m, from), launch)],
          h.log + PassedOn(k.value, Dispatch(d, m, from, IdOf(d, from))))
  }

  function Next(h: Hub, x: Happening): (h': Hub)
    requires CanHappen(h, x)
  {
    match x
    case DaemonActs(e) => DaemonNext(h, e)
    case RequestSent(m, from, launch) => RequestNext(h, m, from, launch)
  }

  ghost predicate IsHistory(channels: seq<u32>, happenings: seq<Happening>, hubs: seq<Hub>) {
    && |hubs| == |happenings| + 1 && hubs[0] == StartHub(channels)
    && forall i {:trigger happenings[i]} | 0 <= i < |happenings| ::
         CanHappen(hubs[i], happenings[i]) && hubs[i + 1] == Next(hubs[i], happenings[i])
  }

  // ---- Service objects and their clients ----

  ghost predicate Listed(d: State, k: ServiceKey) {
    exists c :: c in d.clients && k in d.clients[c].services
  }

  /** A service nobody provides is well known and on nobody's list. */
  ghost predicate UnownedInv(d: State, wells: map<ServiceKey, Well>) {
    forall s | s in d.services && s.client.None? :: s.key in wells && !Listed(d, s.key)
  }

  /** The object knows the client the registry says it has; an object that is gone had one. */
  ghost predicate ClientsInv(d: State, wells: map<ServiceKey, Well>) {
    && (forall s | s in d.services && s.key in wells :: wells[s.key].client == s.client)
    && (forall k | k in wells && k !in Keys(d.services) :: wells[k].client.Some?)
    && forall k | k in wells :: k.handle < d.nextHandle
  }

  /** The requests passed on by a service object, in order. */
  function Requests(log: seq<Passed>, k: ServiceKey): (ms: seq<Msg>) {
    if log == [] then []
    else Requests(log[..|log| - 1], k) + if log[|log| - 1].k == k then [log[|log| - 1].m] else []
  }

  /** What an object has delivered is what was passed on, and all to its client. */
  ghost predicate LogOf(log: seq<Passed>, k: ServiceKey, s: Well) {
    && A.Inv(s) && Requests(log, k) == s.delivered
    && forall i | 0 <= i < |log| && log[i].k == k :: s.client == Some(log[i].c)
  }

  ghost predicate LogInv(h: Hub) {
    && (forall k | k in h.wells :: LogOf(h.log, k, h.wells[k]))
    && forall i | 0 <= i < |h.log| :: h.log[i].k.handle < h.daemon.nextHandle
  }

  ghost predicate HubInv(h: Hub) {
    Inv(h.daemon) && UnownedInv(h.daemon, h.wells) && ClientsInv(h.daemon, h.wells) && LogInv(h)
  }

  // ---- Services come and go ----

  /** Only listed services go, and nobody's list grows. */
  ghost predicate Shrinks(d: State, r: State) {
    && (forall s | s in r.services :: s in d.services)
    && (forall s | s in d.services && s !in r.services :: Listed(d, s.key))
    && (forall k | Listed(r, k) :: Listed(d, k))
    && d.nextHandle <= r.nextHandle
  }

  lemma {:induction false} ServiceOfKey(services: seq<Service>, k: ServiceKey) returns (s: Service)
    requires k in Keys(services)
    ensures s in services && s.key == k
  {
    var i :| 0 <= i < |services| && Keys(services)[i] == k;
    s := services[i];
  }

  lemma {:induction false} ShrinksKeeps(d: State, r: State, wells: map<ServiceKey, Well>)
    requires UnownedInv(d, wells) && ClientsInv(d, wells) && Shrinks(d, r)
    ensures UnownedInv(r, wells) && ClientsInv(r, wells)
  {
    forall k | k in wells && k !in Keys(r.services) ensures wells[k].client.Some? {
      if k in Keys(d.services) {
        var s := ServiceOfKey(d.services, k);
        assert s !in r.services by {
          if s in r.services {
            KeyListed(r.services, s);
          }
        }
      }
    }
  }

  lemma {:induction false} OneGoneShrinks(d: State, r: State, c: ClientRef, i: nat)
    requires DistinctServices(d.services) && c in d.clients && i < |d.clients[c].services|
    requires var keys := d.clients[c].services;
             && r.services == Without(d.services, keys[i]) && r.nextHandle == d.nextHandle
             && r.clients == d.clients[c := d.clients[c].(services := keys[..i] + keys[i + 1..])]
    ensures Shrinks(d, r)
  {
    var keys := d.clients[c].services;
    assert keys[i] in keys && Listed(d, keys[i]);
    forall s ensures s in r.services <==> s in d.services && s.key != keys[i] {
      WithoutMembers(d.services, keys[i], s);
    }
    assert forall k | k in keys[..i] + keys[i + 1..] :: k in keys;
  }

  lemma {:induction false} UnregisterShrinks(d: State, c: ClientRef, ids: ServiceIDs)
    requires Inv(d) && IsRegistered(d, c)
    ensures Shrinks(d, ClientUnregister(d, c, ids))
  {
    var keys := d.clients[c].services;
    var i := FirstWith(keys, ids);
    if i < |keys| {
      OneGoneShrinks(d, ClientUnregister(d, c, ids), c, i);
    } else {
      SameShrinks(d, d);
    }
  }

  lemma {:induction false} DisconnectShrinks(d: State, c: ClientRef)
    requires Inv(d) && IsRegistered(d, c)
    ensures Shrinks(d, Disconnect(d, c))
  {
    DisconnectGone(d, c);
  }

  lemma {:induction false} SameShrinks(d: State, r: State)
    requires r.services == d.services && r.nextHandle == d.nextHandle
    requires forall c | c in r.clients && r.clients[c].services != [] ::
      c in d.clients && r.clients[c].services == d.clients[c].services
    ensures Shrinks(d, r)
  {
  }

  /** Every event but a registration. */
  lemma {:induction false} OtherShrinks(d: State, e: Event)
    requires Inv(d) && Enabled(d, e) && !e.ServiceRegisters? && !e.WellKnownRegisters?
    ensures Shrinks(d, Step(d, e))
  {
    match e
    case ClientConnects(c, isLocal) => SameShrinks(d, Connect(d, c, isLocal));
    case ServiceUnregisters(c, ids) => UnregisterShrinks(d, c, ids);
    case ClientSubscribes(c, member) => SameShrinks(d, Subscribe(d, c, member));
    case NotificationSent(member) => SameShrinks(d, WithNotification(d, member));
    case ClientDisconnects(c) => DisconnectShrinks(d, c);
    case IdleCleanUp => SameShrinks(d, CleanUp(d));
    case AnnounceTimer => SameShrinks(d, AnnounceAgain(d, 0));
  }

  // ---- Registrations ----

  lemma {:induction false} NewWell(d: State, r: State, wells: map<ServiceKey, Well>, k: ServiceKey)
    requires ServiceInv(d) && UnownedInv(d, wells) && ClientsInv(d, wells) && k.handle == d.nextHandle
    requires r.services == d.services + [Service(k, None)] && r.clients == d.clients && r.nextHandle == d.nextHandle + 1
    ensures UnownedInv(r, wells[k := A.NewService()]) && ClientsInv(r, wells[k := A.NewService()])
  {
    assert !Listed(r, k);
    assert forall x :: Listed(r, x) <==> Listed(d, x);
    KeysAppend(d.services, Service(k, None));
  }

  /** A client's own new service. */
  lemma {:induction false} NewOwned(d: State, r: State, wells: map<ServiceKey, Well>, c: ClientRef, k: ServiceKey)
    requires ServiceInv(d) && UnownedInv(d, wells) && ClientsInv(d, wells) && k.handle == d.nextHandle && c in d.clients
    requires r.services == d.services + [Service(k, Some(c))] && r.nextHandle == d.nextHandle + 1
    requires r.clients == d.clients[c := d.clients[c].(services := d.clients[c].services + [k])]
    ensures UnownedInv(r, wells) && ClientsInv(r, wells)
  {
    ListGrows(d, r, c, k);
    KeysAppend(d.services, Service(k, Some(c)));
  }

  lemma {:induction false} ListGrows(d: State, r: State, c: ClientRef, k: ServiceKey)
    requires c in d.clients && r.clients == d.clients[c := d.clients[c].(services := d.clients[c].services + [k])]
    ensures forall x | Listed(r, x) :: Listed(d, x) || x == k
  {
    forall x | Listed(r, x) ensures Listed(d, x) || x == k {
      var y :| y in r.clients && x in r.clients[y].services;
      assert x != k ==> x in d.clients[y].services;
    }
  }

  /** A client asks again for its own service. */
  lemma {:induction false} AskedAgain(d: State, wells: map<ServiceKey, Well>, c: ClientRef, s: Service)
    requires ServiceInv(d) && UnownedInv(d, wells) && ClientsInv(d, wells) && c in d.clients
    requires s in d.services && s.client.Some?
    ensures UnownedInv(Owning(d, c, s.key), wells) && ClientsInv(Owning(d, c, s.key), wells)
  {
    var r := Owning(d, c, s.key);
    ListGrows(d, r, c, s.key);
    forall x | x in r.services && x.client.None? ensures x.key != s.key {
      SameKeySameService(d.services, x, s);
    }
  }

  lemma {:induction false} TakenServices(d: State, i: nat, c: ClientRef, x: Service)
    requires DistinctServices(d.services) && i < |d.services|
    ensures x in Taken(d, i, c).services <==>
            (x in d.services && x.key != d.services[i].key) || x == Service(d.services[i].key, Some(c))
  {
    var r := Taken(d, i, c);
    if x in d.services && x.key != d.services[i].key {
      var j :| 0 <= j < |d.services| && d.services[j] == x;
      assert r.services[j] == x;
    }
    if x in r.services {
      var j :| 0 <= j < |d.services| && r.services[j] == x;
      assert j != i ==> d.services[j] == x && d.services[j].key.ids != d.services[i].key.ids;
    }
    assert r.services[i] == Service(d.services[i].key, Some(c));
  }

  /** A client takes over a well-known service. */
  lemma {:induction false} TakeOver(d: State, wells: map<ServiceKey, Well>, i: nat, c: ClientRef)
    requires ServiceInv(d) && UnownedInv(d, wells) && ClientsInv(d, wells) && c in d.clients
    requires i < |d.services| && d.services[i].client.None?
    ensures var k := d.services[i].key;
            && k in wells && wells[k].client.None?
            && var r, wells' := Owning(Taken(d, i, c), c, k), wells[k := A.Connected(wells[k], c)];
               UnownedInv(r, wells') && ClientsInv(r, wells')
  {
    var k := d.services[i].key;
    assert d.services[i] in d.services;
    var r, wells' := Owning(Taken(d, i, c), c, k), wells[k := A.Connected(wells[k], c)];
    forall x ensures x in r.services <==> (x in d.services && x.key != k) || x == Service(k, Some(c)) {
      TakenServices(d, i, c, x);
    }
    assert UnownedInv(r, wells') by { ListGrows(d, r, c, k); }
    assert Keys(r.services) == Keys(d.services);
    assert ClientsInv(r, wells');
  }

  // ---- The log ----

  lemma {:induction false} RequestsOne(log: seq<Passed>, p: Passed, k: ServiceKey)
    ensures Requests(log + [p], k) == Requests(log, k) + if p.k == k then [p.m] else []
  {
    assert (log + [p])[..|log|] == log;
  }

  lemma {:induction false} RequestsAll(log: seq<Passed>, x: ServiceKey, c: ClientRef, ms: seq<Msg>, k: ServiceKey)
    ensures Requests(log + AllPassed(x, c, ms), k) == Requests(log, k) + if x == k then ms else []
    decreases |ms|
  {
    var before := Requests(log, k);
    if ms == [] {
      assert log + [] == log && before + [] == before;
    } else {
      var p := Passed(x, c, ms[0]);
      RequestsOne(log, p, k);
      RequestsAll(log + [p], x, c, ms[1..], k);
      assert log + AllPassed(x, c, ms) == log + [p] + AllPassed(x, c, ms[1..]);
      assert before + [ms[0]] + ms[1..] == before + ms && before + [] + [] == before + [];
    }
  }

  lemma {:induction false} AllPassedTo(k: ServiceKey, c: ClientRef, ms: seq<Msg>)
    ensures forall p | p in AllPassed(k, c, ms) :: p.k == k && p.c == c
  {
    if ms != [] {
      AllPassedTo(k, c, ms[1..]);
    }
  }

  lemma {:induction false} NoRequests(log: seq<Passed>, k: ServiceKey)
    requires forall i | 0 <= i < |log| :: log[i].k != k
    ensures Requests(log, k) == []
  {
    if log != [] {
      NoRequests(log[..|log| - 1], k);
    }
  }

  /** More is passed on by other objects only. */
  lemma {:induction false} OthersPass(log: seq<Passed>, more: seq<Passed>, k: ServiceKey, s: Well)
    requires LogOf(log, k, s) && Requests(log + more, k) == Requests(log, k) && forall p | p in more :: p.k != k
    ensures LogOf(log + more, k, s)
  {
    var all := log + more;
    assert forall j | 0 <= j < |more| :: more[j] in more;
    assert forall i | 0 <= i < |all| :: all[i] == if i < |log| then log[i] else more[i - |log|];
  }

  lemma {:induction false} TakenOverLog(log: seq<Passed>, k: ServiceKey, s: Well, c: ClientRef)
    requires LogOf(log, k, s) && s.client.None?
    ensures LogOf(log + AllPassed(k, c, s.pending), k, A.Connected(s, c))
  {
    var more := AllPassed(k, c, s.pending);
    RequestsAll(log, k, c, s.pending, k);
    AllPassedTo(k, c, s.pending);
    A.StepKeepsInv(s, A.Connect(c));
    forall i | 0 <= i < |log + more| && (log + more)[i].k == k ensures (log + more)[i].c == c {
      assert i < |log| || (log + more)[i] in more;
    }
  }

  lemma {:induction false} GivenLog(log: seq<Passed>, k: ServiceKey, s: Well, m: Msg, launch: A.Launch)
    requires LogOf(log, k, s)
    ensures LogOf(log + if s.client.Some? then [Passed(k, s.client.value, m)] else [], k, A.Given(s, m, launch))
  {
    A.StepKeepsInv(s, A.Send(m, launch));
    if s.client.Some? {
      RequestsOne(log, Passed(k, s.client.value, m), k);
    } else {
      assert log + [] == log;
    }
  }

  // ---- What every history keeps ----

  lemma {:induction false} SameLog(h: Hub, r: State)
    requires LogInv(h) && h.daemon.nextHandle <= r.nextHandle
    ensures LogInv(Hub(r, h.wells, h.log))
  {
  }

  lemma {:induction false} NewWellLog(h: Hub, r: State, k: ServiceKey)
    requires LogInv(h) && k.handle == h.daemon.nextHandle < r.nextHandle
    ensures LogInv(Hub(r, h.wells[k := A.NewService()], h.log))
  {
    assert forall i | 0 <= i < |h.log| :: h.log[i].k != k;
    NoRequests(h.log, k);
  }

  lemma {:induction false} WellKnownWays(d: State, ids: ServiceIDs, init: Option<seq<Announcements.EndPoint>>)
    ensures var r := RegisterWellKnown(d, ids, init);
            && r.clients == d.clients && r.nextHandle == d.nextHandle + 1
            && r.services == if Find(d.services, ids) < |d.services| then d.services
                             else d.services + [Service(ServiceKey(d.nextHandle, ids, true), None)]
  {
  }

  lemma {:induction false} WellKnownHub(h: Hub, ids: ServiceIDs, init: Option<seq<Announcements.EndPoint>>)
    requires HubInv(h)
    ensures HubInv(DaemonNext(h, WellKnownRegisters(ids, init)))
  {
    var d, e := h.daemon, WellKnownRegisters(ids, init);
    var r, k := RegisterWellKnown(d, ids, init), ServiceKey(d.nextHandle, ids, true);
    assert Inv(r) by { WellKnownKeeps(d, ids, init); }
    WellKnownWays(d, ids, init);
    if Find(d.services, ids) == |d.services| {
      assert DaemonNext(h, e) == Hub(r, h.wells[k := A.NewService()], h.log);
      NewWell(d, r, h.wells, k);
      NewWellLog(h, r, k);
    } else {
      assert DaemonNext(h, e) == Hub(r, h.wells, h.log);
      ShrinksKeeps(d, r, h.wells);
      SameLog(h, r);
    }
  }

  lemma {:induction false} OtherHub(h: Hub, e: Event)
    requires HubInv(h) && Enabled(h.daemon, e) && !e.ServiceRegisters? && !e.WellKnownRegisters?
    ensures HubInv(DaemonNext(h, e))
  {
    var r := Step(h.daemon, e);
    assert DaemonNext(h, e) == Hub(r, h.wells, h.log);
    StepKeepsInv(h.daemon, e);
    OtherShrinks(h.daemon, e);
    ShrinksKeeps(h.daemon, r, h.wells);
    SameLog(h, r);
  }

  lemma {:induction false} TakeOverLog(h: Hub, r: State, k: ServiceKey, c: ClientRef)
    requires LogInv(h) && k in h.wells && h.wells[k].client.None? && k.handle < h.daemon.nextHandle <= r.nextHandle
    ensures var s := h.wells[k];
            LogInv(Hub(r, h.wells[k := A.Connected(s, c)], h.log + AllPassed(k, c, s.pending)))
  {
    var s := h.wells[k];
    var more, wells' := AllPassed(k, c, s.pending), h.wells[k := A.Connected(s, c)];
    AllPassedTo(k, c, s.pending);
    forall x | x in wells' ensures LogOf(h.log + more, x, wells'[x]) {
      if x == k {
        TakenOverLog(h.log, k, s, c);
      } else {
        RequestsAll(h.log, k, c, s.pending, x);
        assert Requests(h.log, x) + [] == Requests(h.log, x);
        OthersPass(h.log, more, x, h.wells[x]);
      }
    }
    assert forall j | 0 <= j < |more| :: more[j] in more;
  }

  lemma {:induction false} RegisterHub(
    h: Hub, c: ClientRef, ids: ServiceIDs, isLocal: bool, init: Option<seq<Announcements.EndPoint>>)
    requires HubInv(h) && IsRegistered(h.daemon, c)
    ensures HubInv(DaemonNext(h, ServiceRegisters(c, ids, isLocal, init)))
  {
    var d, e := h.daemon, ServiceRegisters(c, ids, isLocal, init);
    var r, i := ClientRegister(d, c, ids, isLocal, init), Find(d.services, ids);
    assert Inv(r) by { RegisterKeeps(d, c, ids, isLocal, init); }
    RegisterWays(d, c, ids, isLocal, init);
    assert i < |d.services| ==> d.services[i] in d.services;
    if i < |d.services| && isLocal && d.services[i].client.None? {
      var k := d.services[i].key;
      TakeOver(d, h.wells, i, c);
      TakeOverLog(h, r, k, c);
      assert TakenOver(h, e) == Some(k);
    } else {
      assert TakenOver(h, e) == None && DaemonNext(h, e) == Hub(r, h.wells, h.log);
      if i == |d.services| {
        NewOwned(d, r, h.wells, c, ServiceKey(d.nextHandle, ids, isLocal));
      } else if isLocal && d.services[i].client == Some(c) {
        AskedAgain(d, h.wells, c, d.services[i]);
      }
      SameLog(h, r);
    }
  }

  /** The dispatcher gives a request to the object found, for its client if it has one. */
  lemma {:induction false} RequestDispatched(d: State, m: Msg, from: ClientRef)
    requires Inv(d) && IsRequest(m)
    ensures var i := Find(d.services, ServiceOf(m));
            i < |d.services| ==>
              Dispatch(d, m, from, IdOf(d, from)) == [Target(d.services[i], Request(d, m, from))]
  {
    ToServicesFound(d.services, Request(d, m, from));
  }

  lemma {:induction false} PassedOnOne(k: ServiceKey, s: Service, m: Msg)
    ensures PassedOn(k, [Target(s, m)]) == if s.client.Some? then [Passed(k, s.client.value, m)] else []
  {
    assert [Target(s, m)][1..] == [];
  }

  lemma {:induction false} SameClients(d: State, wells: map<ServiceKey, Well>, wells': map<ServiceKey, Well>)
    requires UnownedInv(d, wells) && ClientsInv(d, wells)
    requires wells'.Keys == wells.Keys && forall k | k in wells :: wells'[k].client == wells[k].client
    ensures UnownedInv(d, wells') && ClientsInv(d, wells')
  {
    forall s | s in d.services && s.client.None? ensures s.key in wells' && !Listed(d, s.key) {
      assert s.key in wells.Keys;
    }
    forall k | k in wells' ensures k in wells && wells'[k].client == wells[k].client {
      assert k in wells.Keys;
    }
  }

  /** What an object that is not asked has passed on stays the same. */
  lemma {:induction false} OneMore(log: seq<Passed>, p: Passed, k: ServiceKey, s: Well)
    requires LogOf(log, k, s) && p.k != k
    ensures LogOf(log + [p], k, s)
  {
    RequestsOne(log, p, k);
    assert Requests(log, k) + [] == Requests(log, k);
    OthersPass(log, [p], k, s);
  }

  lemma {:induction false} RequestLog(h: Hub, s: Service, sent: Msg, launch: A.Launch)
    requires LogInv(h) && s.key.handle < h.daemon.nextHandle
    requires s.key in h.wells && h.wells[s.key].client == s.client
    ensures LogInv(Hub(h.daemon, h.wells[s.key := A.Given(h.wells[s.key], sent, launch)],
                       h.log + if s.client.Some? then [Passed(s.key, s.client.value, sent)] else []))
  {
    GivenLog(h.log, s.key, h.wells[s.key], sent, launch);
    if s.client.Some? {
      forall x | x in h.wells && x != s.key ensures LogOf(h.log + [Passed(s.key, s.client.value, sent)], x, h.wells[x]) {
        OneMore(h.log, Passed(s.key, s.client.value, sent), x, h.wells[x]);
      }
    } else {
      assert h.log + [] == h.log;
    }
  }

  lemma {:induction false} PlainLog(h: Hub, p: Passed)
    requires LogInv(h) && p.k.handle < h.daemon.nextHandle && p.k !in h.wells
    ensures LogInv(Hub(h.daemon, h.wells, h.log + [p]))
  {
    forall x | x in h.wells ensures LogOf(h.log + [p], x, h.wells[x]) {
      OneMore(h.log, p, x, h.wells[x]);
    }
  }

  lemma {:induction false} WellRequestClients(
    d: State, wells: map<ServiceKey, Well>, k: ServiceKey, sent: Msg, launch: A.Launch)
    requires UnownedInv(d, wells) && ClientsInv(d, wells) && k in wells
    ensures var wells' := wells[k := A.Given(wells[k], sent, launch)];
            UnownedInv(d, wells') && ClientsInv(d, wells')
  {
    var wells' := wells[k := A.Given(wells[k], sent, launch)];
    assert A.Given(wells[k], sent, launch).client == wells[k].client;
    SameClients(d, wells, wells');
  }

  lemma {:induction false} WellRequestHub(h: Hub, s: Service, sent: Msg, launch: A.Launch)
    requires HubInv(h) && s in h.daemon.services && s.key in h.wells
    ensures HubInv(Hub(h.daemon, h.wells[s.key := A.Given(h.wells[s.key], sent, launch)],
                       h.log + if s.client.Some? then [Passed(s.key, s.client.value, sent)] else []))
  {
    assert s.key.handle < h.daemon.nextHandle && h.wells[s.key].client == s.client;
    RequestLog(h, s, sent, launch);
    WellRequestClients(h.daemon, h.wells, s.key, sent, launch);
  }

  lemma {:induction false} RequestHub(h: Hub, m: Msg, from: ClientRef, launch: A.Launch)
    requires HubInv(h) && IsRequest(m)
    ensures HubInv(RequestNext(h, m, from, launch))
  {
    var d := h.daemon;
    var i, sent := Find(d.services, ServiceOf(m)), Request(d, m, from);
    if i < |d.services| {
      var s := d.services[i];
      assert s in d.services;
      RequestDispatched(d, m, from);
      PassedOnOne(s.key, s, sent);
      if s.key in h.wells {
        WellRequestHub(h, s, sent, launch);
      } else {
        PlainLog(h, Passed(s.key, s.client.value, sent));
      }
    }
  }

  lemma {:induction false} NextHub(h: Hub, x: Happening)
    requires HubInv(h) && CanHappen(h, x)
    ensures HubInv(Next(h, x))
  {
    match x
    case DaemonActs(e) =>
      if e.WellKnownRegisters? {
        WellKnownHub(h, e.ids, e.init);
      } else if e.ServiceRegisters? {
        RegisterHub(h, e.c, e.ids, e.isLocal, e.init);
      } else {
        OtherHub(h, e);
      }
    case RequestSent(m, from, launch) => RequestHub(h, m, from, launch);
  }

  lemma {:induction false} HistoryKeepsHub(channels: seq<u32>, happenings: seq<Happening>, hubs: seq<Hub>, n: nat)
    requires IsHistory(channels, happenings, hubs) && n < |hubs|
    ensures HubInv(hubs[n])
  {
    if n == 0 {
      StartInv(channels);
    } else {
      HistoryKeepsHub(channels, happenings, hubs, n - 1);
      NextHub(hubs[n - 1], happenings[n - 1]);
    }
  }

  // ---- The theorem ----

  /** The request is for this well-known service object, which passes it on or keeps it. */
  predicate AcceptedBy(h: Hub, x: Happening, k: ServiceKey) {
    x.RequestSent? && Lookup(h.daemon.services, ServiceOf(x.m)) == Some(k) && k in h.wells && A.Accepts(h.wells[k], x.launch)
  }

  /** The requests accepted for a well-known service among the first `n` happenings, in order. */
  function Accepted(happenings: seq<Happening>, hubs: seq<Hub>, n: nat, k: ServiceKey): (ms: seq<Msg>)
    requires n <= |happenings| <= |hubs|
  {
    if n == 0 then []
    else
      var h, x := hubs[n - 1], happenings[n - 1];
      Accepted(happenings, hubs, n - 1, k) + if AcceptedBy(h, x, k) then [Request(h.daemon, x.m, x.from)] else []
  }

  /** The requests a service object has passed on or keeps. */
  function InHand(wells: map<ServiceKey, Well>, k: ServiceKey): (ms: seq<Msg>) {
    if k in wells then wells[k].delivered + wells[k].pending else []
  }

  lemma {:induction false} DaemonInHand(h: Hub, e: Event, k: ServiceKey)
    requires LogInv(h) && ClientsInv(h.daemon, h.wells)
    ensures InHand(WellsAfter(h, e), k) == InHand(h.wells, k)
  {
    if k in h.wells && TakenOver(h, e) == Some(k) {
      assert LogOf(h.log, k, h.wells[k]);
      A.StepAccounts(h.wells[k], A.Connect(e.c));
    }
  }

  lemma {:induction false} RequestInHand(h: Hub, m: Msg, from: ClientRef, launch: A.Launch, k: ServiceKey)
    requires LogInv(h)
    ensures InHand(RequestNext(h, m, from, launch).wells, k) ==
            InHand(h.wells, k) +
            if AcceptedBy(h, RequestSent(m, from, launch), k) then [Request(h.daemon, m, from)] else []
  {
    assert InHand(h.wells, k) + [] == InHand(h.wells, k);
    if k in h.wells && Lookup(h.daemon.services, ServiceOf(m)) == Some(k) {
      assert LogOf(h.log, k, h.wells[k]);
      A.StepAccounts(h.wells[k], A.Send(Request(h.daemon, m, from), launch));
    }
  }

  lemma {:induction false} NextInHand(h: Hub, x: Happening, k: ServiceKey)
    requires HubInv(h) && CanHappen(h, x)
    ensures InHand(Next(h, x).wells, k) ==
            InHand(h.wells, k) + if AcceptedBy(h, x, k) then [Request(h.daemon, x.m, x.from)] else []
  {
    match x
    case DaemonActs(e) =>
      DaemonInHand(h, e, k);
      assert InHand(h.wells, k) + [] == InHand(h.wells, k);
    case RequestSent(m, from, launch) => RequestInHand(h, m, from, launch, k);
  }

  /** The object passes on or keeps one more request if it accepts it, and otherwise what it had. */
  predicate TakesIn(h: Hub, x: Happening, h': Hub, k: ServiceKey) {
    InHand(h'.wells, k) == InHand(h.wells, k) + if AcceptedBy(h, x, k) then [Request(h.daemon, x.m, x.from)] else []
  }

  lemma {:induction false} TakenInThroughout(happenings: seq<Happening>, hubs: seq<Hub>, n: nat, k: ServiceKey)
    requires n <= |happenings| < |hubs| && hubs[0].wells == map[]
    requires forall i {:trigger happenings[i]} | 0 <= i < n :: TakesIn(hubs[i], happenings[i], hubs[i + 1], k)
    ensures InHand(hubs[n].wells, k) == Accepted(happenings, hubs, n, k)
  {
    if n > 0 {
      TakenInThroughout(happenings, hubs, n - 1, k);
      assert TakesIn(hubs[n - 1], happenings[n - 1], hubs[n], k);
    }
  }

  lemma {:induction false} AllInHand(channels: seq<u32>, happenings: seq<Happening>, hubs: seq<Hub>, n: nat, k: ServiceKey)
    requires IsHistory(channels, happenings, hubs) && n < |hubs|
    ensures InHand(hubs[n].wells, k) == Accepted(happenings, hubs, n, k)
  {
    forall i | 0 <= i < n ensures TakesIn(hubs[i], happenings[i], hubs[i + 1], k) {
      HistoryKeepsHub(channels, happenings, hubs, i);
      NextInHand(hubs[i], happenings[i], k);
    }
    TakenInThroughout(happenings, hubs, n, k);
  }

  // ---- What is accepted, from launches alone ----

  /** The request is routed to this service object. */
  predicate RoutedTo(h: Hub, x: Happening, k: ServiceKey) {
    x.RequestSent? && exists s :: s in h.daemon.services && s.key == k && s.key.ids == ServiceOf(x.m)
  }

  /** A request routed to the object before `n` came with a launch that works. */
  ghost predicate Spawned(happenings: seq<Happening>, hubs: seq<Hub>, n: nat, k: ServiceKey)
    requires n <= |happenings| <= |hubs|
  {
    exists i :: 0 <= i < n && RoutedTo(hubs[i], happenings[i], k) && happenings[i].launch == A.Spawned
  }

  lemma {:induction false} RoutedExactly(h: Hub, x: Happening, k: ServiceKey)
    requires DistinctServices(h.daemon.services) && x.RequestSent?
    ensures RoutedTo(h, x, k) <==> Lookup(h.daemon.services, ServiceOf(x.m)) == Some(k)
  {
    LookupSound(h.daemon.services, ServiceOf(x.m));
    if RoutedTo(h, x, k) {
      var s :| s in h.daemon.services && s.key == k && s.key.ids == ServiceOf(x.m);
      LookupFinds(h.daemon.services, s);
    }
  }

  /** The object has no client yet after the happening, and its process is starting or not accordingly. */
  ghost predicate Starts(h: Hub, x: Happening, wells: map<ServiceKey, Well>, k: ServiceKey)
    requires k in wells
  {
    && (wells[k].state == A.STARTING <==>
        (k in h.wells && h.wells[k].state == A.STARTING) || (RoutedTo(h, x, k) && x.launch == A.Spawned))
    && (k in h.wells ==> h.wells[k].client.None?)
  }

  lemma {:induction false} DaemonStarts(h: Hub, e: Event, k: ServiceKey)
    requires ClientsInv(h.daemon, h.wells) && k in WellsAfter(h, e) && WellsAfter(h, e)[k].client.None?
    ensures Starts(h, DaemonActs(e), WellsAfter(h, e), k)
  {
  }

  lemma {:induction false} RequestStarts(h: Hub, m: Msg, from: ClientRef, launch: A.Launch, k: ServiceKey)
    requires DistinctServices(h.daemon.services)
    requires var wells := RequestNext(h, m, from, launch).wells;
             k in wells && wells[k].client.None?
    ensures Starts(h, RequestSent(m, from, launch), RequestNext(h, m, from, launch).wells, k)
  {
    RoutedExactly(h, RequestSent(m, from, launch), k);
  }

  lemma {:induction false} NextStarts(h: Hub, x: Happening, k: ServiceKey)
    requires HubInv(h) && CanHappen(h, x) && k in Next(h, x).wells && Next(h, x).wells[k].client.None?
    ensures Starts(h, x, Next(h, x).wells, k)
  {
    match x
    case DaemonActs(e) => DaemonStarts(h, e, k);
    case RequestSent(m, from, launch) => RequestStarts(h, m, from, launch, k);
  }

  lemma {:induction false} HandlesGrow(d: State, e: Event)
    requires Inv(d) && Enabled(d, e)
    ensures d.nextHandle <= Step(d, e).nextHandle
  {
    match e
    case WellKnownRegisters(ids, init) => WellKnownWays(d, ids, init);
    case ServiceRegisters(c, ids, isLocal, init) => RegisterWays(d, c, ids, isLocal, init);
    case _ => OtherShrinks(d, e);
  }

  lemma {:induction false} NextHandles(h: Hub, x: Happening)
    requires HubInv(h) && CanHappen(h, x)
    ensures h.daemon.nextHandle <= Next(h, x).daemon.nextHandle
  {
    if x.DaemonActs? {
      HandlesGrow(h.daemon, x.e);
    }
  }

  lemma {:induction false} HandlesGrowOn(channels: seq<u32>, happenings: seq<Happening>, hubs: seq<Hub>, i: nat, n: nat)
    requires IsHistory(channels, happenings, hubs) && i <= n < |hubs|
    ensures hubs[i].daemon.nextHandle <= hubs[n].daemon.nextHandle
    decreases n - i
  {
    if i < n {
      HandlesGrowOn(channels, happenings, hubs, i, n - 1);
      HistoryKeepsHub(channels, happenings, hubs, n - 1);
      NextHandles(hubs[n - 1], happenings[n - 1]);
    }
  }

  /** Nothing is routed to an object before it exists. */
  lemma {:induction false} NeverRouted(
    channels: seq<u32>, happenings: seq<Happening>, hubs: seq<Hub>, n: nat, k: ServiceKey)
    requires IsHistory(channels, happenings, hubs) && n < |hubs| && k.handle >= hubs[n].daemon.nextHandle
    ensures !Spawned(happenings, hubs, n, k)
  {
    forall i | 0 <= i < n ensures !RoutedTo(hubs[i], happenings[i], k) {
      HistoryKeepsHub(channels, happenings, hubs, i);
      HandlesGrowOn(channels, happenings, hubs, i, n);
    }
  }

  lemma {:induction false} NewObject(h: Hub, x: Happening, k: ServiceKey)
    requires CanHappen(h, x) && k !in h.wells && k in Next(h, x).wells
    ensures k.handle == h.daemon.nextHandle && Next(h, x).wells[k] == A.NewService() && x.DaemonActs?
  {
  }

  lemma {:induction false} SpawnedNext(happenings: seq<Happening>, hubs: seq<Hub>, n: nat, k: ServiceKey)
    requires n < |happenings| <= |hubs|
    ensures Spawned(happenings, hubs, n + 1, k) <==>
            Spawned(happenings, hubs, n, k) ||
            (RoutedTo(hubs[n], happenings[n], k) && happenings[n].launch == A.Spawned)
  {
  }

  lemma {:induction false} StartsNext(
    channels: seq<u32>, happenings: seq<Happening>, hubs: seq<Hub>, n: nat, k: ServiceKey)
    requires IsHistory(channels, happenings, hubs) && n < |happenings|
    requires k in hubs[n + 1].wells && hubs[n + 1].wells[k].client.None?
    ensures Starts(hubs[n], happenings[n], hubs[n + 1].wells, k)
  {
    HistoryKeepsHub(channels, happenings, hubs, n);
    NextStarts(hubs[n], happenings[n], k);
  }

  lemma {:induction false} ObjectIsNew(
    channels: seq<u32>, happenings: seq<Happening>, hubs: seq<Hub>, n: nat, k: ServiceKey)
    requires IsHistory(channels, happenings, hubs) && n < |happenings|
    requires k !in hubs[n].wells && k in hubs[n + 1].wells
    ensures hubs[n + 1].wells[k].state == A.STOPPED && !Spawned(happenings, hubs, n, k)
    ensures !RoutedTo(hubs[n], happenings[n], k)
  {
    NewObject(hubs[n], happenings[n], k);
    NeverRouted(channels, happenings, hubs, n, k);
  }

  /** Without a client, the process is starting exactly if a launch has worked. */
  ghost predicate StartingInv(happenings: seq<Happening>, hubs: seq<Hub>, n: nat, k: ServiceKey)
    requires n <= |happenings| < |hubs|
  {
    k in hubs[n].wells && hubs[n].wells[k].client.None? ==>
      (hubs[n].wells[k].state == A.STARTING <==> Spawned(happenings, hubs, n, k))
  }

  lemma {:induction false} OneMoreStarting(
    channels: seq<u32>, happenings: seq<Happening>, hubs: seq<Hub>, n: nat, k: ServiceKey)
    requires IsHistory(channels, happenings, hubs) && n < |happenings| && StartingInv(happenings, hubs, n, k)
    ensures StartingInv(happenings, hubs, n + 1, k)
  {
    SpawnedNext(happenings, hubs, n, k);
    if k in hubs[n + 1].wells && hubs[n + 1].wells[k].client.None? {
      StartsNext(channels, happenings, hubs, n, k);
      if k !in hubs[n].wells {
        ObjectIsNew(channels, happenings, hubs, n, k);
      }
    }
  }

  lemma {:induction false} StartingExactly(
    channels: seq<u32>, happenings: seq<Happening>, hubs: seq<Hub>, n: nat, k: ServiceKey)
    requires IsHistory(channels, happenings, hubs) && n < |hubs|
    ensures StartingInv(happenings, hubs, n, k)
  {
    if n > 0 {
      StartingExactly(channels, happenings, hubs, n - 1, k);
      OneMoreStarting(channels, happenings, hubs, n - 1, k);
    }
  }

  lemma {:induction false} OnlyOneObject(services: seq<Service>, s: Service, k: ServiceKey)
    requires DistinctServices(services) && s in services && s.key == k && s.client.Some?
    ensures Service(k, None) !in services
  {
    if Service(k, None) in services {
      SameKeySameService(services, s, Service(k, None));
    }
  }

  /** The same at one moment, from the state of the object. */
  lemma {:induction false} AcceptedNow(h: Hub, x: Happening, k: ServiceKey)
    requires HubInv(h) && k in h.wells
    ensures AcceptedBy(h, x, k) <==>
            && RoutedTo(h, x, k)
            && (Service(k, None) in h.daemon.services ==> h.wells[k].state == A.STARTING || x.launch == A.Spawned)
    ensures Service(k, None) in h.daemon.services ==> h.wells[k].client.None?
  {
    if x.RequestSent? {
      RoutedExactly(h, x, k);
      if RoutedTo(h, x, k) {
        var s :| s in h.daemon.services && s.key == k && s.key.ids == ServiceOf(x.m);
        assert h.wells[k].client == s.client;
        if s.client.None? {
          assert s == Service(k, None);
        } else {
          OnlyOneObject(h.daemon.services, s, k);
        }
      }
    }
  }

  /**
   Which requests are accepted, told from the registry and the launches alone: while the service
   has a client, all of them; before, exactly those whose own launch works or that come after
   one whose launch worked.
   */
  lemma {:induction false} AcceptedExactly(
    channels: seq<u32>, happenings: seq<Happening>, hubs: seq<Hub>, n: nat, k: ServiceKey)
    requires IsHistory(channels, happenings, hubs) && n < |happenings| && k in hubs[n].wells
    ensures AcceptedBy(hubs[n], happenings[n], k) <==>
            && RoutedTo(hubs[n], happenings[n], k)
            && (Service(k, None) in hubs[n].daemon.services ==> Spawned(happenings, hubs, n + 1, k))
  {
    assert HubInv(hubs[n]) by { HistoryKeepsHub(channels, happenings, hubs, n); }
    AcceptedNow(hubs[n], happenings[n], k);
    SpawnedNext(happenings, hubs, n, k);
    StartingExactly(channels, happenings, hubs, n, k);
  }

  /**
   In every history of the daemon and its well-known services: the requests that were routed to
   a well-known service and accepted, each as the dispatcher marked it, are the ones its object
   has passed on followed by the ones that wait, once each and in order. All that were passed on
   went to one client, the one that took the service over; while it provides the service nothing
   waits. Requests wait only while the process is starting and the service is still registered
   without a client, so whoever registers it gets them.
   */
  lemma {:induction false} RequestsReachTheProcess(
    channels: seq<u32>, happenings: seq<Happening>, hubs: seq<Hub>, n: nat, k: ServiceKey)
    requires IsHistory(channels, happenings, hubs) && n < |hubs| && k in hubs[n].wells
    ensures var h := hubs[n];
            var s := h.wells[k];
            && Requests(h.log, k) + s.pending == Accepted(happenings, hubs, n, k)
            && (forall i | 0 <= i < |h.log| && h.log[i].k == k :: s.client == Some(h.log[i].c))
            && (forall c: ClientRef | Service(k, Some(c)) in h.daemon.services :: s.client == Some(c) && s.pending == [])
            && (s.pending != [] ==> Service(k, None) in h.daemon.services && s.state == A.STARTING)
  {
    var h := hubs[n];
    HistoryKeepsHub(channels, happenings, hubs, n);
    AllInHand(channels, happenings, hubs, n, k);
    assert LogOf(h.log, k, h.wells[k]);
    if h.wells[k].pending != [] {
      assert k in Keys(h.daemon.services);
      var x := ServiceOfKey(h.daemon.services, k);
    }
  }

  /** The moment of the take-over: everything that waits goes to the client, in order, and nothing else. */
  lemma {:induction false} TakeOverPassesOn(
    channels: seq<u32>, happenings: seq<Happening>, hubs: seq<Hub>, n: nat,
    k: ServiceKey, c: ClientRef, init: Option<seq<Announcements.EndPoint>>)
    requires IsHistory(channels, happenings, hubs) && n < |happenings|
    requires happenings[n] == DaemonActs(ServiceRegisters(c, k.ids, true, init))
    requires Service(k, None) in hubs[n].daemon.services
    ensures var h, h' := hubs[n], hubs[n + 1];
            && k in h.wells && k in h'.wells && Service(k, Some(c)) in h'.daemon.services
            && h'.log == h.log + AllPassed(k, c, h.wells[k].pending) && h'.wells[k].pending == []
  {
    var h := hubs[n];
    var d := h.daemon;
    HistoryKeepsHub(channels, happenings, hubs, n);
    var i :| 0 <= i < |d.services| && d.services[i] == Service(k, None);
    assert Find(d.services, k.ids) == i;
    RegisterWays(d, c, k.ids, true, init);
    var r := ClientRegister(d, c, k.ids, true, init);
    assert r.services[i] == Service(k, Some(c));
  }
}
