/**
 What is said on the network and which ports servers have, over whole runs of the daemon: told
 by the registrations, by which server has a service and by the channels.
 */
module Offering {
  import opened Bytes
  import opened SomeIp
  import opened Announcements
  import opened Lists
  import opened Endpoints
  import opened Daemon
  import opened DaemonInvariant
  import opened Effects
  import opened Ownership
  import opened Placement

  /** The ports of the server that has an instance with these IDs; no ports if none has. */
  function PortsOf(servers: seq<TcpServer>, ids: ServiceIDs): (ports: seq<EndPoint>) {
    if servers == [] then []
    else
      var last := servers[|servers| - 1];
      if ids.serviceID in last.services && last.services[ids.serviceID].ids == ids then last.ports
      else PortsOf(servers[..|servers| - 1], ids)
  }

  function Says(offers: bool, ids: ServiceIDs, e: EndPoint): (a: Announcement) {
    if offers then Offer(ids, e) else StopOffer(ids, e)
  }

  /** One announcement for each port with the address of the channel. */
  function AtChannel(offers: bool, ids: ServiceIDs, channel: u32, ports: seq<EndPoint>): (r: seq<Announcement>) {
    if ports == [] then []
    else
      var last := ports[|ports| - 1];
      AtChannel(offers, ids, channel, ports[..|ports| - 1]) +
      if last.address == channel then [Says(offers, ids, last)] else []
  }

  /** Channel by channel, what is said about a service at these ports. */
  function OnWire(offers: bool, ids: ServiceIDs, channels: seq<u32>, ports: seq<EndPoint>): (r: seq<Announcement>) {
    if channels == [] then []
    else
      OnWire(offers, ids, channels[..|channels| - 1], ports) +
      AtChannel(offers, ids, channels[|channels| - 1], ports)
  }

  /** Service by service, the offers of the local ones. */
  function AllOffers(services: seq<Service>, servers: seq<TcpServer>, channels: seq<u32>): (r: seq<Announcement>) {
    if services == [] then []
    else
      var k := services[|services| - 1].key;
      AllOffers(services[..|services| - 1], servers, channels) +
      if k.isLocal then OnWire(true, k.ids, channels, PortsOf(servers, k.ids)) else []
  }

  /** What is said when `k` goes after the others: nothing if a local one with the same IDs went before. */
  ghost function NextStops(servers: seq<TcpServer>, channels: seq<u32>, before: seq<ServiceKey>, k: ServiceKey)
    : (r: seq<Announcement>)
  {
    if ReleasedBy(before, k.ids) then [] else OnWire(false, k.ids, channels, PortsOf(servers, k.ids))
  }

  /** The stop-offers when these service objects go, one after the other. */
  ghost function Stops(servers: seq<TcpServer>, channels: seq<u32>, keys: seq<ServiceKey>): (r: seq<Announcement>) {
    if keys == [] then []
    else
      var before, k := keys[..|keys| - 1], keys[|keys| - 1];
      Stops(servers, channels, before) + NextStops(servers, channels, before, k)
  }

  // ---- What is said about one service ----

  lemma {:induction false} OnChannelAppend(channel: u32, ports: seq<EndPoint>, e: EndPoint)
    ensures OnChannel(channel, ports + [e]) == OnChannel(channel, ports) + if e.address == channel then [e] else []
  {
    if ports == [] {
      assert ports + [e] == [e] && [e][1..] == [];
    } else {
      var first, last := if ports[0].address == channel then [ports[0]] else [], if e.address == channel then [e] else [];
      assert (ports + [e])[1..] == ports[1..] + [e];
      OnChannelAppend(channel, ports[1..], e);
      assert first + (OnChannel(channel, ports[1..]) + last) == (first + OnChannel(channel, ports[1..])) + last;
    }
  }

  lemma {:induction false} MatchingAppend(channels: seq<u32>, channel: u32, ports: seq<EndPoint>)
    ensures Matching(channels + [channel], ports) == Matching(channels, ports) + OnChannel(channel, ports)
  {
    if channels == [] {
      assert channels + [channel] == [channel] && [channel][1..] == [];
    } else {
      assert (channels + [channel])[1..] == channels[1..] + [channel];
      MatchingAppend(channels[1..], channel, ports);
    }
  }

  lemma {:induction false} OffersJoin(ids: ServiceIDs, a: seq<EndPoint>, b: seq<EndPoint>)
    ensures Offers(ids, a + b) == Offers(ids, a) + Offers(ids, b)
    ensures StopOffers(ids, a + b) == StopOffers(ids, a) + StopOffers(ids, b)
  {
    if a == [] {
      assert a + b == b;
    } else {
      assert (a + b)[1..] == a[1..] + b;
      OffersJoin(ids, a[1..], b);
    }
  }

  lemma {:induction false} AtChannelIs(ids: ServiceIDs, channel: u32, ports: seq<EndPoint>)
    ensures Offers(ids, OnChannel(channel, ports)) == AtChannel(true, ids, channel, ports)
    ensures StopOffers(ids, OnChannel(channel, ports)) == AtChannel(false, ids, channel, ports)
  {
    if ports != [] {
      var rest, last := ports[..|ports| - 1], ports[|ports| - 1];
      assert ports == rest + [last];
      AtChannelIs(ids, channel, rest);
      OnChannelAppend(channel, rest, last);
      OffersJoin(ids, OnChannel(channel, rest), if last.address == channel then [last] else []);
    }
  }

  /** What the announcer sends about a service, for every way of placing it. */
  lemma {:induction false} OnWireIs(ids: ServiceIDs, channels: seq<u32>, ports: seq<EndPoint>)
    ensures Offers(ids, Matching(channels, ports)) == OnWire(true, ids, channels, ports)
    ensures StopOffers(ids, Matching(channels, ports)) == OnWire(false, ids, channels, ports)
  {
    if channels != [] {
      var rest, last := channels[..|channels| - 1], channels[|channels| - 1];
      assert channels == rest + [last];
      OnWireIs(ids, rest, ports);
      AtChannelIs(ids, last, ports);
      MatchingAppend(rest, last, ports);
      OffersJoin(ids, Matching(rest, ports), OnChannel(last, ports));
    }
  }

  lemma {:induction false} CountJoin<T>(a: seq<T>, b: seq<T>, x: T)
    ensures Count(a + b, x) == Count(a, x) + Count(b, x)
  {
    if a == [] {
      assert a + b == b;
    } else {
      assert (a + b)[1..] == a[1..] + b;
      CountJoin(a[1..], b, x);
    }
  }

  lemma {:induction false} SaidAtChannel(offers: bool, ids: ServiceIDs, channel: u32, ports: seq<EndPoint>, a: Announcement)
    ensures Count(AtChannel(offers, ids, channel, ports), a) ==
            if a == Says(offers, ids, a.endPoint) && a.endPoint.address == channel then Count(ports, a.endPoint) else 0
  {
    if ports != [] {
      var rest, last := ports[..|ports| - 1], ports[|ports| - 1];
      assert ports == rest + [last];
      SaidAtChannel(offers, ids, channel, rest, a);
      CountAppend(rest, last, a.endPoint);
      CountAppend(AtChannel(offers, ids, channel, rest), Says(offers, ids, last), a);
      assert AtChannel(offers, ids, channel, rest) + [] == AtChannel(offers, ids, channel, rest);
    }
  }

  lemma {:induction false} OnceMore(n: nat, p: nat)
    ensures (n + 1) * p == n * p + p
  {
  }

  /** An endpoint is named once for each time it is among the ports and its address a channel, and nothing else is said. */
  lemma {:induction false} SaidOnWire(
    offers: bool, ids: ServiceIDs, channels: seq<u32>, ports: seq<EndPoint>, a: Announcement)
    ensures Count(OnWire(offers, ids, channels, ports), a) ==
            if a == Says(offers, ids, a.endPoint) then Count(channels, a.endPoint.address) * Count(ports, a.endPoint) else 0
  {
    if channels != [] {
      var rest, last := channels[..|channels| - 1], channels[|channels| - 1];
      assert channels == rest + [last];
      SaidOnWire(offers, ids, rest, ports, a);
      SaidAtChannel(offers, ids, last, ports, a);
      CountAppend(rest, last, a.endPoint.address);
      OnceMore(Count(rest, a.endPoint.address), Count(ports, a.endPoint));
      CountJoin(OnWire(offers, ids, rest, ports), AtChannel(offers, ids, last, ports), a);
    }
  }

  // ---- Where a service is ----

  lemma {:induction false} PortsOfHeld(servers: seq<TcpServer>, keys: seq<ServiceKey>, k: ServiceKey, j: nat)
    requires Filed(servers, keys) && j < |servers| && Holds(servers[j], k)
    ensures PortsOf(servers, k.ids) == servers[j].ports
  {
    var last := |servers| - 1;
    if k.ids.serviceID in servers[last].services && servers[last].services[k.ids.serviceID].ids == k.ids {
      var found := servers[last].services[k.ids.serviceID];
      assert Holds(servers[last], found);
      SameIdsSameKey(keys, found, k);
      HeldAt(servers, j, last, k);
    } else {
      PortsOfHeld(servers[..last], keys, k, j);
    }
  }

  lemma {:induction false} PortsOfNone(servers: seq<TcpServer>, ids: ServiceIDs)
    requires forall j | 0 <= j < |servers| :: !Publishes(servers[j], ids)
    ensures PortsOf(servers, ids) == []
  {
    if servers != [] {
      PortsOfNone(servers[..|servers| - 1], ids);
    }
  }

  lemma {:induction false} NothingMatches(channels: seq<u32>)
    ensures Matching(channels, []) == []
  {
    if channels != [] {
      NothingMatches(channels[1..]);
    }
  }

  /** What the announcer says about IDs depends on which server has them. */
  lemma {:induction false} SaidWhere(servers: seq<TcpServer>, keys: seq<ServiceKey>, channels: seq<u32>, ids: ServiceIDs)
    requires Filed(servers, keys)
    ensures Offers(ids, OfferedAt(servers, channels, ids)) == OnWire(true, ids, channels, PortsOf(servers, ids))
    ensures StopOffers(ids, OfferedAt(servers, channels, ids)) == OnWire(false, ids, channels, PortsOf(servers, ids))
  {
    var i := GetEndPoint(servers, ids);
    FoundIsHeld(servers, keys, ids);
    if i < |servers| {
      PortsOfHeld(servers, keys, servers[i].services[ids.serviceID], i);
    } else {
      PortsOfNone(servers, ids);
      NothingMatches(channels);
    }
    OnWireIs(ids, channels, PortsOf(servers, ids));
  }

  // ---- Registration ----

  /** The event asks for a local service with these IDs; `init` is what opening a server yields. */
  predicate AsksLocal(e: Event, ids: ServiceIDs, init: Option<seq<EndPoint>>) {
    || e == WellKnownRegisters(ids, init)
    || (e.ServiceRegisters? && e.ids == ids && e.isLocal && e.init == init)
  }

  predicate Unknown(d: State, ids: ServiceIDs) {
    forall s | s in d.services :: s.key.ids != ids
  }

  lemma {:induction false} UnknownIsNew(d: State, ids: ServiceIDs)
    ensures Unknown(d, ids) <==> IsNew(d, ids)
  {
    var i := Find(d.services, ids);
    if i < |d.services| {
      assert d.services[i] in d.services;
    }
  }

  lemma {:induction false} AskedGains(d: State, e: Event, ids: ServiceIDs, init: Option<seq<EndPoint>>)
    requires Inv(d) && FiledInv(d) && Enabled(d, e) && AsksLocal(e, ids, init)
    ensures var r, k := Step(d, e), ServiceKey(d.nextHandle, ids, true);
            if Unknown(d, ids) then Gained(d, r, k, init) && FiledInv(r)
            else r.servers == d.servers && r.announced == d.announced
  {
    UnknownIsNew(d, ids);
    StepFares(d, e);
    if e.WellKnownRegisters? {
      WellKnownGains(d, ids, init);
    } else {
      RegisterGainsOrNot(d, e.c, ids, true, init);
    }
  }

  /**
   A local service with new IDs, when every server has an instance of its service ID: the
   server it is put on is a new one with exactly the ports that opening it yielded, and the
   service is offered there. Without a new server it is offered nowhere.
   */
  lemma {:induction false} OpensServer(
    channels: seq<u32>, events: seq<Event>, states: seq<State>, n: nat, ids: ServiceIDs, init: Option<seq<EndPoint>>)
    requires IsRun(channels, events, states) && n < |events| && AsksLocal(events[n], ids, init) && Unknown(states[n], ids)
    requires forall j | 0 <= j < |states[n].servers| :: ids.serviceID in states[n].servers[j].services
    ensures var d, r := states[n], states[n + 1];
            match init
            case Some(ports) =>
              && r.servers == d.servers + [TcpServer(ports, map[ids.serviceID := ServiceKey(d.nextHandle, ids, true)])]
              && r.announced == d.announced + OnWire(true, ids, channels, ports)
            case None => r.servers == d.servers && r.announced == d.announced
  {
    var d, r, k := states[n], states[n + 1], ServiceKey(states[n].nextHandle, ids, true);
    RunKeepsInv(channels, events, states, n);
    RunFiled(channels, events, states, n);
    ChannelsFixed(channels, events, states, n);
    AskedGains(d, events[n], ids, init);
    SaidWhere(r.servers, Local(Keys(r.services)), channels, ids);
    if init.Some? {
      assert Holds(r.servers[|d.servers|], k);
      PortsOfHeld(r.servers, Local(Keys(r.services)), k, |d.servers|);
    } else {
      NotYetHeld(d, ids);
      assert Offers(ids, OfferedAt(r.servers, channels, ids)) == [];
    }
  }

  /** IDs that are not registered are on no server. */
  lemma {:induction false} NotYetHeld(d: State, ids: ServiceIDs)
    requires FiledInv(d) && Unknown(d, ids)
    ensures OfferedAt(d.servers, d.channels, ids) == []
  {
    forall x | Held(d.servers, x) ensures x.ids != ids {
      LocalMembers(Keys(d.services), x);
      var i :| 0 <= i < |d.services| && Keys(d.services)[i] == x;
      assert d.services[i] in d.services;
    }
    NotOffered(d.servers, Local(Keys(d.services)), d.channels, ids);
  }

  /**
   Otherwise it is put on the last server without an instance of its service ID and offered
   at that server's ports; other servers stay as they are.
   */
  lemma {:induction false} UsesServer(
    channels: seq<u32>, events: seq<Event>, states: seq<State>, n: nat, ids: ServiceIDs, init: Option<seq<EndPoint>>, i: nat)
    requires IsRun(channels, events, states) && n < |events| && AsksLocal(events[n], ids, init) && Unknown(states[n], ids)
    requires i < |states[n].servers| && ids.serviceID !in states[n].servers[i].services
    requires forall j | i < j < |states[n].servers| :: ids.serviceID in states[n].servers[j].services
    ensures var d, r, at := states[n], states[n + 1], states[n].servers[i];
            && r.servers ==
               d.servers[i := TcpServer(at.ports, at.services[ids.serviceID := ServiceKey(d.nextHandle, ids, true)])]
            && r.announced == d.announced + OnWire(true, ids, channels, at.ports)
  {
    var d, r, k := states[n], states[n + 1], ServiceKey(states[n].nextHandle, ids, true);
    RunKeepsInv(channels, events, states, n);
    RunFiled(channels, events, states, n);
    ChannelsFixed(channels, events, states, n);
    AskedGains(d, events[n], ids, init);
    assert FreeServer(d.servers, ids.serviceID) == i;
    assert Holds(r.servers[i], k);
    SaidWhere(r.servers, Local(Keys(r.services)), channels, ids);
    PortsOfHeld(r.servers, Local(Keys(r.services)), k, i);
  }

  /** A service from elsewhere, or one that is known already, is put on no server and not offered. */
  lemma {:induction false} NotOfferedHere(channels: seq<u32>, events: seq<Event>, states: seq<State>, n: nat)
    requires IsRun(channels, events, states) && n < |events|
    requires || (events[n].ServiceRegisters? && !events[n].isLocal)
             || ((events[n].ServiceRegisters? || events[n].WellKnownRegisters?) && !Unknown(states[n], events[n].ids))
    ensures states[n + 1].servers == states[n].servers && states[n + 1].announced == states[n].announced
  {
    var d, e := states[n], events[n];
    RunKeepsInv(channels, events, states, n);
    RunFiled(channels, events, states, n);
    UnknownIsNew(d, e.ids);
    if e.ServiceRegisters? && !e.isLocal {
      RegisterGainsOrNot(d, e.c, e.ids, false, e.init);
      if Unknown(d, e.ids) {
        NotYetHeld(d, e.ids);
      }
    } else {
      AskedGains(d, e, e.ids, e.init);
    }
  }

  // ---- Ports ----

  /** Servers stay and keep their ports; there is at most one more, opened by this event. */
  ghost predicate PortsKept(d: State, e: Event, r: State) {
    && |d.servers| <= |r.servers| <= |d.servers| + 1
    && (forall j | 0 <= j < |d.servers| :: r.servers[j].ports == d.servers[j].ports)
    && (|r.servers| > |d.servers| ==>
          exists ids :: AsksLocal(e, ids, Some(r.servers[|d.servers|].ports)))
  }

  lemma {:induction false} UnbindPorts(servers: seq<TcpServer>, k: ServiceKey)
    ensures |Unbind(servers, k)| == |servers|
    ensures forall j | 0 <= j < |servers| :: Unbind(servers, k)[j].ports == servers[j].ports
  {
  }

  lemma {:induction false} UnregisterAllPorts(d: State, keys: seq<ServiceKey>)
    requires ListenerShape(d.listeners)
    ensures var r := UnregisterAll(d, keys);
            |r.servers| == |d.servers| && forall j | 0 <= j < |d.servers| :: r.servers[j].ports == d.servers[j].ports
    decreases |keys|
  {
    if keys != [] {
      UnregisterLoses(d, keys[0]);
      UnbindPorts(d.servers, keys[0]);
      UnregisterAllPorts(UnregisterService(d, keys[0]), keys[1..]);
    }
  }

  lemma {:induction false} BindPorts(servers: seq<TcpServer>, k: ServiceKey, init: Option<seq<EndPoint>>)
    ensures var r := Bind(servers, k, init);
            && |servers| <= |r| <= |servers| + 1
            && (forall j | 0 <= j < |servers| :: r[j].ports == servers[j].ports)
            && (|r| > |servers| ==> init == Some(r[|servers|].ports))
  {
  }

  lemma {:induction false} AskedPorts(d: State, e: Event, ids: ServiceIDs, init: Option<seq<EndPoint>>)
    requires Inv(d) && FiledInv(d) && Enabled(d, e) && AsksLocal(e, ids, init)
    ensures PortsKept(d, e, Step(d, e))
  {
    var r := Step(d, e);
    BindPorts(d.servers, ServiceKey(d.nextHandle, ids, true), init);
    assert |r.servers| <= |d.servers| + 1 && (|r.servers| > |d.servers| ==> init == Some(r.servers[|d.servers|].ports)) by {
      AskedGains(d, e, ids, init);
    }
    AskedGains(d, e, ids, init);
  }

  lemma {:induction false} StepPorts(d: State, e: Event)
    requires Inv(d) && FiledInv(d) && Enabled(d, e)
    ensures PortsKept(d, e, Step(d, e))
  {
    match e
    case WellKnownRegisters(ids, init) => AskedPorts(d, e, ids, init);
    case ServiceRegisters(c, ids, isLocal, init) =>
      if isLocal {
        AskedPorts(d, e, ids, init);
      } else {
        RegisterGainsOrNot(d, c, ids, false, init);
      }
    case ServiceUnregisters(c, ids) =>
      UnregisterOutcome(d, c, ids);
      var keys := d.clients[c].services;
      if FirstWith(keys, ids) < |keys| {
        UnbindPorts(d.servers, keys[FirstWith(keys, ids)]);
      }
    case ClientDisconnects(c) =>
      DisconnectOutcome(d, c);
      UnregisterAllPorts(Muted(d, c), d.clients[c].services);
    case ClientConnects(c, isLocal) => assert Connect(d, c, isLocal).servers == d.servers;
    case ClientSubscribes(c, member) => assert Subscribe(d, c, member).servers == d.servers;
    case NotificationSent(member) => assert WithNotification(d, member).servers == d.servers;
    case IdleCleanUp => assert CleanUp(d).servers == d.servers;
    case AnnounceTimer => assert AnnounceAgain(d, 0).servers == d.servers;
  }

  lemma {:induction false} NextPorts(channels: seq<u32>, events: seq<Event>, states: seq<State>, n: nat)
    requires IsRun(channels, events, states) && n < |events|
    ensures PortsKept(states[n], events[n], states[n + 1])
  {
    RunKeepsInv(channels, events, states, n);
    RunFiled(channels, events, states, n);
    StepPorts(states[n], events[n]);
  }

  /** The ports of every server are those that opening it yielded, in the registration that opened it. */
  lemma {:induction false} PortsFromOpening(channels: seq<u32>, events: seq<Event>, states: seq<State>, n: nat, j: nat)
    requires IsRun(channels, events, states) && n < |states| && j < |states[n].servers|
    ensures exists i, ids {:trigger AsksLocal(events[i], ids, Some(states[n].servers[j].ports))} ::
              && 0 <= i < n && |states[i].servers| == j && |states[i + 1].servers| == j + 1
              && AsksLocal(events[i], ids, Some(states[n].servers[j].ports))
  {
    if n > 0 {
      NextPorts(channels, events, states, n - 1);
      if j < |states[n - 1].servers| {
        PortsFromOpening(channels, events, states, n - 1, j);
      }
    }
  }

  /** No server goes away and no server changes its ports. */
  lemma {:induction false} PortsNeverChange(
    channels: seq<u32>, events: seq<Event>, states: seq<State>, m: nat, n: nat)
    requires IsRun(channels, events, states) && m <= n < |states|
    ensures |states[m].servers| <= |states[n].servers|
    ensures forall j | 0 <= j < |states[m].servers| :: states[n].servers[j].ports == states[m].servers[j].ports
    decreases n
  {
    if m < n {
      NextPorts(channels, events, states, n - 1);
      PortsNeverChange(channels, events, states, m, n - 1);
    }
  }

  // ---- The announcement timer ----

  lemma {:induction false} OneMoreOffered(d: State, n: nat)
    requires FiledInv(d) && n < |d.services|
    ensures var k := d.services[n].key;
            AllOffers(d.services[..n + 1], d.servers, d.channels) ==
            AllOffers(d.services[..n], d.servers, d.channels) +
            if k.isLocal then Offers(k.ids, OfferedAt(d.servers, d.channels, k.ids)) else []
  {
    assert d.services[..n + 1][..n] == d.services[..n];
    SaidWhere(d.servers, Local(Keys(d.services)), d.channels, d.services[n].key.ids);
  }

  /** The daemon when the first `n` services have been offered again. */
  function OfferedSoFar(d: State, n: nat): (r: State)
    requires n <= |d.services|
  {
    d.(announced := d.announced + AllOffers(d.services[..n], d.servers, d.channels))
  }

  lemma {:induction false} NextOffered(d: State, n: nat)
    requires FiledInv(d) && n < |d.services|
    ensures var r, k := OfferedSoFar(d, n), d.services[n].key;
            OfferedSoFar(d, n + 1) == if k.isLocal then OnRegistered(r, AnnouncerListener, k, None) else r
  {
    OneMoreOffered(d, n);
  }

  lemma {:induction false} AgainFrom(d: State, n: nat)
    requires FiledInv(d) && n <= |d.services|
    ensures AnnounceAgain(OfferedSoFar(d, n), n) == OfferedSoFar(d, |d.services|)
    decreases |d.services| - n
  {
    if n < |d.services| {
      NextOffered(d, n);
      AgainFrom(d, n + 1);
    }
  }

  /**
   When the timer fires, each registered local service on a server is offered again: service
   by service in the order of the registry, on each channel, at the ports of its server with
   that address. Nothing else is said, and nothing else changes.
   */
  lemma {:induction false} TimerOffersAll(channels: seq<u32>, events: seq<Event>, states: seq<State>, n: nat)
    requires IsRun(channels, events, states) && n < |events| && events[n] == AnnounceTimer
    ensures states[n + 1] ==
            states[n].(announced := states[n].announced + AllOffers(states[n].services, states[n].servers, channels))
  {
    var d := states[n];
    RunFiled(channels, events, states, n);
    ChannelsFixed(channels, events, states, n);
    assert OfferedSoFar(d, 0) == d by { assert d.announced + [] == d.announced; }
    AgainFrom(d, 0);
    assert d.services[..|d.services|] == d.services;
  }

  lemma {:induction false} AllOffersCount(
    services: seq<Service>, servers: seq<TcpServer>, channels: seq<u32>, a: Announcement)
    requires DistinctServices(services)
    ensures Count(AllOffers(services, servers, channels), a) ==
            if a.Offer? && exists s :: s in services && s.key.isLocal && s.key.ids == a.service
            then Count(channels, a.endPoint.address) * Count(PortsOf(servers, a.service), a.endPoint) else 0
  {
    if services != [] {
      var rest, last := services[..|services| - 1], services[|services| - 1];
      assert services == rest + [last];
      assert DistinctServices(rest);
      AllOffersCount(rest, servers, channels, a);
      SaidOnWire(true, last.key.ids, channels, PortsOf(servers, last.key.ids), a);
      var now := if last.key.isLocal then OnWire(true, last.key.ids, channels, PortsOf(servers, last.key.ids)) else [];
      CountJoin(AllOffers(rest, servers, channels), now, a);
      assert last.key.ids == a.service ==> forall s | s in rest :: s.key.ids != a.service;
      assert forall s :: s in services <==> s in rest || s == last;
    }
  }

  /** How often each announcement is made when the timer fires. */
  lemma {:induction false} TimerOffersEach(
    channels: seq<u32>, events: seq<Event>, states: seq<State>, n: nat, a: Announcement)
    requires IsRun(channels, events, states) && n < |events| && events[n] == AnnounceTimer
    ensures var d := states[n];
            Count(states[n + 1].announced, a) - Count(d.announced, a) ==
            if a.Offer? && exists s :: s in d.services && s.key.isLocal && s.key.ids == a.service
            then Count(channels, a.endPoint.address) * Count(PortsOf(d.servers, a.service), a.endPoint) else 0
  {
    TimerOffersAll(channels, events, states, n);
    RunKeepsInv(channels, events, states, n);
    AllOffersCount(states[n].services, states[n].servers, channels, a);
    CountJoin(states[n].announced, AllOffers(states[n].services, states[n].servers, channels), a);
  }

  // ---- Unregistration ----

  lemma {:induction false} UnregisterOneMore(d: State, keys: seq<ServiceKey>, k: ServiceKey)
    ensures UnregisterAll(d, keys + [k]) == UnregisterService(UnregisterAll(d, keys), k)
    decreases |keys|
  {
    if keys == [] {
      assert keys + [k] == [k] && [k][1..] == [];
    } else {
      assert (keys + [k])[1..] == keys[1..] + [k];
      UnregisterOneMore(UnregisterService(d, keys[0]), keys[1..], k);
    }
  }

  lemma {:induction false} UnregisterAllListeners(d: State, keys: seq<ServiceKey>)
    ensures UnregisterAll(d, keys).listeners == d.listeners
    decreases |keys|
  {
    if keys != [] {
      UnregisterAllListeners(UnregisterService(d, keys[0]), keys[1..]);
    }
  }

  lemma {:induction false} OfferedAfter(d: State, r: State, keys: seq<ServiceKey>, channels: seq<u32>, ids: ServiceIDs)
    requires FiledInv(d) && Leaves(d, r, keys)
    ensures OfferedAt(r.servers, channels, ids) ==
            if ReleasedBy(keys, ids) then [] else OfferedAt(d.servers, channels, ids)
  {
    var before, after := Local(Keys(d.services)), Local(Keys(r.services));
    if ReleasedBy(keys, ids) {
      NotOffered(r.servers, after, channels, ids);
    } else {
      SameOffers(d.servers, before, r.servers, after, channels, ids);
    }
  }

  /** One more service object goes. */
  lemma {:induction false} NextSays(d: State, d1: State, r: State, before: seq<ServiceKey>, k: ServiceKey)
    requires FiledInv(d) && Leaves(d, d1, before) && Lost(d1, r, k) && d1.channels == d.channels
    ensures r.announced == d1.announced + NextStops(d.servers, d.channels, before, k)
  {
    OfferedAfter(d, d1, before, d.channels, k.ids);
    SaidWhere(d.servers, Local(Keys(d.services)), d.channels, k.ids);
  }

  lemma {:induction false} LosesOneMore(d: State, before: seq<ServiceKey>, k: ServiceKey)
    requires FiledInv(d) && ListenerShape(d.listeners)
    ensures var d1 := UnregisterAll(d, before);
            Leaves(d, d1, before) && d1.channels == d.channels && Lost(d1, UnregisterAll(d, before + [k]), k)
  {
    var d1 := UnregisterAll(d, before);
    UnregisterOneMore(d, before, k);
    UnregisterAllListeners(d, before);
    UnregisterAllChannels(d, before);
    UnregisterLoses(d1, k);
    LoseAllFiled(d, before);
  }

  lemma {:induction false} StopsOneMore(servers: seq<TcpServer>, channels: seq<u32>, before: seq<ServiceKey>, k: ServiceKey)
    ensures Stops(servers, channels, before + [k]) ==
            Stops(servers, channels, before) + NextStops(servers, channels, before, k)
  {
    assert (before + [k])[..|before|] == before;
  }

  lemma {:induction false} SaidInTurn<T>(start: seq<T>, a: seq<T>, b: seq<T>)
    ensures (start + a) + b == start + (a + b)
  {
  }

  lemma {:induction false} OneMoreSays(d: State, before: seq<ServiceKey>, k: ServiceKey)
    requires FiledInv(d) && ListenerShape(d.listeners)
    ensures UnregisterAll(d, before + [k]).announced ==
            UnregisterAll(d, before).announced + NextStops(d.servers, d.channels, before, k)
  {
    LosesOneMore(d, before, k);
    NextSays(d, UnregisterAll(d, before), UnregisterAll(d, before + [k]), before, k);
  }

  lemma {:induction false} UnregisterAllSays(d: State, keys: seq<ServiceKey>)
    requires FiledInv(d) && ListenerShape(d.listeners)
    ensures UnregisterAll(d, keys).announced == d.announced + Stops(d.servers, d.channels, keys)
    decreases |keys|
  {
    if keys == [] {
      assert d.announced + [] == d.announced;
    } else {
      var before, k := keys[..|keys| - 1], keys[|keys| - 1];
      assert keys == before + [k];
      OneMoreSays(d, before, k);
      UnregisterAllSays(d, before);
      StopsOneMore(d.servers, d.channels, before, k);
      SaidInTurn(d.announced, Stops(d.servers, d.channels, before), NextStops(d.servers, d.channels, before, k));
    }
  }

  lemma {:induction false} StopsOne(servers: seq<TcpServer>, channels: seq<u32>, k: ServiceKey)
    ensures Stops(servers, channels, [k]) == OnWire(false, k.ids, channels, PortsOf(servers, k.ids))
  {
    assert [k][..0] == [];
    assert !ReleasedBy([], k.ids);
  }

  lemma {:induction false} GivenBackSays(d: State, c: ClientRef, ids: ServiceIDs)
    requires Inv(d) && FiledInv(d) && IsRegistered(d, c)
    ensures ClientUnregister(d, c, ids).announced ==
            d.announced + Stops(d.servers, d.channels, Withdrawn(d, ServiceUnregisters(c, ids)))
  {
    var keys := d.clients[c].services;
    UnregisterOutcome(d, c, ids);
    if FirstWith(keys, ids) < |keys| {
      var k := keys[FirstWith(keys, ids)];
      StopsOne(d.servers, d.channels, k);
      SaidWhere(d.servers, Local(Keys(d.services)), d.channels, k.ids);
    }
  }

  lemma {:induction false} DisconnectSays(d: State, c: ClientRef)
    requires Inv(d) && FiledInv(d) && IsRegistered(d, c)
    ensures Disconnect(d, c).announced == d.announced + Stops(d.servers, d.channels, Withdrawn(d, ClientDisconnects(c)))
  {
    DisconnectOutcome(d, c);
    UnregisterAllSays(Muted(d, c), d.clients[c].services);
  }

  /**
   When a client gives a service back or disconnects, its service objects go one by one, and
   each is withdrawn wherever a server has its IDs, on each channel, unless one with the same
   IDs went just before. Nothing else is said.
   */
  lemma {:induction false} GoneAreWithdrawn(channels: seq<u32>, events: seq<Event>, states: seq<State>, n: nat)
    requires IsRun(channels, events, states) && n < |events|
    requires events[n].ServiceUnregisters? || events[n].ClientDisconnects?
    ensures states[n + 1].announced ==
            states[n].announced + Stops(states[n].servers, channels, Withdrawn(states[n], events[n]))
  {
    var d, e := states[n], events[n];
    RunKeepsInv(channels, events, states, n);
    RunFiled(channels, events, states, n);
    ChannelsFixed(channels, events, states, n);
    if e.ServiceUnregisters? {
      GivenBackSays(d, e.c, e.ids);
    } else {
      DisconnectSays(d, e.c);
    }
  }

  /** Other events say nothing. */
  lemma {:induction false} SilentOtherwise(channels: seq<u32>, events: seq<Event>, states: seq<State>, n: nat)
    requires IsRun(channels, events, states) && n < |events|
    requires || events[n].ClientConnects? || events[n].ClientSubscribes?
             || events[n].NotificationSent? || events[n].IdleCleanUp?
    ensures states[n + 1].announced == states[n].announced && states[n + 1].servers == states[n].servers
  {
    var d := states[n];
    match events[n]
    case ClientConnects(c, isLocal) => assert SameOffered(d, Connect(d, c, isLocal));
    case ClientSubscribes(c, member) => assert SameOffered(d, Subscribe(d, c, member));
    case NotificationSent(member) => assert SameOffered(d, WithNotification(d, member));
    case IdleCleanUp => assert SameOffered(d, CleanUp(d));
  }
}
