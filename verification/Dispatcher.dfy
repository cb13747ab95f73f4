/**
 The dispatcher as it runs (lib/Dispatcher.cpp, lib/Dispatcher.h, lib/Client.cpp,
 daemon/LocalClient.h, lib/ServiceAnnouncer.cpp): vectors that are searched, pushed to and
 erased from in loops. Every method is proved against the function of the same name in the
 model of the daemon.
 */
module DispatcherObject {
  import opened Bytes
  import opened SomeIp
  import opened Announcements
  import opened Lists
  import opened Endpoints
  import opened Daemon
  import opened DaemonInvariant
  import opened Lifecycle
  import opened Routing

  // ---- Loops that append ----

  lemma {:induction false} OnChannelNext(channel: u32, ports: seq<EndPoint>, i: nat)
    requires i < |ports|
    ensures OnChannel(channel, ports[..i + 1]) ==
            OnChannel(channel, ports[..i]) + if ports[i].address == channel then [ports[i]] else []
  {
    var head := ports[..i + 1];
    if i == 0 {
      assert head[1..] == [] && ports[..0] == [];
    } else {
      OnChannelNext(channel, ports[1..], i - 1);
      assert head[1..] == ports[1..][..i] && ports[..i][1..] == ports[1..][..i - 1];
    }
  }

  lemma {:induction false} MatchingNext(channels: seq<u32>, ports: seq<EndPoint>, i: nat)
    requires i < |channels|
    ensures Matching(channels[..i + 1], ports) == Matching(channels[..i], ports) + OnChannel(channels[i], ports)
  {
    var head := channels[..i + 1];
    if i == 0 {
      assert head[1..] == [] && channels[..0] == [];
    } else {
      MatchingNext(channels[1..], ports, i - 1);
      assert head[1..] == channels[1..][..i] && channels[..i][1..] == channels[1..][..i - 1];
    }
  }

  lemma {:induction false} OffersAppend(ids: ServiceIDs, a: seq<EndPoint>, b: seq<EndPoint>)
    ensures Offers(ids, a + b) == Offers(ids, a) + Offers(ids, b)
    ensures StopOffers(ids, a + b) == StopOffers(ids, a) + StopOffers(ids, b)
  {
    if a == [] {
      assert a + b == b;
    } else {
      assert (a + b)[1..] == a[1..] + b;
      OffersAppend(ids, a[1..], b);
    }
  }

  /** The announcements for a service at some ports. */
  function About(offer: bool, ids: ServiceIDs, at: seq<EndPoint>): (r: seq<Announcement>) {
    if offer then Offers(ids, at) else StopOffers(ids, at)
  }

  lemma {:induction false} AboutAppend(offer: bool, ids: ServiceIDs, a: seq<EndPoint>, b: seq<EndPoint>)
    ensures About(offer, ids, a + b) == About(offer, ids, a) + About(offer, ids, b)
  {
    OffersAppend(ids, a, b);
  }

  lemma {:induction false} AboutOne(offer: bool, ids: ServiceIDs, e: EndPoint)
    ensures About(offer, ids, [e]) == [if offer then Offer(ids, e) else StopOffer(ids, e)]
  {
    assert [e][1..] == [];
    assert Offers(ids, []) == [] && StopOffers(ids, []) == [];
  }

  /** The loops of the announcer: every channel, and on it every address of the server. */
  method SendAnnouncements(offer: bool, ids: ServiceIDs, channels: seq<u32>, ports: seq<EndPoint>)
    returns (sent: seq<Announcement>)
    ensures sent == About(offer, ids, Matching(channels, ports))
  {
    sent := [];
    var i := 0;
    while i < |channels|
      invariant 0 <= i <= |channels|
      invariant sent == About(offer, ids, Matching(channels[..i], ports))
    {
      ghost var before := Matching(channels[..i], ports);
      var j := 0;
      AboutAppend(offer, ids, before, OnChannel(channels[i], ports[..0]));
      while j < |ports|
        invariant 0 <= j <= |ports|
        invariant sent == About(offer, ids, before) + About(offer, ids, OnChannel(channels[i], ports[..j]))
      {
        ghost var there := OnChannel(channels[i], ports[..j]);
        OnChannelNext(channels[i], ports, j);
        if ports[j].address == channels[i] {
          AboutAppend(offer, ids, there, [ports[j]]);
          AboutOne(offer, ids, ports[j]);
          sent := sent + [if offer then Offer(ids, ports[j]) else StopOffer(ids, ports[j])];
        } else {
          assert there + [] == there;
        }
        j := j + 1;
      }
      assert ports[..j] == ports;
      AboutAppend(offer, ids, before, OnChannel(channels[i], ports));
      MatchingNext(channels, ports, i);
      i := i + 1;
    }
    assert channels[..i] == channels;
  }

  class Dispatcher {
    var services: seq<Service>
    var notifications: seq<Notification>
    var table: seq<Option<ClientRef>>
    var disconnected: seq<ClientRef>
    var listeners: seq<Listener>
    var clients: map<ClientRef, Client>
    var deleted: seq<ClientRef>
    var nextHandle: nat
    const tcp: TcpManager
    const channels: seq<u32>
    var announced: seq<Announcement>
    var outbox: map<ClientRef, seq<RegistryMessage>>
    ghost var history: seq<seq<ServiceKey>>

    ghost function Model(): (d: State)
      reads this, tcp
    {
      State(services, notifications, table, disconnected, listeners, clients, deleted, nextHandle,
            tcp.servers, channels, announced, outbox, history)
    }

    constructor (channels: seq<u32>)
      ensures Model() == Start(channels) && fresh(tcp)
    {
      services, notifications, table, disconnected := [], [], [], [];
      listeners := [TcpListener, AnnouncerListener];
      clients, deleted, nextHandle := map[], [], 0;
      tcp := new TcpManager();
      this.channels := channels;
      announced, outbox, history := [], map[], [[]];
    }

    // ---- Listeners ----

    method OfferService(offer: bool, ids: ServiceIDs)
      modifies this`announced
      ensures announced == old(announced) + About(offer, ids, OfferedAt(tcp.servers, channels, ids))
    {
      var i := tcp.GetEndPointOf(ids);
      if i < |tcp.servers| {
        var sent := SendAnnouncements(offer, ids, channels, tcp.servers[i].ports);
        announced := announced + sent;
      } else {
        assert announced + [] == announced;
      }
    }

    method TellRegistered(l: Listener, k: ServiceKey, init: Option<seq<EndPoint>>)
      modifies this`announced, this`outbox, tcp
      ensures Model() == OnRegistered(old(Model()), l, k, init)
    {
      match l
      case TcpListener => tcp.OnServiceRegistered(k, init);
      case AnnouncerListener => OfferService(true, k.ids);
      case LocalListener(c) =>
        outbox := outbox[c := (if c in outbox then outbox[c] else []) + [Registered([k.ids])]];
    }

    method TellUnregistered(l: Listener, k: ServiceKey)
      modifies this`announced, this`outbox, tcp
      ensures Model() == OnUnregistered(old(Model()), l, k)
    {
      match l
      case TcpListener => tcp.OnServiceUnregistered(k);
      case AnnouncerListener => OfferService(false, k.ids);
      case LocalListener(c) =>
        outbox := outbox[c := (if c in outbox then outbox[c] else []) + [Unregistered([k.ids])]];
    }

    method NotifyListeners(k: ServiceKey, init: Option<seq<EndPoint>>)
      modifies this`announced, this`outbox, tcp
      ensures Model() == NotifyRegistered(old(Model()), 0, k, init)
    {
      var i := 0;
      while i < |listeners|
        invariant 0 <= i <= |listeners|
        invariant NotifyRegistered(Model(), i, k, init) == NotifyRegistered(old(Model()), 0, k, init)
      {
        TellRegistered(listeners[i], k, init);
        i := i + 1;
      }
    }

    method NotifyListenersBackwards(k: ServiceKey)
      modifies this`announced, this`outbox, tcp
      ensures Model() == NotifyUnregistered(old(Model()), |listeners|, k)
    {
      var i := |listeners|;
      while i > 0
        invariant 0 <= i <= |listeners|
        invariant NotifyUnregistered(Model(), i, k) == NotifyUnregistered(old(Model()), |listeners|, k)
      {
        TellUnregistered(listeners[i - 1], k);
        i := i - 1;
      }
    }

    // ---- The registry ----

    method GetService(ids: ServiceIDs) returns (i: nat)
      ensures i == Find(services, ids)
    {
      i := 0;
      while i < |services|
        invariant 0 <= i <= |services|
        invariant forall j | 0 <= j < i :: services[j].key.ids != ids
      {
        if services[i].key.ids == ids {
          return;
        }
        i := i + 1;
      }
    }

    method ProvideNotifications(k: ServiceKey)
      modifies this`notifications
      ensures notifications == Provide(old(notifications), k)
    {
      var i := 0;
      while i < |notifications|
        invariant 0 <= i <= |notifications| == |old(notifications)|
        invariant forall j | 0 <= j < i :: notifications[j] == Provide(old(notifications), k)[j]
        invariant forall j | i <= j < |notifications| :: notifications[j] == old(notifications)[j]
      {
        if notifications[i].member.service == k.ids {
          notifications := notifications[i := notifications[i].(provider := Some(k))];
        }
        i := i + 1;
      }
    }

    method WithdrawNotifications(k: ServiceKey)
      modifies this`notifications
      ensures notifications == Withdraw(old(notifications), k)
    {
      var i := 0;
      while i < |notifications|
        invariant 0 <= i <= |notifications| == |old(notifications)|
        invariant forall j | 0 <= j < i :: notifications[j] == Withdraw(old(notifications), k)[j]
        invariant forall j | i <= j < |notifications| :: notifications[j] == old(notifications)[j]
      {
        if notifications[i].provider == Some(k) {
          notifications := notifications[i := notifications[i].(provider := None)];
        }
        i := i + 1;
      }
    }

    method RegisterService(s: Service, init: Option<seq<EndPoint>>) returns (ok: bool)
      modifies this, tcp
      ensures Model() == Daemon.RegisterService(old(Model()), s, init)
      ensures ok <==> forall x | x in old(services) :: x.key.ids != s.key.ids
    {
      var i := GetService(s.key.ids);
      if i < |services| {
        assert services[i] in services;
        return false;
      }
      ok := true;
      services := services + [s];
      history := history + [Keys(services)];
      NotifyListeners(s.key, init);
      ProvideNotifications(s.key);
    }

    method UnregisterService(k: ServiceKey)
      modifies this, tcp
      ensures Model() == Daemon.UnregisterService(old(Model()), k)
    {
      services := RemoveService(services, k);
      history := history + [Keys(services)];
      assert Model() == DropService(old(Model()), k);
      NotifyListenersBackwards(k);
      WithdrawNotifications(k);
    }

    method RegisterWellKnownService(ids: ServiceIDs, init: Option<seq<EndPoint>>)
      modifies this, tcp
      ensures Model() == RegisterWellKnown(old(Model()), ids, init)
    {
      var s := Service(ServiceKey(nextHandle, ids, true), None);
      nextHandle := nextHandle + 1;
      var ok := RegisterService(s, init);
    }

    /** `tryRegisterService`. */
    method TryRegisterService(c: ClientRef, ids: ServiceIDs, isLocal: bool, init: Option<seq<EndPoint>>)
      returns (k: Option<ServiceKey>)
      modifies this, tcp
      ensures Model() == TryRegister(old(Model()), c, ids, isLocal, init)
      ensures k == Granted(old(Model()), c, ids, isLocal)
    {
      var i := GetService(ids);
      if i < |services| {
        if isLocal {
          if services[i].client == None {
            services := services[i := services[i].(client := Some(c))];
            return Some(services[i].key);
          }
        } else {
          return None;
        }
      } else {
        var s := Service(ServiceKey(nextHandle, ids, isLocal), Some(c));
        nextHandle := nextHandle + 1;
        var ok := RegisterService(s, init);
        return Some(s.key);
      }
      k := if services[i].client == Some(c) then Some(services[i].key) else None;
    }

    // ---- Clients ----

    method ClientRegisterService(c: ClientRef, ids: ServiceIDs, isLocal: bool, init: Option<seq<EndPoint>>)
      requires c in clients
      modifies this, tcp
      ensures Model() == ClientRegister(old(Model()), c, ids, isLocal, init)
    {
      var k := TryRegisterService(c, ids, isLocal, init);
      if k.Some? {
        clients := clients[c := clients[c].(services := clients[c].services + [k.value])];
      }
    }

    method ClientUnregisterService(c: ClientRef, ids: ServiceIDs)
      requires c in clients
      modifies this, tcp
      ensures Model() == ClientUnregister(old(Model()), c, ids)
    {
      var keys := clients[c].services;
      var i := 0;
      while i < |keys| && keys[i].ids != ids
        invariant 0 <= i <= |keys|
        invariant forall j | 0 <= j < i :: keys[j].ids != ids
      {
        i := i + 1;
      }
      if i < |keys| {
        UnregisterService(keys[i]);
        clients := clients[c := clients[c].(services := keys[..i] + keys[i + 1..])];
      }
    }

    method GetOrCreateNotification(member: MemberIDs) returns (i: nat)
      modifies this`notifications
      ensures Model() == WithNotification(old(Model()), member)
      ensures i == FindNotification(old(notifications), member) < |notifications|
    {
      i := 0;
      while i < |notifications|
        invariant 0 <= i <= |notifications|
        invariant forall j | 0 <= j < i :: notifications[j].member != member
      {
        if notifications[i].member == member {
          return;
        }
        i := i + 1;
      }
      var s := GetService(member.service);
      notifications := notifications + [Notification(member, [], if s < |services| then Some(services[s].key) else None)];
    }

    method SubscribeToNotification(c: ClientRef, member: MemberIDs)
      requires c in clients
      modifies this
      ensures Model() == Subscribe(old(Model()), c, member)
    {
      var i := GetOrCreateNotification(member);
      var n := notifications[i];
      notifications := notifications[i := n.(subscribers := n.subscribers + [c])];
      clients := clients[c := clients[c].(subscriptions := clients[c].subscriptions + [i])];
    }

    method UnsubscribeClient(subscriptions: seq<nat>, c: ClientRef)
      modifies this`notifications
      ensures notifications == UnsubscribeAll(old(notifications), subscriptions, c)
    {
      var i := 0;
      assert subscriptions[0..] == subscriptions;
      while i < |subscriptions|
        invariant 0 <= i <= |subscriptions|
        invariant UnsubscribeAll(notifications, subscriptions[i..], c) ==
                  UnsubscribeAll(old(notifications), subscriptions, c)
      {
        var n := subscriptions[i];
        assert subscriptions[i..][1..] == subscriptions[i + 1..];
        if n < |notifications| {
          var left := RemoveFromVector(notifications[n].subscribers, c);
          notifications := notifications[n := notifications[n].(subscribers := left)];
        }
        i := i + 1;
      }
    }

    method UnregisterServices(keys: seq<ServiceKey>)
      modifies this, tcp
      ensures Model() == UnregisterAll(old(Model()), keys)
    {
      var i := 0;
      assert keys[0..] == keys;
      while i < |keys|
        invariant 0 <= i <= |keys|
        invariant UnregisterAll(Model(), keys[i..]) == UnregisterAll(old(Model()), keys)
      {
        assert keys[i..][1..] == keys[i + 1..];
        UnregisterService(keys[i]);
        i := i + 1;
      }
    }

    /** `registerClient` and what a local client does beside it. */
    method RegisterClient(c: ClientRef, isLocal: bool)
      modifies this
      ensures Model() == Connect(old(Model()), c, isLocal)
    {
      clients := clients[c := Client(|table|, true, [], [], isLocal)];
      table := table + [Some(c)];
      if isLocal {
        var ids: seq<ServiceIDs> := [];
        var i := 0;
        while i < |services|
          invariant 0 <= i <= |services| && |ids| == i
          invariant forall j | 0 <= j < i :: ids[j] == services[j].key.ids
        {
          ids := ids + [services[i].key.ids];
          i := i + 1;
        }
        assert ids == Ids(Keys(services));
        outbox := outbox[c := [Registered(ids)]];
        listeners := listeners + [LocalListener(c)];
      }
    }

    /** `onDisconnected` and `unregisterClient`; the source asserts the table entry is there. */
    method UnregisterClient(c: ClientRef)
      requires IsRegistered(Model(), c) && clients[c].id < |table|
      modifies this, tcp
      ensures Model() == Disconnect(old(Model()), c)
    {
      var x := clients[c];
      if x.isLocal {
        listeners := RemoveFromVector(listeners, LocalListener(c));
      }
      UnsubscribeClient(x.subscriptions, c);
      assert Model() == Muted(old(Model()), c);
      UnregisterServices(x.services);
      ghost var d3 := Model();
      TableKept(Muted(old(Model()), c), x.services);
      table := table[x.id := None];
      disconnected := disconnected + [c];
      clients := clients[c := x.(registered := false)];
    }

    method CleanDisconnectedClients()
      modifies this
      ensures Model() == CleanUp(old(Model()))
    {
      var i := 0;
      while i < |disconnected|
        invariant 0 <= i <= |disconnected|
        invariant deleted == old(deleted) + disconnected[..i]
        invariant clients == map c | c in old(clients) && c !in disconnected[..i] :: old(clients)[c]
        invariant Model() == old(Model()).(clients := clients, deleted := deleted)
      {
        clients := clients - {disconnected[i]};
        deleted := deleted + [disconnected[i]];
        i := i + 1;
      }
      assert disconnected[..i] == disconnected;
      disconnected := [];
    }

    method AnnounceServices()
      modifies this`announced
      ensures Model() == AnnounceAgain(old(Model()), 0)
    {
      var i := 0;
      while i < |services|
        invariant 0 <= i <= |services|
        invariant AnnounceAgain(Model(), i) == AnnounceAgain(old(Model()), 0)
      {
        if services[i].key.isLocal {
          OfferService(true, services[i].key.ids);
        }
        i := i + 1;
      }
    }

    /** One event of a run: the object follows the model and keeps its invariant. */
    method Handle(e: Event)
      requires Inv(Model()) && Enabled(Model(), e)
      modifies this, tcp
      ensures Model() == Step(old(Model()), e) && Inv(Model())
    {
      StepKeepsInv(Model(), e);
      match e
      case ClientConnects(c, isLocal) => RegisterClient(c, isLocal);
      case WellKnownRegisters(ids, init) => RegisterWellKnownService(ids, init);
      case ServiceRegisters(c, ids, isLocal, init) => ClientRegisterService(c, ids, isLocal, init);
      case ServiceUnregisters(c, ids) => ClientUnregisterService(c, ids);
      case ClientSubscribes(c, member) => SubscribeToNotification(c, member);
      case NotificationSent(member) => var i := GetOrCreateNotification(member);
      case ClientDisconnects(c) => UnregisterClient(c);
      case IdleCleanUp => CleanDisconnectedClients();
      case AnnounceTimer => AnnounceServices();
    }

    // ---- Messages ----

    method GetClientFromId(id: nat) returns (c: Option<ClientRef>)
      ensures c == ClientFromId(Model(), id)
    {
      c := None;
      if |table| > id {
        c := table[id];
      }
    }

    /** `dispatchMessage`: what is sent where, in the order it is sent. */
    method DispatchMessage(m: Msg, from: ClientRef, id: u16) returns (sent: seq<Delivery>)
      modifies this`notifications
      ensures sent == Dispatch(old(Model()), m, from, id)
      ensures Model() ==
              if m.header.messageType == NOTIFICATION && m.header.messageID != SERVICE_DISCOVERY
              then WithNotification(old(Model()), MemberOf(m)) else old(Model())
    {
      sent := [];
      if m.header.messageType == NOTIFICATION {
        if m.header.messageID != SERVICE_DISCOVERY {
          var n := GetOrCreateNotification(MemberOf(m));
          sent := SendToSubscribers(notifications[n].subscribers, m);
        }
      } else if IsReply(m.header) {
        var c := GetClientFromId(m.client);
        if c.Some? {
          sent := [ToClient(c.value, m)];
        }
      } else {
        var marked := if m.header.messageType == REQUEST then m.(client := id) else m;
        sent := SendToServices(services, marked);
        if sent == [] {
          sent := [ToClient(from, ErrorReply(marked))];
        }
      }
    }
  }

  lemma {:induction false} WithoutFrom(services: seq<Service>, i: nat, k: ServiceKey)
    requires i < |services|
    ensures Without(services[i..], k) ==
            if services[i].key == k then services[i + 1..] else [services[i]] + Without(services[i + 1..], k)
  {
    assert services[i..][1..] == services[i + 1..];
  }

  /** `removeFromVector` on the service objects. */
  method RemoveService(services: seq<Service>, k: ServiceKey) returns (r: seq<Service>)
    ensures r == Without(services, k)
  {
    var i := 0;
    while i < |services| && services[i].key != k
      invariant 0 <= i <= |services|
      invariant services[..i] + Without(services[i..], k) == Without(services, k)
    {
      WithoutFrom(services, i, k);
      assert services[..i + 1] == services[..i] + [services[i]];
      i := i + 1;
    }
    if i < |services| {
      WithoutFrom(services, i, k);
      r := services[..i] + services[i + 1..];
    } else {
      assert services[..i] == services && services[i..] == [];
      r := services;
    }
  }

  method SendToSubscribers(subscribers: seq<ClientRef>, m: Msg) returns (sent: seq<Delivery>)
    ensures sent == ToSubscribers(subscribers, m)
  {
    sent := [];
    var i := 0;
    while i < |subscribers|
      invariant 0 <= i <= |subscribers| && |sent| == i
      invariant forall j | 0 <= j < i :: sent[j] == ToClient(subscribers[j], m)
    {
      sent := sent + [ToClient(subscribers[i], m)];
      i := i + 1;
    }
  }

  method SendToServices(services: seq<Service>, m: Msg) returns (sent: seq<Delivery>)
    ensures sent == ToServices(services, m)
  {
    sent := [];
    var i := 0;
    while i < |services|
      invariant 0 <= i <= |services|
      invariant sent + ToServices(services[i..], m) == ToServices(services, m)
    {
      assert services[i..][1..] == services[i + 1..];
      if services[i].key.ids == Routing.ServiceOf(m) {
        sent := sent + [Target(services[i], m)];
      }
      i := i + 1;
    }
  }

  lemma {:induction false} TableKept(d: State, keys: seq<ServiceKey>)
    ensures var r := UnregisterAll(d, keys);
            r.table == d.table && r.clients == d.clients && r.disconnected == d.disconnected
    decreases |keys|
  {
    if keys != [] {
      TableKept(Daemon.UnregisterService(d, keys[0]), keys[1..]);
    }
  }
}
