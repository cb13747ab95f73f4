/**
 What a registration or unregistration does to servers, announcements, client outboxes and
 the history of the registry, given the order of the listeners.
 */
module Effects {
  import opened Bytes
  import opened Announcements
  import opened Lists
  import opened Endpoints
  import opened Daemon
  import opened DaemonInvariant

  /** The outbox of a client after one more message to every listening client. */
  function Grown(d: State, c: ClientRef, m: RegistryMessage): (box: seq<RegistryMessage>) {
    OutboxOf(d, c) + if LocalListener(c) in d.listeners then [m] else []
  }

  // ---- Listeners in order ----

  lemma {:induction false} NotifyLocals(d: State, n: nat, k: ServiceKey, init: Option<seq<EndPoint>>, c: ClientRef)
    requires ListenerShape(d.listeners) && 2 <= n <= |d.listeners|
    ensures var r := NotifyRegistered(d, n, k, init);
            && r.servers == d.servers && r.announced == d.announced
            && OutboxOf(r, c) == OutboxOf(d, c) + if LocalListener(c) in d.listeners[n..] then [Registered([k.ids])] else []
    decreases |d.listeners| - n
  {
    if n < |d.listeners| {
      var l := d.listeners[n];
      var d1 := OnRegistered(d, l, k, init);
      NotifyLocals(d1, n + 1, k, init, c);
      assert d.listeners[n..] == [l] + d.listeners[n + 1..];
      assert l !in d.listeners[n + 1..];
    }
  }

  /** Registration: the server is bound, then announced, then the local clients are told. */
  lemma {:induction false} NotifyAll(d: State, k: ServiceKey, init: Option<seq<EndPoint>>, c: ClientRef)
    requires ListenerShape(d.listeners)
    ensures var r := NotifyRegistered(d, 0, k, init);
            && r.servers == (if k.isLocal then Bind(d.servers, k, init) else d.servers)
            && r.announced == d.announced + Offers(k.ids, OfferedAt(r.servers, d.channels, k.ids))
            && OutboxOf(r, c) == Grown(d, c, Registered([k.ids]))
  {
    var d1 := OnRegistered(d, TcpListener, k, init);
    var d2 := OnRegistered(d1, AnnouncerListener, k, init);
    NotifyLocals(d2, 2, k, init, c);
    assert NotifyRegistered(d, 0, k, init) == NotifyRegistered(d1, 1, k, init) == NotifyRegistered(d2, 2, k, init);
    LocalsFrom2(d.listeners, c);
  }

  lemma {:induction false} LocalsFrom2(listeners: seq<Listener>, c: ClientRef)
    requires ListenerShape(listeners)
    ensures LocalListener(c) in listeners[2..] <==> LocalListener(c) in listeners
  {
    assert listeners == [listeners[0], listeners[1]] + listeners[2..];
  }

  lemma {:induction false} UnnotifyLocals(d: State, n: nat, k: ServiceKey, c: ClientRef)
    requires ListenerShape(d.listeners) && 2 <= n <= |d.listeners|
    ensures var d1 := NotifyUnregistered(d, n, k);
            var at := OfferedAt(d.servers, d.channels, k.ids);
            && d1.servers == (if k.isLocal then Unbind(d.servers, k) else d.servers)
            && d1.announced == d.announced + StopOffers(k.ids, at)
            && OutboxOf(d1, c) ==
               OutboxOf(d, c) + if LocalListener(c) in d.listeners[..n] then [Unregistered([k.ids])] else []
    decreases n
  {
    if n == 2 {
      var d1 := OnUnregistered(d, AnnouncerListener, k);
      var d2 := OnUnregistered(d1, TcpListener, k);
      assert NotifyUnregistered(d, 2, k) == NotifyUnregistered(d1, 1, k) == NotifyUnregistered(d2, 0, k);
    } else {
      var l := d.listeners[n - 1];
      var d1 := OnUnregistered(d, l, k);
      UnnotifyLocals(d1, n - 1, k, c);
      assert d.listeners[..n] == d.listeners[..n - 1] + [l];
      assert l !in d.listeners[..n - 1];
    }
  }

  /** Unregistration: clients are told, the stop-offer goes out, then the server lets go. */
  lemma {:induction false} UnnotifyAll(d: State, k: ServiceKey, c: ClientRef)
    requires ListenerShape(d.listeners)
    ensures var r := NotifyUnregistered(d, |d.listeners|, k);
            && r.servers == (if k.isLocal then Unbind(d.servers, k) else d.servers)
            && r.announced == d.announced + StopOffers(k.ids, OfferedAt(d.servers, d.channels, k.ids))
            && OutboxOf(r, c) == Grown(d, c, Unregistered([k.ids]))
  {
    UnnotifyLocals(d, |d.listeners|, k, c);
    assert d.listeners[..|d.listeners|] == d.listeners;
  }

  // ---- The registry ----

  /** The registry gained the service `k`, everyone listening was told. */
  ghost predicate Gained(d: State, r: State, k: ServiceKey, init: Option<seq<EndPoint>>) {
    && Keys(r.services) == Keys(d.services) + [k] && r.history == d.history + [Keys(r.services)]
    && r.listeners == d.listeners && r.channels == d.channels
    && r.servers == (if k.isLocal then Bind(d.servers, k, init) else d.servers)
    && r.announced == d.announced + Offers(k.ids, OfferedAt(r.servers, d.channels, k.ids))
    && forall c :: OutboxOf(r, c) == Grown(d, c, Registered([k.ids]))
  }

  /** The registry lost the service `k`, everyone listening was told. */
  ghost predicate Lost(d: State, r: State, k: ServiceKey) {
    && Keys(r.services) == RemoveFirst(Keys(d.services), k) && r.history == d.history + [Keys(r.services)]
    && r.listeners == d.listeners && r.channels == d.channels
    && r.servers == (if k.isLocal then Unbind(d.servers, k) else d.servers)
    && r.announced == d.announced + StopOffers(k.ids, OfferedAt(d.servers, d.channels, k.ids))
    && forall c :: OutboxOf(r, c) == Grown(d, c, Unregistered([k.ids]))
  }

  /** The registry, what was told about it, and where its services are, did not change. */
  ghost predicate Quiet(d: State, r: State) {
    && Keys(r.services) == Keys(d.services) && r.history == d.history && r.channels == d.channels
    && r.servers == d.servers && r.announced == d.announced
    && (forall c | LocalListener(c) in r.listeners :: LocalListener(c) in d.listeners)
    && forall c | LocalListener(c) in r.listeners :: OutboxOf(r, c) == OutboxOf(d, c)
  }

  lemma {:induction false} KeysAppend(services: seq<Service>, s: Service)
    ensures Keys(services + [s]) == Keys(services) + [s.key]
  {
  }

  lemma {:induction false} RegisterGains(d: State, s: Service, init: Option<seq<EndPoint>>)
    requires ListenerShape(d.listeners) && Find(d.services, s.key.ids) == |d.services|
    ensures Gained(d, RegisterService(d, s, init), s.key, init)
  {
    var d0 := AddService(d, s);
    var r := RegisterService(d, s, init);
    var d1 := NotifyRegistered(d0, 0, s.key, init);
    assert r == d1.(notifications := Provide(d1.notifications, s.key));
    KeysAppend(d.services, s);
    NotifyAll(d0, s.key, init, 0);
    forall c ensures OutboxOf(r, c) == Grown(d, c, Registered([s.key.ids])) {
      NotifyAll(d0, s.key, init, c);
    }
  }

  lemma {:induction false} UnregisterTells(d: State, k: ServiceKey, c: ClientRef)
    requires ListenerShape(d.listeners)
    ensures OutboxOf(UnregisterService(d, k), c) == Grown(d, c, Unregistered([k.ids]))
  {
    UnnotifyAll(DropService(d, k), k, c);
  }

  lemma {:induction false} UnregisterLoses(d: State, k: ServiceKey)
    requires ListenerShape(d.listeners)
    ensures Lost(d, UnregisterService(d, k), k)
  {
    var r := UnregisterService(d, k);
    forall c ensures OutboxOf(r, c) == Grown(d, c, Unregistered([k.ids])) {
      UnregisterTells(d, k, c);
    }
    WithoutKeys(d.services, k);
    var d0 := DropService(d, k);
    UnnotifyAll(d0, k, 0);
    assert r.servers == NotifyUnregistered(d0, |d.listeners|, k).servers;
    assert r.announced == NotifyUnregistered(d0, |d.listeners|, k).announced;
  }

  /** The fields a registration is about. */
  ghost predicate SameRegistry(d: State, r: State) {
    && r.services == d.services && r.history == d.history && r.listeners == d.listeners && r.channels == d.channels
    && r.servers == d.servers && r.announced == d.announced && r.outbox == d.outbox
  }

  lemma {:induction false} GainedElsewhere(
    d: State, d1: State, r1: State, r: State, k: ServiceKey, init: Option<seq<EndPoint>>)
    requires SameRegistry(d, d1) && SameRegistry(r1, r) && Gained(d1, r1, k, init)
    ensures Gained(d, r, k, init)
  {
    forall c ensures OutboxOf(r, c) == Grown(d, c, Registered([k.ids])) {
      assert OutboxOf(r1, c) == Grown(d1, c, Registered([k.ids]));
    }
  }

  lemma {:induction false} LostElsewhere(d: State, r1: State, r: State, k: ServiceKey)
    requires SameRegistry(r1, r) && Lost(d, r1, k)
    ensures Lost(d, r, k)
  {
    forall c ensures OutboxOf(r, c) == Grown(d, c, Unregistered([k.ids])) {
      assert OutboxOf(r1, c) == Grown(d, c, Unregistered([k.ids]));
    }
  }
}
