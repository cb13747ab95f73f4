/**
 What every event of the daemon keeps, without any assumption on the clients: the client
 table and the life of client objects, the registry and its owners, subscriptions on both
 sides, cached providers, and the list of listeners.
 */
module DaemonInvariant {
  import opened Bytes
  import opened SomeIp
  import opened Announcements
  import opened Lists
  import opened Endpoints
  import opened Daemon

  // ---- The invariant ----

  /** Table entries and registered clients point at each other. */
  ghost predicate TableInv(d: State) {
    && (forall i | 0 <= i < |d.table| && d.table[i].Some? ::
          IsRegistered(d, d.table[i].value) && d.clients[d.table[i].value].id == i)
    && (forall c | IsRegistered(d, c) :: d.clients[c].id < |d.table| && d.table[d.clients[c].id] == Some(c))
  }

  /** A client that is no longer registered waits for deletion exactly once, and is deleted once. */
  ghost predicate LifeInv(d: State) {
    && NoDup(d.disconnected) && NoDup(d.deleted)
    && (forall c | c in d.disconnected :: c in d.clients && !d.clients[c].registered)
    && (forall c | c in d.clients && !d.clients[c].registered :: c in d.disconnected)
    && (forall c | c in d.deleted :: c !in d.clients)
  }

  ghost predicate DistinctServices(services: seq<Service>) {
    forall i, j | 0 <= i < j < |services| :: services[i].key.ids != services[j].key.ids
  }

  /** Service IDs are distinct, and the client of a service is there and knows the service. */
  ghost predicate ServiceInv(d: State) {
    && DistinctServices(d.services)
    && (forall s | s in d.services :: s.key.handle < d.nextHandle)
    && (forall s | s in d.services && s.client.Some? ::
          IsRegistered(d, s.client.value) && s.key in d.clients[s.client.value].services)
    && (forall c, k | c in d.clients && k in d.clients[c].services :: k.handle < d.nextHandle)
  }

  ghost predicate DistinctMembers(notifications: seq<Notification>) {
    forall i, j | 0 <= i < j < |notifications| :: notifications[i].member != notifications[j].member
  }

  ghost predicate SubscribersKnown(d: State) {
    forall i, c | 0 <= i < |d.notifications| && c in d.notifications[i].subscribers :: IsRegistered(d, c)
  }

  ghost predicate SubscriptionsKnown(d: State) {
    forall c, n | IsRegistered(d, c) && n in d.clients[c].subscriptions :: n < |d.notifications|
  }

  /** A client occurs in a subscriber list as often as its own list names the notification. */
  ghost predicate Agree(d: State, c: ClientRef, i: nat)
    requires c in d.clients && i < |d.notifications|
  {
    Count(d.notifications[i].subscribers, c) == Count(d.clients[c].subscriptions, i)
  }

  /** The two records of every subscription agree, with multiplicity. */
  ghost predicate SubscriptionInv(d: State) {
    && DistinctMembers(d.notifications) && SubscribersKnown(d) && SubscriptionsKnown(d)
    && forall c: ClientRef, i: nat | IsRegistered(d, c) && i < |d.notifications| :: Agree(d, c, i)
  }

  /** The cached provider of a notification is what a lookup would find. */
  ghost predicate ProviderInv(d: State) {
    forall i | 0 <= i < |d.notifications| ::
      d.notifications[i].provider == Lookup(d.services, d.notifications[i].member.service)
  }

  ghost predicate ListenerShape(listeners: seq<Listener>) {
    && |listeners| >= 2 && listeners[0] == TcpListener && listeners[1] == AnnouncerListener
    && NoDup(listeners) && forall i | 2 <= i < |listeners| :: listeners[i].LocalListener?
  }

  /** The TCP manager hears first, then the announcer, then exactly the registered local clients. */
  ghost predicate ListenerInv(d: State) {
    && ListenerShape(d.listeners)
    && forall c :: LocalListener(c) in d.listeners <==> IsRegistered(d, c) && d.clients[c].isLocal
  }

  ghost predicate Inv(d: State) {
    && TableInv(d) && LifeInv(d) && ServiceInv(d) && SubscriptionInv(d) && ProviderInv(d) && ListenerInv(d)
  }

  lemma {:induction false} StartInv(channels: seq<u32>)
    ensures Inv(Start(channels))
  {
  }

  // ---- Registry lists ----

  lemma {:induction false} LookupFinds(services: seq<Service>, s: Service)
    requires DistinctServices(services) && s in services
    ensures Lookup(services, s.key.ids) == Some(s.key)
  {
    var j :| 0 <= j < |services| && services[j] == s;
    var i := Find(services, s.key.ids);
    assert i <= j;
  }

  lemma {:induction false} LookupNone(services: seq<Service>, ids: ServiceIDs)
    requires forall i | 0 <= i < |services| :: services[i].key.ids != ids
    ensures Lookup(services, ids) == None && Find(services, ids) == |services|
  {
  }

  lemma {:induction false} LookupSound(services: seq<Service>, ids: ServiceIDs)
    ensures Lookup(services, ids).Some? ==>
              exists s :: s in services && s.key == Lookup(services, ids).value && s.key.ids == ids
    ensures Lookup(services, ids).None? ==> forall s | s in services :: s.key.ids != ids
  {
    var i := Find(services, ids);
    if i < |services| {
      assert services[i] in services;
    }
  }

  lemma {:induction false} LookupAppend(services: seq<Service>, s: Service, ids: ServiceIDs)
    requires DistinctServices(services + [s])
    ensures Lookup(services + [s], ids) == if s.key.ids == ids then Some(s.key) else Lookup(services, ids)
  {
    var all := services + [s];
    assert all[|services|] == s && s in all;
    if s.key.ids == ids {
      LookupFinds(all, s);
    } else {
      LookupSound(services, ids);
      if Lookup(services, ids).Some? {
        var x :| x in services && x.key == Lookup(services, ids).value;
        assert x in all;
        LookupFinds(all, x);
      } else {
        assert forall j | 0 <= j < |services| :: services[j] in services;
        LookupNone(all, ids);
      }
    }
  }

  lemma {:induction false} WithoutMembers(services: seq<Service>, k: ServiceKey, s: Service)
    requires DistinctServices(services)
    ensures s in Without(services, k) <==> s in services && s.key != k
  {
    if services != [] {
      assert s in services <==> s == services[0] || s in services[1..];
      if services[0].key == k {
        assert s in services[1..] ==> s.key.ids != services[0].key.ids;
      } else {
        WithoutMembers(services[1..], k, s);
        assert s in Without(services, k) <==> s == services[0] || s in Without(services[1..], k);
      }
    }
  }

  lemma {:induction false} WithoutKeys(services: seq<Service>, k: ServiceKey)
    ensures Keys(Without(services, k)) == RemoveFirst(Keys(services), k)
  {
    if services != [] {
      assert Keys(services)[1..] == Keys(services[1..]);
      if services[0].key != k {
        WithoutKeys(services[1..], k);
        assert ([services[0]] + Without(services[1..], k))[1..] == Without(services[1..], k);
      }
    }
  }

  lemma {:induction false} WithoutDistinct(services: seq<Service>, k: ServiceKey)
    requires DistinctServices(services)
    ensures DistinctServices(Without(services, k))
  {
    if services != [] && services[0].key != k {
      WithoutDistinct(services[1..], k);
      var rest := Without(services[1..], k);
      forall j | 0 <= j < |rest| ensures rest[j].key.ids != services[0].key.ids {
        assert rest[j] in rest;
        WithoutMembers(services[1..], k, rest[j]);
      }
    }
  }

  lemma {:induction false} LookupWithout(services: seq<Service>, k: ServiceKey, ids: ServiceIDs)
    requires DistinctServices(services)
    ensures Lookup(Without(services, k), ids) ==
            if Lookup(services, ids) == Some(k) then None else Lookup(services, ids)
  {
    var rest := Without(services, k);
    WithoutDistinct(services, k);
    LookupSound(services, ids);
    LookupSound(rest, ids);
    if Lookup(services, ids).Some? && Lookup(services, ids).value != k {
      var x :| x in services && x.key == Lookup(services, ids).value && x.key.ids == ids;
      WithoutMembers(services, k, x);
      LookupFinds(rest, x);
    } else if Lookup(rest, ids).Some? {
      var x :| x in rest && x.key == Lookup(rest, ids).value && x.key.ids == ids;
      WithoutMembers(services, k, x);
      LookupFinds(services, x);
    }
  }

  // ---- Frames ----

  /** Nothing about the life of clients changes. */
  ghost predicate SameLife(d: State, r: State) {
    && r.table == d.table && r.disconnected == d.disconnected && r.deleted == d.deleted
    && r.listeners == d.listeners && r.clients.Keys == d.clients.Keys
    && forall c | c in d.clients ::
         && r.clients[c].id == d.clients[c].id && r.clients[c].registered == d.clients[c].registered
         && r.clients[c].isLocal == d.clients[c].isLocal
  }

  lemma {:induction false} SameLifeKeeps(d: State, r: State)
    requires TableInv(d) && LifeInv(d) && ListenerInv(d) && SameLife(d, r)
    ensures TableInv(r) && LifeInv(r) && ListenerInv(r)
  {
  }

  /** Everything but servers, announcements, outboxes and history. */
  function Core(d: State): (r: State) {
    d.(servers := [], announced := [], outbox := map[], history := [])
  }

  lemma {:induction false} CoreInv(d: State, r: State)
    requires Inv(d) && Core(d) == Core(r)
    ensures Inv(r)
  {
    assert SameFields(d, r);
    SameLifeKeeps(d, r);
    SameSubscriptionsKeeps(d, r);
  }

  ghost predicate SameFields(d: State, r: State) {
    && r.services == d.services && r.notifications == d.notifications && r.clients == d.clients
    && r.nextHandle == d.nextHandle && r.table == d.table && r.disconnected == d.disconnected
    && r.deleted == d.deleted && r.listeners == d.listeners
  }

  lemma {:induction false} RegisterCore(d: State, s: Service, init: Option<seq<EndPoint>>)
    requires Find(d.services, s.key.ids) == |d.services|
    ensures Core(RegisterService(d, s, init)) ==
            Core(d.(services := d.services + [s], notifications := Provide(d.notifications, s.key)))
  {
  }

  lemma {:induction false} UnregisterCore(d: State, k: ServiceKey)
    ensures Core(UnregisterService(d, k)) ==
            Core(d.(services := Without(d.services, k), notifications := Withdraw(d.notifications, k)))
  {
  }

  // ---- Providers ----

  lemma {:induction false} ProvideKeeps(d: State, s: Service)
    requires ProviderInv(d) && DistinctServices(d.services + [s])
    ensures ProviderInv(d.(services := d.services + [s], notifications := Provide(d.notifications, s.key)))
  {
    forall i | 0 <= i < |d.notifications|
      ensures Provide(d.notifications, s.key)[i].provider ==
              Lookup(d.services + [s], d.notifications[i].member.service)
    {
      LookupAppend(d.services, s, d.notifications[i].member.service);
    }
  }

  lemma {:induction false} WithdrawKeeps(d: State, k: ServiceKey)
    requires ProviderInv(d) && DistinctServices(d.services)
    ensures ProviderInv(d.(services := Without(d.services, k), notifications := Withdraw(d.notifications, k)))
  {
    forall i | 0 <= i < |d.notifications|
      ensures Withdraw(d.notifications, k)[i].provider ==
              Lookup(Without(d.services, k), d.notifications[i].member.service)
    {
      LookupWithout(d.services, k, d.notifications[i].member.service);
    }
  }

  /** Providers apart, the subscriptions are the same. */
  ghost predicate SameSubscriptions(d: State, r: State) {
    && |r.notifications| == |d.notifications|
    && (forall i | 0 <= i < |d.notifications| ::
          && r.notifications[i].member == d.notifications[i].member
          && r.notifications[i].subscribers == d.notifications[i].subscribers)
    && r.clients.Keys == d.clients.Keys
    && forall c | c in d.clients ::
         r.clients[c].registered == d.clients[c].registered && r.clients[c].subscriptions == d.clients[c].subscriptions
  }

  lemma {:induction false} SameSubscriptionsKeeps(d: State, r: State)
    requires SubscriptionInv(d) && SameSubscriptions(d, r)
    ensures SubscriptionInv(r)
  {
    assert forall c :: IsRegistered(r, c) <==> IsRegistered(d, c);
    forall c: ClientRef, i: nat | IsRegistered(r, c) && i < |r.notifications| ensures Agree(r, c, i) {
      assert Agree(d, c, i);
    }
  }

  // ---- Registration ----

  lemma {:induction false} AppendDistinct(services: seq<Service>, s: Service)
    requires DistinctServices(services) && Find(services, s.key.ids) == |services|
    ensures DistinctServices(services + [s])
  {
  }

  /** A new handle is taken for a service object. */
  lemma {:induction false} HandleTaken(d: State)
    requires Inv(d)
    ensures Inv(d.(nextHandle := d.nextHandle + 1))
  {
    var d1 := d.(nextHandle := d.nextHandle + 1);
    SameLifeKeeps(d, d1);
    SameSubscriptionsKeeps(d, d1);
  }

  lemma {:induction false} RegisterServiceKeeps(d: State, s: Service, init: Option<seq<EndPoint>>)
    requires Inv(d) && s.key.handle < d.nextHandle
    requires s.client.Some? ==> IsRegistered(d, s.client.value) && s.key in d.clients[s.client.value].services
    ensures Inv(RegisterService(d, s, init))
  {
    if Find(d.services, s.key.ids) == |d.services| {
      RegisterCore(d, s, init);
      AddedKeeps(d, s);
      CoreInv(Added(d, s), RegisterService(d, s, init));
    }
  }

  lemma {:induction false} WellKnownKeeps(d: State, ids: ServiceIDs, init: Option<seq<EndPoint>>)
    requires Inv(d)
    ensures Inv(RegisterWellKnown(d, ids, init))
  {
    var d1, s := d.(nextHandle := d.nextHandle + 1), Service(ServiceKey(d.nextHandle, ids, true), None);
    assert Inv(d1) by { HandleTaken(d); }
    assert Inv(RegisterService(d1, s, init)) by { RegisterServiceKeeps(d1, s, init); }
  }

  function Added(d: State, s: Service): (r: State) {
    d.(services := d.services + [s], notifications := Provide(d.notifications, s.key))
  }

  lemma {:induction false} AddedKeeps(d: State, s: Service)
    requires Inv(d) && Find(d.services, s.key.ids) == |d.services| && s.key.handle < d.nextHandle
    requires s.client.Some? ==> IsRegistered(d, s.client.value) && s.key in d.clients[s.client.value].services
    ensures Inv(Added(d, s))
  {
    var r := Added(d, s);
    AppendDistinct(d.services, s);
    ProvideKeeps(d, s);
    SameLifeKeeps(d, r);
    SameSubscriptionsKeeps(d, r);
    assert forall x | x in r.services :: x in d.services || x == s;
  }

  /** A client's own list grows. */
  function Owning(d: State, c: ClientRef, k: ServiceKey): (r: State)
    requires c in d.clients
  {
    WithClient(d, c, d.clients[c].(services := d.clients[c].services + [k]))
  }

  lemma {:induction false} OwningKeeps(d: State, c: ClientRef, k: ServiceKey)
    requires Inv(d) && IsRegistered(d, c) && k.handle < d.nextHandle
    ensures Inv(Owning(d, c, k))
  {
    var r := Owning(d, c, k);
    SameLifeKeeps(d, r);
    SameSubscriptionsKeeps(d, r);
    assert forall x, y | x in r.clients && y in r.clients[x].services :: y in d.clients[x].services || y == k;
  }

  function Taken(d: State, i: nat, c: ClientRef): (r: State)
    requires i < |d.services|
  {
    d.(services := d.services[i := d.services[i].(client := Some(c))])
  }

  lemma {:induction false} TakenKeeps(d: State, i: nat, c: ClientRef)
    requires Inv(d) && i < |d.services| && IsRegistered(d, c) && d.services[i].key in d.clients[c].services
    ensures Inv(Taken(d, i, c))
  {
    var r := Taken(d, i, c);
    SameLifeKeeps(d, r);
    SameSubscriptionsKeeps(d, r);
    assert forall j | 0 <= j < |d.services| :: r.services[j].key == d.services[j].key;
    assert forall s | s in r.services :: s in d.services || s == r.services[i];
    forall j | 0 <= j < |d.notifications|
      ensures Lookup(r.services, d.notifications[j].member.service) == Lookup(d.services, d.notifications[j].member.service)
    {
      SameKeysLookup(d.services, r.services, d.notifications[j].member.service);
    }
  }

  lemma {:induction false} SameKeysLookup(a: seq<Service>, b: seq<Service>, ids: ServiceIDs)
    requires |a| == |b| && forall i | 0 <= i < |a| :: a[i].key == b[i].key
    ensures Find(a, ids) == Find(b, ids) && Lookup(a, ids) == Lookup(b, ids)
  {
    var i, j := Find(a, ids), Find(b, ids);
    assert i <= j && j <= i;
  }

  lemma {:induction false} OwnedAddedKeeps(d: State, c: ClientRef, k: ServiceKey)
    requires Inv(d) && IsRegistered(d, c) && Find(d.services, k.ids) == |d.services| && k.handle < d.nextHandle
    ensures Inv(Added(Owning(d, c, k), Service(k, Some(c))))
  {
    OwningKeeps(d, c, k);
    AddedKeeps(Owning(d, c, k), Service(k, Some(c)));
  }

  lemma {:induction false} RegisterNewCore(
    d: State, c: ClientRef, ids: ServiceIDs, isLocal: bool, init: Option<seq<EndPoint>>)
    requires c in d.clients && Find(d.services, ids) == |d.services|
    ensures var k := ServiceKey(d.nextHandle, ids, isLocal);
            var d1 := d.(nextHandle := d.nextHandle + 1);
            Core(ClientRegister(d, c, ids, isLocal, init)) == Core(Added(Owning(d1, c, k), Service(k, Some(c))))
  {
    var k := ServiceKey(d.nextHandle, ids, isLocal);
    RegisterCore(d.(nextHandle := d.nextHandle + 1), Service(k, Some(c)), init);
  }

  lemma {:induction false} RegisterNewKeeps(
    d: State, c: ClientRef, ids: ServiceIDs, isLocal: bool, init: Option<seq<EndPoint>>)
    requires Inv(d) && IsRegistered(d, c) && Find(d.services, ids) == |d.services|
    ensures Inv(ClientRegister(d, c, ids, isLocal, init))
  {
    var k, d1 := ServiceKey(d.nextHandle, ids, isLocal), d.(nextHandle := d.nextHandle + 1);
    assert Inv(Added(Owning(d1, c, k), Service(k, Some(c)))) by {
      HandleTaken(d);
      OwnedAddedKeeps(d1, c, k);
    }
    RegisterNewCore(d, c, ids, isLocal, init);
    CoreInv(Added(Owning(d1, c, k), Service(k, Some(c))), ClientRegister(d, c, ids, isLocal, init));
  }

  /** A client registers a service, new, taken over or its own. */
  lemma {:induction false} RegisterKeeps(
    d: State, c: ClientRef, ids: ServiceIDs, isLocal: bool, init: Option<seq<EndPoint>>)
    requires Inv(d) && IsRegistered(d, c)
    ensures Inv(ClientRegister(d, c, ids, isLocal, init))
  {
    var k := Granted(d, c, ids, isLocal);
    var i := Find(d.services, ids);
    if i == |d.services| {
      RegisterNewKeeps(d, c, ids, isLocal, init);
    } else if k.Some? {
      assert d.services[i] in d.services;
      var d2 := Owning(d, c, k.value);
      OwningKeeps(d, c, k.value);
      if d.services[i].client == None {
        TakenKeeps(d2, i, c);
      }
    }
  }

  // ---- Unregistration ----

  function Removed(d: State, k: ServiceKey): (r: State) {
    d.(services := Without(d.services, k), notifications := Withdraw(d.notifications, k))
  }

  lemma {:induction false} RemovedKeeps(d: State, k: ServiceKey)
    requires Inv(d)
    ensures Inv(Removed(d, k))
  {
    var r := Removed(d, k);
    WithoutDistinct(d.services, k);
    WithdrawKeeps(d, k);
    SameLifeKeeps(d, r);
    SameSubscriptionsKeeps(d, r);
    forall s | s in r.services ensures s in d.services {
      WithoutMembers(d.services, k, s);
    }
  }

  lemma {:induction false} UnregisterServiceKeeps(d: State, k: ServiceKey)
    requires Inv(d)
    ensures Inv(UnregisterService(d, k))
  {
    UnregisterCore(d, k);
    RemovedKeeps(d, k);
    CoreInv(Removed(d, k), UnregisterService(d, k));
  }

  /** A client forgets a service that is no longer registered. */
  lemma {:induction false} ForgetKeeps(d: State, c: ClientRef, keys: seq<ServiceKey>)
    requires Inv(d) && IsRegistered(d, c)
    requires forall k | k in keys :: k in d.clients[c].services
    requires forall s | s in d.services && s.client == Some(c) :: s.key in keys
    ensures Inv(WithClient(d, c, d.clients[c].(services := keys)))
  {
    var r := WithClient(d, c, d.clients[c].(services := keys));
    SameLifeKeeps(d, r);
    SameSubscriptionsKeeps(d, r);
  }

  /** What a client still owns after one of its services has gone. */
  lemma {:induction false} StillOwned(d: State, c: ClientRef, i: nat)
    requires Inv(d) && IsRegistered(d, c) && i < |d.clients[c].services|
    ensures var keys := d.clients[c].services;
            forall s | s in Without(d.services, keys[i]) && s.client == Some(c) :: s.key in keys[..i] + keys[i + 1..]
  {
    var keys := d.clients[c].services;
    forall s | s in Without(d.services, keys[i]) && s.client == Some(c) ensures s.key in keys[..i] + keys[i + 1..] {
      WithoutMembers(d.services, keys[i], s);
      var j :| 0 <= j < |keys| && keys[j] == s.key;
      assert (keys[..i] + keys[i + 1..])[if j < i then j else j - 1] == s.key;
    }
  }

  lemma {:induction false} ForgetAfter(d: State, c: ClientRef, i: nat, d1: State)
    requires Inv(d) && IsRegistered(d, c) && i < |d.clients[c].services|
    requires Inv(d1) && Core(d1) == Core(Removed(d, d.clients[c].services[i]))
    ensures var keys := d.clients[c].services;
            Inv(WithClient(d1, c, d.clients[c].(services := keys[..i] + keys[i + 1..])))
  {
    var keys := d.clients[c].services;
    var rest := keys[..i] + keys[i + 1..];
    StillOwned(d, c, i);
    assert d1.services == Without(d.services, keys[i]) && d1.clients == d.clients by {
      assert Core(d1).services == d1.services && Core(d1).clients == d1.clients;
    }
    assert forall k | k in rest :: k in keys;
    ForgetKeeps(d1, c, rest);
  }

  lemma {:induction false} UnregisterKeeps(d: State, c: ClientRef, ids: ServiceIDs)
    requires Inv(d) && IsRegistered(d, c)
    ensures Inv(ClientUnregister(d, c, ids))
  {
    var keys := d.clients[c].services;
    var i := FirstWith(keys, ids);
    if i < |keys| {
      var d1 := UnregisterService(d, keys[i]);
      assert ClientUnregister(d, c, ids) == WithClient(d1, c, d.clients[c].(services := keys[..i] + keys[i + 1..]));
      UnregisterServiceKeeps(d, keys[i]);
      UnregisterCore(d, keys[i]);
      ForgetAfter(d, c, i, d1);
    }
  }

  // ---- Subscriptions ----

  lemma {:induction false} NewNotificationAgrees(d: State, r: State)
    requires SubscriptionInv(d) && r.clients == d.clients && |r.notifications| == |d.notifications| + 1
    requires r.notifications[..|d.notifications|] == d.notifications
    requires r.notifications[|d.notifications|].subscribers == [] && DistinctMembers(r.notifications)
    ensures SubscriptionInv(r)
  {
    var n := |d.notifications|;
    assert forall i | 0 <= i < n :: r.notifications[i] == d.notifications[i];
    assert forall c :: IsRegistered(r, c) <==> IsRegistered(d, c);
    forall c: ClientRef, i: nat | IsRegistered(r, c) && i < |r.notifications| ensures Agree(r, c, i) {
      if i < n {
        assert Agree(d, c, i);
      } else {
        CountIn(d.clients[c].subscriptions, i);
      }
    }
  }

  lemma {:induction false} NotificationKeeps(d: State, member: MemberIDs)
    requires Inv(d)
    ensures Inv(WithNotification(d, member))
  {
    var r := WithNotification(d, member);
    if r != d {
      SameLifeKeeps(d, r);
      NewNotificationAgrees(d, r);
    }
  }

  /** Both lists grow by the same subscription. */
  function Subscribed(d: State, c: ClientRef, i: nat): (r: State)
    requires c in d.clients && i < |d.notifications|
  {
    var n := d.notifications[i];
    WithClient(d.(notifications := d.notifications[i := n.(subscribers := n.subscribers + [c])]),
               c, d.clients[c].(subscriptions := d.clients[c].subscriptions + [i]))
  }

  lemma {:induction false} SubscribedAgree(d: State, c: ClientRef, i: nat, x: ClientRef, j: nat)
    requires IsRegistered(d, c) && i < |d.notifications| && x in d.clients && j < |d.notifications| && Agree(d, x, j)
    ensures Agree(Subscribed(d, c, i), x, j)
  {
    CountAppend(d.notifications[i].subscribers, c, x);
    CountAppend(d.clients[c].subscriptions, i, j);
  }

  lemma {:induction false} SubscribedKeeps(d: State, c: ClientRef, i: nat)
    requires Inv(d) && IsRegistered(d, c) && i < |d.notifications|
    ensures Inv(Subscribed(d, c, i))
  {
    var r := Subscribed(d, c, i);
    SameLifeKeeps(d, r);
    SubscribedSubscriptions(d, c, i);
  }

  lemma {:induction false} SubscribedSubscriptions(d: State, c: ClientRef, i: nat)
    requires SubscriptionInv(d) && IsRegistered(d, c) && i < |d.notifications|
    ensures SubscriptionInv(Subscribed(d, c, i))
  {
    var r := Subscribed(d, c, i);
    assert forall x :: IsRegistered(r, x) <==> IsRegistered(d, x);
    forall x: ClientRef, j: nat | IsRegistered(r, x) && j < |r.notifications| ensures Agree(r, x, j) {
      assert Agree(d, x, j);
      SubscribedAgree(d, c, i, x, j);
    }
    assert forall x | x in r.notifications[i].subscribers :: x in d.notifications[i].subscribers || x == c;
    assert SubscribersKnown(r) && SubscriptionsKnown(r);
  }

  lemma {:induction false} SubscribeKeeps(d: State, c: ClientRef, member: MemberIDs)
    requires Inv(d) && IsRegistered(d, c)
    ensures Inv(Subscribe(d, c, member))
  {
    NotificationKeeps(d, member);
    SubscribedKeeps(WithNotification(d, member), c, FindNotification(d.notifications, member));
  }

  // ---- Connecting, disconnecting, deleting ----

  lemma {:induction false} ConnectKeeps(d: State, c: ClientRef, isLocal: bool)
    requires Inv(d) && Enabled(d, ClientConnects(c, isLocal))
    ensures Inv(Connect(d, c, isLocal))
  {
    var r := Connect(d, c, isLocal);
    assert IsRegistered(r, c) && !IsRegistered(d, c);
    assert forall x | x != c :: (x in r.clients <==> x in d.clients) && (x in d.clients ==> r.clients[x] == d.clients[x]);
    assert forall x | x != c :: IsRegistered(r, x) <==> IsRegistered(d, x);
    ConnectKeepsLife(d, c, isLocal);
    forall x: ClientRef, i: nat | IsRegistered(r, x) && i < |r.notifications| ensures Agree(r, x, i) {
      if x == c {
        CountIn(d.notifications[i].subscribers, c);
      } else {
        assert Agree(d, x, i);
      }
    }
  }

  lemma {:induction false} ConnectKeepsLife(d: State, c: ClientRef, isLocal: bool)
    requires Inv(d) && Enabled(d, ClientConnects(c, isLocal))
    ensures TableInv(Connect(d, c, isLocal)) && LifeInv(Connect(d, c, isLocal)) && ListenerInv(Connect(d, c, isLocal))
  {
    var r := Connect(d, c, isLocal);
    assert forall x | x != c :: (x in r.clients <==> x in d.clients) && (x in d.clients ==> r.clients[x] == d.clients[x]);
    assert forall x | x != c :: IsRegistered(r, x) <==> IsRegistered(d, x);
    assert ListenerInv(r) by {
      if isLocal {
        AddListener(d.listeners, c);
      }
    }
  }

  lemma {:induction false} AddListener(listeners: seq<Listener>, c: ClientRef)
    requires ListenerShape(listeners) && LocalListener(c) !in listeners
    ensures ListenerShape(listeners + [LocalListener(c)])
    ensures forall x :: LocalListener(x) in listeners + [LocalListener(c)] <==> LocalListener(x) in listeners || x == c
  {
    var r := listeners + [LocalListener(c)];
    assert forall i | 0 <= i < |listeners| :: listeners[i] in listeners;
    assert r[|listeners|] == LocalListener(c);
  }

  lemma {:induction false} RemoveListener(listeners: seq<Listener>, c: ClientRef)
    requires ListenerShape(listeners) && LocalListener(c) in listeners
    ensures ListenerShape(RemoveFirst(listeners, LocalListener(c)))
    ensures forall x ::
      LocalListener(x) in RemoveFirst(listeners, LocalListener(c)) <==> LocalListener(x) in listeners && x != c
  {
    var l, r := LocalListener(c), RemoveFirst(listeners, LocalListener(c));
    var i :| 0 <= i < |listeners| && listeners[i] == l;
    RemoveFirstAt(listeners, i);
    RemoveFirstNoDup(listeners, l);
    assert i >= 2;
    assert forall j | 0 <= j < |r| :: r[j] == listeners[if j < i then j else j + 1];
    forall x ensures LocalListener(x) in r <==> LocalListener(x) in listeners && x != c {
      RemoveFirstMembers(listeners, l, LocalListener(x));
    }
  }

  lemma {:induction false} UnsubscribeCounts(
    notifications: seq<Notification>, n: nat, c: ClientRef, i: nat, x: ClientRef)
    requires i < |notifications|
    ensures Unsubscribe(notifications, n, c)[i].member == notifications[i].member
    ensures Unsubscribe(notifications, n, c)[i].provider == notifications[i].provider
    ensures var before, after := notifications[i].subscribers, Unsubscribe(notifications, n, c)[i].subscribers;
            Count(after, x) ==
            if n == i && x == c && Count(before, c) > 0 then Count(before, c) - 1 else Count(before, x)
  {
    if n == i {
      CountRemoveFirst(notifications[i].subscribers, c, x);
      CountIn(notifications[i].subscribers, c);
    }
  }

  /** Unsubscribing once per recorded subscription takes away exactly that many occurrences. */
  lemma {:induction false} UnsubscribeAllCounts(
    notifications: seq<Notification>, subscriptions: seq<nat>, c: ClientRef, i: nat, x: ClientRef)
    requires i < |notifications| && Count(notifications[i].subscribers, c) >= Count(subscriptions, i)
    ensures UnsubscribeAll(notifications, subscriptions, c)[i].member == notifications[i].member
    ensures UnsubscribeAll(notifications, subscriptions, c)[i].provider == notifications[i].provider
    ensures var before := notifications[i].subscribers;
            var after := UnsubscribeAll(notifications, subscriptions, c)[i].subscribers;
            Count(after, x) == Count(before, x) - if x == c then Count(subscriptions, i) else 0
    decreases |subscriptions|
  {
    if subscriptions != [] {
      UnsubscribeCounts(notifications, subscriptions[0], c, i, x);
      UnsubscribeCounts(notifications, subscriptions[0], c, i, c);
      UnsubscribeAllCounts(Unsubscribe(notifications, subscriptions[0], c), subscriptions[1..], c, i, x);
    }
  }

  /** `r` is `d` with the services of `keys` taken out of the registry. */
  ghost predicate Purged(d: State, r: State, keys: seq<ServiceKey>) {
    && DistinctServices(r.services) && ProviderInv(r)
    && (forall s :: s in r.services <==> s in d.services && s.key !in keys)
    && r.table == d.table && r.disconnected == d.disconnected && r.deleted == d.deleted
    && r.listeners == d.listeners && r.clients == d.clients && r.nextHandle == d.nextHandle
    && |r.notifications| == |d.notifications|
    && forall i | 0 <= i < |d.notifications| ::
         && r.notifications[i].member == d.notifications[i].member
         && r.notifications[i].subscribers == d.notifications[i].subscribers
  }

  lemma {:induction false} PurgeOne(d: State, k: ServiceKey)
    requires DistinctServices(d.services) && ProviderInv(d)
    ensures Purged(d, UnregisterService(d, k), [k])
  {
    var r := UnregisterService(d, k);
    UnregisterCore(d, k);
    WithdrawKeeps(d, k);
    WithoutDistinct(d.services, k);
    forall s ensures s in r.services <==> s in d.services && s.key !in [k] {
      WithoutMembers(d.services, k, s);
    }
  }

  lemma {:induction false} PurgedTrans(a: State, b: State, c: State, k: ServiceKey, keys: seq<ServiceKey>)
    requires Purged(a, b, [k]) && Purged(b, c, keys)
    ensures Purged(a, c, [k] + keys)
  {
  }

  lemma {:induction false} PurgeAll(d: State, keys: seq<ServiceKey>)
    requires DistinctServices(d.services) && ProviderInv(d)
    ensures Purged(d, UnregisterAll(d, keys), keys)
    decreases |keys|
  {
    if keys != [] {
      var d1 := UnregisterService(d, keys[0]);
      PurgeOne(d, keys[0]);
      PurgeAll(d1, keys[1..]);
      PurgedTrans(d, d1, UnregisterAll(d, keys), keys[0], keys[1..]);
      assert [keys[0]] + keys[1..] == keys;
    }
  }

  /** After unsubscribing, the leaving client is in no list and the others are where they were. */
  lemma {:induction false} LeavesLists(d: State, c: ClientRef, i: nat, x: ClientRef)
    requires Inv(d) && IsRegistered(d, c) && i < |d.notifications|
    ensures var after := UnsubscribeAll(d.notifications, d.clients[c].subscriptions, c)[i];
            && after.member == d.notifications[i].member && after.provider == d.notifications[i].provider
            && Count(after.subscribers, x) == (if x == c then 0 else Count(d.notifications[i].subscribers, x))
            && (x in after.subscribers <==> x != c && x in d.notifications[i].subscribers)
  {
    assert Agree(d, c, i);
    UnsubscribeAllCounts(d.notifications, d.clients[c].subscriptions, c, i, x);
    CountIn(d.notifications[i].subscribers, x);
    CountIn(UnsubscribeAll(d.notifications, d.clients[c].subscriptions, c)[i].subscribers, x);
  }

  /** The state of `Disconnect` before the services go. */
  function Muted(d: State, c: ClientRef): (r: State)
    requires c in d.clients
  {
    var x := d.clients[c];
    d.(listeners := if x.isLocal then RemoveFirst(d.listeners, LocalListener(c)) else d.listeners,
       notifications := UnsubscribeAll(d.notifications, x.subscriptions, c))
  }

  lemma {:induction false} MutedProviders(d: State, c: ClientRef)
    requires Inv(d) && IsRegistered(d, c)
    ensures ProviderInv(Muted(d, c))
  {
    forall i | 0 <= i < |d.notifications|
      ensures Muted(d, c).notifications[i].provider == Lookup(d.services, Muted(d, c).notifications[i].member.service)
    {
      LeavesLists(d, c, i, c);
    }
  }

  /** What disconnecting amounts to. */
  ghost predicate Gone(d: State, r: State, c: ClientRef)
    requires c in d.clients
  {
    var x := d.clients[c];
    && ProviderInv(r) && DistinctServices(r.services)
    && (forall s :: s in r.services <==> s in d.services && s.key !in x.services)
    && r.listeners == (if x.isLocal then RemoveFirst(d.listeners, LocalListener(c)) else d.listeners)
    && r.table == (if x.id < |d.table| then d.table[x.id := None] else d.table)
    && r.disconnected == d.disconnected + [c] && r.deleted == d.deleted && r.nextHandle == d.nextHandle
    && r.clients == d.clients[c := x.(registered := false)]
    && |r.notifications| == |d.notifications|
    && forall i | 0 <= i < |d.notifications| ::
         && r.notifications[i].member == d.notifications[i].member
         && r.notifications[i].subscribers == Muted(d, c).notifications[i].subscribers
  }

  lemma {:induction false} DisconnectGone(d: State, c: ClientRef)
    requires Inv(d) && IsRegistered(d, c)
    ensures Gone(d, Disconnect(d, c), c)
  {
    var d2 := Muted(d, c);
    MutedProviders(d, c);
    PurgeAll(d2, d.clients[c].services);
    var d3 := UnregisterAll(d2, d.clients[c].services);
    forall i | 0 <= i < |d.notifications| ensures d2.notifications[i].member == d.notifications[i].member {
      LeavesLists(d, c, i, c);
    }
    assert Disconnect(d, c) ==
           WithClient(d3.(table := if d.clients[c].id < |d3.table| then d3.table[d.clients[c].id := None] else d3.table,
                          disconnected := d3.disconnected + [c]), c, d.clients[c].(registered := false));
  }

  lemma {:induction false} GoneLife(d: State, r: State, c: ClientRef)
    requires Inv(d) && IsRegistered(d, c) && Gone(d, r, c)
    ensures TableInv(r) && LifeInv(r)
  {
    assert forall x :: IsRegistered(r, x) <==> IsRegistered(d, x) && x != c;
  }

  lemma {:induction false} GoneListeners(d: State, r: State, c: ClientRef)
    requires Inv(d) && IsRegistered(d, c) && Gone(d, r, c)
    ensures ListenerInv(r)
  {
    assert forall x :: IsRegistered(r, x) <==> IsRegistered(d, x) && x != c;
    if d.clients[c].isLocal {
      RemoveListener(d.listeners, c);
    }
  }

  lemma {:induction false} GoneServices(d: State, r: State, c: ClientRef)
    requires Inv(d) && IsRegistered(d, c) && Gone(d, r, c)
    ensures ServiceInv(r)
  {
    assert forall x :: IsRegistered(r, x) <==> IsRegistered(d, x) && x != c;
  }

  lemma {:induction false} GoneSubscriptions(d: State, r: State, c: ClientRef)
    requires Inv(d) && IsRegistered(d, c) && Gone(d, r, c)
    ensures SubscriptionInv(r)
  {
    assert forall x :: IsRegistered(r, x) <==> IsRegistered(d, x) && x != c;
    forall i, x | 0 <= i < |r.notifications| && x in r.notifications[i].subscribers ensures IsRegistered(r, x) {
      LeavesLists(d, c, i, x);
    }
    forall x: ClientRef, i: nat | IsRegistered(r, x) && i < |r.notifications| ensures Agree(r, x, i) {
      assert Agree(d, x, i);
      LeavesLists(d, c, i, x);
    }
  }

  lemma {:induction false} DisconnectKeeps(d: State, c: ClientRef)
    requires Inv(d) && IsRegistered(d, c)
    ensures Inv(Disconnect(d, c))
  {
    var r := Disconnect(d, c);
    DisconnectGone(d, c);
    GoneLife(d, r, c);
    GoneListeners(d, r, c);
    GoneServices(d, r, c);
    GoneSubscriptions(d, r, c);
  }

  lemma {:induction false} CleanUpKeeps(d: State)
    requires Inv(d)
    ensures Inv(CleanUp(d))
  {
    var r := CleanUp(d);
    assert forall c :: IsRegistered(r, c) <==> IsRegistered(d, c);
    assert forall c | c in r.clients :: c in d.clients && r.clients[c] == d.clients[c];
    assert NoDup(r.deleted) by {
      forall i, j | 0 <= i < j < |r.deleted| ensures r.deleted[i] != r.deleted[j] {
        if i < |d.deleted| <= j {
          assert d.deleted[i] in d.deleted && d.disconnected[j - |d.deleted|] in d.disconnected;
        }
      }
    }
    forall c: ClientRef, i: nat | IsRegistered(r, c) && i < |r.notifications| ensures Agree(r, c, i) {
      assert Agree(d, c, i);
    }
  }

  // ---- All events ----

  lemma {:induction false} StepKeepsInv(d: State, e: Event)
    requires Inv(d) && Enabled(d, e)
    ensures Inv(Step(d, e))
  {
    match e
    case ClientConnects(c, isLocal) => ConnectKeeps(d, c, isLocal);
    case WellKnownRegisters(ids, init) => WellKnownKeeps(d, ids, init);
    case ServiceRegisters(c, ids, isLocal, init) => RegisterKeeps(d, c, ids, isLocal, init);
    case ServiceUnregisters(c, ids) => UnregisterKeeps(d, c, ids);
    case ClientSubscribes(c, member) => SubscribeKeeps(d, c, member);
    case NotificationSent(member) => NotificationKeeps(d, member);
    case ClientDisconnects(c) => DisconnectKeeps(d, c);
    case IdleCleanUp => CleanUpKeeps(d);
    case AnnounceTimer => CoreInv(d, AnnounceAgain(d, 0));
  }

  lemma {:induction false} RunKeepsInv(channels: seq<u32>, events: seq<Event>, states: seq<State>, n: nat)
    requires IsRun(channels, events, states) && n < |states|
    ensures Inv(states[n])
  {
    if n == 0 {
      StartInv(channels);
    } else {
      RunKeepsInv(channels, events, states, n - 1);
      StepKeepsInv(states[n - 1], events[n - 1]);
    }
  }
}
