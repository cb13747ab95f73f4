/**
 What a client has recorded as its own, and what the registry says it provides. When no client
 asks twice for a service they agree, so every unregistration finds its service.
 */
module Ownership {
  import opened Bytes
  import opened SomeIp
  import opened Announcements
  import opened Lists
  import opened Endpoints
  import opened Daemon
  import opened DaemonInvariant
  import opened Effects

  /** A client asks again for a service it already provides. */
  predicate Repeats(d: State, e: Event) {
    e.ServiceRegisters? && e.isLocal &&
    var i := Find(d.services, e.ids);
    i < |d.services| && d.services[i].client == Some(e.c)
  }

  ghost predicate Careful(events: seq<Event>, states: seq<State>) {
    |states| > |events| && forall i {:trigger events[i]} | 0 <= i < |events| :: !Repeats(states[i], events[i])
  }

  ghost predicate Owns(d: State, c: ClientRef)
    requires c in d.clients
  {
    NoDup(d.clients[c].services) && forall k | k in d.clients[c].services :: Service(k, Some(c)) in d.services
  }

  ghost predicate OwnInv(d: State) {
    forall c | IsRegistered(d, c) :: Owns(d, c)
  }

  // ---- What registering changes ----

  /** A client got a service, new or taken over. */
  ghost predicate Obtained(d: State, r: State, c: ClientRef, k: ServiceKey)
    requires c in d.clients
  {
    && r.clients == d.clients[c := d.clients[c].(services := d.clients[c].services + [k])]
    && Service(k, Some(c)) in r.services
    && forall s | s in d.services && s.client != None :: s in r.services
  }

  lemma {:induction false} ObtainedKeeps(d: State, r: State, c: ClientRef, k: ServiceKey)
    requires IsRegistered(d, c) && OwnInv(d) && Obtained(d, r, c, k) && k !in d.clients[c].services
    ensures OwnInv(r)
  {
    forall x | IsRegistered(r, x) ensures Owns(r, x) {
      assert IsRegistered(d, x) && Owns(d, x);
      if x == c {
        assert forall y | y in r.clients[c].services :: y in d.clients[c].services || y == k;
        AppendNoDup(d.clients[c].services, k);
      }
    }
  }

  lemma {:induction false} AppendNoDup(keys: seq<ServiceKey>, k: ServiceKey)
    requires NoDup(keys) && k !in keys
    ensures NoDup(keys + [k])
  {
  }

  /**
   Who may have a service: anybody if its IDs are new; otherwise only a local client, if nobody
   provides the service yet or the client does already.
   */
  lemma {:induction false} GrantedExactly(d: State, c: ClientRef, ids: ServiceIDs, isLocal: bool)
    requires Inv(d)
    ensures var k := Granted(d, c, ids, isLocal);
            && (k.Some? <==>
                forall s | s in d.services && s.key.ids == ids :: isLocal && (s.client == None || s.client == Some(c)))
            && (k.Some? ==> k.value.ids == ids)
            && (forall s | s in d.services && s.key.ids == ids && k.Some? :: k.value == s.key)
            && (k.Some? && (forall s | s in d.services :: s.key.ids != ids) ==>
                  forall s | s in d.services :: s.key != k.value)
  {
    var i := Find(d.services, ids);
    assert i < |d.services| ==> d.services[i] in d.services;
    forall s | s in d.services && s.key.ids == ids ensures i < |d.services| && s == d.services[i] {
      var j :| 0 <= j < |d.services| && d.services[j] == s;
      assert i == j;
    }
  }

  /** The outcomes of asking for a service: refused, new, or one that is registered already. */
  lemma {:induction false} RegisterOutcome(
    d: State, c: ClientRef, ids: ServiceIDs, isLocal: bool, init: Option<seq<EndPoint>>)
    requires Inv(d) && IsRegistered(d, c)
    ensures var r := ClientRegister(d, c, ids, isLocal, init);
            var k := Granted(d, c, ids, isLocal);
            && (k.None? ==> r == d)
            && (k.Some? ==> Obtained(d, r, c, k.value))
            && (k.Some? && Find(d.services, ids) == |d.services| ==> Gained(d, r, k.value, init))
            && (k.Some? && Find(d.services, ids) < |d.services| ==> Quiet(d, r) && r.listeners == d.listeners)
  {
    var r := ClientRegister(d, c, ids, isLocal, init);
    var k := Granted(d, c, ids, isLocal);
    var i := Find(d.services, ids);
    if i == |d.services| {
      NewService(d, c, ids, isLocal, init);
    } else if k.Some? && d.services[i].client == None {
      TakenOver(d, r, i, c);
    } else if k.Some? {
      assert d.services[i] in d.services && r == Owning(d, c, k.value);
    }
  }

  /** The three ways a registration that is not refused can go. */
  lemma {:induction false} RegisterWays(
    d: State, c: ClientRef, ids: ServiceIDs, isLocal: bool, init: Option<seq<EndPoint>>)
    requires c in d.clients
    ensures var r, i := ClientRegister(d, c, ids, isLocal, init), Find(d.services, ids);
            if i == |d.services| then
              var k := ServiceKey(d.nextHandle, ids, isLocal);
              && r.services == d.services + [Service(k, Some(c))] && r.nextHandle == d.nextHandle + 1
              && r.clients == d.clients[c := d.clients[c].(services := d.clients[c].services + [k])]
            else if isLocal && d.services[i].client.None? then r == Owning(Taken(d, i, c), c, d.services[i].key)
            else if isLocal && d.services[i].client == Some(c) then r == Owning(d, c, d.services[i].key)
            else r == d
  {
  }

  lemma {:induction false} NewService(
    d: State, c: ClientRef, ids: ServiceIDs, isLocal: bool, init: Option<seq<EndPoint>>)
    requires Inv(d) && IsRegistered(d, c) && Find(d.services, ids) == |d.services|
    ensures var r := ClientRegister(d, c, ids, isLocal, init);
            var k := ServiceKey(d.nextHandle, ids, isLocal);
            Granted(d, c, ids, isLocal) == Some(k) && Obtained(d, r, c, k) && Gained(d, r, k, init)
  {
    var k := ServiceKey(d.nextHandle, ids, isLocal);
    var s := Service(k, Some(c));
    var d1 := d.(nextHandle := d.nextHandle + 1);
    var d2 := RegisterService(d1, s, init);
    var r := ClientRegister(d, c, ids, isLocal, init);
    assert r == WithClient(d2, c, d.clients[c].(services := d.clients[c].services + [k]));
    RegisterGains(d1, s, init);
    GainedElsewhere(d, d1, d2, r, k, init);
    assert d2.services == d.services + [s] && d2.clients == d.clients;
  }

  lemma {:induction false} TakenOver(d: State, r: State, i: nat, c: ClientRef)
    requires c in d.clients && i < |d.services| && d.services[i].client == None
    requires r == Owning(Taken(d, i, c), c, d.services[i].key)
    ensures Obtained(d, r, c, d.services[i].key) && Quiet(d, r)
  {
    var k := d.services[i].key;
    assert r.services[i] == Service(k, Some(c)) && r.services[i] in r.services;
    forall s | s in d.services && s.client != None ensures s in r.services {
      var j :| 0 <= j < |d.services| && d.services[j] == s;
      assert r.services[j] == s;
    }
    assert Keys(r.services) == Keys(d.services);
  }

  lemma {:induction false} GrantedIsNew(d: State, c: ClientRef, ids: ServiceIDs, isLocal: bool)
    requires Inv(d) && OwnInv(d) && IsRegistered(d, c)
    requires !Repeats(d, ServiceRegisters(c, ids, isLocal, None))
    ensures var k := Granted(d, c, ids, isLocal);
            k.Some? ==> k.value !in d.clients[c].services
  {
    var i := Find(d.services, ids);
    var keys := d.clients[c].services;
    assert Owns(d, c);
    if i < |d.services| && d.services[i].client == None {
      var k := d.services[i].key;
      forall x | x in keys ensures x != k {
        var j :| 0 <= j < |d.services| && d.services[j] == Service(x, Some(c));
        assert j != i;
      }
    }
  }

  // ---- What leaving changes ----

  lemma {:induction false} RemovedOwns(d: State, c: ClientRef, i: nat, x: ClientRef, k: ServiceKey)
    requires Inv(d) && OwnInv(d) && IsRegistered(d, c) && i < |d.clients[c].services|
    requires IsRegistered(d, x) && k in d.clients[x].services && (x != c || k != d.clients[c].services[i])
    ensures Service(k, Some(x)) in Without(d.services, d.clients[c].services[i])
  {
    var gone := d.clients[c].services[i];
    assert Owns(d, c) && Owns(d, x);
    assert Service(gone, Some(c)) in d.services && Service(k, Some(x)) in d.services;
    SameKeySameService(d.services, Service(gone, Some(c)), Service(k, Some(x)));
    WithoutMembers(d.services, gone, Service(k, Some(x)));
  }

  lemma {:induction false} SameKeySameService(services: seq<Service>, a: Service, b: Service)
    requires DistinctServices(services) && a in services && b in services
    ensures a.key == b.key ==> a == b
  {
    var i :| 0 <= i < |services| && services[i] == a;
    var j :| 0 <= j < |services| && services[j] == b;
  }

  lemma {:induction false} UnregisterOwn(d: State, c: ClientRef, i: nat, r: State)
    requires Inv(d) && OwnInv(d) && IsRegistered(d, c) && i < |d.clients[c].services|
    requires r.services == Without(d.services, d.clients[c].services[i])
    requires var keys := d.clients[c].services;
             r.clients == d.clients[c := d.clients[c].(services := keys[..i] + keys[i + 1..])]
    ensures OwnInv(r)
  {
    var keys := d.clients[c].services;
    var rest := keys[..i] + keys[i + 1..];
    assert Owns(d, c);
    assert forall j | 0 <= j < |rest| :: rest[j] == keys[if j < i then j else j + 1];
    forall x | IsRegistered(r, x) ensures Owns(r, x) {
      assert IsRegistered(d, x) && Owns(d, x);
      forall k | k in r.clients[x].services ensures Service(k, Some(x)) in r.services {
        RemovedOwns(d, c, i, x, k);
      }
    }
  }

  /**
   The outcomes of giving a service back: nothing with these IDs is recorded, or the first
   recorded one is unregistered and forgotten. An owner's is in the registry.
   */
  lemma {:induction false} UnregisterOutcome(d: State, c: ClientRef, ids: ServiceIDs)
    requires Inv(d) && IsRegistered(d, c)
    ensures var keys := d.clients[c].services;
            var i := FirstWith(keys, ids);
            var r := ClientUnregister(d, c, ids);
            && (i == |keys| ==> r == d)
            && (i < |keys| ==> Lost(d, r, keys[i]))
            && (i < |keys| && OwnInv(d) ==> keys[i] in Keys(d.services))
  {
    var keys := d.clients[c].services;
    var i := FirstWith(keys, ids);
    if i < |keys| {
      assert Lost(d, ClientUnregister(d, c, ids), keys[i]) by { UnregisterLost(d, c, i); }
      if OwnInv(d) {
        OwnListed(d, c);
      }
    }
  }

  lemma {:induction false} UnregisterLost(d: State, c: ClientRef, i: nat)
    requires ListenerShape(d.listeners) && c in d.clients && i < |d.clients[c].services|
    ensures var keys := d.clients[c].services;
            var r := WithClient(UnregisterService(d, keys[i]), c, d.clients[c].(services := keys[..i] + keys[i + 1..]));
            Lost(d, r, keys[i])
  {
    var keys := d.clients[c].services;
    var d1 := UnregisterService(d, keys[i]);
    UnregisterLoses(d, keys[i]);
    LostElsewhere(d, d1, WithClient(d1, c, d.clients[c].(services := keys[..i] + keys[i + 1..])), keys[i]);
  }

  lemma {:induction false} UnregisterKeepsOwn(d: State, c: ClientRef, ids: ServiceIDs)
    requires Inv(d) && OwnInv(d) && IsRegistered(d, c)
    ensures OwnInv(ClientUnregister(d, c, ids))
  {
    var keys := d.clients[c].services;
    var i := FirstWith(keys, ids);
    if i < |keys| {
      UnregisterOwn(d, c, i, ClientUnregister(d, c, ids));
    }
  }

  lemma {:induction false} KeyListed(services: seq<Service>, s: Service)
    requires s in services
    ensures s.key in Keys(services)
  {
    var i :| 0 <= i < |services| && services[i] == s;
    assert Keys(services)[i] == s.key;
  }

  lemma {:induction false} DisconnectOwn(d: State, c: ClientRef)
    requires Inv(d) && OwnInv(d) && IsRegistered(d, c)
    ensures OwnInv(Disconnect(d, c))
  {
    var r := Disconnect(d, c);
    DisconnectGone(d, c);
    forall x | IsRegistered(r, x) ensures Owns(r, x) {
      assert x != c && IsRegistered(d, x) && Owns(d, x) && Owns(d, c);
      forall k | k in d.clients[x].services ensures Service(k, Some(x)) in r.services {
        if k in d.clients[c].services {
          SameKeySameService(d.services, Service(k, Some(x)), Service(k, Some(c)));
        }
      }
    }
  }

  /** Disconnecting is silent at first and at the end; in between every service goes, one at a time. */
  lemma {:induction false} DisconnectOutcome(d: State, c: ClientRef)
    requires Inv(d) && IsRegistered(d, c)
    ensures var d2 := Muted(d, c);
            && Quiet(d, d2) && ListenerShape(d2.listeners) && d2.services == d.services
            && (forall x | x != c && LocalListener(x) in d.listeners :: LocalListener(x) in d2.listeners)
            && SameRegistry(UnregisterAll(d2, d.clients[c].services), Disconnect(d, c))
  {
    if d.clients[c].isLocal {
      RemoveListener(d.listeners, c);
    }
  }

  lemma {:induction false} OwnListed(d: State, c: ClientRef)
    requires OwnInv(d) && IsRegistered(d, c)
    ensures NoDup(d.clients[c].services) && forall k | k in d.clients[c].services :: k in Keys(d.services)
  {
    assert Owns(d, c);
    forall k | k in d.clients[c].services ensures k in Keys(d.services) {
      KeyListed(d.services, Service(k, Some(c)));
    }
  }

  /** What is still to be unregistered is still registered. */
  lemma {:induction false} RestListed(keys: seq<ServiceKey>, mine: seq<ServiceKey>)
    requires mine != [] && NoDup(mine) && forall k | k in mine :: k in keys
    ensures NoDup(mine[1..]) && forall k | k in mine[1..] :: k in RemoveFirst(keys, mine[0])
  {
    forall k | k in mine[1..] ensures k in RemoveFirst(keys, mine[0]) {
      RemoveFirstMembers(keys, mine[0], k);
    }
  }

  lemma {:induction false} SameOwners(d: State, r: State)
    requires OwnInv(d)
    requires forall x | IsRegistered(r, x) ::
      x in d.clients && IsRegistered(d, x) && r.clients[x].services == d.clients[x].services
    requires forall s | s in d.services && s.client != None :: s in r.services
    ensures OwnInv(r)
  {
    forall x | IsRegistered(r, x) ensures Owns(r, x) {
      assert Owns(d, x);
    }
  }

  lemma {:induction false} ConnectOwn(d: State, c: ClientRef, isLocal: bool)
    requires OwnInv(d) && Enabled(d, ClientConnects(c, isLocal))
    ensures OwnInv(Connect(d, c, isLocal))
  {
    var r := Connect(d, c, isLocal);
    forall x | IsRegistered(r, x) ensures Owns(r, x) {
      assert x != c ==> IsRegistered(d, x) && Owns(d, x);
    }
  }

  lemma {:induction false} RegisterOwn(
    d: State, c: ClientRef, ids: ServiceIDs, isLocal: bool, init: Option<seq<EndPoint>>)
    requires Inv(d) && OwnInv(d) && IsRegistered(d, c) && !Repeats(d, ServiceRegisters(c, ids, isLocal, init))
    ensures OwnInv(ClientRegister(d, c, ids, isLocal, init))
  {
    RegisterOutcome(d, c, ids, isLocal, init);
    GrantedIsNew(d, c, ids, isLocal);
    var k := Granted(d, c, ids, isLocal);
    if k.Some? {
      ObtainedKeeps(d, ClientRegister(d, c, ids, isLocal, init), c, k.value);
    }
  }

  lemma {:induction false} StepKeepsOwn(d: State, e: Event)
    requires Inv(d) && OwnInv(d) && Enabled(d, e) && !Repeats(d, e)
    ensures OwnInv(Step(d, e))
  {
    match e
    case ClientConnects(c, isLocal) => ConnectOwn(d, c, isLocal);
    case WellKnownRegisters(ids, init) => SameOwners(d, Step(d, e));
    case ServiceRegisters(c, ids, isLocal, init) => RegisterOwn(d, c, ids, isLocal, init);
    case ServiceUnregisters(c, ids) => UnregisterKeepsOwn(d, c, ids);
    case ClientSubscribes(c, member) => SameOwners(d, Subscribe(d, c, member));
    case NotificationSent(member) => SameOwners(d, WithNotification(d, member));
    case ClientDisconnects(c) => DisconnectOwn(d, c);
    case IdleCleanUp => SameOwners(d, CleanUp(d));
    case AnnounceTimer => SameOwners(d, AnnounceAgain(d, 0));
  }

  lemma {:induction false} RunKeepsOwn(channels: seq<u32>, events: seq<Event>, states: seq<State>, n: nat)
    requires IsRun(channels, events, states) && Careful(events, states) && n < |states|
    ensures OwnInv(states[n])
  {
    if n > 0 {
      RunKeepsOwn(channels, events, states, n - 1);
      RunKeepsInv(channels, events, states, n - 1);
      StepKeepsOwn(states[n - 1], events[n - 1]);
    }
  }

  // ---- Unregistering what is not registered ----

  function ServicesOf(d: State, c: ClientRef): (keys: seq<ServiceKey>) {
    if c in d.clients then d.clients[c].services else []
  }

  /** The service objects an event unregisters, in this order. */
  function Withdrawn(d: State, e: Event): (keys: seq<ServiceKey>) {
    match e
    case ServiceUnregisters(c, ids) =>
      var keys := ServicesOf(d, c);
      var i := FirstWith(keys, ids);
      if i < |keys| then [keys[i]] else []
    case ClientDisconnects(c) => ServicesOf(d, c)
    case _ => []
  }

  /** Each of the keys is in the registry when its turn comes. */
  predicate Finds(registry: seq<ServiceKey>, keys: seq<ServiceKey>)
    decreases |keys|
  {
    keys == [] || (keys[0] in registry && Finds(RemoveFirst(registry, keys[0]), keys[1..]))
  }

  /** The event unregisters a service object that the registry does not have at that moment. */
  predicate Misses(d: State, e: Event) {
    !Finds(Keys(d.services), Withdrawn(d, e))
  }

  lemma {:induction false} FindsOne(registry: seq<ServiceKey>, k: ServiceKey)
    ensures Finds(registry, [k]) <==> k in registry
  {
    assert [k][1..] == [];
  }

  lemma {:induction false} UnregisterMisses(d: State, c: ClientRef, ids: ServiceIDs)
    requires c in d.clients
    ensures var keys := d.clients[c].services;
            var i := FirstWith(keys, ids);
            Misses(d, ServiceUnregisters(c, ids)) <==> i < |keys| && keys[i] !in Keys(d.services)
  {
    var keys := d.clients[c].services;
    var i := FirstWith(keys, ids);
    if i < |keys| {
      FindsOne(Keys(d.services), keys[i]);
    }
  }

  lemma {:induction false} DisconnectMisses(d: State, c: ClientRef)
    requires c in d.clients
    ensures Misses(d, ClientDisconnects(c)) <==> !Finds(Keys(d.services), d.clients[c].services)
  {
  }

  /** What is found one after the other is in the registry to begin with, each once. */
  lemma {:induction false} FindsExactly(registry: seq<ServiceKey>, keys: seq<ServiceKey>)
    requires NoDup(registry)
    ensures Finds(registry, keys) <==> NoDup(keys) && forall k | k in keys :: k in registry
    decreases |keys|
  {
    if keys != [] {
      var rest, k := RemoveFirst(registry, keys[0]), keys[0];
      assert NoDup(rest) && k !in rest by { RemoveFirstNoDup(registry, k); }
      assert forall x :: x in rest <==> x in registry && x != k by {
        forall x ensures x in rest <==> x in registry && x != k { RemoveFirstMembers(registry, k, x); }
      }
      FindsExactly(rest, keys[1..]);
      assert forall x :: x in keys <==> x == k || x in keys[1..];
      assert NoDup(keys) <==> NoDup(keys[1..]) && k !in keys[1..] by { NoDupHead(keys); }
    }
  }

  lemma {:induction false} NoDupHead(keys: seq<ServiceKey>)
    requires keys != []
    ensures NoDup(keys) <==> NoDup(keys[1..]) && keys[0] !in keys[1..]
  {
    if NoDup(keys[1..]) && keys[0] !in keys[1..] {
      forall i, j | 0 <= i < j < |keys| ensures keys[i] != keys[j] {
        assert keys[j] == keys[1..][j - 1];
      }
    }
  }

  lemma {:induction false} KeysNoDup(services: seq<Service>)
    requires DistinctServices(services)
    ensures NoDup(Keys(services)) && DistinctIds(Keys(services))
  {
  }

  /** What can be read off before an event: it misses if a key is recorded twice or is not registered. */
  lemma {:induction false} MissesExactly(d: State, e: Event)
    requires Inv(d)
    ensures var keys := Withdrawn(d, e);
            Misses(d, e) <==> !NoDup(keys) || exists k :: k in keys && k !in Keys(d.services)
  {
    KeysNoDup(d.services);
    FindsExactly(Keys(d.services), Withdrawn(d, e));
  }

  lemma {:induction false} OwnersFind(d: State, e: Event)
    requires Inv(d) && OwnInv(d) && Enabled(d, e)
    ensures !Misses(d, e)
  {
    MissesExactly(d, e);
    if e.ServiceUnregisters? || e.ClientDisconnects? {
      OwnListed(d, e.c);
    }
  }

  lemma {:induction false} OwnFinds(d: State, c: ClientRef)
    requires Inv(d) && OwnInv(d) && IsRegistered(d, c)
    ensures Finds(Keys(d.services), d.clients[c].services)
  {
    KeysNoDup(d.services);
    FindsExactly(Keys(d.services), d.clients[c].services);
    OwnListed(d, c);
  }

  ghost predicate NothingMissed(events: seq<Event>, states: seq<State>) {
    |states| > |events| && forall i {:trigger events[i]} | 0 <= i < |events| :: !Misses(states[i], events[i])
  }

  /** When no client asks twice for a service, every unregistration finds its service. */
  lemma {:induction false} CarefulNeverMisses(channels: seq<u32>, events: seq<Event>, states: seq<State>)
    requires IsRun(channels, events, states) && Careful(events, states)
    ensures NothingMissed(events, states)
  {
    forall i | 0 <= i < |events| ensures !Misses(states[i], events[i]) {
      RunKeepsInv(channels, events, states, i);
      RunKeepsOwn(channels, events, states, i);
      OwnersFind(states[i], events[i]);
    }
  }
}
