/**
 The copy of the registry that every local client keeps (clientLib/SomeIP-clientLib.h), as a
 function of the registry messages the daemon has sent it (daemon/LocalClient.h).
 */
module Replication {
  import opened Bytes
  import opened SomeIp
  import opened Announcements
  import opened Lists
  import opened Endpoints
  import opened Daemon
  import opened DaemonInvariant
  import opened Lifecycle
  import opened Effects
  import opened Ownership

  /** Erasing a service that is not in the list is undefined: there is no result. */
  function Erase(replica: seq<ServiceIDs>, ids: seq<ServiceIDs>): (r: Option<seq<ServiceIDs>>)
    decreases |ids|
  {
    if ids == [] then Some(replica)
    else if ids[0] in replica then Erase(RemoveFirst(replica, ids[0]), ids[1..])
    else None
  }

  function Apply(replica: seq<ServiceIDs>, m: RegistryMessage): (r: Option<seq<ServiceIDs>>) {
    match m
    case Registered(ids) => Some(replica + ids)
    case Unregistered(ids) => Erase(replica, ids)
  }

  /** The replica after the messages have been handled, from an empty one. */
  function Replay(box: seq<RegistryMessage>): (r: Option<seq<ServiceIDs>>) {
    if box == [] then Some([])
    else
      var r := Replay(box[..|box| - 1]);
      if r.None? then None else Apply(r.value, box[|box| - 1])
  }

  /** With each message the replica becomes the next of the last registry contents, up to the current one. */
  ghost predicate Follows(box: seq<RegistryMessage>, history: seq<seq<ServiceKey>>) {
    && 1 <= |box| <= |history| && Replay(box) == Some(Ids(history[|history| - 1]))
    && (|box| > 1 ==> Follows(box[..|box| - 1], history[..|history| - 1]))
  }

  /** The history ends with the registry. */
  ghost predicate HistoryInv(d: State) {
    d.history != [] && d.history[|d.history| - 1] == Keys(d.services)
  }

  predicate Listens(d: State, c: ClientRef) {
    LocalListener(c) in d.listeners
  }

  /** The replica of the client follows the registry. */
  ghost predicate Told(d: State, c: ClientRef) {
    Follows(OutboxOf(d, c), d.history)
  }

  /** The replica of the client is undefined, or has fewer services than the registry. */
  predicate Behind(d: State, c: ClientRef) {
    var replica := Replay(OutboxOf(d, c));
    replica.None? || |replica.value| < |d.services|
  }

  // ---- One more message ----

  lemma {:induction false} FollowsAt(box: seq<RegistryMessage>, history: seq<seq<ServiceKey>>, n: nat)
    requires Follows(box, history) && 1 <= n <= |box|
    ensures Replay(box[..n]) == Some(Ids(history[|history| - |box| + n - 1]))
  {
    if n == |box| {
      assert box[..n] == box;
    } else {
      var box', history' := box[..|box| - 1], history[..|history| - 1];
      FollowsAt(box', history', n);
      assert box'[..n] == box[..n] && history'[|history'| - |box'| + n - 1] == history[|history| - |box| + n - 1];
    }
  }

  lemma {:induction false} ReplayAppend(box: seq<RegistryMessage>, m: RegistryMessage)
    ensures Replay(box + [m]) == if Replay(box).None? then None else Apply(Replay(box).value, m)
  {
    assert (box + [m])[..|box|] == box;
  }

  lemma {:induction false} FollowsAppend(
    box: seq<RegistryMessage>, history: seq<seq<ServiceKey>>, m: RegistryMessage, keys: seq<ServiceKey>)
    requires Follows(box, history) && Apply(Ids(history[|history| - 1]), m) == Some(Ids(keys))
    ensures Follows(box + [m], history + [keys])
  {
    ReplayAppend(box, m);
    assert (box + [m])[..|box|] == box && (history + [keys])[..|history|] == history;
  }

  lemma {:induction false} IdsAppend(keys: seq<ServiceKey>, k: ServiceKey)
    ensures Ids(keys + [k]) == Ids(keys) + [k.ids]
  {
  }

  lemma {:induction false} IdsPrepend(k: ServiceKey, keys: seq<ServiceKey>)
    ensures Ids([k] + keys) == [k.ids] + Ids(keys)
  {
    assert ([k] + keys)[1..] == keys;
  }

  lemma {:induction false} IdsRemove(keys: seq<ServiceKey>, k: ServiceKey)
    requires DistinctIds(keys) && k in keys
    ensures k.ids in Ids(keys) && Ids(RemoveFirst(keys, k)) == RemoveFirst(Ids(keys), k.ids)
  {
    var x, rest := keys[0], keys[1..];
    RemoveFirstCons(x.ids, Ids(rest), k.ids);
    if x != k {
      assert x.ids != k.ids && k in rest by {
        var i :| 0 <= i < |keys| && keys[i] == k;
        assert rest[i - 1] == k;
      }
      IdsRemove(rest, k);
      IdsPrepend(x, RemoveFirst(rest, k));
    }
  }

  lemma {:induction false} EraseOne(replica: seq<ServiceIDs>, id: ServiceIDs)
    ensures Erase(replica, [id]) == if id in replica then Some(RemoveFirst(replica, id)) else None
  {
    assert [id][1..] == [];
  }

  // ---- The registry changes while a client listens ----

  lemma {:induction false} GainedTold(d: State, r: State, k: ServiceKey, init: Option<seq<EndPoint>>, c: ClientRef)
    requires HistoryInv(d) && Listens(d, c) && Told(d, c) && Gained(d, r, k, init)
    ensures Told(r, c)
  {
    IdsAppend(Keys(d.services), k);
    FollowsAppend(OutboxOf(d, c), d.history, Registered([k.ids]), Keys(r.services));
  }

  lemma {:induction false} GainedBehind(d: State, r: State, k: ServiceKey, init: Option<seq<EndPoint>>, c: ClientRef)
    requires Listens(d, c) && Behind(d, c) && Gained(d, r, k, init)
    ensures Behind(r, c)
  {
    ReplayAppend(OutboxOf(d, c), Registered([k.ids]));
    assert |Keys(r.services)| == |Keys(d.services)| + 1;
  }

  /** The service was there: the replica follows. */
  lemma {:induction false} LostTold(d: State, r: State, k: ServiceKey, c: ClientRef)
    requires HistoryInv(d) && DistinctServices(d.services) && Listens(d, c) && Told(d, c)
    requires Lost(d, r, k) && k in Keys(d.services)
    ensures Told(r, c)
  {
    KeysNoDup(d.services);
    IdsRemove(Keys(d.services), k);
    EraseOne(Ids(Keys(d.services)), k.ids);
    FollowsAppend(OutboxOf(d, c), d.history, Unregistered([k.ids]), Keys(r.services));
  }

  lemma {:induction false} MissErases(d: State, k: ServiceKey, c: ClientRef)
    requires HistoryInv(d) && Told(d, c)
    ensures var ids := Ids(Keys(d.services));
            Replay(OutboxOf(d, c) + [Unregistered([k.ids])]) ==
            if k.ids in ids then Some(RemoveFirst(ids, k.ids)) else None
  {
    ReplayAppend(OutboxOf(d, c), Unregistered([k.ids]));
    EraseOne(Ids(Keys(d.services)), k.ids);
  }

  /**
   The service was not there: the registry stays as it was, and the replica erases the service
   that has its IDs now, or there is none and the erase is undefined.
   */
  lemma {:induction false} LostMisleads(d: State, r: State, k: ServiceKey, c: ClientRef)
    requires HistoryInv(d) && Listens(d, c) && Told(d, c) && Lost(d, r, k) && k !in Keys(d.services)
    ensures Keys(r.services) == Keys(d.services)
    ensures var ids := Ids(Keys(d.services));
            Replay(OutboxOf(r, c)) == if k.ids in ids then Some(RemoveFirst(ids, k.ids)) else None
    ensures Behind(r, c)
  {
    var keys := Keys(d.services);
    assert Keys(r.services) == keys by { RemoveFirstAbsent(keys, k); }
    assert OutboxOf(r, c) == OutboxOf(d, c) + [Unregistered([k.ids])];
    MissErases(d, k, c);
    RemoveFirstLength(Ids(keys), k.ids);
    assert |r.services| == |Keys(r.services)| == |Ids(keys)|;
  }

  lemma {:induction false} LostBehind(d: State, r: State, k: ServiceKey, c: ClientRef)
    requires Listens(d, c) && Behind(d, c) && Lost(d, r, k)
    ensures Behind(r, c)
  {
    var box := OutboxOf(d, c);
    ReplayAppend(box, Unregistered([k.ids]));
    RemoveFirstLength(Keys(d.services), k);
    assert |Keys(r.services)| >= |Keys(d.services)| - 1;
    if Replay(box).Some? {
      EraseOne(Replay(box).value, k.ids);
      RemoveFirstLength(Replay(box).value, k.ids);
    }
  }

  lemma {:induction false} LostView(d: State, r: State, k: ServiceKey, c: ClientRef)
    requires HistoryInv(d) && DistinctServices(d.services) && Listens(d, c) && Lost(d, r, k)
    ensures Told(d, c) ==> if k in Keys(d.services) then Told(r, c) else Behind(r, c)
    ensures Behind(d, c) ==> Behind(r, c)
  {
    if Behind(d, c) {
      LostBehind(d, r, k, c);
    }
    if Told(d, c) && k in Keys(d.services) {
      LostTold(d, r, k, c);
    } else if Told(d, c) {
      LostMisleads(d, r, k, c);
    }
  }

  /** The client sees no change. */
  ghost predicate SameView(d: State, r: State, c: ClientRef) {
    |r.services| == |d.services| && r.history == d.history && OutboxOf(r, c) == OutboxOf(d, c)
  }

  lemma {:induction false} QuietView(d: State, r: State, c: ClientRef)
    requires Quiet(d, r) && Listens(r, c)
    ensures SameView(d, r, c) && (HistoryInv(d) ==> HistoryInv(r))
  {
    assert |Keys(r.services)| == |Keys(d.services)|;
  }

  lemma {:induction false} LoseAllBehind(d: State, keys: seq<ServiceKey>, c: ClientRef)
    requires ListenerShape(d.listeners) && Listens(d, c) && Behind(d, c)
    ensures Behind(UnregisterAll(d, keys), c)
    decreases |keys|
  {
    if keys != [] {
      var d1 := UnregisterService(d, keys[0]);
      UnregisterLoses(d, keys[0]);
      LostBehind(d, d1, keys[0], c);
      LoseAllBehind(d1, keys[1..], c);
    }
  }

  lemma {:induction false} LoseAllTold(d: State, keys: seq<ServiceKey>, c: ClientRef)
    requires HistoryInv(d) && DistinctServices(d.services) && ListenerShape(d.listeners) && Listens(d, c) && Told(d, c)
    ensures var r := UnregisterAll(d, keys);
            if Finds(Keys(d.services), keys) then Told(r, c) else Behind(r, c)
    decreases |keys|
  {
    if keys != [] {
      var d1 := UnregisterService(d, keys[0]);
      UnregisterLoses(d, keys[0]);
      if keys[0] in Keys(d.services) {
        LostTold(d, d1, keys[0], c);
        WithoutDistinct(d.services, keys[0]);
        LoseAllTold(d1, keys[1..], c);
      } else {
        LostMisleads(d, d1, keys[0], c);
        LoseAllBehind(d1, keys[1..], c);
      }
    }
  }

  // ---- Every event, for a client that listens before and after ----

  lemma {:induction false} DisconnectTold(d: State, x: ClientRef, c: ClientRef)
    requires Inv(d) && HistoryInv(d) && IsRegistered(d, x) && c != x && Listens(d, c) && Told(d, c)
    ensures if Finds(Keys(d.services), d.clients[x].services) then Told(Disconnect(d, x), c) else Behind(Disconnect(d, x), c)
  {
    var d2, keys := Muted(d, x), d.clients[x].services;
    DisconnectOutcome(d, x);
    QuietView(d, d2, c);
    LoseAllTold(d2, keys, c);
    assert SameView(UnregisterAll(d2, keys), Disconnect(d, x), c);
  }

  lemma {:induction false} DisconnectBehind(d: State, x: ClientRef, c: ClientRef)
    requires Inv(d) && IsRegistered(d, x) && c != x && Listens(d, c) && Behind(d, c)
    ensures Behind(Disconnect(d, x), c)
  {
    var d2, keys := Muted(d, x), d.clients[x].services;
    DisconnectOutcome(d, x);
    QuietView(d, d2, c);
    LoseAllBehind(d2, keys, c);
    assert SameView(UnregisterAll(d2, keys), Disconnect(d, x), c);
  }

  lemma {:induction false} ServiceTold(d: State, s: Service, init: Option<seq<EndPoint>>, c: ClientRef)
    requires ListenerShape(d.listeners) && HistoryInv(d) && Listens(d, c)
    ensures var r := RegisterService(d, s, init);
            (Told(d, c) ==> Told(r, c)) && (Behind(d, c) ==> Behind(r, c))
  {
    var r := RegisterService(d, s, init);
    if Find(d.services, s.key.ids) == |d.services| {
      assert Gained(d, r, s.key, init) by { RegisterGains(d, s, init); }
      if Told(d, c) {
        GainedTold(d, r, s.key, init, c);
      }
      if Behind(d, c) {
        GainedBehind(d, r, s.key, init, c);
      }
    }
  }

  lemma {:induction false} WellKnownTold(d: State, ids: ServiceIDs, init: Option<seq<EndPoint>>, c: ClientRef)
    requires ListenerShape(d.listeners) && HistoryInv(d) && Listens(d, c)
    ensures var r := RegisterWellKnown(d, ids, init);
            (Told(d, c) ==> Told(r, c)) && (Behind(d, c) ==> Behind(r, c))
  {
    var d1 := d.(nextHandle := d.nextHandle + 1);
    assert SameView(d, d1, c);
    ServiceTold(d1, Service(ServiceKey(d.nextHandle, ids, true), None), init, c);
  }

  lemma {:induction false} RegisterTold(
    d: State, x: ClientRef, ids: ServiceIDs, isLocal: bool, init: Option<seq<EndPoint>>, c: ClientRef)
    requires Inv(d) && HistoryInv(d) && IsRegistered(d, x) && Listens(d, c)
    ensures var r := ClientRegister(d, x, ids, isLocal, init);
            && r.listeners == d.listeners
            && (Told(d, c) ==> Told(r, c)) && (Behind(d, c) ==> Behind(r, c))
  {
    var r, k := ClientRegister(d, x, ids, isLocal, init), Granted(d, x, ids, isLocal);
    RegisterOutcome(d, x, ids, isLocal, init);
    if k.Some? && Find(d.services, ids) == |d.services| {
      if Told(d, c) {
        GainedTold(d, r, k.value, init, c);
      }
      if Behind(d, c) {
        GainedBehind(d, r, k.value, init, c);
      }
    } else if k.Some? {
      QuietView(d, r, c);
    }
  }

  lemma {:induction false} UnregisterTold(d: State, x: ClientRef, ids: ServiceIDs, c: ClientRef)
    requires Inv(d) && HistoryInv(d) && IsRegistered(d, x) && Listens(d, c)
    ensures var r := ClientUnregister(d, x, ids);
            var keys := d.clients[x].services;
            var i := FirstWith(keys, ids);
            && (Told(d, c) ==> if i < |keys| && keys[i] !in Keys(d.services) then Behind(r, c) else Told(r, c))
            && (Behind(d, c) ==> Behind(r, c))
  {
    var keys, r := d.clients[x].services, ClientUnregister(d, x, ids);
    var i := FirstWith(keys, ids);
    UnregisterOutcome(d, x, ids);
    if i < |keys| {
      LostView(d, r, keys[i], c);
    }
  }

  /**
   Every event takes a replica that follows the registry to one that does, unless the event
   misses; and one that is behind stays behind.
   */
  lemma {:induction false} StepTold(d: State, e: Event, c: ClientRef)
    requires Inv(d) && HistoryInv(d) && Enabled(d, e) && Listens(d, c) && Listens(Step(d, e), c)
    ensures Told(d, c) ==> if Misses(d, e) then Behind(Step(d, e), c) else Told(Step(d, e), c)
    ensures Behind(d, c) ==> Behind(Step(d, e), c)
  {
    match e
    case ClientConnects(x, isLocal) => assert SameView(d, Connect(d, x, isLocal), c);
    case WellKnownRegisters(ids, init) => WellKnownTold(d, ids, init, c);
    case ServiceRegisters(x, ids, isLocal, init) => RegisterTold(d, x, ids, isLocal, init, c);
    case ServiceUnregisters(x, ids) =>
      UnregisterMisses(d, x, ids);
      UnregisterTold(d, x, ids, c);
    case ClientSubscribes(x, member) => assert SameView(d, Subscribe(d, x, member), c);
    case NotificationSent(member) => assert SameView(d, WithNotification(d, member), c);
    case ClientDisconnects(x) =>
      assert c != x by { StillListens(d, x, c); }
      DisconnectMisses(d, x);
      if Told(d, c) {
        DisconnectTold(d, x, c);
      }
      if Behind(d, c) {
        DisconnectBehind(d, x, c);
      }
    case IdleCleanUp => assert SameView(d, CleanUp(d), c);
    case AnnounceTimer => assert SameView(d, AnnounceAgain(d, 0), c);
  }

  lemma {:induction false} StillListens(d: State, x: ClientRef, c: ClientRef)
    requires Inv(d) && IsRegistered(d, x)
    ensures Listens(Disconnect(d, x), c) <==> Listens(d, c) && c != x
  {
    DisconnectGone(d, x);
    if d.clients[x].isLocal {
      RemoveListener(d.listeners, x);
    }
  }

  // ---- A client begins to listen ----

  lemma {:induction false} FirstFollows(history: seq<seq<ServiceKey>>, keys: seq<ServiceKey>)
    requires history != [] && history[|history| - 1] == keys
    ensures Follows([Registered(Ids(keys))], history)
  {
    var box := [Registered(Ids(keys))];
    assert box[..1] == box && box[..0] == [];
    assert [] + Ids(keys) == Ids(keys);
  }

  /** Only connecting makes a client listen, and it is sent the whole registry first. */
  lemma {:induction false} NewListenerTold(d: State, e: Event, c: ClientRef)
    requires Inv(d) && HistoryInv(d) && Enabled(d, e) && !Listens(d, c) && Listens(Step(d, e), c)
    ensures e == ClientConnects(c, true) && Told(Step(d, e), c)
  {
    match e
    case ClientConnects(x, isLocal) => FirstFollows(d.history, Keys(d.services));
    case ServiceRegisters(x, ids, isLocal, init) => ClientRegisterProgress(d, x, ids, isLocal, init);
    case ServiceUnregisters(x, ids) => UnregisterProgress(d, x, ids);
    case ClientDisconnects(x) => StillListens(d, x, c);
    case _ =>
  }

  lemma {:induction false} LoseAllHistory(d: State, keys: seq<ServiceKey>)
    requires HistoryInv(d)
    ensures HistoryInv(UnregisterAll(d, keys))
    decreases |keys|
  {
    if keys != [] {
      LoseAllHistory(UnregisterService(d, keys[0]), keys[1..]);
    }
  }

  lemma {:induction false} GainedHistory(d: State, r: State, k: ServiceKey, init: Option<seq<EndPoint>>)
    requires Gained(d, r, k, init)
    ensures HistoryInv(r)
  {
  }

  lemma {:induction false} QuietHistory(d: State, r: State)
    requires HistoryInv(d) && Keys(r.services) == Keys(d.services) && r.history == d.history
    ensures HistoryInv(r)
  {
  }

  lemma {:induction false} WellKnownHistory(d: State, ids: ServiceIDs, init: Option<seq<EndPoint>>)
    requires ListenerShape(d.listeners) && HistoryInv(d)
    ensures HistoryInv(RegisterWellKnown(d, ids, init))
  {
    var d1, s := d.(nextHandle := d.nextHandle + 1), Service(ServiceKey(d.nextHandle, ids, true), None);
    if Find(d.services, ids) == |d.services| {
      assert Gained(d1, RegisterService(d1, s, init), s.key, init) by { RegisterGains(d1, s, init); }
    }
  }

  lemma {:induction false} RegisterHistory(
    d: State, x: ClientRef, ids: ServiceIDs, isLocal: bool, init: Option<seq<EndPoint>>)
    requires Inv(d) && HistoryInv(d) && IsRegistered(d, x)
    ensures HistoryInv(ClientRegister(d, x, ids, isLocal, init))
  {
    var r, k := ClientRegister(d, x, ids, isLocal, init), Granted(d, x, ids, isLocal);
    RegisterOutcome(d, x, ids, isLocal, init);
    if k.Some? && Find(d.services, ids) == |d.services| {
      GainedHistory(d, r, k.value, init);
    } else if k.Some? {
      QuietHistory(d, r);
    }
  }

  lemma {:induction false} UnregisterHistory(d: State, x: ClientRef, ids: ServiceIDs)
    requires Inv(d) && HistoryInv(d) && IsRegistered(d, x)
    ensures HistoryInv(ClientUnregister(d, x, ids))
  {
    UnregisterOutcome(d, x, ids);
  }

  lemma {:induction false} DisconnectHistory(d: State, x: ClientRef)
    requires Inv(d) && HistoryInv(d) && IsRegistered(d, x)
    ensures HistoryInv(Disconnect(d, x))
  {
    var d2 := Muted(d, x);
    assert HistoryInv(d2);
    LoseAllHistory(d2, d.clients[x].services);
    DisconnectOutcome(d, x);
  }

  lemma {:induction false} StepKeepsHistory(d: State, e: Event)
    requires Inv(d) && HistoryInv(d) && Enabled(d, e)
    ensures HistoryInv(Step(d, e))
  {
    match e
    case WellKnownRegisters(ids, init) => WellKnownHistory(d, ids, init);
    case ServiceRegisters(x, ids, isLocal, init) => RegisterHistory(d, x, ids, isLocal, init);
    case ServiceUnregisters(x, ids) => UnregisterHistory(d, x, ids);
    case ClientDisconnects(x) => DisconnectHistory(d, x);
    case ClientConnects(x, isLocal) => QuietHistory(d, Connect(d, x, isLocal));
    case ClientSubscribes(x, member) => QuietHistory(d, Subscribe(d, x, member));
    case NotificationSent(member) => QuietHistory(d, WithNotification(d, member));
    case IdleCleanUp => QuietHistory(d, CleanUp(d));
    case AnnounceTimer => QuietHistory(d, AnnounceAgain(d, 0));
  }

  // ---- Runs ----

  lemma {:induction false} RunKeepsHistory(channels: seq<u32>, events: seq<Event>, states: seq<State>, n: nat)
    requires IsRun(channels, events, states) && n < |states|
    ensures HistoryInv(states[n])
  {
    if n > 0 {
      RunKeepsHistory(channels, events, states, n - 1);
      RunKeepsInv(channels, events, states, n - 1);
      StepKeepsHistory(states[n - 1], events[n - 1]);
    }
  }

  /** One of the first `n` events missed while the client was listening. */
  ghost predicate Misled(events: seq<Event>, states: seq<State>, n: nat, c: ClientRef)
    requires n <= |events| < |states|
  {
    exists i :: 0 <= i < n && Listens(states[i], c) && Misses(states[i], events[i])
  }

  lemma {:induction false} MisledNext(events: seq<Event>, states: seq<State>, n: nat, c: ClientRef)
    requires n < |events| < |states|
    ensures Misled(events, states, n + 1, c) <==>
            Misled(events, states, n, c) || (Listens(states[n], c) && Misses(states[n], events[n]))
  {
  }

  /** A client that connects has never listened before. */
  lemma {:induction false} NewListenerNotMisled(
    channels: seq<u32>, events: seq<Event>, states: seq<State>, n: nat, c: ClientRef)
    requires IsRun(channels, events, states) && n < |events| && events[n] == ClientConnects(c, true)
    ensures !Misled(events, states, n, c) && !Listens(states[n], c)
  {
    forall i | 0 <= i <= n ensures !Listens(states[i], c) {
      RunKeepsInv(channels, events, states, i);
      RunProgress(channels, events, states, i, n);
    }
  }

  /** A listening client's replica follows the registry until an event misses, and is behind ever after. */
  lemma {:induction false} RunTold(
    channels: seq<u32>, events: seq<Event>, states: seq<State>, n: nat, c: ClientRef)
    requires IsRun(channels, events, states) && n < |states| && Listens(states[n], c)
    ensures if Misled(events, states, n, c) then Behind(states[n], c) else Told(states[n], c)
  {
    assert n > 0;
    var d, e := states[n - 1], events[n - 1];
    assert Inv(d) by { RunKeepsInv(channels, events, states, n - 1); }
    assert HistoryInv(d) by { RunKeepsHistory(channels, events, states, n - 1); }
    MisledNext(events, states, n - 1, c);
    if Listens(d, c) {
      RunTold(channels, events, states, n - 1, c);
      StepTold(d, e, c);
    } else {
      NewListenerTold(d, e, c);
      NewListenerNotMisled(channels, events, states, n - 1, c);
    }
  }

  lemma {:induction false} BehindDiffers(d: State, c: ClientRef)
    requires Behind(d, c)
    ensures Replay(OutboxOf(d, c)) != Some(Ids(Keys(d.services)))
  {
  }

  /**
   The exact condition, over every run and for every client: the replica of a connected local
   client, when it has handled all its messages, is the dispatcher's list if and only if no
   event has unregistered a service that was not registered since the client connected. After
   such an event the replica is undefined or too short for as long as the client stays.
   */
  lemma {:induction false} ReplicaFollowsIff(
    channels: seq<u32>, events: seq<Event>, states: seq<State>, n: nat, c: ClientRef)
    requires IsRun(channels, events, states) && n < |states|
    requires IsRegistered(states[n], c) && states[n].clients[c].isLocal
    ensures var d := states[n];
            && (Replay(OutboxOf(d, c)) == Some(Ids(Keys(d.services))) <==> !Misled(events, states, n, c))
            && (Misled(events, states, n, c) <==> Behind(d, c))
  {
    var d := states[n];
    assert Listens(d, c) by { RunKeepsInv(channels, events, states, n); }
    assert HistoryInv(d) by { RunKeepsHistory(channels, events, states, n); }
    RunTold(channels, events, states, n, c);
    if Misled(events, states, n, c) {
      BehindDiffers(d, c);
    } else {
    }
  }

  /** Every replica of the state is the registry. */
  ghost predicate AllCurrent(d: State) {
    forall c | Listens(d, c) :: Replay(OutboxOf(d, c)) == Some(Ids(Keys(d.services)))
  }

  /** The event misses and somebody hears of it. */
  ghost predicate Heard(d: State, e: Event, r: State) {
    Misses(d, e) && exists c :: Listens(d, c) && Listens(r, c)
  }

  /**
   For all clients together: at every moment of a run all replicas are the registry, once
   drained, if and only if no event of the run misses while a client is there to hear it.
   */
  lemma {:induction false} ReplicasSurviveIff(channels: seq<u32>, events: seq<Event>, states: seq<State>)
    requires IsRun(channels, events, states)
    ensures (forall n | 0 <= n < |states| :: AllCurrent(states[n])) <==>
            (forall i {:trigger events[i]} | 0 <= i < |events| :: !Heard(states[i], events[i], states[i + 1]))
  {
    if i :| 0 <= i < |events| && Heard(states[i], events[i], states[i + 1]) {
      var c :| Listens(states[i], c) && Listens(states[i + 1], c);
      MisledNext(events, states, i, c);
      HeardMisleads(channels, events, states, i + 1, c);
    } else {
      forall n | 0 <= n < |states| ensures AllCurrent(states[n]) {
        UnheardCurrent(channels, events, states, n);
      }
    }
  }

  lemma {:induction false} HeardMisleads(
    channels: seq<u32>, events: seq<Event>, states: seq<State>, n: nat, c: ClientRef)
    requires IsRun(channels, events, states) && n < |states| && Listens(states[n], c) && Misled(events, states, n, c)
    ensures !AllCurrent(states[n])
  {
    RunTold(channels, events, states, n, c);
    BehindDiffers(states[n], c);
  }

  lemma {:induction false} StepListens(d: State, e: Event, c: ClientRef)
    requires Inv(d) && Enabled(d, e) && Listens(d, c)
    ensures Listens(Step(d, e), c) || Left(Step(d, e), c)
  {
    match e
    case ServiceRegisters(x, ids, isLocal, init) => ClientRegisterProgress(d, x, ids, isLocal, init);
    case ServiceUnregisters(x, ids) => UnregisterProgress(d, x, ids);
    case ClientDisconnects(x) =>
      StillListens(d, x, c);
      DisconnectProgress(d, x);
    case _ =>
  }

  lemma {:induction false} NextListens(
    channels: seq<u32>, events: seq<Event>, states: seq<State>, i: nat, c: ClientRef)
    requires IsRun(channels, events, states) && i < |events| && Listens(states[i], c)
    ensures Listens(states[i + 1], c) || Left(states[i + 1], c)
  {
    RunKeepsInv(channels, events, states, i);
    StepListens(states[i], events[i], c);
  }

  lemma {:induction false} LeftForGood(
    channels: seq<u32>, events: seq<Event>, states: seq<State>, i: nat, n: nat, c: ClientRef)
    requires IsRun(channels, events, states) && i <= n < |states| && Left(states[i], c)
    ensures !IsRegistered(states[n], c)
  {
    RunProgress(channels, events, states, i, n);
    RunKeepsInv(channels, events, states, n);
  }

  /** A client that listens now and listened before has not stopped in between. */
  lemma {:induction false} ListensOn(
    channels: seq<u32>, events: seq<Event>, states: seq<State>, i: nat, n: nat, c: ClientRef)
    requires IsRun(channels, events, states) && i < n < |states| && Listens(states[i], c) && Listens(states[n], c)
    ensures Listens(states[i + 1], c)
  {
    assert IsRegistered(states[n], c) by { RunKeepsInv(channels, events, states, n); }
    NextListens(channels, events, states, i, c);
    if Left(states[i + 1], c) {
      LeftForGood(channels, events, states, i + 1, n, c);
    }
  }

  lemma {:induction false} UnheardCurrent(channels: seq<u32>, events: seq<Event>, states: seq<State>, n: nat)
    requires IsRun(channels, events, states) && n < |states|
    requires forall i {:trigger events[i]} | 0 <= i < |events| :: !Heard(states[i], events[i], states[i + 1])
    ensures AllCurrent(states[n])
  {
    forall c | Listens(states[n], c) ensures Replay(OutboxOf(states[n], c)) == Some(Ids(Keys(states[n].services))) {
      forall i | 0 <= i < n && Listens(states[i], c) ensures !Misses(states[i], events[i]) {
        ListensOn(channels, events, states, i, n, c);
        assert !Heard(states[i], events[i], states[i + 1]);
      }
      RunKeepsInv(channels, events, states, n);
      ReplicaFollowsIff(channels, events, states, n, c);
    }
  }

  lemma {:induction false} ToldInRun(channels: seq<u32>, events: seq<Event>, states: seq<State>, n: nat, c: ClientRef)
    requires IsRun(channels, events, states) && n < |states| && !Misled(events, states, n, c)
    requires IsRegistered(states[n], c) && states[n].clients[c].isLocal
    ensures Told(states[n], c) && HistoryInv(states[n])
  {
    assert Listens(states[n], c) by { RunKeepsInv(channels, events, states, n); }
    assert HistoryInv(states[n]) by { RunKeepsHistory(channels, events, states, n); }
    assert Told(states[n], c) by { RunTold(channels, events, states, n, c); }
  }

  lemma {:induction false} ToldIsPast(d: State, c: ClientRef, handled: nat)
    requires Told(d, c) && HistoryInv(d) && 1 <= handled <= |OutboxOf(d, c)|
    ensures var box := OutboxOf(d, c);
            && |box| <= |d.history|
            && Replay(box[..handled]) == Some(Ids(d.history[|d.history| - |box| + handled - 1]))
            && Replay(box) == Some(Ids(Keys(d.services)))
  {
    FollowsAt(OutboxOf(d, c), d.history, handled);
  }

  /**
   A connected local client that has not been misled and has handled any number of the messages
   sent to it has, in order, the services the dispatcher had at some moment; each message takes
   it to the next of the last contents of the registry, and after the last message it has the
   current one. No erase ever misses its element.
   */
  lemma {:induction false} ReplicaIsPastRegistry(
    channels: seq<u32>, events: seq<Event>, states: seq<State>, n: nat, c: ClientRef, handled: nat)
    requires IsRun(channels, events, states) && n < |states| && !Misled(events, states, n, c)
    requires IsRegistered(states[n], c) && states[n].clients[c].isLocal
    requires 1 <= handled <= |OutboxOf(states[n], c)|
    ensures var d := states[n];
            var box := OutboxOf(d, c);
            && |box| <= |d.history|
            && Replay(box[..handled]) == Some(Ids(d.history[|d.history| - |box| + handled - 1]))
            && Replay(box) == Some(Ids(Keys(d.services)))
  {
    ToldInRun(channels, events, states, n, c);
    ToldIsPast(states[n], c, handled);
  }

  /** Nobody is misled when no client asks twice for a service it provides. */
  lemma {:induction false} CarefulNotMisled(
    channels: seq<u32>, events: seq<Event>, states: seq<State>, n: nat, c: ClientRef)
    requires IsRun(channels, events, states) && Careful(events, states) && n < |states|
    ensures !Misled(events, states, n, c)
  {
    CarefulNeverMisses(channels, events, states);
  }

  // ---- When a client asks twice ----

  lemma {:induction false} UnregisterAllAppend(d: State, keys: seq<ServiceKey>, k: ServiceKey)
    ensures UnregisterAll(d, keys + [k]) == UnregisterService(UnregisterAll(d, keys), k)
    decreases |keys|
  {
    if keys == [] {
      assert [] + [k] == [k] && [k][1..] == [];
    } else {
      assert (keys + [k])[1..] == keys[1..] + [k] && (keys + [k])[0] == keys[0];
      UnregisterAllAppend(UnregisterService(d, keys[0]), keys[1..], k);
    }
  }

  lemma {:induction false} RepeatedKey(d: State, e: Event)
    requires Inv(d) && Enabled(d, e) && Repeats(d, e)
    ensures var k := d.services[Find(d.services, e.ids)].key;
            && k in d.clients[e.c].services && k.ids == e.ids
            && Step(d, e) == Owning(d, e.c, k)
  {
    assert d.services[Find(d.services, e.ids)] in d.services;
  }

  lemma {:induction false} GoneFromRegistry(d: State, keys: seq<ServiceKey>, k: ServiceKey)
    requires DistinctServices(d.services) && ProviderInv(d) && k in keys && k in Keys(d.services)
    ensures var r := UnregisterAll(d, keys);
            && r.listeners == d.listeners && k !in Keys(r.services) && k.ids !in Ids(Keys(r.services))
  {
    PurgeAll(d, keys);
    KeysNoDup(d.services);
    var r := UnregisterAll(d, keys);
    forall i | 0 <= i < |r.services| ensures Keys(r.services)[i] != k && Ids(Keys(r.services))[i] != k.ids {
      var s := r.services[i];
      assert s in r.services;
      KeyListed(d.services, s);
      if s.key.ids == k.ids {
        SameIdsSameKey(Keys(d.services), s.key, k);
      }
    }
  }

  lemma {:induction false} SecondEraseMisses(d: State, keys: seq<ServiceKey>, k: ServiceKey, x: ClientRef)
    requires HistoryInv(d) && DistinctServices(d.services) && ProviderInv(d) && ListenerShape(d.listeners)
    requires Finds(Keys(d.services), keys) && k in keys && k in Keys(d.services)
    requires Listens(d, x) && Told(d, x)
    ensures Replay(OutboxOf(UnregisterAll(d, keys + [k]), x)) == None
  {
    var r := UnregisterAll(d, keys);
    LoseAllTold(d, keys, x);
    LoseAllHistory(d, keys);
    GoneFromRegistry(d, keys, k);
    UnregisterLoses(r, k);
    LostMisleads(r, UnregisterService(r, k), k, x);
    UnregisterAllAppend(d, keys, k);
  }

  /** A client that has recorded one of its services twice leaves. */
  lemma {:induction false} LeavesTwice(d: State, c: ClientRef, keys: seq<ServiceKey>, k: ServiceKey, x: ClientRef)
    requires Inv(d) && HistoryInv(d) && IsRegistered(d, c) && d.clients[c].services == keys + [k]
    requires Finds(Keys(d.services), keys) && k in keys && k in Keys(d.services)
    requires x != c && Listens(d, x) && Told(d, x)
    ensures Replay(OutboxOf(Disconnect(d, c), x)) == None
  {
    var d2 := Muted(d, c);
    DisconnectOutcome(d, c);
    QuietView(d, d2, x);
    MutedProviders(d, c);
    SecondEraseMisses(d2, keys, k, x);
    assert OutboxOf(Disconnect(d, c), x) == OutboxOf(UnregisterAll(d2, keys + [k]), x);
  }

  lemma {:induction false} TwiceMisleads(d: State, r: State, c: ClientRef, k: ServiceKey, x: ClientRef)
    requires IsRegistered(d, c) && k in d.clients[c].services && k in Keys(d.services)
    requires Finds(Keys(d.services), d.clients[c].services)
    requires r == Owning(d, c, k) && Inv(r) && HistoryInv(r) && x != c && Listens(r, x) && Told(r, x)
    ensures Replay(OutboxOf(Disconnect(r, c), x)) == None
  {
    LeavesTwice(r, c, d.clients[c].services, k, x);
  }

  lemma {:induction false} OwningTold(d: State, c: ClientRef, k: ServiceKey, x: ClientRef)
    requires c in d.clients && HistoryInv(d) && Told(d, x)
    ensures HistoryInv(Owning(d, c, k)) && Told(Owning(d, c, k), x)
  {
    assert SameView(d, Owning(d, c, k), x);
  }

  lemma {:induction false} RepeatMisleads(d: State, e: Event, x: ClientRef)
    requires Inv(d) && OwnInv(d) && HistoryInv(d) && Enabled(d, e) && Repeats(d, e)
    requires x != e.c && Listens(d, x) && Told(d, x)
    ensures IsRegistered(Step(d, e), e.c) && Replay(OutboxOf(Disconnect(Step(d, e), e.c), x)) == None
  {
    var k := d.services[Find(d.services, e.ids)].key;
    RepeatedKey(d, e);
    OwnFinds(d, e.c);
    OwnListed(d, e.c);
    OwningKeeps(d, e.c, k);
    OwningTold(d, e.c, k, x);
    TwiceMisleads(d, Owning(d, e.c, k), e.c, k, x);
  }

  lemma {:induction false} FirstRequestHarmless(d: State, e: Event, x: ClientRef)
    requires Inv(d) && OwnInv(d) && HistoryInv(d) && Enabled(d, e) && e.ServiceRegisters? && !Repeats(d, e)
    requires x != e.c && Listens(d, x) && Told(d, x)
    ensures IsRegistered(Step(d, e), e.c) && Replay(OutboxOf(Disconnect(Step(d, e), e.c), x)).Some?
  {
    var d1 := Step(d, e);
    assert d1.listeners == d.listeners && IsRegistered(d1, e.c) by {
      RegisterOutcome(d, e.c, e.ids, e.isLocal, e.init);
    }
    assert Told(d1, x) by { StepTold(d, e, x); }
    assert Inv(d1) by { StepKeepsInv(d, e); }
    assert HistoryInv(d1) by { StepKeepsHistory(d, e); }
    assert Finds(Keys(d1.services), d1.clients[e.c].services) by {
      StepKeepsOwn(d, e);
      OwnFinds(d1, e.c);
    }
    DisconnectTold(d1, e.c, x);
    var r := Disconnect(d1, e.c);
  }

  /**
   After a run without repeats: a client that registers a service and disconnects next leaves
   the replicas of the other clients defined if and only if it did not already provide the
   service.
   */
  lemma {:induction false} RegisterThenLeaveIff(
    channels: seq<u32>, events: seq<Event>, states: seq<State>, n: nat, e: Event, x: ClientRef)
    requires IsRun(channels, events, states) && Careful(events, states) && n < |states|
    requires Enabled(states[n], e) && e.ServiceRegisters? && x != e.c && Listens(states[n], x)
    ensures IsRegistered(Step(states[n], e), e.c)
    ensures Replay(OutboxOf(Disconnect(Step(states[n], e), e.c), x)).Some? <==> !Repeats(states[n], e)
  {
    var d := states[n];
    RunKeepsInv(channels, events, states, n);
    RunKeepsOwn(channels, events, states, n);
    RunKeepsHistory(channels, events, states, n);
    CarefulNotMisled(channels, events, states, n, x);
    RunTold(channels, events, states, n, x);
    if Repeats(d, e) {
      RepeatMisleads(d, e, x);
    } else {
      FirstRequestHarmless(d, e, x);
    }
  }

  lemma {:induction false} RunExtends(channels: seq<u32>, events: seq<Event>, states: seq<State>, e: Event)
    requires IsRun(channels, events, states) && Enabled(states[|events|], e)
    ensures IsRun(channels, events + [e], states + [Step(states[|events|], e)])
  {
    var events', states' := events + [e], states + [Step(states[|events|], e)];
    forall i | 0 <= i < |events'|
      ensures Enabled(states'[i], events'[i]) && states'[i + 1] == Step(states'[i], events'[i])
    {
      if i < |events| {
        assert events'[i] == events[i] && states'[i] == states[i] && states'[i + 1] == states[i + 1];
      }
    }
  }

  lemma {:induction false} CarefulExtends(events: seq<Event>, states: seq<State>, e: Event, r: State)
    requires |states| == |events| + 1 && Careful(events, states) && !Repeats(states[|events|], e)
    ensures Careful(events + [e], states + [r])
  {
    var events', states' := events + [e], states + [r];
    forall i | 0 <= i < |events'| ensures !Repeats(states'[i], events'[i]) {
      if i < |events| {
        assert events'[i] == events[i] && states'[i] == states[i];
      }
    }
  }

  lemma {:induction false} FindsService(services: seq<Service>, s: Service)
    requires DistinctServices(services) && s in services
    ensures Find(services, s.key.ids) < |services| && services[Find(services, s.key.ids)] == s
  {
    var j :| 0 <= j < |services| && services[j] == s;
    assert Find(services, s.key.ids) == j;
  }

  lemma {:induction false} NewThenRepeats(d: State, c: ClientRef, ids: ServiceIDs, init: Option<seq<EndPoint>>)
    requires Inv(d) && IsRegistered(d, c) && Find(d.services, ids) == |d.services|
    ensures var e := ServiceRegisters(c, ids, true, init);
            var k := ServiceKey(d.nextHandle, ids, true);
            var r := ClientRegister(d, c, ids, true, init);
            && Enabled(r, e) && Repeats(r, e) && r.listeners == d.listeners
            && Inv(r) && r.services[Find(r.services, ids)].key == k && Gained(d, r, k, init) && Obtained(d, r, c, k)
  {
    var r := ClientRegister(d, c, ids, true, init);
    var s := Service(ServiceKey(d.nextHandle, ids, true), Some(c));
    NewService(d, c, ids, true, init);
    assert Inv(r) by { RegisterKeeps(d, c, ids, true, init); }
    FindsService(r.services, s);
  }

  /**
   In any state of a run without repeats in which a client could register a new service:
   registering it twice and disconnecting leaves the replica of every other client undefined.
   */
  lemma {:induction false} RegisteredTwiceFails(
    channels: seq<u32>, events: seq<Event>, states: seq<State>, c: ClientRef, x: ClientRef, ids: ServiceIDs)
    requires IsRun(channels, events, states) && Careful(events, states)
    requires var d := states[|events|];
             && IsRegistered(d, c) && x != c && Listens(d, x)
             && Find(d.services, ids) == |d.services|
    ensures var e := ServiceRegisters(c, ids, true, None);
            var d := ClientRegister(states[|events|], c, ids, true, None);
            && Enabled(d, e) && IsRegistered(Step(d, e), c)
            && Replay(OutboxOf(Disconnect(Step(d, e), c), x)) == None
  {
    var e, d := ServiceRegisters(c, ids, true, None), states[|events|];
    assert Inv(d) by { RunKeepsInv(channels, events, states, |events|); }
    NewThenRepeats(d, c, ids, None);
    RunExtends(channels, events, states, e);
    var d1 := ClientRegister(d, c, ids, true, None);
    CarefulExtends(events, states, e, d1);
    assert (states + [d1])[|events| + 1] == d1;
    RegisterThenLeaveIff(channels, events + [e], states + [d1], |events| + 1, e, x);
  }

  /** With two clients, for instance. */
  lemma {:induction false} TwoClientsFail(channels: seq<u32>, ids: ServiceIDs)
    ensures Reachable(channels, TwoClients(channels)) && IsRegistered(TwoClients(channels), 0)
    ensures var e := ServiceRegisters(0, ids, true, None);
            var d := ClientRegister(TwoClients(channels), 0, ids, true, None);
            && Enabled(d, e) && IsRegistered(Step(d, e), 0)
            && Replay(OutboxOf(Disconnect(Step(d, e), 0), 1)) == None
  {
    TwoClientsRun(channels);
    var d := Start(channels);
    var events := [ClientConnects(0, true), ClientConnects(1, true)];
    var states := [d, Connect(d, 0, true), TwoClients(channels)];
    assert TwoClients(channels).listeners[3] == LocalListener(1);
    RegisteredTwiceFails(channels, events, states, 0, 1, ids);
  }

  // ---- A replica that is wrong and does not show it ----

  /** A client leaves whose only recorded service is no longer registered. */
  lemma {:induction false} StaleLeaves(d: State, c: ClientRef, k: ServiceKey, x: ClientRef)
    requires Inv(d) && HistoryInv(d) && IsRegistered(d, c) && d.clients[c].services == [k] && k !in Keys(d.services)
    requires x != c && Listens(d, x) && Told(d, x)
    ensures var r, ids := Disconnect(d, c), Ids(Keys(d.services));
            && Keys(r.services) == Keys(d.services)
            && Replay(OutboxOf(r, x)) == (if k.ids in ids then Some(RemoveFirst(ids, k.ids)) else None)
            && r.servers == if k.isLocal then Unbind(d.servers, k) else d.servers
  {
    var d2 := Muted(d, c);
    DisconnectOutcome(d, c);
    QuietView(d, d2, x);
    assert [k][1..] == [] && UnregisterAll(d2, [k]) == UnregisterService(d2, k);
    UnregisterLoses(d2, k);
    LostMisleads(d2, UnregisterService(d2, k), k, x);
  }
}
