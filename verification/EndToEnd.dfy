/**
 The registry's whole way as one machine: a daemon, the connection to one of its local
 clients, and that client's session. What the daemon tells the client is what is written to
 the connection, and what the connection delivers is what the client reads.
 */
module EndToEnd {
  import opened Bytes
  import opened SomeIp
  import opened Announcements
  import opened Endpoints
  import opened Daemon
  import opened DaemonInvariant
  import opened Lifecycle
  import opened Effects
  import opened Ownership
  import opened Replication
  import opened RegistryClient
  import IpcStream

  // ---- Outboxes only grow ----

  /** Only clients that have been there have been told anything. */
  ghost predicate OutboxInv(d: State) {
    forall c :: OutboxOf(d, c) != [] ==> c in d.clients || c in d.deleted
  }

  /** `r` has told `c` at least what `d` had, and more only if `c` was listening. */
  ghost predicate TellsMore(d: State, r: State, c: ClientRef) {
    && OutboxOf(d, c) <= OutboxOf(r, c)
    && (OutboxOf(r, c) != OutboxOf(d, c) ==> LocalListener(c) in d.listeners)
  }

  lemma {:induction false} LoseAllTells(d: State, keys: seq<ServiceKey>, c: ClientRef)
    requires ListenerShape(d.listeners)
    ensures TellsMore(d, UnregisterAll(d, keys), c)
    decreases |keys|
  {
    if keys != [] {
      var d1 := UnregisterService(d, keys[0]);
      UnregisterTells(d, keys[0], c);
      LoseAllTells(d1, keys[1..], c);
    }
  }

  lemma {:induction false} RegisterServiceTells(d: State, s: Service, init: Option<seq<EndPoint>>, c: ClientRef)
    requires ListenerShape(d.listeners)
    ensures TellsMore(d, RegisterService(d, s, init), c)
  {
    if Find(d.services, s.key.ids) == |d.services| {
      RegisterGains(d, s, init);
    }
  }

  lemma {:induction false} WellKnownTells(d: State, ids: ServiceIDs, init: Option<seq<EndPoint>>, c: ClientRef)
    requires ListenerShape(d.listeners)
    ensures TellsMore(d, RegisterWellKnown(d, ids, init), c)
  {
    var d1 := d.(nextHandle := d.nextHandle + 1);
    RegisterServiceTells(d1, Service(ServiceKey(d.nextHandle, ids, true), None), init, c);
  }

  lemma {:induction false} RegisterTells(
    d: State, x: ClientRef, ids: ServiceIDs, isLocal: bool, init: Option<seq<EndPoint>>, c: ClientRef)
    requires Inv(d) && IsRegistered(d, x)
    ensures TellsMore(d, ClientRegister(d, x, ids, isLocal, init), c)
  {
    var d1, r := TryRegister(d, x, ids, isLocal, init), ClientRegister(d, x, ids, isLocal, init);
    assert r.outbox == d1.outbox;
    if Find(d.services, ids) == |d.services| {
      var s := Service(ServiceKey(d.nextHandle, ids, isLocal), Some(x));
      RegisterServiceTells(d.(nextHandle := d.nextHandle + 1), s, init, c);
    } else {
      assert d1.outbox == d.outbox;
    }
  }

  lemma {:induction false} ClientUnregisterTells(d: State, x: ClientRef, ids: ServiceIDs, c: ClientRef)
    requires Inv(d) && IsRegistered(d, x)
    ensures TellsMore(d, ClientUnregister(d, x, ids), c)
  {
    var keys := d.clients[x].services;
    var i := FirstWith(keys, ids);
    if i < |keys| {
      UnregisterTells(d, keys[i], c);
      assert OutboxOf(ClientUnregister(d, x, ids), c) == OutboxOf(UnregisterService(d, keys[i]), c);
    }
  }

  lemma {:induction false} DisconnectTells(d: State, c: ClientRef, x: ClientRef)
    requires Inv(d) && IsRegistered(d, x)
    ensures TellsMore(d, Disconnect(d, x), c)
  {
    var d2, keys := Muted(d, x), d.clients[x].services;
    DisconnectOutcome(d, x);
    LoseAllTells(d2, keys, c);
    assert OutboxOf(d2, c) == OutboxOf(d, c);
    assert OutboxOf(Disconnect(d, x), c) == OutboxOf(UnregisterAll(d2, keys), c);
  }

  /** Everything but connecting tells more, if anything. */
  lemma {:induction false} StepTells(d: State, e: Event, c: ClientRef)
    requires Inv(d) && Enabled(d, e) && !e.ClientConnects?
    ensures TellsMore(d, Step(d, e), c)
  {
    match e
    case WellKnownRegisters(ids, init) => WellKnownTells(d, ids, init, c);
    case ServiceRegisters(x, ids, isLocal, init) => RegisterTells(d, x, ids, isLocal, init, c);
    case ServiceUnregisters(x, ids) => ClientUnregisterTells(d, x, ids, c);
    case ClientDisconnects(x) => DisconnectTells(d, c, x);
    case ClientSubscribes(_, _) =>
    case NotificationSent(_) =>
    case IdleCleanUp =>
    case AnnounceTimer =>
  }

  lemma {:induction false} StillKnown(d: State, e: Event, c: ClientRef)
    requires Inv(d) && Enabled(d, e) && (c in d.clients || c in d.deleted)
    ensures c in Step(d, e).clients || c in Step(d, e).deleted
  {
    StepProgress(d, e);
    assert Left(d, c) || IsRegistered(d, c);
  }

  /** What a client has been told is never taken back. */
  lemma {:induction false} OutboxGrows(d: State, e: Event, c: ClientRef)
    requires Inv(d) && OutboxInv(d) && Enabled(d, e)
    ensures OutboxOf(d, c) <= OutboxOf(Step(d, e), c)
  {
    if !e.ClientConnects? {
      StepTells(d, e, c);
    }
  }

  lemma {:induction false} StepKeepsOutbox(d: State, e: Event)
    requires Inv(d) && OutboxInv(d) && Enabled(d, e)
    ensures OutboxInv(Step(d, e))
  {
    var r := Step(d, e);
    forall c | OutboxOf(r, c) != [] ensures c in r.clients || c in r.deleted {
      if !e.ClientConnects? {
        StepTells(d, e, c);
        StillKnown(d, e, c);
      } else if OutboxOf(d, c) != [] {
        StillKnown(d, e, c);
      }
    }
  }

  // ---- The composed machine ----

  datatype World = World(daemon: State, link: IpcStream.Link, inbox: Inbox)

  function StartWorld(channels: seq<u32>): (w: World) {
    World(Start(channels), IpcStream.NewLink, NewInbox)
  }

  datatype Sends = Sends(first: IpcStream.SendOutcome, second: IpcStream.SendOutcome)

  datatype Happening =
    /** An event of the daemon; what it tells the client is written, with these results of `send`. */
    | DaemonActs(e: Event, sends: seq<Sends>)
    /** Any other message to the client: answers and SOME/IP messages. */
    | DaemonWrites(payload: bytes, sends': Sends)
    | DaemonFlushes(outcome: IpcStream.SendOutcome)
    | BytesArrive(chunks: seq<(nat, nat)>)
    /** The client reads what has been delivered to it, in order. */
    | ClientActs(a: Action)

  /** What an event of the daemon tells the client. */
  function News(d: State, e: Event, c: ClientRef): (ms: seq<RegistryMessage>)
    requires Enabled(d, e)
  {
    var before, after := OutboxOf(d, c), OutboxOf(Step(d, e), c);
    if |before| <= |after| then after[|before|..] else []
  }

  function WriteOf(order: ByteOrder, m: RegistryMessage, s: Sends): (e: IpcStream.Event) {
    IpcStream.Write(EncodeRegistry(order, m), s.first, s.second)
  }

  /** The connection takes the messages one after the other; only the last write may break it. */
  predicate CanWrite(order: ByteOrder, l: IpcStream.Link, ms: seq<RegistryMessage>, sends: seq<Sends>)
    requires IpcStream.ValidReader(order, l.reader)
    decreases |ms|
  {
    |ms| == |sends| &&
    (ms != [] ==>
       && IpcStream.Enabled(l, WriteOf(order, ms[0], sends[0]))
       && CanWrite(order, IpcStream.Step(order, l, WriteOf(order, ms[0], sends[0])), ms[1..], sends[1..]))
  }

  function WriteAll(order: ByteOrder, l: IpcStream.Link, ms: seq<RegistryMessage>, sends: seq<Sends>)
    : (l': IpcStream.Link)
    requires IpcStream.ValidReader(order, l.reader) && CanWrite(order, l, ms, sends)
    ensures l'.reader == l.reader && l'.delivered == l.delivered
    decreases |ms|
  {
    if ms == [] then l else WriteAll(order, IpcStream.Step(order, l, WriteOf(order, ms[0], sends[0])), ms[1..], sends[1..])
  }

  predicate CanHappen(order: ByteOrder, c: ClientRef, w: World, h: Happening) {
    && IpcStream.ValidReader(order, w.link.reader)
    && match h
       case DaemonActs(e, sends) => Enabled(w.daemon, e) && CanWrite(order, w.link, News(w.daemon, e, c), sends)
       case DaemonWrites(payload, s) =>
         DecodeRegistry(order, payload) == None && IpcStream.Enabled(w.link, IpcStream.Write(payload, s.first, s.second))
       case DaemonFlushes(outcome) => IpcStream.Enabled(w.link, IpcStream.Flush(outcome))
       case BytesArrive(_) => true
       case ClientActs(a) =>
         Possible(w.inbox, a) &&
         (Reads(a) ==> |w.inbox.read| < |w.link.delivered| && a.m == w.link.delivered[|w.inbox.read|])
  }

  function Next(order: ByteOrder, c: ClientRef, w: World, h: Happening): (w': World)
    requires CanHappen(order, c, w, h)
  {
    match h
    case DaemonActs(e, sends) =>
      w.(daemon := Step(w.daemon, e), link := WriteAll(order, w.link, News(w.daemon, e, c), sends))
    case DaemonWrites(payload, s) =>
      w.(link := IpcStream.Step(order, w.link, IpcStream.Write(payload, s.first, s.second)))
    case DaemonFlushes(outcome) => w.(link := IpcStream.Step(order, w.link, IpcStream.Flush(outcome)))
    case BytesArrive(chunks) => w.(link := IpcStream.Step(order, w.link, IpcStream.Receive(chunks)))
    case ClientActs(a) => w.(inbox := Act(order, w.inbox, a))
  }

  ghost predicate IsHistory(
    order: ByteOrder, c: ClientRef, channels: seq<u32>, happenings: seq<Happening>, worlds: seq<World>)
  {
    && |worlds| == |happenings| + 1 && worlds[0] == StartWorld(channels)
    && forall i {:trigger happenings[i]} | 0 <= i < |happenings| ::
         CanHappen(order, c, worlds[i], happenings[i]) && worlds[i + 1] == Next(order, c, worlds[i], happenings[i])
  }

  // ---- What every history keeps ----

  ghost predicate AllFromDaemon(order: ByteOrder, messages: seq<bytes>) {
    forall m | m in messages :: FromDaemon(order, m)
  }

  /** The three machines agree: what was written about the registry is the outbox, what was read was delivered. */
  ghost predicate Joined(order: ByteOrder, c: ClientRef, w: World) {
    && Registry(order, w.link.written) == OutboxOf(w.daemon, c)
    && AllFromDaemon(order, w.link.written)
    && w.inbox.read <= w.link.delivered
  }

  ghost predicate Sane(order: ByteOrder, w: World) {
    Inv(w.daemon) && OutboxInv(w.daemon) && IpcStream.Waiting(order, w.link.reader) && CounterInv(w.inbox)
  }

  lemma {:induction false} OneWritten(order: ByteOrder, written: seq<bytes>, m: RegistryMessage)
    requires AllFromDaemon(order, written)
    ensures Registry(order, written + [EncodeRegistry(order, m)]) == Registry(order, written) + [m]
    ensures AllFromDaemon(order, written + [EncodeRegistry(order, m)])
  {
    RegistryRoundTrip(order, m);
    RegistryOne(order, written, EncodeRegistry(order, m));
  }

  /** Writing the messages adds just them to the registry messages of the stream. */
  lemma {:induction false} WriteAllWrites(order: ByteOrder, l: IpcStream.Link, ms: seq<RegistryMessage>, sends: seq<Sends>)
    requires IpcStream.ValidReader(order, l.reader) && CanWrite(order, l, ms, sends)
    requires AllFromDaemon(order, l.written)
    ensures var l' := WriteAll(order, l, ms, sends);
            Registry(order, l'.written) == Registry(order, l.written) + ms && AllFromDaemon(order, l'.written)
    decreases |ms|
  {
    if ms == [] {
      assert Registry(order, l.written) + [] == Registry(order, l.written);
    } else {
      var l1 := IpcStream.Step(order, l, WriteOf(order, ms[0], sends[0]));
      assert l1.written == l.written + [EncodeRegistry(order, ms[0])];
      OneWritten(order, l.written, ms[0]);
      WriteAllWrites(order, l1, ms[1..], sends[1..]);
      Rejoined(Registry(order, l.written), ms);
    }
  }

  lemma {:induction false} Rejoined(a: seq<RegistryMessage>, ms: seq<RegistryMessage>)
    requires ms != []
    ensures a + [ms[0]] + ms[1..] == a + ms
  {
  }

  lemma {:induction false} NewsIsGrowth(d: State, e: Event, c: ClientRef)
    requires Inv(d) && OutboxInv(d) && Enabled(d, e)
    ensures OutboxOf(Step(d, e), c) == OutboxOf(d, c) + News(d, e, c)
  {
    OutboxGrows(d, e, c);
  }

  lemma {:induction false} NextSane(order: ByteOrder, c: ClientRef, w: World, h: Happening)
    requires Sane(order, w) && CanHappen(order, c, w, h)
    ensures Sane(order, Next(order, c, w, h))
  {
    match h
    case DaemonActs(e, sends) =>
      StepKeepsInv(w.daemon, e);
      StepKeepsOutbox(w.daemon, e);
    case DaemonWrites(payload, s) =>
    case DaemonFlushes(outcome) =>
    case BytesArrive(chunks) => IpcStream.ReceiveKeepsSocket(order, w.link, chunks);
    case ClientActs(a) => ActCounts(order, w.inbox, a);
  }

  lemma {:induction false} NextJoined(order: ByteOrder, c: ClientRef, w: World, h: Happening)
    requires Sane(order, w) && Joined(order, c, w) && CanHappen(order, c, w, h)
    ensures Joined(order, c, Next(order, c, w, h))
  {
    match h
    case DaemonActs(e, sends) =>
      WriteAllWrites(order, w.link, News(w.daemon, e, c), sends);
      NewsIsGrowth(w.daemon, e, c);
    case DaemonWrites(payload, s) => RegistryOne(order, w.link.written, payload);
    case DaemonFlushes(outcome) =>
    case BytesArrive(chunks) =>
    case ClientActs(a) =>
      assert Reads(a) ==> w.inbox.read + [a.m] <= w.link.delivered;
  }

  lemma {:induction false} StartJoined(order: ByteOrder, c: ClientRef, channels: seq<u32>)
    ensures Sane(order, StartWorld(channels)) && Joined(order, c, StartWorld(channels))
  {
    StartSane(order, channels);
    assert OutboxOf(Start(channels), c) == [];
  }

  lemma {:induction false} StartSane(order: ByteOrder, channels: seq<u32>)
    ensures Sane(order, StartWorld(channels))
  {
    assert Inv(Start(channels)) by { StartInv(channels); }
    IpcStream.NewReaderWaits(order);
  }

  /** In every history, without any assumption, the three machines agree at every moment. */
  lemma {:induction false} HistoryJoined(
    order: ByteOrder, c: ClientRef, channels: seq<u32>, happenings: seq<Happening>, worlds: seq<World>, n: nat)
    requires IsHistory(order, c, channels, happenings, worlds) && n < |worlds|
    ensures Sane(order, worlds[n]) && Joined(order, c, worlds[n])
  {
    if n == 0 {
      StartJoined(order, c, channels);
    } else {
      HistoryJoined(order, c, channels, happenings, worlds, n - 1);
      NextSane(order, c, worlds[n - 1], happenings[n - 1]);
      NextJoined(order, c, worlds[n - 1], happenings[n - 1]);
    }
  }

  // ---- Undisturbed histories ----

  predicate GoodSends(s: Sends) {
    s.first != IpcStream.BadDescriptor && s.second != IpcStream.BadDescriptor
  }

  /**
   The client does not hear of an unregistration that misses, no `send` fails with EBADF, and
   no news are read while the request numbered zero waits.
   */
  ghost predicate Undisturbed(order: ByteOrder, c: ClientRef, w: World, h: Happening) {
    match h
    case DaemonActs(e, sends) =>
      !(Listens(w.daemon, c) && Misses(w.daemon, e)) && forall i | 0 <= i < |sends| :: GoodSends(sends[i])
    case DaemonWrites(_, s) => GoodSends(s)
    case DaemonFlushes(outcome) => outcome != IpcStream.BadDescriptor
    case BytesArrive(_) => true
    case ClientActs(a) => !ZeroTakes(order, w.inbox, a)
  }

  ghost predicate AllUndisturbed(order: ByteOrder, c: ClientRef, happenings: seq<Happening>, worlds: seq<World>, n: nat)
    requires n <= |happenings| <= |worlds|
  {
    forall i {:trigger happenings[i]} | 0 <= i < n :: Undisturbed(order, c, worlds[i], happenings[i])
  }

  ghost predicate Healthy(order: ByteOrder, c: ClientRef, w: World) {
    && HistoryInv(w.daemon) && (Listens(w.daemon, c) ==> Told(w.daemon, c))
    && IpcStream.Conserved(order, w.link) && KeepsRegistry(order, w.inbox)
  }

  lemma {:induction false} WriteAllConserves(
    order: ByteOrder, l: IpcStream.Link, ms: seq<RegistryMessage>, sends: seq<Sends>)
    requires IpcStream.Conserved(order, l) && CanWrite(order, l, ms, sends)
    requires forall i | 0 <= i < |sends| :: GoodSends(sends[i])
    ensures IpcStream.Conserved(order, WriteAll(order, l, ms, sends))
    decreases |ms|
  {
    if ms != [] {
      assert GoodSends(sends[0]);
      IpcStream.StepConserves(order, l, WriteOf(order, ms[0], sends[0]));
      WriteAllConserves(order, IpcStream.Step(order, l, WriteOf(order, ms[0], sends[0])), ms[1..], sends[1..]);
    }
  }

  lemma {:induction false} ClientHealthy(order: ByteOrder, c: ClientRef, w: World, a: Action)
    requires Joined(order, c, w) && Healthy(order, c, w) && CanHappen(order, c, w, ClientActs(a))
    requires !ZeroTakes(order, w.inbox, a)
    ensures Healthy(order, c, Next(order, c, w, ClientActs(a)))
  {
    if Reads(a) {
      IpcStream.ConservedDelivery(order, w.link);
      assert a.m == w.link.written[|w.inbox.read|] && a.m in w.link.written;
    }
    HarmlessExactly(order, w.inbox, a);
    ActKeepsRegistryIff(order, w.inbox, a);
  }

  lemma {:induction false} DaemonHealthy(d: State, e: Event, c: ClientRef)
    requires Inv(d) && Enabled(d, e) && HistoryInv(d) && (Listens(d, c) ==> Told(d, c) && !Misses(d, e))
    ensures HistoryInv(Step(d, e)) && (Listens(Step(d, e), c) ==> Told(Step(d, e), c))
  {
    StepKeepsHistory(d, e);
    if Listens(Step(d, e), c) {
      if Listens(d, c) {
        StepTold(d, e, c);
      } else {
        NewListenerTold(d, e, c);
      }
    }
  }

  lemma {:induction false} NextHealthy(order: ByteOrder, c: ClientRef, w: World, h: Happening)
    requires Sane(order, w) && Joined(order, c, w) && Healthy(order, c, w)
    requires CanHappen(order, c, w, h) && Undisturbed(order, c, w, h)
    ensures Healthy(order, c, Next(order, c, w, h))
  {
    match h
    case DaemonActs(e, sends) =>
      DaemonHealthy(w.daemon, e, c);
      WriteAllConserves(order, w.link, News(w.daemon, e, c), sends);
    case DaemonWrites(payload, s) =>
      IpcStream.StepConserves(order, w.link, IpcStream.Write(payload, s.first, s.second));
    case DaemonFlushes(outcome) => IpcStream.StepConserves(order, w.link, IpcStream.Flush(outcome));
    case BytesArrive(chunks) => IpcStream.StepConserves(order, w.link, IpcStream.Receive(chunks));
    case ClientActs(a) => ClientHealthy(order, c, w, a);
  }

  lemma {:induction false} StartHealthy(order: ByteOrder, c: ClientRef, channels: seq<u32>)
    ensures Healthy(order, c, StartWorld(channels))
  {
    IpcStream.NewReaderWaits(order);
    NewInboxKeeps(order);
    assert Keys([]) == [];
  }

  lemma {:induction false} HistoryHealthy(
    order: ByteOrder, c: ClientRef, channels: seq<u32>, happenings: seq<Happening>, worlds: seq<World>, n: nat)
    requires IsHistory(order, c, channels, happenings, worlds) && n < |worlds|
    requires AllUndisturbed(order, c, happenings, worlds, n)
    ensures Healthy(order, c, worlds[n])
  {
    if n == 0 {
      StartHealthy(order, c, channels);
    } else {
      HistoryHealthy(order, c, channels, happenings, worlds, n - 1);
      HistoryJoined(order, c, channels, happenings, worlds, n - 1);
      NextHealthy(order, c, worlds[n - 1], happenings[n - 1]);
    }
  }

  // ---- The theorem ----

  /** What the client has handled about the registry is the beginning of what it was told. */
  lemma {:induction false} HandledIsPrefix(order: ByteOrder, c: ClientRef, w: World)
    requires Joined(order, c, w) && Healthy(order, c, w)
    ensures Registry(order, w.inbox.handled) <= OutboxOf(w.daemon, c)
    ensures w.link.writer.connected && w.link.inFlight == [] && w.link.writer.pending == [] &&
            w.inbox.read == w.link.delivered && w.inbox.queue == [] ==>
            Registry(order, w.inbox.handled) == OutboxOf(w.daemon, c)
  {
    var b, l := w.inbox, w.link;
    IpcStream.ConservedDelivery(order, l);
    RegistryAppend(order, b.handled, b.queue);
    RegistryPrefix(order, b.read, l.delivered);
    RegistryPrefix(order, l.delivered, l.written);
    if b.queue == [] {
      assert b.handled + b.queue == b.handled;
    }
  }

  lemma {:induction false} PrefixReplays(d: State, c: ClientRef, mine: seq<RegistryMessage>)
    requires HistoryInv(d) && Told(d, c) && mine <= OutboxOf(d, c)
    ensures var box, history := OutboxOf(d, c), d.history;
            && |box| <= |history|
            && Replay(mine) == (if mine == [] then Some([]) else Some(Ids(history[|history| - |box| + |mine| - 1])))
            && (mine == box ==> Replay(mine) == Some(Ids(Keys(d.services))))
  {
    assert mine == OutboxOf(d, c)[..|mine|];
    if mine != [] {
      FollowsAt(OutboxOf(d, c), d.history, |mine|);
    }
  }

  /**
   What the client has handled makes its replica the dispatcher's service list of a past moment,
   in the same order; once everything written has been delivered, read and handled, it is the
   current list.
   */
  ghost predicate ReplicaIsPast(order: ByteOrder, c: ClientRef, w: World) {
    var box, history := OutboxOf(w.daemon, c), w.daemon.history;
    var mine := Registry(order, w.inbox.handled);
    && |mine| <= |box| <= |history|
    && Replay(mine) == (if mine == [] then Some([]) else Some(Ids(history[|history| - |box| + |mine| - 1])))
    && (w.link.writer.connected && w.link.inFlight == [] && w.link.writer.pending == [] &&
        w.inbox.read == w.link.delivered && w.inbox.queue == [] ==>
        Replay(mine) == Some(Ids(Keys(w.daemon.services))))
  }

  lemma {:induction false} HealthyReplica(order: ByteOrder, c: ClientRef, w: World)
    requires HistoryInv(w.daemon) && Told(w.daemon, c) && Joined(order, c, w) && Healthy(order, c, w)
    ensures ReplicaIsPast(order, c, w)
  {
    HandledIsPrefix(order, c, w);
    PrefixIsPast(order, c, w);
  }

  lemma {:induction false} PrefixIsPast(order: ByteOrder, c: ClientRef, w: World)
    requires HistoryInv(w.daemon) && Told(w.daemon, c) && Registry(order, w.inbox.handled) <= OutboxOf(w.daemon, c)
    requires w.link.writer.connected && w.link.inFlight == [] && w.link.writer.pending == [] &&
             w.inbox.read == w.link.delivered && w.inbox.queue == [] ==>
             Registry(order, w.inbox.handled) == OutboxOf(w.daemon, c)
    ensures ReplicaIsPast(order, c, w)
  {
    PrefixReplays(w.daemon, c, Registry(order, w.inbox.handled));
  }

  lemma {:induction false} ListensHere(order: ByteOrder, c: ClientRef, w: World)
    requires Sane(order, w) && IsRegistered(w.daemon, c) && w.daemon.clients[c].isLocal
    ensures Listens(w.daemon, c)
  {
  }

  /**
   From the dispatcher to the replica, in every undisturbed history: the replica of a connected
   local client is the dispatcher's service list of a past moment, and the current one once
   everything has been handled.
   */
  lemma {:induction false} ReplicaEndToEnd(
    order: ByteOrder, c: ClientRef, channels: seq<u32>, happenings: seq<Happening>, worlds: seq<World>, n: nat)
    requires IsHistory(order, c, channels, happenings, worlds) && n < |worlds|
    requires AllUndisturbed(order, c, happenings, worlds, n)
    requires IsRegistered(worlds[n].daemon, c) && worlds[n].daemon.clients[c].isLocal
    ensures ReplicaIsPast(order, c, worlds[n])
  {
    HistoryJoined(order, c, channels, happenings, worlds, n);
    HistoryHealthy(order, c, channels, happenings, worlds, n);
    ListensHere(order, c, worlds[n]);
    HealthyReplica(order, c, worlds[n]);
  }
}
