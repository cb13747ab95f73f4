/**
 Who gets a notification (lib/Dispatcher.cpp, lib/Client.cpp), told from the subscriptions that
 clients have made.
 */
module Notifications {
  import opened Bytes
  import opened SomeIp
  import opened Lists
  import opened Announcements
  import opened Endpoints
  import opened Daemon
  import opened DaemonInvariant
  import opened Lifecycle
  import opened Routing

  /** How many of the recorded subscriptions are to this member. */
  function ToMember(subscriptions: seq<nat>, notifications: seq<Notification>, member: MemberIDs): (n: nat) {
    if subscriptions == [] then 0
    else
      var i := subscriptions[|subscriptions| - 1];
      ToMember(subscriptions[..|subscriptions| - 1], notifications, member) +
      if i < |notifications| && notifications[i].member == member then 1 else 0
  }

  /** How often a client has recorded a subscription to this member. */
  function Recorded(d: State, c: ClientRef, member: MemberIDs): (n: nat) {
    if IsRegistered(d, c) then ToMember(d.clients[c].subscriptions, d.notifications, member) else 0
  }

  // ---- What one event records ----

  lemma {:induction false} ToMemberAppend(
    subscriptions: seq<nat>, i: nat, notifications: seq<Notification>, member: MemberIDs)
    ensures ToMember(subscriptions + [i], notifications, member) ==
            ToMember(subscriptions, notifications, member) +
            if i < |notifications| && notifications[i].member == member then 1 else 0
  {
    assert (subscriptions + [i])[..|subscriptions|] == subscriptions;
  }

  /** The notifications there were are still there. */
  ghost predicate MembersStay(a: seq<Notification>, b: seq<Notification>) {
    |a| <= |b| && forall i | 0 <= i < |a| :: b[i].member == a[i].member
  }

  lemma {:induction false} ToMemberStays(
    subscriptions: seq<nat>, a: seq<Notification>, b: seq<Notification>, member: MemberIDs)
    requires MembersStay(a, b) && forall i | i in subscriptions :: i < |a|
    ensures ToMember(subscriptions, b, member) == ToMember(subscriptions, a, member)
  {
    if subscriptions != [] {
      var last := |subscriptions| - 1;
      assert subscriptions[last] in subscriptions && forall i | i in subscriptions[..last] :: i in subscriptions;
      ToMemberStays(subscriptions[..last], a, b, member);
    }
  }

  /** A client whose list does not change has recorded what it had. */
  lemma {:induction false} RecordedStays(d: State, r: State, c: ClientRef, member: MemberIDs)
    requires SubscriptionInv(d) && MembersStay(d.notifications, r.notifications) && IsRegistered(d, c) && IsRegistered(r, c)
    requires r.clients[c].subscriptions == d.clients[c].subscriptions
    ensures Recorded(r, c, member) == Recorded(d, c, member)
  {
    ToMemberStays(d.clients[c].subscriptions, d.notifications, r.notifications, member);
  }

  lemma {:induction false} SubscribeRecords(d: State, x: ClientRef, m: MemberIDs, c: ClientRef, member: MemberIDs)
    requires Inv(d) && IsRegistered(d, x) && IsRegistered(d, c)
    ensures Recorded(Subscribe(d, x, m), c, member) == Recorded(d, c, member) + if x == c && m == member then 1 else 0
  {
    var r := Subscribe(d, x, m);
    assert MembersStay(d.notifications, r.notifications);
    if x == c {
      var subscriptions, i := d.clients[c].subscriptions, FindNotification(d.notifications, m);
      ToMemberStays(subscriptions, d.notifications, r.notifications, member);
      ToMemberAppend(subscriptions, i, r.notifications, member);
      assert r.notifications[i].member == m;
    } else {
      RecordedStays(d, r, c, member);
    }
  }

  lemma {:induction false} DisconnectRecords(d: State, x: ClientRef, c: ClientRef, member: MemberIDs)
    requires Inv(d) && IsRegistered(d, x) && IsRegistered(d, c) && c != x
    ensures Recorded(Disconnect(d, x), c, member) == Recorded(d, c, member)
  {
    DisconnectGone(d, x);
    RecordedStays(d, Disconnect(d, x), c, member);
  }

  /** A registration or unregistration of a service leaves members and lists of subscriptions alone. */
  ghost predicate SameRecords(d: State, r: State) {
    && MembersStay(d.notifications, r.notifications) && r.clients.Keys == d.clients.Keys
    && forall c | c in d.clients ::
         r.clients[c].registered == d.clients[c].registered && r.clients[c].subscriptions == d.clients[c].subscriptions
  }

  lemma {:induction false} ServiceRecords(d: State, s: Service, init: Option<seq<EndPoint>>)
    ensures SameRecords(d, RegisterService(d, s, init)) && RegisterService(d, s, init).clients == d.clients
  {
  }

  lemma {:induction false} ClientRegisterRecords(
    d: State, x: ClientRef, ids: ServiceIDs, isLocal: bool, init: Option<seq<EndPoint>>)
    requires x in d.clients
    ensures SameRecords(d, ClientRegister(d, x, ids, isLocal, init))
  {
    var d1 := d.(nextHandle := d.nextHandle + 1);
    ServiceRecords(d1, Service(ServiceKey(d.nextHandle, ids, isLocal), Some(x)), init);
    var r := TryRegister(d, x, ids, isLocal, init);
    assert SameRecords(d, r) && r.clients == d.clients;
  }

  lemma {:induction false} ClientUnregisterRecords(d: State, x: ClientRef, ids: ServiceIDs)
    requires x in d.clients
    ensures SameRecords(d, ClientUnregister(d, x, ids))
  {
  }

  lemma {:induction false} SameRecorded(d: State, r: State, c: ClientRef, member: MemberIDs)
    requires SubscriptionInv(d) && SameRecords(d, r) && IsRegistered(d, c)
    ensures IsRegistered(r, c) && Recorded(r, c, member) == Recorded(d, c, member)
  {
    assert c in r.clients.Keys;
    RecordedStays(d, r, c, member);
  }

  lemma {:induction false} RegistryRecords(d: State, e: Event, c: ClientRef, member: MemberIDs)
    requires Inv(d) && Enabled(d, e) && IsRegistered(d, c)
    requires e.WellKnownRegisters? || e.ServiceRegisters? || e.ServiceUnregisters?
    ensures Recorded(Step(d, e), c, member) == Recorded(d, c, member)
  {
    match e
    case WellKnownRegisters(ids, init) =>
      ServiceRecords(d.(nextHandle := d.nextHandle + 1), Service(ServiceKey(d.nextHandle, ids, true), None), init);
      SameRecorded(d, RegisterWellKnown(d, ids, init), c, member);
    case ServiceRegisters(x, ids, isLocal, init) =>
      ClientRegisterRecords(d, x, ids, isLocal, init);
      SameRecorded(d, ClientRegister(d, x, ids, isLocal, init), c, member);
    case ServiceUnregisters(x, ids) =>
      ClientUnregisterRecords(d, x, ids);
      SameRecorded(d, ClientUnregister(d, x, ids), c, member);
  }

  /** Every event, for a client that is registered before and after. */
  lemma {:induction false} StepRecords(d: State, e: Event, c: ClientRef, member: MemberIDs)
    requires Inv(d) && Enabled(d, e) && IsRegistered(d, c) && IsRegistered(Step(d, e), c)
    ensures Recorded(Step(d, e), c, member) ==
            Recorded(d, c, member) + if e == ClientSubscribes(c, member) then 1 else 0
  {
    match e
    case ClientConnects(x, isLocal) => RecordedStays(d, Connect(d, x, isLocal), c, member);
    case ClientSubscribes(x, m) => SubscribeRecords(d, x, m, c, member);
    case NotificationSent(m) => RecordedStays(d, WithNotification(d, m), c, member);
    case ClientDisconnects(x) =>
      DisconnectGone(d, x);
      DisconnectRecords(d, x, c, member);
    case IdleCleanUp => RecordedStays(d, CleanUp(d), c, member);
    case AnnounceTimer => RecordedStays(d, AnnounceAgain(d, 0), c, member);
    case _ => RegistryRecords(d, e, c, member);
  }

  // ---- Runs ----

  /** How often a client has subscribed to the member in the first `n` events. */
  function Subscriptions(events: seq<Event>, n: nat, c: ClientRef, member: MemberIDs): (k: nat)
    requires n <= |events|
  {
    if n == 0 then 0
    else Subscriptions(events, n - 1, c, member) + if events[n - 1] == ClientSubscribes(c, member) then 1 else 0
  }

  lemma {:induction false} NoSubscriptions(events: seq<Event>, n: nat, c: ClientRef, member: MemberIDs)
    requires n <= |events| && forall i | 0 <= i < n :: events[i] != ClientSubscribes(c, member)
    ensures Subscriptions(events, n, c, member) == 0
  {
    if n > 0 {
      NoSubscriptions(events, n - 1, c, member);
    }
  }

  /** A client that was not registered a moment ago is new, and has done nothing yet. */
  lemma {:induction false} NewClient(d: State, e: Event, c: ClientRef, member: MemberIDs)
    requires Inv(d) && Enabled(d, e) && !IsRegistered(d, c) && IsRegistered(Step(d, e), c)
    ensures e.ClientConnects? && e.c == c && Recorded(Step(d, e), c, member) == 0
  {
    match e
    case ServiceRegisters(x, ids, isLocal, init) => ClientRegisterProgress(d, x, ids, isLocal, init);
    case ServiceUnregisters(x, ids) => UnregisterProgress(d, x, ids);
    case ClientDisconnects(x) => DisconnectGone(d, x);
    case WellKnownRegisters(ids, init) => WellKnownProgress(d, ids, init);
    case _ =>
  }

  lemma {:induction false} NewClientDidNothing(
    channels: seq<u32>, events: seq<Event>, states: seq<State>, n: nat, c: ClientRef, member: MemberIDs)
    requires IsRun(channels, events, states) && n < |events| && events[n].ClientConnects? && events[n].c == c
    ensures Subscriptions(events, n, c, member) == 0
  {
    forall i | 0 <= i < n ensures events[i] != ClientSubscribes(c, member) {
      if events[i] == ClientSubscribes(c, member) {
        RunProgress(channels, events, states, i, n);
      }
    }
    NoSubscriptions(events, n, c, member);
  }

  /** In every run a registered client has recorded exactly the subscriptions it has made. */
  lemma {:induction false} RecordedExactly(
    channels: seq<u32>, events: seq<Event>, states: seq<State>, n: nat, c: ClientRef, member: MemberIDs)
    requires IsRun(channels, events, states) && n < |states| && IsRegistered(states[n], c)
    ensures Recorded(states[n], c, member) == Subscriptions(events, n, c, member)
  {
    assert n > 0;
    var d, e := states[n - 1], events[n - 1];
    assert Inv(d) by { RunKeepsInv(channels, events, states, n - 1); }
    if IsRegistered(d, c) {
      RecordedExactly(channels, events, states, n - 1, c, member);
      StepRecords(d, e, c, member);
    } else {
      NewClient(d, e, c, member);
      NewClientDidNothing(channels, events, states, n - 1, c, member);
    }
  }

  // ---- Deliveries ----

  /** The recorded subscriptions to a notification are those to its member. */
  lemma {:induction false} ToMemberIsCount(
    subscriptions: seq<nat>, notifications: seq<Notification>, member: MemberIDs, i: nat)
    requires DistinctMembers(notifications) && i < |notifications| && notifications[i].member == member
    ensures ToMember(subscriptions, notifications, member) == Count(subscriptions, i)
  {
    if subscriptions != [] {
      var last := |subscriptions| - 1;
      ToMemberIsCount(subscriptions[..last], notifications, member, i);
      CountAppend(subscriptions[..last], subscriptions[last], i);
      assert subscriptions == subscriptions[..last] + [subscriptions[last]];
    }
  }

  lemma {:induction false} ToMemberNone(subscriptions: seq<nat>, notifications: seq<Notification>, member: MemberIDs)
    requires forall i | 0 <= i < |notifications| :: notifications[i].member != member
    ensures ToMember(subscriptions, notifications, member) == 0
  {
    if subscriptions != [] {
      ToMemberNone(subscriptions[..|subscriptions| - 1], notifications, member);
    }
  }

  /** How many deliveries a client gets, from what it has recorded. */
  lemma {:induction false} DeliveriesTo(d: State, m: Msg, from: ClientRef, id: u16, c: ClientRef)
    requires Inv(d) && m.header.messageType == NOTIFICATION && m.header.messageID != SERVICE_DISCOVERY
    ensures Count(Dispatch(d, m, from, id), ToClient(c, m)) == Recorded(d, c, MemberOf(m))
  {
    var i, member := FindNotification(d.notifications, MemberOf(m)), MemberOf(m);
    if i < |d.notifications| {
      var subscribers := d.notifications[i].subscribers;
      SubscriberCount(subscribers, m, c);
      if IsRegistered(d, c) {
        assert Agree(d, c, i);
        ToMemberIsCount(d.clients[c].subscriptions, d.notifications, member, i);
      } else {
        CountIn(subscribers, c);
      }
    } else if IsRegistered(d, c) {
      ToMemberNone(d.clients[c].subscriptions, d.notifications, member);
    }
  }

  /** Every delivery is the message itself, to a registered client. */
  lemma {:induction false} DeliveriesAre(d: State, m: Msg, from: ClientRef, id: u16, k: nat)
    requires Inv(d) && m.header.messageType == NOTIFICATION && m.header.messageID != SERVICE_DISCOVERY
    requires k < |Dispatch(d, m, from, id)|
    ensures var x := Dispatch(d, m, from, id)[k];
            x.ToClient? && x.m == m && IsRegistered(d, x.c)
  {
    var i := FindNotification(d.notifications, MemberOf(m));
    assert d.notifications[i].subscribers[k] in d.notifications[i].subscribers;
  }

  /** Counts of all clients in the table, added up. */
  function Total(table: seq<Option<ClientRef>>, list: seq<ClientRef>): (n: nat) {
    if table == [] then 0
    else
      var last := table[|table| - 1];
      Total(table[..|table| - 1], list) + if last.Some? then Count(list, last.value) else 0
  }

  lemma {:induction false} TotalAppend(table: seq<Option<ClientRef>>, list: seq<ClientRef>, c: ClientRef)
    ensures Total(table, list + [c]) == Total(table, list) + Count(table, Some(c))
  {
    if table != [] {
      var rest, last := table[..|table| - 1], table[|table| - 1];
      TotalAppend(rest, list, c);
      CountAppend(rest, last, Some(c));
      assert table == rest + [last];
      if last.Some? {
        CountAppend(list, c, last.value);
      }
    }
  }

  lemma {:induction false} TotalEmpty(table: seq<Option<ClientRef>>)
    ensures Total(table, []) == 0
  {
    if table != [] {
      TotalEmpty(table[..|table| - 1]);
    }
  }

  /** When everyone on the list is in the table once, the counts add up to the length of the list. */
  lemma {:induction false} TotalIsLength(table: seq<Option<ClientRef>>, list: seq<ClientRef>)
    requires forall c | c in list :: Count(table, Some(c)) == 1
    ensures Total(table, list) == |list|
  {
    if list == [] {
      TotalEmpty(table);
    } else {
      var rest, c := list[..|list| - 1], list[|list| - 1];
      assert c in list && forall x | x in rest :: x in list;
      TotalIsLength(table, rest);
      TotalAppend(table, rest, c);
      assert list == rest + [c];
    }
  }

  lemma {:induction false} OnceInTable(d: State, c: ClientRef)
    requires TableInv(d) && IsRegistered(d, c)
    ensures Count(d.table, Some(c)) == 1
  {
    CountOnce(d.table, Some(c), d.clients[c].id);
  }

  lemma {:induction false} CountOnce<T>(s: seq<T>, x: T, i: nat)
    requires i < |s| && s[i] == x && forall j | 0 <= j < |s| && s[j] == x :: j == i
    ensures Count(s, x) == 1
  {
    CountIn(s[1..], x);
    if i == 0 {
      assert x !in s[1..];
    } else {
      CountOnce(s[1..], x, i - 1);
    }
  }

  /** The subscriptions that the clients in the table have made so far. */
  function AllSubscriptions(table: seq<Option<ClientRef>>, events: seq<Event>, n: nat, member: MemberIDs): (k: nat)
    requires n <= |events|
  {
    if table == [] then 0
    else
      var last := table[|table| - 1];
      AllSubscriptions(table[..|table| - 1], events, n, member) +
      if last.Some? then Subscriptions(events, n, last.value, member) else 0
  }

  lemma {:induction false} TotalIsAll(
    table: seq<Option<ClientRef>>, list: seq<ClientRef>, events: seq<Event>, n: nat, member: MemberIDs)
    requires n <= |events|
    requires forall c: ClientRef | Some(c) in table :: Count(list, c) == Subscriptions(events, n, c, member)
    ensures Total(table, list) == AllSubscriptions(table, events, n, member)
  {
    if table != [] {
      var rest := table[..|table| - 1];
      assert table[|table| - 1] in table && forall x | x in rest :: x in table;
      TotalIsAll(rest, list, events, n, member);
    }
  }

  /** The receivers of what the dispatcher sends. */
  function Receivers(sent: seq<Delivery>): (list: seq<ClientRef>) {
    if sent == [] then []
    else Receivers(sent[..|sent| - 1]) + if sent[|sent| - 1].ToClient? then [sent[|sent| - 1].c] else []
  }

  lemma {:induction false} ReceiversAre(sent: seq<Delivery>, m: Msg, c: ClientRef)
    requires forall k | 0 <= k < |sent| :: sent[k].ToClient? && sent[k].m == m
    ensures |Receivers(sent)| == |sent| && Count(Receivers(sent), c) == Count(sent, ToClient(c, m))
    ensures forall k | 0 <= k < |sent| :: Receivers(sent)[k] == sent[k].c
  {
    if sent != [] {
      var rest, last := sent[..|sent| - 1], sent[|sent| - 1];
      ReceiversAre(rest, m, c);
      CountAppend(rest, last, ToClient(c, m));
      CountAppend(Receivers(rest), last.c, c);
      assert sent == rest + [last];
    }
  }

  /** The state's side of the theorem below. */
  lemma {:induction false} DeliveriesInAll(
    d: State, m: Msg, from: ClientRef, id: u16, events: seq<Event>, n: nat)
    requires Inv(d) && m.header.messageType == NOTIFICATION && m.header.messageID != SERVICE_DISCOVERY && n <= |events|
    requires forall c | IsRegistered(d, c) :: Recorded(d, c, MemberOf(m)) == Subscriptions(events, n, c, MemberOf(m))
    ensures |Dispatch(d, m, from, id)| == AllSubscriptions(d.table, events, n, MemberOf(m))
  {
    var sent := Dispatch(d, m, from, id);
    var list := Receivers(sent);
    forall k | 0 <= k < |sent| ensures sent[k].ToClient? && sent[k].m == m && IsRegistered(d, sent[k].c) {
      DeliveriesAre(d, m, from, id, k);
    }
    ReceiversAre(sent, m, 0);
    forall c | c in list ensures Count(d.table, Some(c)) == 1 {
      OnceInTable(d, c);
    }
    TotalIsLength(d.table, list);
    forall c: ClientRef | Some(c) in d.table ensures Count(list, c) == Subscriptions(events, n, c, MemberOf(m)) {
      ReceiversAre(sent, m, c);
      DeliveriesTo(d, m, from, id, c);
    }
    TotalIsAll(d.table, list, events, n, MemberOf(m));
  }

  /**
   In every state of every run a notification is sent, unchanged, once for every time a client
   that is still registered has subscribed to its member, to that client; and nothing else is
   sent, in particular nothing at all if nobody has subscribed.
   */
  lemma {:induction false} NotificationsExactly(
    channels: seq<u32>, events: seq<Event>, states: seq<State>, n: nat, m: Msg, from: ClientRef, id: u16)
    requires IsRun(channels, events, states) && n < |states|
    requires m.header.messageType == 0x02 && m.header.messageID != 0xFFFF_8100
    ensures var d, sent := states[n], Dispatch(states[n], m, from, id);
            var member := MemberIDs(ServiceIDs(m.header.messageID / 0x1_0000, m.instance), m.header.messageID % 0x1_0000);
            && (forall x | x in sent :: x.ToClient? && x.m == m && IsRegistered(d, x.c))
            && (forall c :: Count(sent, ToClient(c, m)) ==
                            if IsRegistered(d, c) then Subscriptions(events, n, c, member) else 0)
            && |sent| == AllSubscriptions(d.table, events, n, member)
  {
    var d, sent := states[n], Dispatch(states[n], m, from, id);
    RunKeepsInv(channels, events, states, n);
    forall c | IsRegistered(d, c) ensures Recorded(d, c, MemberOf(m)) == Subscriptions(events, n, c, MemberOf(m)) {
      RecordedExactly(channels, events, states, n, c, MemberOf(m));
    }
    forall k | 0 <= k < |sent| ensures sent[k].ToClient? && sent[k].m == m && IsRegistered(d, sent[k].c) {
      DeliveriesAre(d, m, from, id, k);
    }
    forall c
      ensures Count(sent, ToClient(c, m)) == if IsRegistered(d, c) then Subscriptions(events, n, c, MemberOf(m)) else 0
    {
      DeliveriesTo(d, m, from, id, c);
    }
    DeliveriesInAll(d, m, from, id, events, n);
  }
}
