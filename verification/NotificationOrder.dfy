/**
 The deliveries of a notification (lib/Dispatcher.cpp, lib/Client.cpp) as a sequence, told from
 the events alone: one for each subscription in the order they were made, except those of
 clients that have left.
 */
module NotificationOrder {
  import opened Bytes
  import opened SomeIp
  import opened Lists
  import opened Announcements
  import opened Endpoints
  import opened Daemon
  import opened DaemonInvariant
  import opened Lifecycle
  import opened Routing
  import opened Notifications

  /** Who subscribed to the member in the first `n` events, in this order, and is registered in `d`. */
  ghost function Audience(events: seq<Event>, n: nat, d: State, member: MemberIDs): (list: seq<ClientRef>)
    requires n <= |events|
  {
    if n == 0 then []
    else
      var e := events[n - 1];
      Audience(events, n - 1, d, member) +
      if e.ClientSubscribes? && e.member == member && IsRegistered(d, e.c) then [e.c] else []
  }

  function ToEach(list: seq<ClientRef>, m: Msg): (sent: seq<Delivery>) {
    if list == [] then [] else ToEach(list[..|list| - 1], m) + [ToClient(list[|list| - 1], m)]
  }

  function SubscribersOf(notifications: seq<Notification>, member: MemberIDs): (list: seq<ClientRef>) {
    var i := FindNotification(notifications, member);
    if i < |notifications| then notifications[i].subscribers else []
  }

  /** The list without a client. */
  function Others(list: seq<ClientRef>, c: ClientRef): (rest: seq<ClientRef>) {
    if list == [] then []
    else Others(list[..|list| - 1], c) + if list[|list| - 1] == c then [] else [list[|list| - 1]]
  }

  // ---- Leaving a list ----

  lemma {:induction false} OthersJoin(a: seq<ClientRef>, b: seq<ClientRef>, c: ClientRef)
    ensures Others(a + b, c) == Others(a, c) + Others(b, c)
    decreases |b|
  {
    if b == [] {
      assert a + b == a && Others(a, c) + [] == Others(a, c);
    } else {
      var rest, last := b[..|b| - 1], b[|b| - 1];
      assert (a + b)[..|a + b| - 1] == a + rest && (a + b)[|a + b| - 1] == last;
      OthersJoin(a, rest, c);
    }
  }

  lemma {:induction false} OthersAll(list: seq<ClientRef>, c: ClientRef)
    requires c !in list
    ensures Others(list, c) == list
  {
    if list != [] {
      var rest := list[..|list| - 1];
      assert list[|list| - 1] in list && list == rest + [list[|list| - 1]];
      OthersAll(rest, c);
    }
  }

  lemma {:induction false} OthersRemoved(list: seq<ClientRef>, c: ClientRef)
    ensures Others(RemoveFirst(list, c), c) == Others(list, c)
  {
    if list != [] {
      assert list == [list[0]] + list[1..];
      OthersJoin([list[0]], list[1..], c);
      assert [list[0]][..0] == [];
      if list[0] != c {
        OthersRemoved(list[1..], c);
        OthersJoin([list[0]], RemoveFirst(list[1..], c), c);
      } else {
        assert [] + Others(list[1..], c) == Others(list[1..], c);
      }
    }
  }

  lemma {:induction false} UnsubscribedOthers(
    notifications: seq<Notification>, subscriptions: seq<nat>, c: ClientRef, i: nat)
    requires i < |notifications|
    ensures Others(UnsubscribeAll(notifications, subscriptions, c)[i].subscribers, c) ==
            Others(notifications[i].subscribers, c)
    decreases |subscriptions|
  {
    if subscriptions != [] {
      OthersRemoved(notifications[i].subscribers, c);
      UnsubscribedOthers(Unsubscribe(notifications, subscriptions[0], c), subscriptions[1..], c, i);
    }
  }

  /** A client that leaves goes from every list, and the others stay in order. */
  lemma {:induction false} LeavesInOrder(d: State, c: ClientRef, i: nat)
    requires Inv(d) && IsRegistered(d, c) && i < |d.notifications|
    ensures UnsubscribeAll(d.notifications, d.clients[c].subscriptions, c)[i].subscribers ==
            Others(d.notifications[i].subscribers, c)
  {
    LeavesLists(d, c, i, c);
    UnsubscribedOthers(d.notifications, d.clients[c].subscriptions, c, i);
    OthersAll(UnsubscribeAll(d.notifications, d.clients[c].subscriptions, c)[i].subscribers, c);
  }

  // ---- One event ----

  /** The notifications are the same but for who provides them. */
  ghost predicate SameLists(a: seq<Notification>, b: seq<Notification>) {
    && |a| == |b|
    && forall i | 0 <= i < |a| :: a[i].member == b[i].member && a[i].subscribers == b[i].subscribers
  }

  lemma {:induction false} SameListsSame(a: seq<Notification>, b: seq<Notification>, member: MemberIDs)
    requires SameLists(a, b)
    ensures SubscribersOf(a, member) == SubscribersOf(b, member)
  {
    var i, j := FindNotification(a, member), FindNotification(b, member);
    assert i == j;
  }

  lemma {:induction false} FoundAt(notifications: seq<Notification>, member: MemberIDs, i: nat)
    requires i <= |notifications| && (i < |notifications| ==> notifications[i].member == member)
    requires forall j | 0 <= j < i :: notifications[j].member != member
    ensures FindNotification(notifications, member) == i
  {
  }

  lemma {:induction false} NotificationAdded(d: State, m: MemberIDs, member: MemberIDs)
    ensures SubscribersOf(WithNotification(d, m).notifications, member) == SubscribersOf(d.notifications, member)
    ensures var i, r := FindNotification(d.notifications, m), WithNotification(d, m).notifications;
            i < |r| && r[i].member == m && FindNotification(r, m) == i
  {
    var r := WithNotification(d, m).notifications;
    var i := FindNotification(d.notifications, member);
    if i < |d.notifications| {
      FoundAt(r, member, i);
    }
    FoundAt(r, m, FindNotification(d.notifications, m));
  }

  lemma {:induction false} SubscriberAdded(d: State, c: ClientRef, m: MemberIDs, member: MemberIDs)
    requires c in d.clients
    ensures SubscribersOf(Subscribe(d, c, m).notifications, member) ==
            SubscribersOf(d.notifications, member) + if m == member then [c] else []
  {
    var before, after := WithNotification(d, m).notifications, Subscribe(d, c, m).notifications;
    var i, j := FindNotification(d.notifications, m), FindNotification(before, member);
    NotificationAdded(d, m, member);
    assert after == before[i := before[i].(subscribers := before[i].subscribers + [c])];
    FoundAt(after, member, j);
  }

  lemma {:induction false} LeavesSubscribers(d: State, c: ClientRef, member: MemberIDs)
    requires Inv(d) && IsRegistered(d, c)
    ensures SubscribersOf(Disconnect(d, c).notifications, member) == Others(SubscribersOf(d.notifications, member), c)
  {
    var r := Disconnect(d, c).notifications;
    DisconnectGone(d, c);
    var i := FindNotification(d.notifications, member);
    assert FindNotification(r, member) == i;
    if i < |d.notifications| {
      LeavesInOrder(d, c, i);
    }
  }

  lemma {:induction false} ServiceLists(d: State, s: Service, init: Option<seq<EndPoint>>)
    ensures SameLists(d.notifications, RegisterService(d, s, init).notifications)
  {
  }

  lemma {:induction false} RegistryLists(d: State, e: Event)
    requires Enabled(d, e) && (e.WellKnownRegisters? || e.ServiceRegisters? || e.ServiceUnregisters?)
    ensures SameLists(d.notifications, Step(d, e).notifications)
  {
    match e
    case WellKnownRegisters(ids, init) =>
      ServiceLists(d.(nextHandle := d.nextHandle + 1), Service(ServiceKey(d.nextHandle, ids, true), None), init);
    case ServiceRegisters(x, ids, isLocal, init) =>
      ServiceLists(d.(nextHandle := d.nextHandle + 1), Service(ServiceKey(d.nextHandle, ids, isLocal), Some(x)), init);
    case ServiceUnregisters(x, ids) =>
  }

  /** What an event makes of a list of subscribers. */
  function ListAfter(list: seq<ClientRef>, e: Event, member: MemberIDs): (r: seq<ClientRef>) {
    match e
    case ClientSubscribes(c, m) => if m == member then list + [c] else list
    case ClientDisconnects(c) => Others(list, c)
    case _ => list
  }

  lemma {:induction false} StepSubscribers(d: State, e: Event, member: MemberIDs)
    requires Inv(d) && Enabled(d, e)
    ensures SubscribersOf(Step(d, e).notifications, member) == ListAfter(SubscribersOf(d.notifications, member), e, member)
  {
    match e
    case ClientConnects(c, isLocal) => assert Connect(d, c, isLocal).notifications == d.notifications;
    case ClientSubscribes(c, m) => SubscriberAdded(d, c, m, member);
    case NotificationSent(m) => NotificationAdded(d, m, member);
    case ClientDisconnects(c) => LeavesSubscribers(d, c, member);
    case IdleCleanUp => assert CleanUp(d).notifications == d.notifications;
    case AnnounceTimer => assert AnnounceAgain(d, 0).notifications == d.notifications;
    case _ =>
      RegistryLists(d, e);
      SameListsSame(d.notifications, Step(d, e).notifications, member);
  }

  /** Who is registered changes by connecting and disconnecting only. */
  predicate RegisteredAfter(d: State, e: Event, c: ClientRef) {
    if e.ClientConnects? && e.c == c then true
    else if e.ClientDisconnects? && e.c == c then false
    else IsRegistered(d, c)
  }

  lemma {:induction false} SameRegistered(d: State, r: State, c: ClientRef)
    requires SameRecords(d, r)
    ensures IsRegistered(r, c) <==> IsRegistered(d, c)
  {
    assert c in r.clients.Keys <==> c in d.clients.Keys;
  }

  lemma {:induction false} RegistryRegistered(d: State, e: Event, c: ClientRef)
    requires Enabled(d, e) && (e.WellKnownRegisters? || e.ServiceRegisters? || e.ServiceUnregisters?)
    ensures IsRegistered(Step(d, e), c) <==> IsRegistered(d, c)
  {
    match e
    case WellKnownRegisters(ids, init) =>
      ServiceRecords(d.(nextHandle := d.nextHandle + 1), Service(ServiceKey(d.nextHandle, ids, true), None), init);
    case ServiceRegisters(x, ids, isLocal, init) =>
      ClientRegisterRecords(d, x, ids, isLocal, init);
      SameRegistered(d, ClientRegister(d, x, ids, isLocal, init), c);
    case ServiceUnregisters(x, ids) =>
      ClientUnregisterRecords(d, x, ids);
      SameRegistered(d, ClientUnregister(d, x, ids), c);
  }

  lemma {:induction false} CleanUpRegistered(d: State, c: ClientRef)
    requires LifeInv(d)
    ensures IsRegistered(CleanUp(d), c) <==> IsRegistered(d, c)
  {
  }

  lemma {:induction false} ConnectRegistered(d: State, x: ClientRef, isLocal: bool, c: ClientRef)
    ensures IsRegistered(Connect(d, x, isLocal), c) <==> c == x || IsRegistered(d, c)
  {
  }

  lemma {:induction false} SubscribeRegistered(d: State, x: ClientRef, m: MemberIDs, c: ClientRef)
    requires x in d.clients
    ensures IsRegistered(Subscribe(d, x, m), c) <==> IsRegistered(d, c)
  {
  }

  lemma {:induction false} DisconnectRegistered(d: State, x: ClientRef, c: ClientRef)
    requires Inv(d) && IsRegistered(d, x)
    ensures IsRegistered(Disconnect(d, x), c) <==> IsRegistered(d, c) && c != x
  {
    DisconnectGone(d, x);
  }

  lemma {:induction false} StepRegistered(d: State, e: Event, c: ClientRef)
    requires Inv(d) && Enabled(d, e)
    ensures IsRegistered(Step(d, e), c) <==> RegisteredAfter(d, e, c)
  {
    match e
    case ClientConnects(x, isLocal) => ConnectRegistered(d, x, isLocal, c);
    case ClientSubscribes(x, m) => SubscribeRegistered(d, x, m, c);
    case NotificationSent(m) => assert WithNotification(d, m).clients == d.clients;
    case ClientDisconnects(x) => DisconnectRegistered(d, x, c);
    case IdleCleanUp => CleanUpRegistered(d, c);
    case AnnounceTimer => assert AnnounceAgain(d, 0).clients == d.clients;
    case _ => RegistryRegistered(d, e, c);
  }

  // ---- Runs ----

  lemma {:induction false} AudienceSame(events: seq<Event>, n: nat, d: State, r: State, member: MemberIDs)
    requires n <= |events|
    requires forall i | 0 <= i < n && events[i].ClientSubscribes? ::
      IsRegistered(r, events[i].c) == IsRegistered(d, events[i].c)
    ensures Audience(events, n, r, member) == Audience(events, n, d, member)
  {
    if n > 0 {
      AudienceSame(events, n - 1, d, r, member);
    }
  }

  lemma {:induction false} AudienceWithout(events: seq<Event>, n: nat, d: State, r: State, member: MemberIDs, c: ClientRef)
    requires n <= |events|
    requires forall x :: IsRegistered(r, x) <==> IsRegistered(d, x) && x != c
    ensures Audience(events, n, r, member) == Others(Audience(events, n, d, member), c)
  {
    if n > 0 {
      var e, before := events[n - 1], Audience(events, n - 1, d, member);
      AudienceWithout(events, n - 1, d, r, member, c);
      if e.ClientSubscribes? && e.member == member && IsRegistered(d, e.c) {
        OthersJoin(before, [e.c], c);
        assert Others([e.c], c) == (if e.c == c then [] else [e.c]) by { assert [e.c][..0] == []; }
      } else {
        assert before + [] == before && Others(before, c) + [] == Others(before, c);
      }
    }
  }

  lemma {:induction false} AudienceNext(
    channels: seq<u32>, events: seq<Event>, states: seq<State>, n: nat, member: MemberIDs)
    requires IsRun(channels, events, states) && n < |events|
    ensures Audience(events, n + 1, states[n + 1], member) ==
            ListAfter(Audience(events, n, states[n], member), events[n], member)
  {
    var d, e, r := states[n], events[n], states[n + 1];
    RunKeepsInv(channels, events, states, n);
    forall x ensures IsRegistered(r, x) <==> RegisteredAfter(d, e, x) {
      StepRegistered(d, e, x);
    }
    if e.ClientDisconnects? {
      AudienceWithout(events, n, d, r, member, e.c);
    } else {
      forall i | 0 <= i < n && events[i].ClientSubscribes?
        ensures IsRegistered(r, events[i].c) == IsRegistered(d, events[i].c)
      {
        if e.ClientConnects? {
          EarlierIsOther(channels, events, states, i, n);
        }
      }
      AudienceSame(events, n, d, r, member);
    }
  }

  /** A client that connects is not one that has subscribed before. */
  lemma {:induction false} EarlierIsOther(channels: seq<u32>, events: seq<Event>, states: seq<State>, i: nat, n: nat)
    requires IsRun(channels, events, states) && i < n < |events| && events[i].ClientSubscribes? && events[n].ClientConnects?
    ensures events[i].c != events[n].c
  {
    RunProgress(channels, events, states, i, n);
  }

  lemma {:induction false} NextSubscribers(
    channels: seq<u32>, events: seq<Event>, states: seq<State>, n: nat, member: MemberIDs)
    requires IsRun(channels, events, states) && n < |events|
    ensures SubscribersOf(states[n + 1].notifications, member) ==
            ListAfter(SubscribersOf(states[n].notifications, member), events[n], member)
  {
    RunKeepsInv(channels, events, states, n);
    StepSubscribers(states[n], events[n], member);
  }

  /** Both the list and the audience follow the event. */
  ghost predicate Follow(events: seq<Event>, states: seq<State>, i: nat, member: MemberIDs)
    requires i < |events| < |states|
  {
    && SubscribersOf(states[i + 1].notifications, member) ==
       ListAfter(SubscribersOf(states[i].notifications, member), events[i], member)
    && Audience(events, i + 1, states[i + 1], member) ==
       ListAfter(Audience(events, i, states[i], member), events[i], member)
  }

  lemma {:induction false} FollowOn(events: seq<Event>, states: seq<State>, n: nat, member: MemberIDs)
    requires n <= |events| < |states| && SubscribersOf(states[0].notifications, member) == []
    requires forall i | 0 <= i < n :: Follow(events, states, i, member)
    ensures SubscribersOf(states[n].notifications, member) == Audience(events, n, states[n], member)
  {
    if n > 0 {
      FollowOn(events, states, n - 1, member);
      assert Follow(events, states, n - 1, member);
    }
  }

  lemma {:induction false} SubscribersAre(
    channels: seq<u32>, events: seq<Event>, states: seq<State>, n: nat, member: MemberIDs)
    requires IsRun(channels, events, states) && n < |states|
    ensures SubscribersOf(states[n].notifications, member) == Audience(events, n, states[n], member)
  {
    forall i | 0 <= i < n ensures Follow(events, states, i, member) {
      AudienceNext(channels, events, states, i, member);
      NextSubscribers(channels, events, states, i, member);
    }
    FollowOn(events, states, n, member);
  }

  lemma {:induction false} ToEachIs(list: seq<ClientRef>, m: Msg)
    ensures ToSubscribers(list, m) == ToEach(list, m)
  {
    if list != [] {
      ToEachIs(list[..|list| - 1], m);
    }
  }

  /**
   In every state of every run a notification is sent to exactly these, in this order: for every
   subscription to its member so far, the client that made it, if it is still registered.
   */
  lemma {:induction false} NotificationsInOrder(
    channels: seq<u32>, events: seq<Event>, states: seq<State>, n: nat, m: Msg, from: ClientRef, id: u16)
    requires IsRun(channels, events, states) && n < |states|
    requires m.header.messageType == 0x02 && m.header.messageID != 0xFFFF_8100
    ensures var member := MemberIDs(ServiceIDs(m.header.messageID / 0x1_0000, m.instance), m.header.messageID % 0x1_0000);
            Dispatch(states[n], m, from, id) == ToEach(Audience(events, n, states[n], member), m)
  {
    SubscribersAre(channels, events, states, n, MemberOf(m));
    ToEachIs(SubscribersOf(states[n].notifications, MemberOf(m)), m);
  }
}
