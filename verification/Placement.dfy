/**
 Which services are on TCP servers and on offer in every run, whatever servers can be opened
 and however often clients ask for a service.
 */
module Placement {
  import opened Bytes
  import opened SomeIp
  import opened Announcements
  import opened Lists
  import opened Endpoints
  import opened Daemon
  import opened DaemonInvariant
  import opened Effects
  import opened Ownership

  function Local(keys: seq<ServiceKey>): (r: seq<ServiceKey>) {
    if keys == [] then [] else (if keys[0].isLocal then [keys[0]] else []) + Local(keys[1..])
  }

  /** The service is on a server. */
  ghost predicate Held(servers: seq<TcpServer>, k: ServiceKey) {
    exists i :: 0 <= i < |servers| && Holds(servers[i], k)
  }

  /** Servers hold only these services, each under its own service ID and on one server. */
  ghost predicate Filed(servers: seq<TcpServer>, keys: seq<ServiceKey>) {
    DistinctIds(keys) && WellFiled(servers) && OnlyKnown(servers, keys) && HeldOnce(servers)
  }

  ghost predicate FiledInv(d: State) {
    Filed(d.servers, Local(Keys(d.services)))
  }

  /** The last thing announced about the service at this endpoint was an offer. */
  predicate Outstanding(announced: seq<Announcement>, ids: ServiceIDs, e: EndPoint) {
    if announced == [] then false
    else
      var a := announced[|announced| - 1];
      if a.service == ids && a.endPoint == e then a.Offer? else Outstanding(announced[..|announced| - 1], ids, e)
  }

  ghost predicate OfferInv(d: State) {
    forall ids, e :: Outstanding(d.announced, ids, e) <==> e in OfferedAt(d.servers, d.channels, ids)
  }

  /**
   The stop-offer at position `j` names an offer: when the withdrawal of its service began, at
   `i`, the service was on offer at that endpoint.
   */
  ghost predicate NamesOffer(announced: seq<Announcement>, j: nat)
    requires j < |announced|
  {
    exists i :: 0 <= i <= j && Outstanding(announced[..i], announced[j].service, announced[j].endPoint) &&
      forall t | i <= t < j :: announced[t].StopOffer? && announced[t].service == announced[j].service
  }

  ghost predicate StopsNameOffers(announced: seq<Announcement>) {
    forall j | 0 <= j < |announced| && announced[j].StopOffer? :: NamesOffer(announced, j)
  }

  /** A service that stays keeps its server and its ports. */
  ghost predicate StaysPut(before: seq<TcpServer>, after: seq<TcpServer>, k: ServiceKey) {
    && |before| <= |after|
    && forall i | 0 <= i < |before| ::
         before[i].ports == after[i].ports && (Holds(before[i], k) ==> Holds(after[i], k))
  }

  /** Whoever is on a server before and after is on the same one. */
  ghost predicate NobodyMoves(before: seq<TcpServer>, after: seq<TcpServer>) {
    forall x | Held(before, x) && Held(after, x) :: StaysPut(before, after, x)
  }

  /** There is a server for the service, if it is local, or one can be opened. */
  predicate CanPlace(d: State, k: ServiceKey, init: Option<seq<EndPoint>>) {
    k.isLocal ==> Bindable(d.servers, k, init)
  }

  // ---- Local services ----

  lemma {:induction false} LocalAppend(keys: seq<ServiceKey>, k: ServiceKey)
    ensures Local(keys + [k]) == Local(keys) + if k.isLocal then [k] else []
  {
    if keys == [] {
      assert keys + [k] == [k] && [k][1..] == [];
    } else {
      var first, last := if keys[0].isLocal then [keys[0]] else [], if k.isLocal then [k] else [];
      assert (keys + [k])[1..] == keys[1..] + [k];
      LocalAppend(keys[1..], k);
      assert first + (Local(keys[1..]) + last) == (first + Local(keys[1..])) + last;
    }
  }

  lemma {:induction false} LocalMembers(keys: seq<ServiceKey>, k: ServiceKey)
    ensures k in Local(keys) <==> k in keys && k.isLocal
  {
    if keys != [] {
      LocalMembers(keys[1..], k);
      assert k in keys <==> k == keys[0] || k in keys[1..];
    }
  }

  lemma {:induction false} LocalRemove(keys: seq<ServiceKey>, k: ServiceKey)
    ensures Local(RemoveFirst(keys, k)) == if k.isLocal then RemoveFirst(Local(keys), k) else Local(keys)
  {
    if keys != [] {
      var rest := RemoveFirst(keys[1..], k);
      if keys[0] == k {
        assert k.isLocal ==> Local(keys)[1..] == Local(keys[1..]);
      } else {
        LocalRemove(keys[1..], k);
        assert ([keys[0]] + rest)[1..] == rest;
        if keys[0].isLocal {
          assert Local(keys)[0] == keys[0] && Local(keys)[1..] == Local(keys[1..]);
          assert RemoveFirst(Local(keys), k) == [keys[0]] + RemoveFirst(Local(keys[1..]), k);
        } else {
          assert Local(keys) == Local(keys[1..]);
        }
      }
    }
  }

  lemma {:induction false} LocalDistinct(keys: seq<ServiceKey>)
    requires DistinctIds(keys)
    ensures DistinctIds(Local(keys))
  {
    if keys != [] {
      LocalDistinct(keys[1..]);
      forall i | 0 <= i < |Local(keys[1..])| ensures Local(keys[1..])[i].ids != keys[0].ids {
        LocalMembers(keys[1..], Local(keys[1..])[i]);
      }
    }
  }

  // ---- Servers ----

  /** The server found by the IDs of a service that is on a server holds that service. */
  lemma {:induction false} FoundHolds(servers: seq<TcpServer>, keys: seq<ServiceKey>, k: ServiceKey, j: nat)
    requires Filed(servers, keys) && j < |servers| && Holds(servers[j], k)
    ensures GetEndPoint(servers, k.ids) == j
  {
    var i := GetEndPoint(servers, k.ids);
    assert Publishes(servers[j], k.ids);
    var found := servers[i].services[k.ids.serviceID];
    assert Holds(servers[i], found) && found.ids == k.ids;
    SameIdsSameKey(keys, found, k);
    HeldAt(servers, i, j, k);
  }

  /** Whatever the IDs lead to is on that server and has these IDs. */
  lemma {:induction false} FoundIsHeld(servers: seq<TcpServer>, keys: seq<ServiceKey>, ids: ServiceIDs)
    requires Filed(servers, keys)
    ensures var i := GetEndPoint(servers, ids);
            i < |servers| ==>
              ids.serviceID in servers[i].services &&
              var k := servers[i].services[ids.serviceID];
              Holds(servers[i], k) && k.ids == ids && k in keys
    ensures GetEndPoint(servers, ids) < |servers| ==> exists k :: Held(servers, k) && k.ids == ids
  {
    var i := GetEndPoint(servers, ids);
    if i < |servers| {
      var k := servers[i].services[ids.serviceID];
      assert k.ids.serviceID == ids.serviceID;
      assert Holds(servers[i], k) && Held(servers, k);
    }
  }

  lemma {:induction false} BindHolds(
    servers: seq<TcpServer>, k: ServiceKey, init: Option<seq<EndPoint>>, j: nat, c: ServiceKey)
    requires j < |Bind(servers, k, init)|
    ensures Holds(Bind(servers, k, init)[j], c) <==>
            || (j < |servers| && Holds(servers[j], c))
            || (c == k && Bindable(servers, k, init) && j == FreeServer(servers, k.ids.serviceID))
  {
  }

  /** Binding puts the service on a server exactly when it can, and moves no other. */
  lemma {:induction false} BindFiles(
    servers: seq<TcpServer>, keys: seq<ServiceKey>, k: ServiceKey, init: Option<seq<EndPoint>>)
    requires Filed(servers, keys) && DistinctIds(keys + [k])
    ensures var r := Bind(servers, k, init);
            && Filed(r, keys + [k]) && NobodyMoves(servers, r)
            && forall x :: Held(r, x) <==> Held(servers, x) || (x == k && Bindable(servers, k, init))
  {
    var r, all := Bind(servers, k, init), keys + [k];
    var free := FreeServer(servers, k.ids.serviceID);
    forall j, c | 0 <= j < |r|
      ensures Holds(r[j], c) <==>
              (j < |servers| && Holds(servers[j], c)) || (c == k && Bindable(servers, k, init) && j == free)
    {
      BindHolds(servers, k, init, j, c);
    }
    assert forall c :: c in all <==> c in keys || c == k;
    assert k !in keys by { assert all[|keys|] == k && forall n | 0 <= n < |keys| :: all[n] == keys[n]; }
    forall x ensures Held(r, x) <==> Held(servers, x) || (x == k && Bindable(servers, k, init)) {
      if Held(servers, x) {
        var j :| 0 <= j < |servers| && Holds(servers[j], x);
        assert Holds(r[j], x);
      }
      if x == k && Bindable(servers, k, init) {
        assert Holds(r[free], x);
      }
    }
  }

  lemma {:induction false} UnbindHolds(
    servers: seq<TcpServer>, keys: seq<ServiceKey>, k: ServiceKey, j: nat, c: ServiceKey)
    requires Filed(servers, keys) && j < |servers|
    ensures |Unbind(servers, k)| == |servers| && Unbind(servers, k)[j].ports == servers[j].ports
    ensures Holds(Unbind(servers, k)[j], c) <==> Holds(servers[j], c) && c.ids != k.ids
  {
    var i := GetEndPoint(servers, k.ids);
    if Holds(servers[j], c) && c.ids == k.ids {
      FoundHolds(servers, keys, c, j);
    } else if j == i {
      FoundIsHeld(servers, keys, k.ids);
    }
  }

  lemma {:induction false} UnbindWellFiled(servers: seq<TcpServer>, k: ServiceKey)
    requires WellFiled(servers)
    ensures WellFiled(Unbind(servers, k))
  {
  }

  /** Unbinding takes whatever service has these IDs off its server, registered or not, and no other. */
  lemma {:induction false} UnbindFiles(servers: seq<TcpServer>, keys: seq<ServiceKey>, k: ServiceKey)
    requires Filed(servers, keys)
    ensures var r := Unbind(servers, k);
            && |r| == |servers| && WellFiled(r) && HeldOnce(r) && NobodyMoves(servers, r)
            && forall x :: Held(r, x) <==> Held(servers, x) && x.ids != k.ids
  {
    var r := Unbind(servers, k);
    forall j, c | 0 <= j < |servers|
      ensures |r| == |servers| && r[j].ports == servers[j].ports
      ensures Holds(r[j], c) <==> Holds(servers[j], c) && c.ids != k.ids
    {
      UnbindHolds(servers, keys, k, j, c);
    }
    assert |r| == |servers|;
    UnbindWellFiled(servers, k);
    forall x ensures Held(r, x) <==> Held(servers, x) && x.ids != k.ids {
      if Held(servers, x) && x.ids != k.ids {
        var j :| 0 <= j < |servers| && Holds(servers[j], x);
        assert Holds(r[j], x);
      }
    }
  }

  // ---- Announcements ----

  lemma {:induction false} OnChannelMembers(channel: u32, ports: seq<EndPoint>, e: EndPoint)
    ensures e in OnChannel(channel, ports) <==> e in ports && e.address == channel
  {
    if ports != [] {
      OnChannelMembers(channel, ports[1..], e);
      assert e in ports <==> e == ports[0] || e in ports[1..];
    }
  }

  /** The ports announced are those whose address belongs to a channel. */
  lemma {:induction false} MatchingMembers(channels: seq<u32>, ports: seq<EndPoint>, e: EndPoint)
    ensures e in Matching(channels, ports) <==> e in ports && e.address in channels
  {
    if channels != [] {
      OnChannelMembers(channels[0], ports, e);
      MatchingMembers(channels[1..], ports, e);
      assert e.address in channels <==> e.address == channels[0] || e.address in channels[1..];
    }
  }

  lemma {:induction false} OutstandingOne(announced: seq<Announcement>, a: Announcement, ids: ServiceIDs, e: EndPoint)
    ensures Outstanding(announced + [a], ids, e) ==
            if a.service == ids && a.endPoint == e then a.Offer? else Outstanding(announced, ids, e)
  {
    assert (announced + [a])[..|announced|] == announced;
  }

  lemma {:induction false} OutstandingOffers(
    announced: seq<Announcement>, ids: ServiceIDs, at: seq<EndPoint>, x: ServiceIDs, e: EndPoint)
    ensures Outstanding(announced + Offers(ids, at), x, e) <==> (x == ids && e in at) || Outstanding(announced, x, e)
    decreases |at|
  {
    if at == [] {
      assert announced + Offers(ids, at) == announced;
    } else {
      var a := Offer(ids, at[0]);
      assert announced + Offers(ids, at) == (announced + [a]) + Offers(ids, at[1..]);
      OutstandingOffers(announced + [a], ids, at[1..], x, e);
      OutstandingOne(announced, a, x, e);
      assert e in at <==> e == at[0] || e in at[1..];
    }
  }

  lemma {:induction false} OutstandingStops(
    announced: seq<Announcement>, ids: ServiceIDs, at: seq<EndPoint>, x: ServiceIDs, e: EndPoint)
    ensures Outstanding(announced + StopOffers(ids, at), x, e) <==> !(x == ids && e in at) && Outstanding(announced, x, e)
    decreases |at|
  {
    if at == [] {
      assert announced + StopOffers(ids, at) == announced;
    } else {
      var a := StopOffer(ids, at[0]);
      assert announced + StopOffers(ids, at) == (announced + [a]) + StopOffers(ids, at[1..]);
      OutstandingStops(announced + [a], ids, at[1..], x, e);
      OutstandingOne(announced, a, x, e);
      assert e in at <==> e == at[0] || e in at[1..];
    }
  }

  lemma {:induction false} NamesOfferKept(a: seq<Announcement>, b: seq<Announcement>, j: nat)
    requires j < |a| && NamesOffer(a, j)
    ensures NamesOffer(a + b, j)
  {
    var i :| 0 <= i <= j && Outstanding(a[..i], a[j].service, a[j].endPoint) &&
      forall t | i <= t < j :: a[t].StopOffer? && a[t].service == a[j].service;
    assert (a + b)[..i] == a[..i] && (a + b)[j] == a[j];
    assert forall t | i <= t < j :: (a + b)[t] == a[t];
  }

  lemma {:induction false} OffersAt(ids: ServiceIDs, at: seq<EndPoint>, k: nat)
    ensures |Offers(ids, at)| == |StopOffers(ids, at)| == |at|
    ensures k < |at| ==> Offers(ids, at)[k] == Offer(ids, at[k]) && StopOffers(ids, at)[k] == StopOffer(ids, at[k])
  {
    if at != [] {
      OffersAt(ids, at[1..], if k == 0 then 0 else k - 1);
    }
  }

  lemma {:induction false} OffersKeepNames(announced: seq<Announcement>, ids: ServiceIDs, at: seq<EndPoint>)
    requires StopsNameOffers(announced)
    ensures StopsNameOffers(announced + Offers(ids, at))
  {
    var all := announced + Offers(ids, at);
    forall j | 0 <= j < |all| && all[j].StopOffer? ensures NamesOffer(all, j) {
      if j < |announced| {
        NamesOfferKept(announced, Offers(ids, at), j);
      } else {
        OffersAt(ids, at, j - |announced|);
      }
    }
  }

  lemma {:induction false} StopsKeepNames(announced: seq<Announcement>, ids: ServiceIDs, at: seq<EndPoint>)
    requires StopsNameOffers(announced) && forall e | e in at :: Outstanding(announced, ids, e)
    ensures StopsNameOffers(announced + StopOffers(ids, at))
  {
    var n, all := |announced|, announced + StopOffers(ids, at);
    OffersAt(ids, at, 0);
    forall j | 0 <= j < |all| && all[j].StopOffer? ensures NamesOffer(all, j) {
      if j < n {
        NamesOfferKept(announced, StopOffers(ids, at), j);
      } else {
        forall t | n <= t <= j ensures all[t] == StopOffer(ids, at[t - n]) {
          OffersAt(ids, at, t - n);
        }
        assert all[..n] == announced && at[j - n] in at;
      }
    }
  }

  /** A service on a server is offered at that server's ports. */
  lemma {:induction false} OfferedWhereHeld(
    servers: seq<TcpServer>, keys: seq<ServiceKey>, channels: seq<u32>, k: ServiceKey, j: nat)
    requires Filed(servers, keys) && j < |servers| && Holds(servers[j], k)
    ensures GetEndPoint(servers, k.ids) == j && OfferedAt(servers, channels, k.ids) == Matching(channels, servers[j].ports)
  {
    FoundHolds(servers, keys, k, j);
  }

  /** IDs of which no service is on a server are offered nowhere. */
  lemma {:induction false} NotOffered(servers: seq<TcpServer>, keys: seq<ServiceKey>, channels: seq<u32>, ids: ServiceIDs)
    requires Filed(servers, keys) && forall x | Held(servers, x) :: x.ids != ids
    ensures OfferedAt(servers, channels, ids) == [] && GetEndPoint(servers, ids) == |servers|
  {
    FoundIsHeld(servers, keys, ids);
  }

  /** IDs whose service stays are offered as before. */
  lemma {:induction false} SameOffers(
    before: seq<TcpServer>, keys: seq<ServiceKey>, after: seq<TcpServer>, keys': seq<ServiceKey>,
    channels: seq<u32>, ids: ServiceIDs)
    requires Filed(before, keys) && Filed(after, keys') && NobodyMoves(before, after)
    requires forall x: ServiceKey | x.ids == ids :: Held(after, x) <==> Held(before, x)
    ensures OfferedAt(after, channels, ids) == OfferedAt(before, channels, ids)
  {
    var i := GetEndPoint(before, ids);
    FoundIsHeld(before, keys, ids);
    if i < |before| {
      var x := before[i].services[ids.serviceID];
      assert Held(before, x) && Held(after, x) && StaysPut(before, after, x);
      FoundHolds(after, keys', x, i);
    } else {
      forall x | Held(after, x) ensures x.ids != ids {
        if x.ids == ids {
          var j :| 0 <= j < |before| && Holds(before[j], x);
          FoundHolds(before, keys, x, j);
        }
      }
      NotOffered(after, keys', channels, ids);
    }
  }

  // ---- The registry changes ----

  lemma {:induction false} NewIds(keys: seq<ServiceKey>, k: ServiceKey)
    requires DistinctIds(keys + [k])
    ensures forall x | x in Local(keys) :: x.ids != k.ids
  {
    forall x | x in Local(keys) ensures x.ids != k.ids {
      LocalMembers(keys, x);
      var i :| 0 <= i < |keys| && keys[i] == x;
      assert (keys + [k])[i] == x && (keys + [k])[|keys|] == k;
    }
  }

  /** The registry gained a service: it is on a server exactly if it can be placed. */
  ghost predicate Joins(d: State, r: State, k: ServiceKey, init: Option<seq<EndPoint>>) {
    && FiledInv(r) && NobodyMoves(d.servers, r.servers)
    && forall x :: Held(r.servers, x) <==> Held(d.servers, x) || (x == k && k.isLocal && Bindable(d.servers, k, init))
  }

  lemma {:induction false} GainedFiled(d: State, r: State, k: ServiceKey, init: Option<seq<EndPoint>>)
    requires FiledInv(d) && Gained(d, r, k, init) && DistinctIds(Keys(r.services))
    ensures Joins(d, r, k, init)
  {
    var keys := Local(Keys(d.services));
    LocalAppend(Keys(d.services), k);
    LocalDistinct(Keys(r.services));
    if k.isLocal {
      BindFiles(d.servers, keys, k, init);
    } else {
      assert keys + [] == keys;
    }
  }

  /** Of these service objects one is local and has the IDs. */
  ghost predicate ReleasedBy(keys: seq<ServiceKey>, ids: ServiceIDs) {
    exists k :: k in keys && k.isLocal && k.ids == ids
  }

  /** Services were unregistered: exactly the services with the IDs of local ones are off their servers. */
  ghost predicate Leaves(d: State, r: State, keys: seq<ServiceKey>) {
    && FiledInv(r) && NobodyMoves(d.servers, r.servers)
    && forall x :: Held(r.servers, x) <==> Held(d.servers, x) && !ReleasedBy(keys, x.ids)
  }

  lemma {:induction false} RemovedDistinct(keys: seq<ServiceKey>, k: ServiceKey)
    requires DistinctIds(keys)
    ensures DistinctIds(RemoveFirst(keys, k))
    ensures forall c | c in keys && c != k :: c in RemoveFirst(keys, k)
  {
    if k in keys {
      RemovedKeys(keys, k);
    } else {
      RemoveFirstAbsent(keys, k);
    }
  }

  lemma {:induction false} UnbindKeepsFiled(servers: seq<TcpServer>, keys: seq<ServiceKey>, k: ServiceKey)
    requires Filed(servers, keys)
    ensures Filed(Unbind(servers, k), RemoveFirst(keys, k))
  {
    var r := Unbind(servers, k);
    UnbindFiles(servers, keys, k);
    RemovedDistinct(keys, k);
    forall i, x | 0 <= i < |r| && Holds(r[i], x) ensures x in RemoveFirst(keys, k) {
      assert Held(r, x) && Held(servers, x);
      var j :| 0 <= j < |servers| && Holds(servers[j], x);
    }
  }

  lemma {:induction false} ReleasedByOne(k: ServiceKey, ids: ServiceIDs)
    ensures ReleasedBy([k], ids) <==> k.isLocal && k.ids == ids
  {
    assert k in [k];
  }

  lemma {:induction false} LostFiled(d: State, r: State, k: ServiceKey)
    requires FiledInv(d) && Lost(d, r, k)
    ensures Leaves(d, r, [k])
  {
    var keys := Local(Keys(d.services));
    LocalRemove(Keys(d.services), k);
    forall x: ServiceKey ensures ReleasedBy([k], x.ids) <==> k.isLocal && k.ids == x.ids {
      ReleasedByOne(k, x.ids);
    }
    if k.isLocal {
      UnbindFiles(d.servers, keys, k);
      UnbindKeepsFiled(d.servers, keys, k);
    }
  }

  lemma {:induction false} PutTrans(a: seq<TcpServer>, b: seq<TcpServer>, c: seq<TcpServer>, k: ServiceKey)
    requires StaysPut(a, b, k) && StaysPut(b, c, k)
    ensures StaysPut(a, c, k)
  {
  }

  lemma {:induction false} LeavesTrans(a: State, b: State, c: State, k: ServiceKey, keys: seq<ServiceKey>)
    requires Leaves(a, b, [k]) && Leaves(b, c, keys)
    ensures Leaves(a, c, [k] + keys)
  {
    forall ids ensures ReleasedBy([k] + keys, ids) <==> ReleasedBy([k], ids) || ReleasedBy(keys, ids) {
      assert forall x :: x in [k] + keys <==> x in [k] || x in keys;
    }
    forall x | Held(a.servers, x) && Held(c.servers, x) ensures StaysPut(a.servers, c.servers, x) {
      PutTrans(a.servers, b.servers, c.servers, x);
    }
  }

  lemma {:induction false} LoseAllFiled(d: State, keys: seq<ServiceKey>)
    requires FiledInv(d) && ListenerShape(d.listeners)
    ensures Leaves(d, UnregisterAll(d, keys), keys)
    decreases |keys|
  {
    if keys != [] {
      var d1 := UnregisterService(d, keys[0]);
      UnregisterLoses(d, keys[0]);
      LostFiled(d, d1, keys[0]);
      LoseAllFiled(d1, keys[1..]);
      LeavesTrans(d, d1, UnregisterAll(d, keys), keys[0], keys[1..]);
      assert [keys[0]] + keys[1..] == keys;
    }
  }

  // ---- Offers ----

  /** What is on offer is what the servers have, and stop-offers named offers. */
  ghost predicate Shown(d: State) {
    OfferInv(d) && StopsNameOffers(d.announced)
  }

  lemma {:induction false} GainedOffers(d: State, r: State, k: ServiceKey, init: Option<seq<EndPoint>>)
    requires FiledInv(d) && OfferInv(d) && Gained(d, r, k, init) && Joins(d, r, k, init) && DistinctIds(Keys(r.services))
    ensures OfferInv(r)
  {
    var keys, at := Local(Keys(d.services)), OfferedAt(r.servers, d.channels, k.ids);
    NewIds(Keys(d.services), k);
    forall x | Held(d.servers, x) ensures x.ids != k.ids {
      var j :| 0 <= j < |d.servers| && Holds(d.servers[j], x);
      assert x in keys;
    }
    NotOffered(d.servers, keys, d.channels, k.ids);
    forall ids, e ensures Outstanding(r.announced, ids, e) <==> e in OfferedAt(r.servers, r.channels, ids) {
      OutstandingOffers(d.announced, k.ids, at, ids, e);
      if ids != k.ids {
        SameOffers(d.servers, keys, r.servers, Local(Keys(r.services)), d.channels, ids);
      }
    }
  }

  lemma {:induction false} GainedShown(d: State, r: State, k: ServiceKey, init: Option<seq<EndPoint>>)
    requires FiledInv(d) && Shown(d) && Gained(d, r, k, init) && DistinctIds(Keys(r.services))
    ensures Shown(r)
  {
    GainedFiled(d, r, k, init);
    GainedOffers(d, r, k, init);
    OffersKeepNames(d.announced, k.ids, OfferedAt(r.servers, d.channels, k.ids));
  }

  /** A service from elsewhere has no server here, as long as it is registered. */
  lemma {:induction false} ForeignNotHeld(d: State, k: ServiceKey, x: ServiceKey)
    requires FiledInv(d) && DistinctIds(Keys(d.services)) && k in Keys(d.services) && !k.isLocal && Held(d.servers, x)
    ensures x.ids != k.ids
  {
    var j :| 0 <= j < |d.servers| && Holds(d.servers[j], x);
    LocalMembers(Keys(d.services), x);
    if x.ids == k.ids {
      SameIdsSameKey(Keys(d.services), x, k);
    }
  }

  lemma {:induction false} LostOffers(d: State, r: State, k: ServiceKey)
    requires FiledInv(d) && OfferInv(d) && DistinctIds(Keys(d.services)) && Lost(d, r, k) && Leaves(d, r, [k])
    requires k.isLocal || k in Keys(d.services)
    ensures OfferInv(r)
  {
    var keys, at := Local(Keys(d.services)), OfferedAt(d.servers, d.channels, k.ids);
    assert k in [k];
    forall x | Held(r.servers, x) ensures x.ids != k.ids {
      if !k.isLocal {
        ForeignNotHeld(d, k, x);
      }
    }
    NotOffered(r.servers, Local(Keys(r.services)), d.channels, k.ids);
    forall ids, e ensures Outstanding(r.announced, ids, e) <==> e in OfferedAt(r.servers, r.channels, ids) {
      OutstandingStops(d.announced, k.ids, at, ids, e);
      if ids != k.ids {
        SameOffers(d.servers, keys, r.servers, Local(Keys(r.services)), d.channels, ids);
      }
    }
  }

  lemma {:induction false} LostShown(d: State, r: State, k: ServiceKey)
    requires FiledInv(d) && Shown(d) && DistinctIds(Keys(d.services)) && Lost(d, r, k)
    requires k.isLocal || k in Keys(d.services)
    ensures Shown(r)
  {
    LostFiled(d, r, k);
    LostOffers(d, r, k);
    StopsKeepNames(d.announced, k.ids, OfferedAt(d.servers, d.channels, k.ids));
  }

  /** Each of the service objects from elsewhere is registered when its turn comes. */
  predicate FindsForeign(registry: seq<ServiceKey>, keys: seq<ServiceKey>)
    decreases |keys|
  {
    keys == [] ||
    ((keys[0].isLocal || keys[0] in registry) && FindsForeign(RemoveFirst(registry, keys[0]), keys[1..]))
  }

  lemma {:induction false} FindsAllForeign(registry: seq<ServiceKey>, keys: seq<ServiceKey>)
    requires Finds(registry, keys)
    ensures FindsForeign(registry, keys)
    decreases |keys|
  {
    if keys != [] {
      FindsAllForeign(RemoveFirst(registry, keys[0]), keys[1..]);
    }
  }

  lemma {:induction false} LoseAllShown(d: State, keys: seq<ServiceKey>)
    requires FiledInv(d) && Shown(d) && DistinctServices(d.services) && ListenerShape(d.listeners)
    requires FindsForeign(Keys(d.services), keys)
    ensures Shown(UnregisterAll(d, keys))
    decreases |keys|
  {
    if keys != [] {
      var d1 := UnregisterService(d, keys[0]);
      UnregisterLoses(d, keys[0]);
      KeysNoDup(d.services);
      LostShown(d, d1, keys[0]);
      LostFiled(d, d1, keys[0]);
      WithoutDistinct(d.services, keys[0]);
      LoseAllShown(d1, keys[1..]);
    }
  }

  // ---- Every event ----

  /** The event takes the service with these IDs, whoever provides it, off its server. */
  ghost predicate Releases(d: State, e: Event, ids: ServiceIDs) {
    ReleasedBy(Withdrawn(d, e), ids)
  }

  predicate IsNew(d: State, ids: ServiceIDs) {
    Find(d.services, ids) == |d.services|
  }

  /** If the event registers a local service that no server has room for, a new server can be opened. */
  predicate InitSucceeds(d: State, e: Event) {
    match e
    case WellKnownRegisters(ids, init) => IsNew(d, ids) ==> CanPlace(d, ServiceKey(d.nextHandle, ids, true), init)
    case ServiceRegisters(_, ids, isLocal, init) =>
      IsNew(d, ids) ==> CanPlace(d, ServiceKey(d.nextHandle, ids, isLocal), init)
    case _ => true
  }

  /**
   How services fare in an event: who is on a server stays there unless the event releases its
   IDs, nobody else gets on a server but a new local service, and that exactly if it can.
   */
  ghost predicate FaresTo(d: State, e: Event, servers: seq<TcpServer>, keys: seq<ServiceKey>) {
    && Filed(servers, Local(keys)) && NobodyMoves(d.servers, servers)
    && (forall x | x in Keys(d.services) :: Held(servers, x) <==> Held(d.servers, x) && !Releases(d, e, x.ids))
    && (forall x | x in Local(keys) && x !in Keys(d.services) :: Held(servers, x) <==> InitSucceeds(d, e))
  }

  ghost predicate Fares(d: State, e: Event, r: State) {
    FaresTo(d, e, r.servers, Keys(r.services))
  }

  lemma {:induction false} SameFares(d: State, e: Event, r: State)
    requires FiledInv(d) && Keys(r.services) == Keys(d.services) && r.servers == d.servers && Withdrawn(d, e) == []
    ensures Fares(d, e, r)
  {
    forall x | x in Local(Keys(r.services)) ensures x in Keys(d.services) {
      LocalMembers(Keys(r.services), x);
    }
  }

  /** A new service is not among the registered ones. */
  lemma {:induction false} GainedFares(d: State, e: Event, r: State, k: ServiceKey, init: Option<seq<EndPoint>>)
    requires FiledInv(d) && Gained(d, r, k, init) && DistinctIds(Keys(r.services)) && Withdrawn(d, e) == []
    requires k.isLocal ==> (InitSucceeds(d, e) <==> Bindable(d.servers, k, init))
    ensures Fares(d, e, r)
  {
    var keys := Keys(d.services);
    GainedFiled(d, r, k, init);
    assert k !in keys by {
      assert Keys(r.services)[|keys|] == k && forall n | 0 <= n < |keys| :: Keys(r.services)[n] == keys[n];
    }
    forall x | x in Local(Keys(r.services)) && x !in keys
      ensures x == k && k.isLocal && !Held(d.servers, x)
    {
      LocalMembers(Keys(r.services), x);
      LocalMembers(keys, x);
    }
  }

  lemma {:induction false} LeavesFares(d: State, e: Event, r: State)
    requires FiledInv(d) && Leaves(d, r, Withdrawn(d, e))
    requires forall x | x in Keys(r.services) :: x in Keys(d.services)
    ensures Fares(d, e, r)
  {
    forall x | x in Local(Keys(r.services)) ensures x in Keys(d.services) {
      LocalMembers(Keys(r.services), x);
    }
  }

  lemma {:induction false} FaresElsewhere(d: State, e: Event, r2: State, r: State)
    requires Fares(d, e, r2) && r.servers == r2.servers && r.services == r2.services
    ensures Fares(d, e, r)
  {
  }

  lemma {:induction false} LostFares(d: State, e: Event, r: State, k: ServiceKey)
    requires FiledInv(d) && Lost(d, r, k) && Withdrawn(d, e) == [k]
    ensures Fares(d, e, r)
  {
    LostFiled(d, r, k);
    forall x | x in Keys(r.services) ensures x in Keys(d.services) {
      RemoveFirstMembers(Keys(d.services), k, x);
    }
    LeavesFares(d, e, r);
  }

  lemma {:induction false} NewDistinct(d: State, k: ServiceKey)
    requires DistinctServices(d.services) && IsNew(d, k.ids)
    ensures DistinctIds(Keys(d.services) + [k])
  {
    var s := Service(k, None);
    AppendDistinct(d.services, s);
    KeysAppend(d.services, s);
    KeysNoDup(d.services + [s]);
  }

  lemma {:induction false} WellKnownGains(d: State, ids: ServiceIDs, init: Option<seq<EndPoint>>)
    requires Inv(d)
    ensures var r, k := RegisterWellKnown(d, ids, init), ServiceKey(d.nextHandle, ids, true);
            if IsNew(d, ids) then Gained(d, r, k, init) && DistinctIds(Keys(r.services)) else SameRegistry(d, r)
  {
    var d1, k := d.(nextHandle := d.nextHandle + 1), ServiceKey(d.nextHandle, ids, true);
    if IsNew(d, ids) {
      var r := RegisterService(d1, Service(k, None), init);
      RegisterGains(d1, Service(k, None), init);
      GainedElsewhere(d, d1, r, r, k, init);
      NewDistinct(d, k);
    }
  }

  lemma {:induction false} RegisterGainsOrNot(
    d: State, c: ClientRef, ids: ServiceIDs, isLocal: bool, init: Option<seq<EndPoint>>)
    requires Inv(d) && IsRegistered(d, c)
    ensures var r, k := ClientRegister(d, c, ids, isLocal, init), ServiceKey(d.nextHandle, ids, isLocal);
            if IsNew(d, ids) then Gained(d, r, k, init) && DistinctIds(Keys(r.services)) else Quiet(d, r)
  {
    RegisterOutcome(d, c, ids, isLocal, init);
    if IsNew(d, ids) {
      NewDistinct(d, ServiceKey(d.nextHandle, ids, isLocal));
    }
  }

  lemma {:induction false} WellKnownFares(d: State, ids: ServiceIDs, init: Option<seq<EndPoint>>)
    requires Inv(d) && FiledInv(d)
    ensures var r := RegisterWellKnown(d, ids, init);
            Fares(d, WellKnownRegisters(ids, init), r) && (Shown(d) ==> Shown(r))
  {
    var e, r, k := WellKnownRegisters(ids, init), RegisterWellKnown(d, ids, init), ServiceKey(d.nextHandle, ids, true);
    WellKnownGains(d, ids, init);
    if IsNew(d, ids) {
      GainedFares(d, e, r, k, init);
      if Shown(d) {
        GainedShown(d, r, k, init);
      }
    } else {
      SameFares(d, e, r);
    }
  }

  lemma {:induction false} RegisterFares(
    d: State, c: ClientRef, ids: ServiceIDs, isLocal: bool, init: Option<seq<EndPoint>>)
    requires Inv(d) && FiledInv(d) && IsRegistered(d, c)
    ensures var r := ClientRegister(d, c, ids, isLocal, init);
            Fares(d, ServiceRegisters(c, ids, isLocal, init), r) && (Shown(d) ==> Shown(r))
  {
    var e, r := ServiceRegisters(c, ids, isLocal, init), ClientRegister(d, c, ids, isLocal, init);
    RegisterGainsOrNot(d, c, ids, isLocal, init);
    if IsNew(d, ids) {
      GainedFares(d, e, r, ServiceKey(d.nextHandle, ids, isLocal), init);
      if Shown(d) {
        GainedShown(d, r, ServiceKey(d.nextHandle, ids, isLocal), init);
      }
    } else {
      SameFares(d, e, r);
    }
  }

  lemma {:induction false} UnregisterFares(d: State, c: ClientRef, ids: ServiceIDs)
    requires Inv(d) && FiledInv(d) && IsRegistered(d, c)
    ensures Fares(d, ServiceUnregisters(c, ids), ClientUnregister(d, c, ids))
  {
    var e, r, keys := ServiceUnregisters(c, ids), ClientUnregister(d, c, ids), d.clients[c].services;
    var i := FirstWith(keys, ids);
    UnregisterOutcome(d, c, ids);
    if i < |keys| {
      LostFares(d, e, r, keys[i]);
    } else {
      SameFares(d, e, r);
    }
  }

  lemma {:induction false} UnregisterShown(d: State, c: ClientRef, ids: ServiceIDs)
    requires Inv(d) && FiledInv(d) && Shown(d) && IsRegistered(d, c)
    requires FindsForeign(Keys(d.services), Withdrawn(d, ServiceUnregisters(c, ids)))
    ensures Shown(ClientUnregister(d, c, ids))
  {
    var keys := d.clients[c].services;
    var i := FirstWith(keys, ids);
    UnregisterOutcome(d, c, ids);
    if i < |keys| {
      KeysNoDup(d.services);
      LostShown(d, ClientUnregister(d, c, ids), keys[i]);
    }
  }

  lemma {:induction false} LoseAllKeys(d: State, keys: seq<ServiceKey>, x: ServiceKey)
    requires ListenerShape(d.listeners) && x in Keys(UnregisterAll(d, keys).services)
    ensures x in Keys(d.services)
    decreases |keys|
  {
    if keys != [] {
      UnregisterLoses(d, keys[0]);
      LoseAllKeys(UnregisterService(d, keys[0]), keys[1..], x);
      RemoveFirstMembers(Keys(d.services), keys[0], x);
    }
  }

  lemma {:induction false} MutedLeaves(d: State, c: ClientRef)
    requires Inv(d) && FiledInv(d) && IsRegistered(d, c)
    ensures var r := UnregisterAll(Muted(d, c), d.clients[c].services);
            Leaves(d, r, Withdrawn(d, ClientDisconnects(c))) && forall x | x in Keys(r.services) :: x in Keys(d.services)
  {
    var d2, keys := Muted(d, c), Withdrawn(d, ClientDisconnects(c));
    assert keys == d.clients[c].services;
    DisconnectOutcome(d, c);
    LoseAllFiled(d2, keys);
    forall x | x in Keys(UnregisterAll(d2, keys).services) ensures x in Keys(d.services) {
      LoseAllKeys(d2, keys, x);
    }
  }

  lemma {:induction false} DisconnectFares(d: State, c: ClientRef)
    requires Inv(d) && FiledInv(d) && IsRegistered(d, c)
    ensures Fares(d, ClientDisconnects(c), Disconnect(d, c))
  {
    var r2 := UnregisterAll(Muted(d, c), d.clients[c].services);
    assert Fares(d, ClientDisconnects(c), r2) by {
      MutedLeaves(d, c);
      LeavesFares(d, ClientDisconnects(c), r2);
    }
    FaresElsewhere(d, ClientDisconnects(c), r2, Disconnect(d, c));
  }

  lemma {:induction false} DisconnectShown(d: State, c: ClientRef)
    requires Inv(d) && FiledInv(d) && Shown(d) && IsRegistered(d, c)
    requires FindsForeign(Keys(d.services), d.clients[c].services)
    ensures Shown(Disconnect(d, c))
  {
    var d2, keys := Muted(d, c), d.clients[c].services;
    DisconnectOutcome(d, c);
    LoseAllShown(d2, keys);
    assert SameRegistry(UnregisterAll(d2, keys), Disconnect(d, c));
  }

  /** Offering again what is offered changes nothing. */
  lemma {:induction false} AgainShown(d: State, n: nat)
    requires Shown(d) && n <= |d.services|
    ensures Shown(AnnounceAgain(d, n))
    decreases |d.services| - n
  {
    if n < |d.services| && d.services[n].key.isLocal {
      var k := d.services[n].key;
      var d1 := OnRegistered(d, AnnouncerListener, k, None);
      forall ids, e ensures Outstanding(d1.announced, ids, e) <==> e in OfferedAt(d1.servers, d1.channels, ids) {
        OutstandingOffers(d.announced, k.ids, OfferedAt(d.servers, d.channels, k.ids), ids, e);
      }
      OffersKeepNames(d.announced, k.ids, OfferedAt(d.servers, d.channels, k.ids));
      AgainShown(d1, n + 1);
    } else if n < |d.services| {
      AgainShown(d, n + 1);
    }
  }

  lemma {:induction false} ChannelsFixed(channels: seq<u32>, events: seq<Event>, states: seq<State>, n: nat)
    requires IsRun(channels, events, states) && n < |states|
    ensures states[n].channels == channels
  {
    if n > 0 {
      ChannelsFixed(channels, events, states, n - 1);
      StepChannels(states[n - 1], events[n - 1]);
    }
  }

  lemma {:induction false} UnregisterAllChannels(d: State, keys: seq<ServiceKey>)
    ensures UnregisterAll(d, keys).channels == d.channels
    decreases |keys|
  {
    if keys != [] {
      UnregisterAllChannels(UnregisterService(d, keys[0]), keys[1..]);
    }
  }

  lemma {:induction false} StepChannels(d: State, e: Event)
    requires Enabled(d, e)
    ensures Step(d, e).channels == d.channels
  {
    match e
    case ClientDisconnects(c) => UnregisterAllChannels(Muted(d, c), d.clients[c].services);
    case _ =>
  }

  predicate SameOffered(d: State, r: State) {
    r.servers == d.servers && r.channels == d.channels && r.announced == d.announced
  }

  lemma {:induction false} StepShown(d: State, e: Event)
    requires Inv(d) && FiledInv(d) && Shown(d) && Enabled(d, e) && FindsForeign(Keys(d.services), Withdrawn(d, e))
    ensures Shown(Step(d, e))
  {
    match e
    case WellKnownRegisters(ids, init) => WellKnownFares(d, ids, init);
    case ServiceRegisters(c, ids, isLocal, init) => RegisterFares(d, c, ids, isLocal, init);
    case ServiceUnregisters(c, ids) => UnregisterShown(d, c, ids);
    case ClientDisconnects(c) => DisconnectShown(d, c);
    case AnnounceTimer => AgainShown(d, 0);
    case ClientConnects(c, isLocal) => assert SameOffered(d, Connect(d, c, isLocal));
    case ClientSubscribes(c, member) => assert SameOffered(d, Subscribe(d, c, member));
    case NotificationSent(member) => assert SameOffered(d, WithNotification(d, member));
    case IdleCleanUp => assert SameOffered(d, CleanUp(d));
  }

  lemma {:induction false} StepFares(d: State, e: Event)
    requires Inv(d) && FiledInv(d) && Enabled(d, e)
    ensures Fares(d, e, Step(d, e))
  {
    match e
    case ClientConnects(c, isLocal) => SameFares(d, e, Connect(d, c, isLocal));
    case WellKnownRegisters(ids, init) => WellKnownFares(d, ids, init);
    case ServiceRegisters(c, ids, isLocal, init) => RegisterFares(d, c, ids, isLocal, init);
    case ServiceUnregisters(c, ids) => UnregisterFares(d, c, ids);
    case ClientSubscribes(c, member) => SameFares(d, e, Subscribe(d, c, member));
    case NotificationSent(member) => SameFares(d, e, WithNotification(d, member));
    case ClientDisconnects(c) => DisconnectFares(d, c);
    case IdleCleanUp => SameFares(d, e, CleanUp(d));
    case AnnounceTimer => SameFares(d, e, AnnounceAgain(d, 0));
  }

  // ---- Runs ----

  lemma {:induction false} RunFiled(channels: seq<u32>, events: seq<Event>, states: seq<State>, n: nat)
    requires IsRun(channels, events, states) && n < |states|
    ensures FiledInv(states[n])
  {
    if n > 0 {
      RunFiled(channels, events, states, n - 1);
      RunKeepsInv(channels, events, states, n - 1);
      StepFares(states[n - 1], events[n - 1]);
    }
  }

  lemma {:induction false} NextFares(channels: seq<u32>, events: seq<Event>, states: seq<State>, n: nat)
    requires IsRun(channels, events, states) && n < |events|
    ensures Fares(states[n], events[n], states[n + 1])
  {
    RunFiled(channels, events, states, n);
    RunKeepsInv(channels, events, states, n);
    StepFares(states[n], events[n]);
  }

  /**
   In every state of every run the servers hold nothing but registered local services, filed
   under their own service IDs, and no service is on two servers.
   */
  lemma {:induction false} ServersHoldRegistered(channels: seq<u32>, events: seq<Event>, states: seq<State>, n: nat)
    requires IsRun(channels, events, states) && n < |states|
    ensures var d := states[n];
            && (forall i, id | 0 <= i < |d.servers| && id in d.servers[i].services ::
                  var k := d.servers[i].services[id];
                  k in Keys(d.services) && k.isLocal && k.ids.serviceID == id)
            && forall i, j, k | 0 <= i < |d.servers| && 0 <= j < |d.servers| &&
                                Holds(d.servers[i], k) && Holds(d.servers[j], k) :: i == j
  {
    RunFiled(channels, events, states, n);
    var d := states[n];
    forall i, id | 0 <= i < |d.servers| && id in d.servers[i].services
      ensures var k := d.servers[i].services[id]; k in Keys(d.services) && k.isLocal && k.ids.serviceID == id
    {
      var k := d.servers[i].services[id];
      assert Holds(d.servers[i], k);
      LocalMembers(Keys(d.services), k);
    }
  }

  ghost predicate RegisteredFrom(states: seq<State>, m: nat, n: nat, k: ServiceKey)
    requires m <= n < |states|
  {
    forall i | m <= i <= n :: k in Keys(states[i].services)
  }

  /** No event from `m` on, before `n`, unregisters a local service object with these IDs. */
  ghost predicate NotReleased(events: seq<Event>, states: seq<State>, m: nat, n: nat, ids: ServiceIDs)
    requires n <= |events| < |states|
  {
    forall i {:trigger events[i]} | m <= i < n :: !Releases(states[i], events[i], ids)
  }

  /** The event leaves this service where it is, or releases it. */
  ghost predicate KeepsOrReleases(d: State, e: Event, r: State, k: ServiceKey) {
    && (Held(r.servers, k) <==> Held(d.servers, k) && !Releases(d, e, k.ids))
    && (Held(r.servers, k) ==> StaysPut(d.servers, r.servers, k))
  }

  lemma {:induction false} NextKeeps(channels: seq<u32>, events: seq<Event>, states: seq<State>, n: nat, k: ServiceKey)
    requires IsRun(channels, events, states) && n < |events| && k in Keys(states[n].services)
    ensures KeepsOrReleases(states[n], events[n], states[n + 1], k)
  {
    NextFares(channels, events, states, n);
  }

  lemma {:induction false} HeldOn(
    channels: seq<u32>, events: seq<Event>, states: seq<State>, m: nat, n: nat, k: ServiceKey)
    requires IsRun(channels, events, states) && m <= n < |states| && RegisteredFrom(states, m, n, k)
    ensures Held(states[n].servers, k) <==>
            Held(states[m].servers, k) && NotReleased(events, states, m, n, k.ids)
    ensures Held(states[n].servers, k) ==> StaysPut(states[m].servers, states[n].servers, k)
  {
    forall i | m <= i < n ensures KeepsOrReleases(states[i], events[i], states[i + 1], k) {
      NextKeeps(channels, events, states, i, k);
    }
    HeldThroughout(events, states, m, n, k);
  }

  lemma {:induction false} HeldThroughout(events: seq<Event>, states: seq<State>, m: nat, n: nat, k: ServiceKey)
    requires m <= n <= |events| < |states|
    requires forall i {:trigger events[i]} | m <= i < n :: KeepsOrReleases(states[i], events[i], states[i + 1], k)
    ensures Held(states[n].servers, k) <==>
            Held(states[m].servers, k) && NotReleased(events, states, m, n, k.ids)
    ensures Held(states[n].servers, k) ==> StaysPut(states[m].servers, states[n].servers, k)
    decreases n - m
  {
    if m < n {
      HeldThroughout(events, states, m, n - 1, k);
      assert KeepsOrReleases(states[n - 1], events[n - 1], states[n], k);
      if Held(states[n].servers, k) {
        PutTrans(states[m].servers, states[n - 1].servers, states[n].servers, k);
      }
    }
  }

  lemma {:induction false} FirstHeld(d: State, e: Event, r: State, k: ServiceKey)
    requires Fares(d, e, r) && k.isLocal && k !in Keys(d.services) && k in Keys(r.services)
    ensures Held(r.servers, k) <==> InitSucceeds(d, e)
  {
    LocalMembers(Keys(r.services), k);
  }

  lemma {:induction false} NextFirst(channels: seq<u32>, events: seq<Event>, states: seq<State>, n: nat, k: ServiceKey)
    requires IsRun(channels, events, states) && n < |events| && k.isLocal
    requires k !in Keys(states[n].services) && k in Keys(states[n + 1].services)
    ensures Held(states[n + 1].servers, k) <==> InitSucceeds(states[n], events[n])
  {
    NextFares(channels, events, states, n);
    FirstHeld(states[n], events[n], states[n + 1], k);
  }

  /**
   The exact condition, in every run: a local service that event `m` registered, and that has
   been registered since, is on a server if and only if it could be placed then and no event
   since has unregistered a local service object with its IDs.
   */
  lemma {:induction false} OnServerIff(
    channels: seq<u32>, events: seq<Event>, states: seq<State>, m: nat, n: nat, k: ServiceKey)
    requires IsRun(channels, events, states) && m < n < |states| && k.isLocal
    requires k !in Keys(states[m].services) && RegisteredFrom(states, m + 1, n, k)
    ensures Held(states[n].servers, k) <==>
            InitSucceeds(states[m], events[m]) && NotReleased(events, states, m + 1, n, k.ids)
  {
    assert Held(states[m + 1].servers, k) <==> InitSucceeds(states[m], events[m]) by {
      NextFirst(channels, events, states, m, k);
    }
    assert Held(states[n].servers, k) <==>
           Held(states[m + 1].servers, k) && NotReleased(events, states, m + 1, n, k.ids) by {
      HeldOn(channels, events, states, m + 1, n, k);
    }
  }

  /** A service on a server keeps its server and its ports until it goes or its IDs are released. */
  lemma {:induction false} EndpointStable(
    channels: seq<u32>, events: seq<Event>, states: seq<State>, m: nat, n: nat, k: ServiceKey)
    requires IsRun(channels, events, states) && m <= n < |states| && RegisteredFrom(states, m, n, k)
    requires Held(states[m].servers, k) && NotReleased(events, states, m, n, k.ids)
    ensures var i := GetEndPoint(states[m].servers, k.ids);
            && i < |states[m].servers| && i < |states[n].servers| && GetEndPoint(states[n].servers, k.ids) == i
            && states[n].servers[i].ports == states[m].servers[i].ports && Holds(states[n].servers[i], k)
  {
    var a, b := states[m], states[n];
    RunFiled(channels, events, states, m);
    RunFiled(channels, events, states, n);
    HeldOn(channels, events, states, m, n, k);
    var j :| 0 <= j < |a.servers| && Holds(a.servers[j], k);
    FoundHolds(a.servers, Local(Keys(a.services)), k, j);
    FoundHolds(b.servers, Local(Keys(b.services)), k, j);
  }

  /** All registered local services are on servers. */
  ghost predicate AllPlaced(d: State) {
    forall k | k in Keys(d.services) && k.isLocal :: Held(d.servers, k)
  }

  /** A local service that stays registered loses its server. */
  ghost predicate Strands(d: State, e: Event, r: State) {
    exists k :: k in Keys(d.services) && k in Keys(r.services) && k.isLocal && Releases(d, e, k.ids)
  }

  /** A new local service has been registered. */
  ghost predicate NewLocal(d: State, r: State) {
    exists k :: k in Keys(r.services) && k.isLocal && k !in Keys(d.services)
  }

  lemma {:induction false} PlacedNext(d: State, e: Event, r: State)
    requires Fares(d, e, r) && AllPlaced(d)
    requires !InitSucceeds(d, e) ==> NewLocal(d, r)
    ensures AllPlaced(r) <==> InitSucceeds(d, e) && !Strands(d, e, r)
  {
    forall k | k in Keys(r.services) && k.isLocal
      ensures Held(r.servers, k) <==> if k in Keys(d.services) then !Releases(d, e, k.ids) else InitSucceeds(d, e)
    {
      LocalMembers(Keys(r.services), k);
    }
  }

  lemma {:induction false} GainedIsNew(d: State, r: State, k: ServiceKey, init: Option<seq<EndPoint>>)
    requires Gained(d, r, k, init) && k.isLocal && DistinctIds(Keys(r.services))
    ensures NewLocal(d, r)
  {
    var keys, all := Keys(d.services), Keys(r.services);
    assert all[|keys|] == k;
    assert k !in keys by { assert forall n | 0 <= n < |keys| :: all[n] == keys[n]; }
  }

  /** Only an event that registers a new local service can lack a server. */
  lemma {:induction false} UnplacedIsNew(d: State, e: Event)
    requires Inv(d) && Enabled(d, e) && !InitSucceeds(d, e)
    ensures NewLocal(d, Step(d, e))
  {
    match e
    case WellKnownRegisters(ids, init) =>
      WellKnownGains(d, ids, init);
      GainedIsNew(d, RegisterWellKnown(d, ids, init), ServiceKey(d.nextHandle, ids, true), init);
    case ServiceRegisters(c, ids, isLocal, init) =>
      RegisterGainsOrNot(d, c, ids, isLocal, init);
      GainedIsNew(d, ClientRegister(d, c, ids, isLocal, init), ServiceKey(d.nextHandle, ids, isLocal), init);
  }

  lemma {:induction false} PlacedNextInRun(channels: seq<u32>, events: seq<Event>, states: seq<State>, i: nat)
    requires IsRun(channels, events, states) && i < |events| && AllPlaced(states[i])
    ensures AllPlaced(states[i + 1]) <==>
            InitSucceeds(states[i], events[i]) && !Strands(states[i], events[i], states[i + 1])
  {
    var d, e, r := states[i], events[i], states[i + 1];
    assert Fares(d, e, r) by { NextFares(channels, events, states, i); }
    if !InitSucceeds(d, e) {
      assert Inv(d) by { RunKeepsInv(channels, events, states, i); }
      UnplacedIsNew(d, e);
    }
    PlacedNext(d, e, r);
  }

  lemma {:induction false} FineThenPlaced(channels: seq<u32>, events: seq<Event>, states: seq<State>, n: nat)
    requires IsRun(channels, events, states) && n < |states|
    requires forall i {:trigger events[i]} | 0 <= i < |events| ::
               InitSucceeds(states[i], events[i]) && !Strands(states[i], events[i], states[i + 1])
    ensures AllPlaced(states[n])
  {
    if n > 0 {
      FineThenPlaced(channels, events, states, n - 1);
      PlacedNextInRun(channels, events, states, n - 1);
    }
  }

  /**
   At every moment of a run all registered local services are on servers if and only if every
   server that was needed could be opened and no event stranded a service.
   */
  lemma {:induction false} AllPlacedIff(channels: seq<u32>, events: seq<Event>, states: seq<State>)
    requires IsRun(channels, events, states)
    ensures (forall n | 0 <= n < |states| :: AllPlaced(states[n])) <==>
            (forall i {:trigger events[i]} | 0 <= i < |events| ::
               InitSucceeds(states[i], events[i]) && !Strands(states[i], events[i], states[i + 1]))
  {
    if forall n | 0 <= n < |states| :: AllPlaced(states[n]) {
      forall i | 0 <= i < |events|
        ensures InitSucceeds(states[i], events[i]) && !Strands(states[i], events[i], states[i + 1])
      {
        assert AllPlaced(states[i]) && AllPlaced(states[i + 1]);
        PlacedNextInRun(channels, events, states, i);
      }
    } else {
      var n :| 0 <= n < |states| && !AllPlaced(states[n]);
      if forall i {:trigger events[i]} | 0 <= i < |events| ::
           InitSucceeds(states[i], events[i]) && !Strands(states[i], events[i], states[i + 1])
      {
        FineThenPlaced(channels, events, states, n);
      }
    }
  }

  ghost predicate ForeignFound(events: seq<Event>, states: seq<State>, n: nat)
    requires n <= |events| < |states|
  {
    forall i {:trigger events[i]} | 0 <= i < n :: FindsForeign(Keys(states[i].services), Withdrawn(states[i], events[i]))
  }

  lemma {:induction false} RunShown(channels: seq<u32>, events: seq<Event>, states: seq<State>, n: nat)
    requires IsRun(channels, events, states) && n < |states| && ForeignFound(events, states, n)
    ensures Shown(states[n])
  {
    if n == 0 {
      assert forall ids :: OfferedAt([], channels, ids) == [];
    } else {
      RunShown(channels, events, states, n - 1);
      RunFiled(channels, events, states, n - 1);
      RunKeepsInv(channels, events, states, n - 1);
      StepShown(states[n - 1], events[n - 1]);
    }
  }

  /**
   What is on offer on the network, that is offered and not withdrawn since, is exactly the
   registered local services on servers, at the ports of their servers: at every moment of
   every run in which no object for a service from elsewhere is unregistered twice.
   */
  lemma {:induction false} OffersMatchRegistry(
    channels: seq<u32>, events: seq<Event>, states: seq<State>, n: nat, ids: ServiceIDs, e: EndPoint)
    requires IsRun(channels, events, states) && n < |states| && ForeignFound(events, states, n)
    ensures var d := states[n];
            Outstanding(d.announced, ids, e) <==>
            exists k, i :: && k in Keys(d.services) && k.isLocal && k.ids == ids && 0 <= i < |d.servers|
                           && Holds(d.servers[i], k) && e in d.servers[i].ports && e.address in channels
  {
    ChannelsFixed(channels, events, states, n);
    RunShown(channels, events, states, n);
    RunFiled(channels, events, states, n);
    var d := states[n];
    var keys := Local(Keys(d.services));
    var i := GetEndPoint(d.servers, ids);
    FoundIsHeld(d.servers, keys, ids);
    if i < |d.servers| {
      var k := d.servers[i].services[ids.serviceID];
      LocalMembers(Keys(d.services), k);
      MatchingMembers(channels, d.servers[i].ports, e);
    }
    forall k: ServiceKey, j | k.ids == ids && 0 <= j < |d.servers| && Holds(d.servers[j], k)
      ensures e in OfferedAt(d.servers, d.channels, ids) <==> e in d.servers[j].ports && e.address in channels
    {
      OfferedWhereHeld(d.servers, keys, d.channels, k, j);
      MatchingMembers(channels, d.servers[j].ports, e);
    }
  }

  /**
   Every stop-offer ever sent, whether the service was given back, its client disconnected or
   it is a well-known one, names an endpoint at which the service was on offer just before.
   */
  lemma {:induction false} EveryStopNamesOffer(channels: seq<u32>, events: seq<Event>, states: seq<State>, n: nat)
    requires IsRun(channels, events, states) && n < |states| && ForeignFound(events, states, n)
    ensures StopsNameOffers(states[n].announced)
  {
    RunShown(channels, events, states, n);
  }

  lemma {:induction false} RegistrationOffered(
    channels: seq<u32>, events: seq<Event>, states: seq<State>, n: nat,
    c: ClientRef, ids: ServiceIDs, init: Option<seq<EndPoint>>)
    requires IsRun(channels, events, states) && n < |events| && events[n] == ServiceRegisters(c, ids, true, init)
    requires IsNew(states[n], ids)
    ensures var k, r := ServiceKey(states[n].nextHandle, ids, true), states[n + 1];
            && k !in Keys(states[n].services) && k in Keys(r.services)
            && r.announced == states[n].announced + Offers(ids, OfferedAt(r.servers, states[n].channels, ids))
  {
    RunKeepsInv(channels, events, states, n);
    NewService(states[n], c, ids, true, init);
    assert forall s | s in states[n].services :: s.key.handle < states[n].nextHandle;
  }

  lemma {:induction false} FirstWithListed(d: State, c: ClientRef, k: ServiceKey)
    requires Inv(d) && IsRegistered(d, c) && Service(k, Some(c)) in d.services && !Misses(d, ServiceUnregisters(c, k.ids))
    ensures var keys := d.clients[c].services;
            FirstWith(keys, k.ids) < |keys| && keys[FirstWith(keys, k.ids)] == k
  {
    var keys := d.clients[c].services;
    assert k in keys;
    var i := FirstWith(keys, k.ids);
    assert i < |keys|;
    UnregisterMisses(d, c, k.ids);
    KeyListed(d.services, Service(k, Some(c)));
    KeysNoDup(d.services);
    SameIdsSameKey(Keys(d.services), keys[i], k);
  }

  lemma {:induction false} UnregistrationStopped(
    channels: seq<u32>, events: seq<Event>, states: seq<State>, n: nat, c: ClientRef, k: ServiceKey)
    requires IsRun(channels, events, states) && n < |events| && events[n] == ServiceUnregisters(c, k.ids)
    requires Service(k, Some(c)) in states[n].services && !Misses(states[n], events[n])
    ensures states[n + 1].announced ==
            states[n].announced + StopOffers(k.ids, OfferedAt(states[n].servers, states[n].channels, k.ids))
  {
    RunKeepsInv(channels, events, states, n);
    FirstWithListed(states[n], c, k);
    UnregisterOutcome(states[n], c, k.ids);
  }

  lemma {:induction false} PlacedOffered(
    channels: seq<u32>, events: seq<Event>, states: seq<State>, m: nat,
    c: ClientRef, ids: ServiceIDs, init: Option<seq<EndPoint>>)
    requires IsRun(channels, events, states) && m < |events| && events[m] == ServiceRegisters(c, ids, true, init)
    requires IsNew(states[m], ids) && InitSucceeds(states[m], events[m])
    ensures Held(states[m + 1].servers, ServiceKey(states[m].nextHandle, ids, true))
    ensures states[m + 1].announced ==
            states[m].announced + Offers(ids, OfferedAt(states[m + 1].servers, channels, ids))
  {
    var k := ServiceKey(states[m].nextHandle, ids, true);
    RegistrationOffered(channels, events, states, m, c, ids, init);
    NextFirst(channels, events, states, m, k);
    ChannelsFixed(channels, events, states, m);
  }

  lemma {:induction false} OfferedAsBefore(
    channels: seq<u32>, events: seq<Event>, states: seq<State>, m: nat, n: nat, k: ServiceKey)
    requires IsRun(channels, events, states) && m <= n < |states| && RegisteredFrom(states, m, n, k)
    requires Held(states[m].servers, k) && NotReleased(events, states, m, n, k.ids)
    ensures var i := GetEndPoint(states[m].servers, k.ids);
            && i < |states[m].servers|
            && OfferedAt(states[m].servers, channels, k.ids) == Matching(channels, states[m].servers[i].ports)
            && OfferedAt(states[n].servers, channels, k.ids) == Matching(channels, states[m].servers[i].ports)
  {
    EndpointStable(channels, events, states, m, n, k);
  }

  /**
   A local service that event `m` registers and places, that stays registered and keeps its
   server, and that event `n` unregisters: the announcer finds its server both times, and it
   withdraws the service exactly where it offered it.
   */
  lemma {:induction false} StopMatchesOffer(
    channels: seq<u32>, events: seq<Event>, states: seq<State>, m: nat, n: nat,
    c: ClientRef, ids: ServiceIDs, init: Option<seq<EndPoint>>)
    requires IsRun(channels, events, states) && m < n < |events|
    requires events[m] == ServiceRegisters(c, ids, true, init) && IsNew(states[m], ids)
    requires InitSucceeds(states[m], events[m]) && NotReleased(events, states, m + 1, n, ids)
    requires RegisteredFrom(states, m + 1, n, ServiceKey(states[m].nextHandle, ids, true))
    requires Service(ServiceKey(states[m].nextHandle, ids, true), Some(c)) in states[n].services
    requires events[n] == ServiceUnregisters(c, ids) && !Misses(states[n], events[n])
    ensures var i := GetEndPoint(states[m + 1].servers, ids);
            && i < |states[m + 1].servers|
            && var at := Matching(channels, states[m + 1].servers[i].ports);
               && states[m + 1].announced == states[m].announced + Offers(ids, at)
               && states[n + 1].announced == states[n].announced + StopOffers(ids, at)
  {
    var k := ServiceKey(states[m].nextHandle, ids, true);
    PlacedOffered(channels, events, states, m, c, ids, init);
    OfferedAsBefore(channels, events, states, m + 1, n, k);
    assert states[n + 1].announced == states[n].announced + StopOffers(ids, OfferedAt(states[n].servers, channels, ids)) by {
      UnregistrationStopped(channels, events, states, n, c, k);
      ChannelsFixed(channels, events, states, n);
    }
  }
}
