/**
 Listening TCP servers and the services published on them (lib/TCPManager.h,
 lib/TCPServer.h). A server holds at most one instance of a service ID.
 */
module Endpoints {
  import opened Bytes
  import opened SomeIp
  import opened Announcements
  import opened Lists

  /** A service object: its identity, its IDs, and whether a local application provides it. */
  datatype ServiceKey = ServiceKey(handle: nat, ids: ServiceIDs, isLocal: bool)

  datatype TcpServer = TcpServer(ports: seq<EndPoint>, services: map<u16, ServiceKey>)

  /** `isServiceRegistered(service)`: compares service and instance ID. */
  predicate Publishes(s: TcpServer, ids: ServiceIDs) {
    ids.serviceID in s.services && s.services[ids.serviceID].ids.instanceID == ids.instanceID
  }

  /** `getEndPoint`: the first server that publishes the service, or the number of servers. */
  function GetEndPoint(servers: seq<TcpServer>, ids: ServiceIDs): (i: nat)
    ensures i <= |servers|
    ensures i < |servers| ==> Publishes(servers[i], ids)
    ensures forall j | 0 <= j < i :: !Publishes(servers[j], ids)
  {
    if servers == [] then 0
    else if Publishes(servers[0], ids) then 0
    else 1 + GetEndPoint(servers[1..], ids)
  }

  /** The last server without an instance of the service ID, or the number of servers. */
  function FreeServer(servers: seq<TcpServer>, serviceID: u16): (i: nat)
    ensures i <= |servers|
    ensures i < |servers| ==> serviceID !in servers[i].services
    ensures i == |servers| ==> forall j | 0 <= j < |servers| :: serviceID in servers[j].services
    ensures forall j | i < j < |servers| :: serviceID in servers[j].services
  {
    if servers == [] then 0
    else
      var last := |servers| - 1;
      if serviceID !in servers[last].services then last
      else
        var i := FreeServer(servers[..last], serviceID);
        if i == last then |servers| else i
  }

  function WithService(s: TcpServer, k: ServiceKey): (r: TcpServer) {
    s.(services := s.services[k.ids.serviceID := k])
  }

  /**
   `bindService`. `init` is the result of opening a new server, if one is needed; when that
   fails the new server is not kept and the service is published nowhere.
   */
  function Bind(servers: seq<TcpServer>, k: ServiceKey, init: Option<seq<EndPoint>>): (r: seq<TcpServer>) {
    var i := FreeServer(servers, k.ids.serviceID);
    if i < |servers| then servers[i := WithService(servers[i], k)]
    else if init.Some? then servers + [WithService(TcpServer(init.value, map[]), k)]
    else servers
  }

  function WithoutService(s: TcpServer, serviceID: u16): (r: TcpServer) {
    s.(services := s.services - {serviceID})
  }

  function Unbind(servers: seq<TcpServer>, k: ServiceKey): (r: seq<TcpServer>) {
    var i := GetEndPoint(servers, k.ids);
    if i < |servers| then servers[i := WithoutService(servers[i], k.ids.serviceID)] else servers
  }

  class TcpManager {
    var servers: seq<TcpServer>

    constructor ()
      ensures servers == []
    {
      servers := [];
    }

    method GetEndPointOf(ids: ServiceIDs) returns (i: nat)
      ensures i == GetEndPoint(servers, ids)
    {
      i := 0;
      while i < |servers|
        invariant 0 <= i <= |servers|
        invariant forall j | 0 <= j < i :: !Publishes(servers[j], ids)
      {
        if Publishes(servers[i], ids) {
          return;
        }
        i := i + 1;
      }
    }

    method BindService(k: ServiceKey, init: Option<seq<EndPoint>>)
      modifies this
      ensures servers == Bind(old(servers), k, init)
    {
      var availableServer := |servers|;
      var i := 0;
      while i < |servers|
        invariant 0 <= i <= |servers| && servers == old(servers) && 0 <= availableServer <= |servers|
        invariant availableServer < |servers| ==> k.ids.serviceID !in servers[availableServer].services
        invariant forall j | 0 <= j < i && (availableServer == |servers| || j > availableServer) ::
          k.ids.serviceID in servers[j].services
      {
        if k.ids.serviceID !in servers[i].services {
          availableServer := i;
        }
        i := i + 1;
      }
      if availableServer < |servers| {
        servers := servers[availableServer := WithService(servers[availableServer], k)];
      } else if init.Some? {
        servers := servers + [WithService(TcpServer(init.value, map[]), k)];
      }
    }

    method OnServiceRegistered(k: ServiceKey, init: Option<seq<EndPoint>>)
      modifies this
      ensures servers == if k.isLocal then Bind(old(servers), k, init) else old(servers)
    {
      if k.isLocal {
        BindService(k, init);
      }
    }

    method OnServiceUnregistered(k: ServiceKey)
      modifies this
      ensures servers == if k.isLocal then Unbind(old(servers), k) else old(servers)
    {
      if k.isLocal {
        var i := GetEndPointOf(k.ids);
        if i < |servers| {
          servers := servers[i := WithoutService(servers[i], k.ids.serviceID)];
        }
      }
    }
  }

  // ---- What binding keeps ----

  predicate Holds(s: TcpServer, k: ServiceKey) {
    k.ids.serviceID in s.services && s.services[k.ids.serviceID] == k
  }

  ghost predicate DistinctIds(keys: seq<ServiceKey>) {
    forall i, j | 0 <= i < j < |keys| :: keys[i].ids != keys[j].ids
  }

  /** How many servers hold an instance of a service ID. */
  function HoldCount(servers: seq<TcpServer>, serviceID: u16): (n: nat)
    ensures n <= |servers|
  {
    if servers == [] then 0
    else HoldCount(servers[..|servers| - 1], serviceID) +
         if serviceID in servers[|servers| - 1].services then 1 else 0
  }

  /** How many of the services have a service ID. */
  function IdCount(keys: seq<ServiceKey>, serviceID: u16): (n: nat) {
    if keys == [] then 0 else (if keys[0].ids.serviceID == serviceID then 1 else 0) + IdCount(keys[1..], serviceID)
  }

  /** Services are filed under their own service ID. */
  ghost predicate WellFiled(servers: seq<TcpServer>) {
    forall i, id | 0 <= i < |servers| && id in servers[i].services :: servers[i].services[id].ids.serviceID == id
  }

  ghost predicate OnlyKnown(servers: seq<TcpServer>, keys: seq<ServiceKey>) {
    forall i, k | 0 <= i < |servers| && Holds(servers[i], k) :: k in keys
  }

  ghost predicate AllHeld(servers: seq<TcpServer>, keys: seq<ServiceKey>) {
    forall k | k in keys :: exists i :: 0 <= i < |servers| && Holds(servers[i], k)
  }

  ghost predicate HeldOnce(servers: seq<TcpServer>) {
    forall i, j, k | 0 <= i < j < |servers| && Holds(servers[i], k) :: !Holds(servers[j], k)
  }

  ghost predicate SameCounts(servers: seq<TcpServer>, keys: seq<ServiceKey>) {
    forall id: u16 :: HoldCount(servers, id) == IdCount(keys, id)
  }

  /** Each service is on exactly one server, and the servers hold nothing else. */
  ghost predicate Placed(servers: seq<TcpServer>, keys: seq<ServiceKey>) {
    && DistinctIds(keys) && WellFiled(servers) && OnlyKnown(servers, keys) && AllHeld(servers, keys) && HeldOnce(servers)
    && SameCounts(servers, keys)
  }

  /** The lookup finds the server that holds the service. */
  lemma {:induction false} GetEndPointHolds(servers: seq<TcpServer>, keys: seq<ServiceKey>, k: ServiceKey)
    requires Placed(servers, keys) && k in keys
    ensures GetEndPoint(servers, k.ids) < |servers| && Holds(servers[GetEndPoint(servers, k.ids)], k)
  {
    var i := GetEndPoint(servers, k.ids);
    var j :| 0 <= j < |servers| && Holds(servers[j], k);
    assert Publishes(servers[j], k.ids);
    var found := servers[i].services[k.ids.serviceID];
    assert Holds(servers[i], found) && found.ids == k.ids;
    SameIdsSameKey(keys, found, k);
  }

  lemma {:induction false} SameIdsSameKey(keys: seq<ServiceKey>, a: ServiceKey, b: ServiceKey)
    requires DistinctIds(keys) && a in keys && b in keys && a.ids == b.ids
    ensures a == b
  {
    var i :| 0 <= i < |keys| && keys[i] == a;
    var j :| 0 <= j < |keys| && keys[j] == b;
  }

  lemma {:induction false} HoldCountUpdate(servers: seq<TcpServer>, i: nat, s: TcpServer, id: u16)
    requires i < |servers|
    ensures HoldCount(servers[i := s], id) ==
            HoldCount(servers, id) - (if id in servers[i].services then 1 else 0) + (if id in s.services then 1 else 0)
  {
    var last := |servers| - 1;
    if i < last {
      HoldCountUpdate(servers[..last], i, s, id);
      assert servers[i := s][..last] == servers[..last][i := s];
    } else {
      assert servers[i := s][..last] == servers[..last];
    }
  }

  lemma {:induction false} HoldCountAppend(servers: seq<TcpServer>, s: TcpServer, id: u16)
    ensures HoldCount(servers + [s], id) == HoldCount(servers, id) + if id in s.services then 1 else 0
  {
    assert (servers + [s])[..|servers|] == servers;
  }

  lemma {:induction false} HoldCountFull(servers: seq<TcpServer>, id: u16)
    ensures HoldCount(servers, id) == |servers| <==> forall i | 0 <= i < |servers| :: id in servers[i].services
  {
    if servers != [] {
      HoldCountFull(servers[..|servers| - 1], id);
    }
  }

  lemma {:induction false} IdCountAppend(keys: seq<ServiceKey>, k: ServiceKey, id: u16)
    ensures IdCount(keys + [k], id) == IdCount(keys, id) + if k.ids.serviceID == id then 1 else 0
  {
    if keys == [] {
      assert keys + [k] == [k] && [k][1..] == [];
    } else {
      assert (keys + [k])[1..] == keys[1..] + [k];
      IdCountAppend(keys[1..], k, id);
    }
  }

  lemma {:induction false} IdCountRemove(keys: seq<ServiceKey>, k: ServiceKey, id: u16)
    requires k in keys
    ensures IdCount(RemoveFirst(keys, k), id) == IdCount(keys, id) - if k.ids.serviceID == id then 1 else 0
  {
    if keys[0] != k {
      assert k in keys[1..];
      IdCountRemove(keys[1..], k, id);
      assert ([keys[0]] + RemoveFirst(keys[1..], k))[1..] == RemoveFirst(keys[1..], k);
    }
  }

  /** Services that stay keep their server, whatever is bound or unbound. */
  ghost predicate SamePlaces(before: seq<TcpServer>, after: seq<TcpServer>, keys: seq<ServiceKey>) {
    && |before| <= |after|
    && forall i | 0 <= i < |before| ::
         before[i].ports == after[i].ports && forall k | k in keys && Holds(before[i], k) :: Holds(after[i], k)
  }

  /** Some server has no instance of the service ID, or a new one can be opened. */
  predicate Bindable(servers: seq<TcpServer>, k: ServiceKey, init: Option<seq<EndPoint>>) {
    init.Some? || FreeServer(servers, k.ids.serviceID) < |servers|
  }

  /** Binding adds one service to one server. */
  lemma {:induction false} HoldsAfterBind(
    servers: seq<TcpServer>, k: ServiceKey, init: Option<seq<EndPoint>>, j: nat, c: ServiceKey)
    requires Bindable(servers, k, init) && j < |Bind(servers, k, init)|
    ensures Holds(Bind(servers, k, init)[j], c) <==>
            (j < |servers| && Holds(servers[j], c)) || (c == k && j == FreeServer(servers, k.ids.serviceID))
  {
  }

  lemma {:induction false} BindPlaces(
    servers: seq<TcpServer>, keys: seq<ServiceKey>, k: ServiceKey, init: Option<seq<EndPoint>>)
    requires Placed(servers, keys) && DistinctIds(keys + [k]) && Bindable(servers, k, init)
    ensures var r := Bind(servers, k, init);
            && WellFiled(r) && OnlyKnown(r, keys + [k]) && AllHeld(r, keys + [k]) && HeldOnce(r)
            && SamePlaces(servers, r, keys)
  {
    var r, all := Bind(servers, k, init), keys + [k];
    var i := FreeServer(servers, k.ids.serviceID);
    forall j, c | 0 <= j < |r|
      ensures Holds(r[j], c) <==> (j < |servers| && Holds(servers[j], c)) || (c == k && j == i)
    {
      HoldsAfterBind(servers, k, init, j, c);
    }
    assert k !in keys by { assert all[|keys|] == k && forall n | 0 <= n < |keys| :: all[n] == keys[n]; }
    assert forall c :: c in all <==> c in keys || c == k;
    forall c | c in all ensures exists j :: 0 <= j < |r| && Holds(r[j], c) {
      if c == k {
        assert Holds(r[i], c);
      } else {
        var j :| 0 <= j < |servers| && Holds(servers[j], c);
        assert Holds(r[j], c);
      }
    }
  }

  /**
   Binding keeps every service on exactly one server and at most one instance per service ID
   on a server. It opens a server exactly when every server has an instance of the ID.
   */
  lemma {:induction false} BindKeepsPlaced(
    servers: seq<TcpServer>, keys: seq<ServiceKey>, k: ServiceKey, init: Option<seq<EndPoint>>)
    requires Placed(servers, keys) && DistinctIds(keys + [k]) && Bindable(servers, k, init)
    ensures var r := Bind(servers, k, init);
            && Placed(r, keys + [k]) && SamePlaces(servers, r, keys)
            && (|r| == |servers| || (|r| == |servers| + 1 && IdCount(keys + [k], k.ids.serviceID) == |r|))
  {
    var r := Bind(servers, k, init);
    var i := FreeServer(servers, k.ids.serviceID);
    BindPlaces(servers, keys, k, init);
    forall id: u16 ensures HoldCount(r, id) == IdCount(keys + [k], id) {
      IdCountAppend(keys, k, id);
      if i < |servers| {
        HoldCountUpdate(servers, i, WithService(servers[i], k), id);
      } else {
        HoldCountAppend(servers, WithService(TcpServer(init.value, map[]), k), id);
      }
    }
    HoldCountFull(servers, k.ids.serviceID);
  }

  /** The new service is placed too exactly when it can be; otherwise nothing changes. */
  lemma {:induction false} BindPlacesIff(
    servers: seq<TcpServer>, keys: seq<ServiceKey>, k: ServiceKey, init: Option<seq<EndPoint>>)
    requires Placed(servers, keys) && DistinctIds(keys + [k])
    ensures Placed(Bind(servers, k, init), keys + [k]) <==>
            init.Some? || exists i :: 0 <= i < |servers| && k.ids.serviceID !in servers[i].services
    ensures !Bindable(servers, k, init) ==> Bind(servers, k, init) == servers
  {
    var i := FreeServer(servers, k.ids.serviceID);
    if Bindable(servers, k, init) {
      BindKeepsPlaced(servers, keys, k, init);
      assert i < |servers| ==> k.ids.serviceID !in servers[i].services;
    } else {
      var id := k.ids.serviceID;
      IdCountAppend(keys, k, id);
      assert HoldCount(servers, id) == IdCount(keys, id);
      assert IdCount(keys + [k], id) != HoldCount(servers, id);
    }
  }

  /** Unbinding takes one service off one server. */
  lemma {:induction false} HoldsAfterUnbind(
    servers: seq<TcpServer>, keys: seq<ServiceKey>, k: ServiceKey, j: nat, c: ServiceKey)
    requires Placed(servers, keys) && k in keys && j < |servers|
    ensures |Unbind(servers, k)| == |servers|
    ensures Holds(Unbind(servers, k)[j], c) <==> Holds(servers[j], c) && c != k
  {
    var i := GetEndPoint(servers, k.ids);
    GetEndPointHolds(servers, keys, k);
    if j != i && Holds(servers[j], c) {
      assert c != k by {
        if c == k {
          HeldAt(servers, i, j, k);
        }
      }
    }
  }

  lemma {:induction false} UnbindPlaces(servers: seq<TcpServer>, keys: seq<ServiceKey>, k: ServiceKey)
    requires Placed(servers, keys) && k in keys
    ensures var r := Unbind(servers, k);
            var rest := RemoveFirst(keys, k);
            && DistinctIds(rest) && WellFiled(r) && OnlyKnown(r, rest) && AllHeld(r, rest) && HeldOnce(r)
            && SamePlaces(servers, r, rest) && |r| == |servers|
  {
    var r, rest := Unbind(servers, k), RemoveFirst(keys, k);
    RemovedKeys(keys, k);
    forall j, c | 0 <= j < |servers| ensures |r| == |servers| && (Holds(r[j], c) <==> Holds(servers[j], c) && c != k) {
      HoldsAfterUnbind(servers, keys, k, j, c);
    }
    forall c | c in rest ensures exists j :: 0 <= j < |r| && Holds(r[j], c) {
      var j :| 0 <= j < |servers| && Holds(servers[j], c);
      assert Holds(r[j], c);
    }
  }

  /** Unbinding takes away that one service and closes no server. */
  lemma {:induction false} UnbindKeepsPlaced(servers: seq<TcpServer>, keys: seq<ServiceKey>, k: ServiceKey)
    requires Placed(servers, keys) && k in keys
    ensures var r := Unbind(servers, k);
            Placed(r, RemoveFirst(keys, k)) && SamePlaces(servers, r, RemoveFirst(keys, k)) && |r| == |servers|
  {
    var r, rest := Unbind(servers, k), RemoveFirst(keys, k);
    var i := GetEndPoint(servers, k.ids);
    UnbindPlaces(servers, keys, k);
    GetEndPointHolds(servers, keys, k);
    forall id: u16 ensures HoldCount(r, id) == IdCount(rest, id) {
      IdCountRemove(keys, k, id);
      HoldCountUpdate(servers, i, WithoutService(servers[i], k.ids.serviceID), id);
    }
  }

  lemma {:induction false} HeldAt(servers: seq<TcpServer>, i: nat, j: nat, k: ServiceKey)
    requires HeldOnce(servers) && i < |servers| && j < |servers| && Holds(servers[i], k) && Holds(servers[j], k)
    ensures i == j
  {
  }

  lemma {:induction false} RemovedKeys(keys: seq<ServiceKey>, k: ServiceKey)
    requires DistinctIds(keys) && k in keys
    ensures DistinctIds(RemoveFirst(keys, k))
    ensures forall c :: c in RemoveFirst(keys, k) <==> c in keys && c != k
  {
    var i :| 0 <= i < |keys| && keys[i] == k;
    RemoveFirstAt(keys, i);
    var r := keys[..i] + keys[i + 1..];
    assert forall j | 0 <= j < |r| :: r[j] == keys[if j < i then j else j + 1];
    forall c ensures c in RemoveFirst(keys, k) <==> c in keys && c != k {
      RemoveFirstMembers(keys, k, c);
    }
  }
}
