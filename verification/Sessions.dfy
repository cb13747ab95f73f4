/**
 Session IDs and reboot detection: `assignUniqueSessionID` (lib/ServiceDiscovery.h), the
 receiver's `RebootInformation` (lib/TCPClient.h) and the table of remote clients that owns it
 (lib/TCPManager.cpp).
 */
module Sessions {
  import opened Bytes
  import opened Announcements

  // ---- The sender ----

  datatype Stamp = Stamp(session: u16, reboot: bool)

  datatype Counters = Counters(multicast: Stamp, unicast: Stamp)

  /** The static counters of a process that has just started. */
  const Started: Counters := Counters(Stamp(1, true), Stamp(1, true))

  /** The 16-bit counter skips zero when it wraps, and the reboot flag is then cleared. */
  function Next(s: Stamp): (r: Stamp) {
    var id := (s.session + 1) % 0x1_0000;
    if id == 0 then Stamp(1, false) else Stamp(id, s.reboot)
  }

  class SessionCounter {
    var nextMulticastSessionID: u16
    var nextUnicastSessionID: u16
    var multicastReboot: bool
    var unicastReboot: bool

    function Model(): (c: Counters)
      reads this
    {
      Counters(Stamp(nextMulticastSessionID, multicastReboot), Stamp(nextUnicastSessionID, unicastReboot))
    }

    constructor ()
      ensures Model() == Started
    {
      nextMulticastSessionID, nextUnicastSessionID := 1, 1;
      multicastReboot, unicastReboot := true, true;
    }

    method AssignUniqueSessionID(unicast: bool) returns (stamp: Stamp)
      modifies this
      ensures stamp == if unicast then old(Model()).unicast else old(Model()).multicast
      ensures Model() == Advance(old(Model()), unicast)
    {
      if unicast {
        stamp := Stamp(nextUnicastSessionID, unicastReboot);
        nextUnicastSessionID := (nextUnicastSessionID + 1) % 0x1_0000;
        if nextUnicastSessionID == 0 {
          nextUnicastSessionID := 1;
          unicastReboot := false;
        }
      } else {
        stamp := Stamp(nextMulticastSessionID, multicastReboot);
        nextMulticastSessionID := (nextMulticastSessionID + 1) % 0x1_0000;
        if nextMulticastSessionID == 0 {
          nextMulticastSessionID := 1;
          multicastReboot := false;
        }
      }
    }
  }

  function Advance(c: Counters, unicast: bool): (r: Counters) {
    if unicast then c.(unicast := Next(c.unicast)) else c.(multicast := Next(c.multicast))
  }

  /** The counters after sending messages, each unicast or multicast. */
  function After(casts: seq<bool>): (c: Counters) {
    if casts == [] then Started else Advance(After(casts[..|casts| - 1]), casts[|casts| - 1])
  }

  function Count(casts: seq<bool>, unicast: bool): (n: nat) {
    if casts == [] then 0
    else Count(casts[..|casts| - 1], unicast) + if casts[|casts| - 1] == unicast then 1 else 0
  }

  /** What the n-th message of one kind carries, counting from one. */
  function StampOf(n: nat): (s: Stamp)
    requires n >= 1
  {
    Stamp((n - 1) % 65535 + 1, n <= 65535)
  }

  /**
   Whatever is sent in between, the next message of each kind is the n-th one of its kind and
   carries session ((n - 1) mod 65535) + 1, with the reboot flag exactly up to 65535.
   */
  lemma {:induction false} NthMessage(casts: seq<bool>)
    ensures After(casts).multicast == StampOf(Count(casts, false) + 1)
    ensures After(casts).unicast == StampOf(Count(casts, true) + 1)
  {
    if casts != [] {
      var before := casts[..|casts| - 1];
      NthMessage(before);
      NextStamp(Count(before, false) + 1);
      NextStamp(Count(before, true) + 1);
    }
  }

  lemma {:induction false} NextStamp(n: nat)
    requires n >= 1
    ensures Next(StampOf(n)) == StampOf(n + 1)
  {
    var q, r := (n - 1) / 65535, (n - 1) % 65535;
    if r == 65534 {
      assert n == 65535 * (q + 1);
    } else {
      assert n == 65535 * q + (r + 1);
    }
  }

  // ---- The receiver ----

  /** `m_lastReceivedSessionID` of the client for one remote endpoint. */
  datatype RemoteClient = RemoteClient(server: EndPoint, last: nat)

  ghost predicate Distinct(table: seq<RemoteClient>) {
    forall i, j | 0 <= i < j < |table| :: table[i].server != table[j].server
  }

  /** `getOrCreateClient`: the loop keeps the last match. */
  function Find(table: seq<RemoteClient>, p: EndPoint): (i: nat)
    ensures i <= |table| && (i < |table| ==> table[i].server == p)
    ensures i == |table| ==> forall j | 0 <= j < |table| :: table[j].server != p
  {
    if table == [] then 0
    else if table[|table| - 1].server == p then |table| - 1
    else
      var i := Find(table[..|table| - 1], p);
      if i == |table| - 1 then |table| else i
  }

  function GetOrCreate(table: seq<RemoteClient>, p: EndPoint): (r: seq<RemoteClient>) {
    if Find(table, p) < |table| then table else table + [RemoteClient(p, 0)]
  }

  datatype Handled = Handled(table: seq<RemoteClient>, rebooted: bool)

  /**
   An offer or stop-offer arrives. A detected reboot removes the client; an offer then
   creates it again, with nothing remembered.
   */
  function Handle(table: seq<RemoteClient>, p: EndPoint, stamp: Stamp, available: bool): (h: Handled) {
    var t := GetOrCreate(table, p);
    var i := Find(t, p);
    if i == |t| then Handled(t, false)
    else if stamp.reboot && stamp.session < t[i].last then
      var removed := t[..i] + t[i + 1..];
      Handled(if available then GetOrCreate(removed, p) else removed, true)
    else Handled(t[i := RemoteClient(p, stamp.session)], false)
  }

  class RemoteClients {
    var clients: seq<RemoteClient>

    constructor ()
      ensures clients == []
    {
      clients := [];
    }

    method GetOrCreateClient(p: EndPoint) returns (index: nat)
      requires Distinct(clients)
      modifies this
      ensures Distinct(clients) && clients == GetOrCreate(old(clients), p)
      ensures index < |clients| && index == Find(clients, p)
    {
      index := |clients|;
      var i := 0;
      while i < |clients|
        invariant 0 <= i <= |clients| && clients == old(clients)
        invariant index < |clients| ==> clients[index].server == p
        invariant index == |clients| <==> forall j | 0 <= j < i :: clients[j].server != p
        invariant index <= |clients|
      {
        if clients[i].server == p {
          index := i;
        }
        i := i + 1;
      }
      if index == |clients| {
        clients := clients + [RemoteClient(p, 0)];
      }
    }

    method OnClientReboot(index: nat)
      requires index < |clients| && Distinct(clients)
      modifies this
      ensures Distinct(clients) && clients == old(clients)[..index] + old(clients)[index + 1..]
    {
      clients := clients[..index] + clients[index + 1..];
    }

    /** `onRemoteServiceAvailable` and `onRemoteServiceUnavailable`, up to the registration itself. */
    method OnRemoteService(p: EndPoint, stamp: Stamp, available: bool) returns (rebooted: bool)
      requires Distinct(clients)
      modifies this
      ensures Distinct(clients) && Handled(clients, rebooted) == Handle(old(clients), p, stamp, available)
    {
      var index := GetOrCreateClient(p);
      rebooted := stamp.reboot && stamp.session < clients[index].last;
      clients := clients[index := RemoteClient(p, stamp.session)];
      if rebooted {
        ghost var t := GetOrCreate(old(clients), p);
        OnClientReboot(index);
        assert clients == t[..index] + t[index + 1..];
        if available {
          var _ := GetOrCreateClient(p);
        }
      }
    }
  }

  /** What is remembered of an endpoint; an unknown one counts as zero. */
  function Last(table: seq<RemoteClient>, p: EndPoint): (n: nat) {
    var i := Find(table, p);
    if i < |table| then table[i].last else 0
  }

  lemma {:induction false} LastIs(table: seq<RemoteClient>, i: nat)
    requires Distinct(table) && i < |table|
    ensures Last(table, table[i].server) == table[i].last
  {
    var j := Find(table, table[i].server);
    assert table[j].server == table[i].server;
  }

  lemma {:induction false} LastAbsent(table: seq<RemoteClient>, p: EndPoint)
    requires forall j | 0 <= j < |table| :: table[j].server != p
    ensures Last(table, p) == 0
  {
  }

  /** Two tables that agree on the entries of an endpoint remember the same of it. */
  lemma {:induction false} LastSame(t: seq<RemoteClient>, u: seq<RemoteClient>, q: EndPoint)
    requires Distinct(t) && Distinct(u)
    requires forall c: RemoteClient | c.server == q :: c in t <==> c in u
    ensures Last(t, q) == Last(u, q)
  {
    var i := Find(t, q);
    if i < |t| {
      assert t[i] in u;
      var j :| 0 <= j < |u| && u[j] == t[i];
      LastIs(u, j);
    } else {
      assert forall c: RemoteClient | c in t :: c.server != q;
      assert forall c: RemoteClient | c in u :: c.server != q;
      LastAbsent(u, q);
    }
  }

  lemma {:induction false} GetOrCreateKeeps(table: seq<RemoteClient>, p: EndPoint, q: EndPoint)
    requires Distinct(table)
    ensures Distinct(GetOrCreate(table, p)) && Last(GetOrCreate(table, p), q) == Last(table, q)
  {
    var t := GetOrCreate(table, p);
    if t != table {
      if q == p {
        LastIs(t, |table|);
      } else {
        LastSame(table, t, q);
      }
    }
  }

  /** A reboot is seen against what is remembered; afterwards nothing or this session is. */
  lemma {:induction false} HandleRemembers(table: seq<RemoteClient>, p: EndPoint, stamp: Stamp, available: bool, q: EndPoint)
    requires Distinct(table)
    ensures var h := Handle(table, p, stamp, available);
            && Distinct(h.table)
            && (h.rebooted <==> stamp.reboot && stamp.session < Last(table, p))
            && Last(h.table, q) == if q != p then Last(table, q) else if h.rebooted then 0 else stamp.session
  {
    GetOrCreateKeeps(table, p, p);
    GetOrCreateKeeps(table, p, q);
    var t := GetOrCreate(table, p);
    var i := Find(t, p);
    LastIs(t, i);
    var h := Handle(table, p, stamp, available);
    if h.rebooted {
      var removed := t[..i] + t[i + 1..];
      assert forall j | 0 <= j < |removed| :: removed[j] == if j < i then t[j] else t[j + 1];
      RemovedKeeps(t, i, q);
      GetOrCreateKeeps(removed, p, q);
    } else {
      UpdatedKeeps(t, i, stamp.session, q);
    }
  }

  lemma {:induction false} RemovedKeeps(t: seq<RemoteClient>, i: nat, q: EndPoint)
    requires Distinct(t) && i < |t|
    ensures Distinct(t[..i] + t[i + 1..])
    ensures Last(t[..i] + t[i + 1..], q) == if q == t[i].server then 0 else Last(t, q)
  {
    var u := t[..i] + t[i + 1..];
    forall j | 0 <= j < |u| ensures u[j] == t[if j < i then j else j + 1] {
    }
    if q == t[i].server {
      LastAbsent(u, q);
    } else {
      forall c: RemoteClient | c.server == q ensures c in t <==> c in u {
        if c in t {
          var j :| 0 <= j < |t| && t[j] == c;
          assert u[if j < i then j else j - 1] == c;
        }
      }
      LastSame(t, u, q);
    }
  }

  lemma {:induction false} UpdatedKeeps(t: seq<RemoteClient>, i: nat, session: nat, q: EndPoint)
    requires Distinct(t) && i < |t|
    ensures Distinct(t[i := RemoteClient(t[i].server, session)])
    ensures Last(t[i := RemoteClient(t[i].server, session)], q) == if q == t[i].server then session else Last(t, q)
  {
    var u := t[i := RemoteClient(t[i].server, session)];
    if q == t[i].server {
      LastIs(u, i);
    } else {
      forall c: RemoteClient | c.server == q ensures c in t <==> c in u {
        if c in t {
          var j :| 0 <= j < |t| && t[j] == c;
          assert u[j] == c;
        }
        if c in u {
          var j :| 0 <= j < |u| && u[j] == c;
          assert t[j] == c;
        }
      }
      LastSame(t, u, q);
    }
  }

  lemma {:induction false} GetOrCreateEntries(table: seq<RemoteClient>, p: EndPoint, c: RemoteClient)
    ensures c in GetOrCreate(table, p) <==>
            c in table || (c == RemoteClient(p, 0) && forall x | x in table :: x.server != p)
  {
    if Find(table, p) < |table| {
      assert table[Find(table, p)] in table;
    } else {
      assert forall x | x in table :: x.server != p;
    }
  }

  lemma {:induction false} RemovedEntries(t: seq<RemoteClient>, i: nat, c: RemoteClient)
    requires Distinct(t) && i < |t|
    ensures c in t[..i] + t[i + 1..] <==> c in t && c.server != t[i].server
  {
    var u := t[..i] + t[i + 1..];
    assert forall j | 0 <= j < |u| :: u[j] == t[if j < i then j else j + 1];
    if c in t && c.server != t[i].server {
      var j :| 0 <= j < |t| && t[j] == c;
      assert u[if j < i then j else j - 1] == c;
    }
  }

  lemma {:induction false} UpdatedEntries(t: seq<RemoteClient>, i: nat, session: nat, c: RemoteClient)
    requires Distinct(t) && i < |t|
    ensures c in t[i := RemoteClient(t[i].server, session)] <==>
            if c.server == t[i].server then c.last == session else c in t
  {
    var u := t[i := RemoteClient(t[i].server, session)];
    assert u[i] == RemoteClient(t[i].server, session);
    if c.server != t[i].server && c in t {
      var j :| 0 <= j < |t| && t[j] == c;
      assert u[j] == c;
    }
    if c in u {
      var j :| 0 <= j < |u| && u[j] == c;
      assert j != i ==> t[j] == c;
    }
  }

  /**
   The table after an offer or stop-offer: the endpoint has an entry, with nothing remembered if
   this was taken for a reboot and with this session otherwise; only a stop-offer taken for a
   reboot leaves it without one. All other entries are as before.
   */
  lemma {:induction false} HandleEntries(
    table: seq<RemoteClient>, p: EndPoint, stamp: Stamp, available: bool, c: RemoteClient)
    requires Distinct(table)
    ensures var h := Handle(table, p, stamp, available);
            c in h.table <==>
            if c.server != p then c in table
            else (available || !h.rebooted) && c.last == if h.rebooted then 0 else stamp.session
  {
    var t, h := GetOrCreate(table, p), Handle(table, p, stamp, available);
    var i := Find(t, p);
    GetOrCreateKeeps(table, p, p);
    GetOrCreateEntries(table, p, c);
    if h.rebooted {
      var removed := t[..i] + t[i + 1..];
      RemovedEntries(t, i, c);
      assert forall j | 0 <= j < |removed| :: removed[j] == if j < i then t[j] else t[j + 1];
      GetOrCreateEntries(removed, p, c);
    } else {
      UpdatedEntries(t, i, stamp.session, c);
    }
  }

  // ---- Whole runs ----

  /** A message received: which endpoint, which life of its sender, and its number in that life. */
  datatype Receipt = Receipt(from: EndPoint, life: nat, n: nat, available: bool)

  /** Messages of one sender are received in order, with any losses and repetitions. */
  ghost predicate InOrder(receipts: seq<Receipt>) {
    && (forall i | 0 <= i < |receipts| :: receipts[i].n >= 1)
    && forall i, j | 0 <= i < j < |receipts| && receipts[i].from == receipts[j].from ::
         receipts[i].life < receipts[j].life || (receipts[i].life == receipts[j].life && receipts[i].n <= receipts[j].n)
  }

  /** The table after the receipts, and which of them were taken for reboots. */
  datatype History = History(table: seq<RemoteClient>, rebooted: seq<bool>)

  function Process(receipts: seq<Receipt>): (h: History)
    requires forall i | 0 <= i < |receipts| :: receipts[i].n >= 1
    ensures |h.rebooted| == |receipts|
  {
    if receipts == [] then History([], [])
    else
      var before := Process(receipts[..|receipts| - 1]);
      var r := receipts[|receipts| - 1];
      var h := Handle(before.table, r.from, StampOf(r.n), r.available);
      History(h.table, before.rebooted + [h.rebooted])
  }

  /** The last receipt from `p` before position `i`, or `i` if there is none. */
  function Previous(receipts: seq<Receipt>, i: nat, p: EndPoint): (j: nat)
    requires i <= |receipts|
    ensures j <= i && (j < i ==> receipts[j].from == p)
  {
    if i == 0 then 0
    else if receipts[i - 1].from == p then i - 1
    else
      var j := Previous(receipts, i - 1, p);
      if j == i - 1 then i else j
  }

  lemma {:induction false} PreviousPrefix(receipts: seq<Receipt>, i: nat, p: EndPoint, m: nat)
    requires i <= m <= |receipts|
    ensures Previous(receipts[..m], i, p) == Previous(receipts, i, p)
  {
    if i > 0 {
      PreviousPrefix(receipts, i - 1, p, m);
    }
  }

  function Remembered(receipts: seq<Receipt>, rebooted: seq<bool>, i: nat, p: EndPoint): (n: nat)
    requires i <= |receipts| && i <= |rebooted|
    requires forall k | 0 <= k < |receipts| :: receipts[k].n >= 1
  {
    var j := Previous(receipts, i, p);
    if j == i || rebooted[j] then 0 else StampOf(receipts[j].n).session
  }

  /** One more receipt changes what is remembered of its own endpoint only. */
  lemma {:induction false} RememberedNext(receipts: seq<Receipt>, rebooted: seq<bool>, p: EndPoint)
    requires 0 < |receipts| == |rebooted| && forall k | 0 <= k < |receipts| :: receipts[k].n >= 1
    ensures var m := |receipts| - 1;
            Remembered(receipts, rebooted, |receipts|, p) ==
            if receipts[m].from != p then Remembered(receipts[..m], rebooted[..m], m, p)
            else if rebooted[m] then 0 else StampOf(receipts[m].n).session
  {
    var m := |receipts| - 1;
    if receipts[m].from != p {
      PreviousPrefix(receipts, m, p, m);
    }
  }

  lemma {:induction false} ProcessRemembers(receipts: seq<Receipt>, p: EndPoint)
    requires forall i | 0 <= i < |receipts| :: receipts[i].n >= 1
    ensures Distinct(Process(receipts).table)
    ensures Last(Process(receipts).table, p) == Remembered(receipts, Process(receipts).rebooted, |receipts|, p)
  {
    if receipts == [] {
      LastAbsent([], p);
    } else {
      var m := |receipts| - 1;
      var before, r := receipts[..m], receipts[m];
      var table, rebooted := Process(before).table, Process(receipts).rebooted;
      ProcessRemembers(before, p);
      HandleRemembers(table, r.from, StampOf(r.n), r.available, p);
      assert Process(receipts).table == Handle(table, r.from, StampOf(r.n), r.available).table;
      assert rebooted == Process(before).rebooted + [Handle(table, r.from, StampOf(r.n), r.available).rebooted];
      assert rebooted[..m] == Process(before).rebooted;
      RememberedNext(receipts, rebooted, p);
    }
  }

  lemma {:induction false} ProcessNext(receipts: seq<Receipt>)
    requires receipts != [] && forall i | 0 <= i < |receipts| :: receipts[i].n >= 1
    ensures Process(receipts[..|receipts| - 1]).rebooted == Process(receipts).rebooted[..|receipts| - 1]
  {
  }

  lemma {:induction false} ProcessPrefix(receipts: seq<Receipt>, m: nat)
    requires m <= |receipts| && forall i | 0 <= i < |receipts| :: receipts[i].n >= 1
    ensures Process(receipts[..m]).rebooted == Process(receipts).rebooted[..m]
    decreases |receipts|, 1
  {
    if m == |receipts| {
      assert receipts[..m] == receipts;
    } else {
      ProcessPrefixStep(receipts, receipts[..|receipts| - 1], receipts[..m]);
    }
  }

  lemma {:induction false} ProcessPrefixStep(receipts: seq<Receipt>, before: seq<Receipt>, first: seq<Receipt>)
    requires receipts != [] && before == receipts[..|receipts| - 1] && |first| <= |before| && first == before[..|first|]
    requires forall i | 0 <= i < |receipts| :: receipts[i].n >= 1
    ensures Process(first).rebooted == Process(receipts).rebooted[..|first|]
    decreases |receipts|, 0
  {
    ProcessNext(receipts);
    ProcessPrefix(before, |first|);
    PrefixOfPrefix(Process(receipts).rebooted, |before|, |first|);
  }

  lemma {:induction false} PrefixOfPrefix(a: seq<bool>, last: nat, m: nat)
    requires m <= last <= |a|
    ensures a[..last][..m] == a[..m]
  {
  }

  ghost predicate Knows(table: seq<RemoteClient>, p: EndPoint) {
    exists c :: c in table && c.server == p
  }

  lemma {:induction false} HandleKnows(table: seq<RemoteClient>, from: EndPoint, stamp: Stamp, available: bool, p: EndPoint)
    requires Distinct(table)
    ensures var h := Handle(table, from, stamp, available);
            Knows(h.table, p) <==> if p != from then Knows(table, p) else available || !h.rebooted
  {
    var h := Handle(table, from, stamp, available);
    forall c: RemoteClient
      ensures c in h.table <==>
              if c.server != from then c in table
              else (available || !h.rebooted) && c.last == if h.rebooted then 0 else stamp.session
    {
      HandleEntries(table, from, stamp, available, c);
    }
    if p == from && (available || !h.rebooted) {
      assert RemoteClient(p, if h.rebooted then 0 else stamp.session) in h.table;
    }
  }

  /** What the last receipt does to the table. */
  lemma {:induction false} ProcessKnows(receipts: seq<Receipt>, p: EndPoint)
    requires receipts != [] && forall i | 0 <= i < |receipts| :: receipts[i].n >= 1
    ensures var m := |receipts| - 1;
            var h := Process(receipts);
            Knows(h.table, p) <==>
            if p != receipts[m].from then Knows(Process(receipts[..m]).table, p) else receipts[m].available || !h.rebooted[m]
  {
    var m := |receipts| - 1;
    var table, r := Process(receipts[..m]).table, receipts[m];
    ProcessRemembers(receipts[..m], p);
    HandleKnows(table, r.from, StampOf(r.n), r.available, p);
  }

  /**
   In every history the receiver has an entry for an endpoint if and only if something has come
   from it and the last thing was an offer or was not taken for a reboot.
   */
  lemma {:induction false} KnownExactly(receipts: seq<Receipt>, p: EndPoint)
    requires forall i | 0 <= i < |receipts| :: receipts[i].n >= 1
    ensures var j := Previous(receipts, |receipts|, p);
            (exists c :: c in Process(receipts).table && c.server == p) <==>
            j < |receipts| && (receipts[j].available || !Process(receipts).rebooted[j])
  {
    if receipts != [] {
      var m := |receipts| - 1;
      assert Knows(Process(receipts).table, p) <==> exists c :: c in Process(receipts).table && c.server == p;
      ProcessKnows(receipts, p);
      if receipts[m].from != p {
        KnownExactly(receipts[..m], p);
        ProcessNext(receipts);
        PreviousPrefix(receipts, m, p, m);
      }
    }
  }

  lemma {:induction false} RememberedPrefix(receipts: seq<Receipt>, rebooted: seq<bool>, i: nat, p: EndPoint, m: nat)
    requires i <= m <= |receipts| == |rebooted|
    requires forall k | 0 <= k < |receipts| :: receipts[k].n >= 1
    ensures Remembered(receipts[..m], rebooted[..m], i, p) == Remembered(receipts, rebooted, i, p)
  {
    PreviousPrefix(receipts, i, p, m);
  }

  ghost predicate JudgedAgainst(receipts: seq<Receipt>, rebooted: seq<bool>, i: nat)
    requires i < |receipts| == |rebooted| && forall k | 0 <= k < |receipts| :: receipts[k].n >= 1
  {
    rebooted[i] <==>
    StampOf(receipts[i].n).reboot &&
    StampOf(receipts[i].n).session < Remembered(receipts, rebooted, i, receipts[i].from)
  }

  lemma {:induction false} LastJudged(receipts: seq<Receipt>)
    requires receipts != [] && forall k | 0 <= k < |receipts| :: receipts[k].n >= 1
    ensures JudgedAgainst(receipts, Process(receipts).rebooted, |receipts| - 1)
  {
    var m := |receipts| - 1;
    var r, before := receipts[m], receipts[..m];
    ProcessRemembers(before, r.from);
    HandleRemembers(Process(before).table, r.from, StampOf(r.n), r.available, r.from);
    var rebooted := Process(receipts).rebooted;
    assert rebooted[..m] == Process(before).rebooted;
    RememberedPrefix(receipts, rebooted, m, r.from, m);
  }

  /** A message is judged against what is remembered when it arrives. */
  lemma {:induction false} DetectedAgainst(receipts: seq<Receipt>, i: nat)
    requires i < |receipts| && forall k | 0 <= k < |receipts| :: receipts[k].n >= 1
    ensures JudgedAgainst(receipts, Process(receipts).rebooted, i)
  {
    LastJudged(receipts[..i + 1]);
    ProcessPrefix(receipts, i + 1);
    RememberedPrefix(receipts, Process(receipts).rebooted, i, receipts[i].from, i + 1);
  }

  /**
   Exactly which messages are taken for a reboot: the first one received from a new life of
   its sender, if it still carries the reboot flag and a session below the last one received,
   unless that last one was itself taken for a reboot. So one life never looks like a reboot.
   */
  lemma {:induction false} RebootDetectedIff(receipts: seq<Receipt>, i: nat)
    requires InOrder(receipts) && i < |receipts|
    ensures var j := Previous(receipts, i, receipts[i].from);
            var rebooted := Process(receipts).rebooted;
            rebooted[i] <==>
            && j < i && receipts[j].life < receipts[i].life && !rebooted[j]
            && receipts[i].n <= 65535 && receipts[i].n < StampOf(receipts[j].n).session
  {
    DetectedAgainst(receipts, i);
    var r := receipts[i];
    var j := Previous(receipts, i, r.from);
    if j < i && receipts[j].life == r.life && r.n <= 65535 {
      assert receipts[j].n <= r.n;
      SmallSession(receipts[j].n);
    }
    if r.n <= 65535 {
      SmallSession(r.n);
    }
  }

  lemma {:induction false} SmallSession(n: nat)
    requires 1 <= n <= 65535
    ensures StampOf(n) == Stamp(n, true)
  {
  }

  /** The first message of a new life that still looks like one: flagged and below the last session. */
  predicate LooksRebooted(receipts: seq<Receipt>, i: nat)
    requires i < |receipts| && forall k | 0 <= k < |receipts| :: receipts[k].n >= 1
  {
    var j := Previous(receipts, i, receipts[i].from);
    && j < i && receipts[j].life < receipts[i].life
    && receipts[i].n <= 65535 && receipts[i].n < StampOf(receipts[j].n).session
  }

  /** Of a chain of such messages from one endpoint, every other one, starting with the first. */
  predicate EveryOther(receipts: seq<Receipt>, i: nat)
    requires i < |receipts| && forall k | 0 <= k < |receipts| :: receipts[k].n >= 1
    decreases i
  {
    LooksRebooted(receipts, i) && !EveryOther(receipts, Previous(receipts, i, receipts[i].from))
  }

  /**
   The same on the receipts alone: in every in-order history a message is taken for a reboot
   exactly when it looks like one and an even number of such messages directly precede it from
   the same endpoint.
   */
  lemma {:induction false} RebootDetectedExactly(receipts: seq<Receipt>, i: nat)
    requires InOrder(receipts) && i < |receipts|
    ensures Process(receipts).rebooted[i] <==> EveryOther(receipts, i)
    decreases i
  {
    RebootDetectedIff(receipts, i);
    var j := Previous(receipts, i, receipts[i].from);
    if j < i {
      RebootDetectedExactly(receipts, j);
    }
  }

  /** Three lives of one sender, heard of once each. */
  function ThreeLives(p: EndPoint): (receipts: seq<Receipt>) {
    [Receipt(p, 0, 100, true), Receipt(p, 1, 50, true), Receipt(p, 2, 10, true)]
  }

  lemma {:induction false} LifeJudged(p: EndPoint, i: nat)
    requires i < 3
    ensures InOrder(ThreeLives(p))
    ensures var rebooted := Process(ThreeLives(p)).rebooted;
            rebooted[i] <==> i > 0 && !rebooted[i - 1]
  {
    var receipts := ThreeLives(p);
    assert Previous(receipts, i, p) == if i == 0 then 0 else i - 1;
    if i > 0 {
      SmallSession(receipts[i - 1].n);
    }
    RebootDetectedIff(receipts, i);
  }

  /** Two restarts in a row: the first is noticed, the second is not. */
  lemma {:induction false} SecondRestartUnnoticed(p: EndPoint)
    ensures InOrder(ThreeLives(p)) && Process(ThreeLives(p)).rebooted == [false, true, false]
  {
    LifeJudged(p, 0);
    LifeJudged(p, 1);
    LifeJudged(p, 2);
    var rebooted := Process(ThreeLives(p)).rebooted;
    assert |rebooted| == 3 && !rebooted[0] && rebooted[1] && !rebooted[2];
  }
}
