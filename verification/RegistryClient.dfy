/**
 The client's end of the registry: registry messages as IPC messages (daemon/LocalClient.h,
 lib/ipc.h), the queue of messages read too early, and the replica kept from them
 (clientLib/SomeIP-clientLib.h, clientLib/SomeIP-clientLib.cpp).
 */
module RegistryClient {
  import opened Bytes
  import opened SomeIp
  import opened Lists
  import opened Daemon
  import opened Replication

  const SERVICES_REGISTERED: byte := 10
  const SERVICES_UNREGISTERED: byte := 11

  /** Request ID, message type, return code. */
  const IPC_HEADER_SIZE: nat := 4

  // ---- Registry messages as bytes ----

  function IdBytes(order: ByteOrder, id: ServiceIDs): (s: bytes)
    ensures |s| == 4
  {
    MemoryBytes(order, id.serviceID, 2) + MemoryBytes(order, id.instanceID, 2)
  }

  function IdsBytes(order: ByteOrder, ids: seq<ServiceIDs>): (s: bytes) {
    if ids == [] then [] else IdBytes(order, ids[0]) + IdsBytes(order, ids[1..])
  }

  /** Messages about the registry answer no request: their request ID is zero. */
  function EncodeRegistry(order: ByteOrder, m: RegistryMessage): (s: bytes)
    ensures |s| >= IPC_HEADER_SIZE
  {
    MemoryBytes(order, 0, 2) + [if m.Registered? then SERVICES_REGISTERED else SERVICES_UNREGISTERED, 0] +
    IdsBytes(order, m.ids)
  }

  function Value16(order: ByteOrder, s: bytes): (v: u16)
    requires |s| == 2
  {
    MemoryBytesOfValue(order, s);
    Pow256Values();
    MemoryValue(order, s)
  }

  /** The reader goes on while two bytes are left; with two or three it would run over the end. */
  function DecodeIds(order: ByteOrder, s: bytes): (ids: Option<seq<ServiceIDs>>) {
    if |s| < 2 then Some([])
    else if |s| < 4 then None
    else
      var rest := DecodeIds(order, s[4..]);
      if rest.None? then None
      else Some([ServiceIDs(Value16(order, s[..2]), Value16(order, s[2..4]))] + rest.value)
  }

  function RequestIdOf(order: ByteOrder, s: bytes): (id: u16)
    requires |s| >= IPC_HEADER_SIZE
  {
    Value16(order, s[..2])
  }

  /** None: not a message about the registry. */
  function DecodeRegistry(order: ByteOrder, s: bytes): (m: Option<RegistryMessage>) {
    if |s| < IPC_HEADER_SIZE || (s[2] != SERVICES_REGISTERED && s[2] != SERVICES_UNREGISTERED) then None
    else
      var ids := DecodeIds(order, s[IPC_HEADER_SIZE..]);
      if ids.None? then None
      else Some(if s[2] == SERVICES_REGISTERED then Registered(ids.value) else Unregistered(ids.value))
  }

  /** A message with a header whose service IDs, if it has any, do not end in the middle. */
  predicate Readable(order: ByteOrder, s: bytes) {
    && |s| >= IPC_HEADER_SIZE
    && (s[2] == SERVICES_REGISTERED || s[2] == SERVICES_UNREGISTERED ==> DecodeIds(order, s[IPC_HEADER_SIZE..]).Some?)
  }

  lemma {:induction false} IdRoundTrip(order: ByteOrder, id: ServiceIDs, rest: bytes)
    ensures var s := IdBytes(order, id) + rest;
            s[4..] == rest && Value16(order, s[..2]) == id.serviceID && Value16(order, s[2..4]) == id.instanceID
  {
    var a, b := MemoryBytes(order, id.serviceID, 2), MemoryBytes(order, id.instanceID, 2);
    var s := a + b + rest;
    assert s[..2] == a && s[2..4] == b;
    Pow256Values();
    MemoryRoundTripExact(order, id.serviceID, 2, 0x1_0000);
    MemoryRoundTripExact(order, id.instanceID, 2, 0x1_0000);
  }

  lemma {:induction false} IdsRoundTrip(order: ByteOrder, ids: seq<ServiceIDs>)
    ensures DecodeIds(order, IdsBytes(order, ids)) == Some(ids)
  {
    if ids != [] {
      IdRoundTrip(order, ids[0], IdsBytes(order, ids[1..]));
      IdsRoundTrip(order, ids[1..]);
      assert [ids[0]] + ids[1..] == ids;
    }
  }

  lemma {:induction false} RegistryRoundTrip(order: ByteOrder, m: RegistryMessage)
    ensures DecodeRegistry(order, EncodeRegistry(order, m)) == Some(m) && Readable(order, EncodeRegistry(order, m))
    ensures RequestIdOf(order, EncodeRegistry(order, m)) == 0
  {
    var s := EncodeRegistry(order, m);
    var id := MemoryBytes(order, 0, 2);
    assert s[..2] == id && s[2] == (if m.Registered? then SERVICES_REGISTERED else SERVICES_UNREGISTERED);
    assert s[IPC_HEADER_SIZE..] == IdsBytes(order, m.ids);
    IdsRoundTrip(order, m.ids);
    Pow256Values();
    MemoryRoundTripExact(order, 0, 2, 0x1_0000);
  }

  /** The messages about the registry among the messages of a stream. */
  function Registry(order: ByteOrder, messages: seq<bytes>): (r: seq<RegistryMessage>) {
    if messages == [] then []
    else
      var m := DecodeRegistry(order, messages[|messages| - 1]);
      Registry(order, messages[..|messages| - 1]) + if m.Some? then [m.value] else []
  }

  lemma {:induction false} RegistryAppend(order: ByteOrder, a: seq<bytes>, b: seq<bytes>)
    ensures Registry(order, a + b) == Registry(order, a) + Registry(order, b)
    decreases |b|
  {
    if b == [] {
      assert a + b == a && Registry(order, a) + [] == Registry(order, a);
    } else {
      var last := |b| - 1;
      RegistryAppend(order, a, b[..last]);
      assert (a + b)[..|a| + last] == a + b[..last] && (a + b)[|a| + last] == b[last];
    }
  }

  lemma {:induction false} RegistryPrefix(order: ByteOrder, a: seq<bytes>, b: seq<bytes>)
    requires a <= b
    ensures Registry(order, a) <= Registry(order, b)
  {
    assert b == a + b[|a|..];
    RegistryAppend(order, a, b[|a|..]);
  }

  // ---- Reading, queueing and handling ----

  /** `nextAvailableRequestID` starts here and has 16 bits. */
  const FIRST_REQUEST: u16 := 0x1111

  /** How many requests there are before the one whose ID is zero. */
  const REQUESTS_BEFORE_ZERO: nat := 0x1_0000 - 0x1111

  /**
   Messages read from the connection, and where they went: the queue, the handlers, or a
   caller that was waiting for an answer. `waiting` is the ID of the request under way and
   `begun` counts the requests so far.
   */
  datatype Inbox = Inbox(
    read: seq<bytes>, queue: seq<bytes>, handled: seq<bytes>, answers: seq<bytes>,
    nextRequest: u16, waiting: Option<u16>, begun: nat)

  const NewInbox: Inbox := Inbox([], [], [], [], FIRST_REQUEST, None, 0)

  datatype Action =
    /** `writeRequest` takes the next request ID. */
    | BeginRequest
    /** It reads one message while it waits for the answer. */
    | AwaitAnswer(m: bytes)
    /** A congested writer reads one message and keeps it for later. */
    | ReadAhead(m: bytes)
    /** `dispatchIncomingMessages` empties the queue before it reads. */
    | HandleQueued
    | HandleNext(m: bytes)

  predicate Reads(a: Action) {
    a.AwaitAnswer? || a.ReadAhead? || a.HandleNext?
  }

  predicate Possible(b: Inbox, a: Action) {
    match a
    case BeginRequest => b.waiting.None?
    case AwaitAnswer(m) => b.waiting.Some? && |m| >= IPC_HEADER_SIZE
    case ReadAhead(_) => true
    case HandleQueued => b.waiting.None?
    case HandleNext(_) => b.waiting.None? && b.queue == []
  }

  function Act(order: ByteOrder, b: Inbox, a: Action): (b': Inbox)
    requires Possible(b, a)
    ensures b'.read == if Reads(a) then b.read + [a.m] else b.read
  {
    match a
    case BeginRequest =>
      b.(waiting := Some(b.nextRequest), nextRequest := (b.nextRequest + 1) % 0x1_0000, begun := b.begun + 1)
    case AwaitAnswer(m) =>
      if Some(RequestIdOf(order, m)) == b.waiting then b.(read := b.read + [m], answers := b.answers + [m], waiting := None)
      else b.(read := b.read + [m], queue := b.queue + [m])
    case ReadAhead(m) => b.(read := b.read + [m], queue := b.queue + [m])
    case HandleQueued => b.(handled := b.handled + b.queue, queue := [])
    case HandleNext(m) => b.(read := b.read + [m], handled := b.handled + [m])
  }

  ghost predicate IsSession(order: ByteOrder, actions: seq<Action>, inboxes: seq<Inbox>) {
    && |inboxes| == |actions| + 1 && inboxes[0] == NewInbox
    && forall i {:trigger actions[i]} | 0 <= i < |actions| ::
         Possible(inboxes[i], actions[i]) && inboxes[i + 1] == Act(order, inboxes[i], actions[i])
  }

  /** The action does not take a message about the registry for an answer. */
  predicate Harmless(order: ByteOrder, b: Inbox, a: Action) {
    a.AwaitAnswer? && |a.m| >= IPC_HEADER_SIZE && DecodeRegistry(order, a.m).Some? ==>
      Some(RequestIdOf(order, a.m)) != b.waiting
  }

  ghost predicate NothingMistaken(order: ByteOrder, actions: seq<Action>, inboxes: seq<Inbox>, n: nat)
    requires n <= |actions| <= |inboxes|
  {
    forall i {:trigger actions[i]} | 0 <= i < n :: Harmless(order, inboxes[i], actions[i])
  }

  /** Registry messages are handled or queued, in the order they were read. */
  ghost predicate KeepsRegistry(order: ByteOrder, b: Inbox) {
    Registry(order, b.handled + b.queue) == Registry(order, b.read)
  }

  lemma {:induction false} RegistryOne(order: ByteOrder, messages: seq<bytes>, m: bytes)
    ensures Registry(order, messages + [m]) ==
            Registry(order, messages) + if DecodeRegistry(order, m).Some? then [DecodeRegistry(order, m).value] else []
  {
    assert (messages + [m])[..|messages|] == messages;
  }

  /** The messages about the registry among one message or none. */
  function About(order: ByteOrder, m: bytes): (r: seq<RegistryMessage>) {
    if DecodeRegistry(order, m).Some? then [DecodeRegistry(order, m).value] else []
  }

  /** The action takes what it reads for the answer it waits for. */
  predicate TakesAnswer(order: ByteOrder, b: Inbox, a: Action) {
    a.AwaitAnswer? && |a.m| >= IPC_HEADER_SIZE && Some(RequestIdOf(order, a.m)) == b.waiting
  }

  lemma {:induction false} ActQueues(order: ByteOrder, b: Inbox, a: Action)
    requires Possible(b, a)
    ensures var b' := Act(order, b, a);
            b'.handled + b'.queue == if Reads(a) && !TakesAnswer(order, b, a) then b.handled + b.queue + [a.m]
                                     else b.handled + b.queue
  {
    if Reads(a) {
      assert b.handled + b.queue + [a.m] == b.handled + (b.queue + [a.m]);
    }
  }

  /** What an action does to the registry messages read, and to those handled or queued. */
  lemma {:induction false} ActMoves(order: ByteOrder, b: Inbox, a: Action)
    requires Possible(b, a)
    ensures var b' := Act(order, b, a);
            && Registry(order, b'.read) ==
               (if Reads(a) then Registry(order, b.read) + About(order, a.m) else Registry(order, b.read))
            && Registry(order, b'.handled + b'.queue) ==
               (if Reads(a) && Harmless(order, b, a) then Registry(order, b.handled + b.queue) + About(order, a.m)
                else Registry(order, b.handled + b.queue))
  {
    ActQueues(order, b, a);
    if Reads(a) {
      RegistryOne(order, b.read, a.m);
      RegistryOne(order, b.handled + b.queue, a.m);
      var kept := Registry(order, b.handled + b.queue);
      assert About(order, a.m) == [] ==> kept + About(order, a.m) == kept;
    }
  }

  /** An action keeps the registry messages if and only if it is harmless. */
  lemma {:induction false} ActKeepsRegistryIff(order: ByteOrder, b: Inbox, a: Action)
    requires KeepsRegistry(order, b) && Possible(b, a)
    ensures KeepsRegistry(order, Act(order, b, a)) <==> Harmless(order, b, a)
  {
    ActMoves(order, b, a);
  }

  /** How many registry messages have been read but neither queued nor handled. */
  function Swallowed(order: ByteOrder, b: Inbox): (n: int) {
    |Registry(order, b.read)| - |Registry(order, b.handled + b.queue)|
  }

  lemma {:induction false} ActSwallows(order: ByteOrder, b: Inbox, a: Action)
    requires Possible(b, a)
    ensures Swallowed(order, Act(order, b, a)) == Swallowed(order, b) + if Harmless(order, b, a) then 0 else 1
  {
    ActMoves(order, b, a);
  }

  predicate SwallowsNext(order: ByteOrder, b: Inbox, a: Action, b': Inbox) {
    Swallowed(order, b') == Swallowed(order, b) + if Harmless(order, b, a) then 0 else 1
  }

  lemma {:induction false} SwallowsOn(order: ByteOrder, actions: seq<Action>, inboxes: seq<Inbox>, n: nat)
    requires n <= |actions| < |inboxes| && Swallowed(order, inboxes[0]) == 0
    requires forall i {:trigger actions[i]} | 0 <= i < n :: SwallowsNext(order, inboxes[i], actions[i], inboxes[i + 1])
    ensures Swallowed(order, inboxes[n]) >= 0
    ensures !NothingMistaken(order, actions, inboxes, n) ==> Swallowed(order, inboxes[n]) > 0
  {
    if n > 0 {
      SwallowsOn(order, actions, inboxes, n - 1);
      assert SwallowsNext(order, inboxes[n - 1], actions[n - 1], inboxes[n]);
      if NothingMistaken(order, actions, inboxes, n - 1) && Harmless(order, inboxes[n - 1], actions[n - 1]) {
        assert NothingMistaken(order, actions, inboxes, n);
      }
    }
  }

  lemma {:induction false} SessionSwallows(order: ByteOrder, actions: seq<Action>, inboxes: seq<Inbox>, n: nat)
    requires IsSession(order, actions, inboxes) && n < |inboxes|
    ensures Swallowed(order, inboxes[n]) >= 0
    ensures !NothingMistaken(order, actions, inboxes, n) ==> Swallowed(order, inboxes[n]) > 0
  {
    NewInboxKeeps(order);
    forall i {:trigger actions[i]} | 0 <= i < n
      ensures SwallowsNext(order, inboxes[i], actions[i], inboxes[i + 1])
    {
      ActSwallows(order, inboxes[i], actions[i]);
    }
    SwallowsOn(order, actions, inboxes, n);
  }

  lemma {:induction false} NewInboxKeeps(order: ByteOrder)
    ensures KeepsRegistry(order, NewInbox) && Registry(order, NewInbox.read) == []
  {
    assert NewInbox.handled + NewInbox.queue == [];
  }

  lemma {:induction false} NothingSwallowed(order: ByteOrder, actions: seq<Action>, inboxes: seq<Inbox>, n: nat)
    requires IsSession(order, actions, inboxes) && n < |inboxes| && NothingMistaken(order, actions, inboxes, n)
    ensures KeepsRegistry(order, inboxes[n])
  {
    if n == 0 {
      NewInboxKeeps(order);
    } else {
      NothingSwallowed(order, actions, inboxes, n - 1);
      assert Harmless(order, inboxes[n - 1], actions[n - 1]);
      ActKeepsRegistryIff(order, inboxes[n - 1], actions[n - 1]);
    }
  }

  /** In every session the registry messages are kept in order exactly as long as none was mistaken. */
  lemma {:induction false} SessionKeepsRegistryIff(
    order: ByteOrder, actions: seq<Action>, inboxes: seq<Inbox>, n: nat)
    requires IsSession(order, actions, inboxes) && n < |inboxes|
    ensures KeepsRegistry(order, inboxes[n]) <==> NothingMistaken(order, actions, inboxes, n)
  {
    SessionSwallows(order, actions, inboxes, n);
    if NothingMistaken(order, actions, inboxes, n) {
      NothingSwallowed(order, actions, inboxes, n);
    }
  }

  // ---- The request counter ----

  ghost predicate CounterInv(b: Inbox) {
    && b.nextRequest == (FIRST_REQUEST + b.begun) % 0x1_0000
    && (b.waiting.Some? ==> b.begun >= 1 && b.waiting.value == (FIRST_REQUEST + b.begun - 1) % 0x1_0000)
  }

  lemma {:induction false} CountsOn(x: nat)
    ensures (x % 0x1_0000 + 1) % 0x1_0000 == (x + 1) % 0x1_0000
  {
  }

  lemma {:induction false} ActCounts(order: ByteOrder, b: Inbox, a: Action)
    requires CounterInv(b) && Possible(b, a)
    ensures CounterInv(Act(order, b, a)) && Act(order, b, a).begun >= b.begun
  {
    if a.BeginRequest? {
      CountsOn(FIRST_REQUEST + b.begun);
    }
  }

  lemma {:induction false} SessionCounts(order: ByteOrder, actions: seq<Action>, inboxes: seq<Inbox>, n: nat)
    requires IsSession(order, actions, inboxes) && n < |inboxes|
    ensures CounterInv(inboxes[n])
    ensures forall i | 0 <= i <= n :: inboxes[i].begun <= inboxes[n].begun
  {
    if n > 0 {
      SessionCounts(order, actions, inboxes, n - 1);
      ActCounts(order, inboxes[n - 1], actions[n - 1]);
    }
  }

  // ---- Answers ----

  /** Requests are answered in turn: the answers so far carry the IDs of the requests begun before this one. */
  ghost predicate AnsweredInTurn(order: ByteOrder, b: Inbox) {
    && |b.answers| + (if b.waiting.Some? then 1 else 0) == b.begun
    && forall i | 0 <= i < |b.answers| ::
         |b.answers[i]| >= 4 && RequestIdOf(order, b.answers[i]) == (0x1111 + i) % 0x1_0000
  }

  lemma {:induction false} ActAnswers(order: ByteOrder, b: Inbox, a: Action)
    requires CounterInv(b) && AnsweredInTurn(order, b) && Possible(b, a)
    ensures AnsweredInTurn(order, Act(order, b, a))
  {
  }

  /** In every session each request but the one under way has one answer, the one with its ID. */
  lemma {:induction false} EveryRequestAnswered(order: ByteOrder, actions: seq<Action>, inboxes: seq<Inbox>, n: nat)
    requires IsSession(order, actions, inboxes) && n < |inboxes|
    ensures AnsweredInTurn(order, inboxes[n])
  {
    if n > 0 {
      EveryRequestAnswered(order, actions, inboxes, n - 1);
      SessionCounts(order, actions, inboxes, n - 1);
      ActAnswers(order, inboxes[n - 1], actions[n - 1]);
    }
  }

  lemma {:induction false} ActLosesNothing(order: ByteOrder, b: Inbox, a: Action, m: bytes)
    requires Possible(b, a) && Count(b.read, m) == Count(b.handled + b.queue, m) + Count(b.answers, m)
    ensures var b' := Act(order, b, a); Count(b'.read, m) == Count(b'.handled + b'.queue, m) + Count(b'.answers, m)
  {
    ActQueues(order, b, a);
    if Reads(a) {
      CountAppend(b.read, a.m, m);
      CountAppend(b.handled + b.queue, a.m, m);
      CountAppend(b.answers, a.m, m);
    }
  }

  predicate Balanced(b: Inbox, m: bytes) {
    Count(b.read, m) == Count(b.handled + b.queue, m) + Count(b.answers, m)
  }

  lemma {:induction false} BalancedOn(inboxes: seq<Inbox>, n: nat, m: bytes)
    requires n < |inboxes| && Balanced(inboxes[0], m)
    requires forall i | 0 <= i < n :: Balanced(inboxes[i], m) ==> Balanced(inboxes[i + 1], m)
    ensures Balanced(inboxes[n], m)
  {
    if n > 0 {
      BalancedOn(inboxes, n - 1, m);
    }
  }

  /** No message that is read is lost or kept twice: it is handled, queued or an answer. */
  lemma {:induction false} NothingLost(order: ByteOrder, actions: seq<Action>, inboxes: seq<Inbox>, n: nat, m: bytes)
    requires IsSession(order, actions, inboxes) && n < |inboxes|
    ensures var b := inboxes[n]; Count(b.read, m) == Count(b.handled + b.queue, m) + Count(b.answers, m)
  {
    assert NewInbox.handled + NewInbox.queue == [];
    forall i | 0 <= i < n && Balanced(inboxes[i], m) ensures Balanced(inboxes[i + 1], m) {
      ActLosesNothing(order, inboxes[i], actions[i], m);
    }
    BalancedOn(inboxes, n, m);
  }

  /**
   Whenever the client has come round to dispatching, nothing is queued any more, and it has
   handled every registry message it has read, in order, if and only if none was mistaken.
   */
  lemma {:induction false} DispatchingCatchesUp(order: ByteOrder, actions: seq<Action>, inboxes: seq<Inbox>, n: nat)
    requires IsSession(order, actions, inboxes) && n < |actions| && (actions[n].HandleQueued? || actions[n].HandleNext?)
    ensures inboxes[n + 1].queue == []
    ensures Registry(order, inboxes[n + 1].handled) == Registry(order, inboxes[n + 1].read) <==>
            NothingMistaken(order, actions, inboxes, n + 1)
  {
    SessionKeepsRegistryIff(order, actions, inboxes, n + 1);
    assert inboxes[n + 1].queue == [];
    assert inboxes[n + 1].handled + [] == inboxes[n + 1].handled;
  }

  /** A message the daemon writes: one about the registry carries request ID zero. */
  predicate FromDaemon(order: ByteOrder, m: bytes) {
    |m| >= IPC_HEADER_SIZE && DecodeRegistry(order, m).Some? ==> RequestIdOf(order, m) == 0
  }

  /** A message about the registry is read while the request numbered zero waits for its answer. */
  predicate ZeroTakes(order: ByteOrder, b: Inbox, a: Action) {
    a.AwaitAnswer? && b.waiting == Some(0) && DecodeRegistry(order, a.m).Some?
  }

  lemma {:induction false} HarmlessExactly(order: ByteOrder, b: Inbox, a: Action)
    requires Possible(b, a) && (Reads(a) ==> FromDaemon(order, a.m))
    ensures Harmless(order, b, a) <==> !ZeroTakes(order, b, a)
  {
  }

  /** Request zero is the 61168th of a client, and every 65536th after it. */
  lemma {:induction false} ZeroIsDue(b: Inbox)
    requires CounterInv(b) && b.waiting.Some?
    ensures b.waiting == Some(0) <==> b.begun % 0x1_0000 == REQUESTS_BEFORE_ZERO + 1
  {
    assert (FIRST_REQUEST + b.begun - 1) % 0x1_0000 == 0 <==> b.begun % 0x1_0000 == REQUESTS_BEFORE_ZERO + 1;
  }

  lemma {:induction false} ReadsStay(order: ByteOrder, actions: seq<Action>, inboxes: seq<Inbox>, i: nat, n: nat)
    requires IsSession(order, actions, inboxes) && i < n < |inboxes| && Reads(actions[i])
    ensures actions[i].m in inboxes[n].read
  {
    if i < n - 1 {
      ReadsStay(order, actions, inboxes, i, n - 1);
    }
    assert inboxes[n] == Act(order, inboxes[n - 1], actions[n - 1]);
  }

  ghost predicate ZeroTook(order: ByteOrder, actions: seq<Action>, inboxes: seq<Inbox>, n: nat)
    requires n <= |actions| < |inboxes|
  {
    exists i :: 0 <= i < n && ZeroTakes(order, inboxes[i], actions[i])
  }

  /**
   The exact condition on messages from the daemon: over every session the registry messages
   are handled or queued in the order read if and only if none was read while the request
   numbered zero was waiting.
   */
  lemma {:induction false} SessionKeepsRegistryUnlessZero(
    order: ByteOrder, actions: seq<Action>, inboxes: seq<Inbox>, n: nat)
    requires IsSession(order, actions, inboxes) && n < |inboxes|
    requires forall m | m in inboxes[n].read :: FromDaemon(order, m)
    ensures KeepsRegistry(order, inboxes[n]) <==> !ZeroTook(order, actions, inboxes, n)
  {
    forall i | 0 <= i < n ensures Harmless(order, inboxes[i], actions[i]) <==> !ZeroTakes(order, inboxes[i], actions[i]) {
      if Reads(actions[i]) {
        ReadsStay(order, actions, inboxes, i, n);
      }
      HarmlessExactly(order, inboxes[i], actions[i]);
    }
    SessionKeepsRegistryIff(order, actions, inboxes, n);
  }

  /** Before the ID wraps round to zero no registry message can be mistaken. */
  lemma {:induction false} EarlyRequestHarmless(order: ByteOrder, b: Inbox, a: Action)
    requires CounterInv(b) && b.begun <= REQUESTS_BEFORE_ZERO && Possible(b, a)
    ensures !ZeroTakes(order, b, a)
  {
    if b.waiting.Some? {
      ZeroIsDue(b);
    }
  }

  /** So every session of at most 61167 requests on messages from the daemon keeps the registry messages. */
  lemma {:induction false} SessionKeepsRegistry(
    order: ByteOrder, actions: seq<Action>, inboxes: seq<Inbox>, n: nat)
    requires IsSession(order, actions, inboxes) && n < |inboxes| && inboxes[n].begun <= REQUESTS_BEFORE_ZERO
    requires forall m | m in inboxes[n].read :: FromDaemon(order, m)
    ensures KeepsRegistry(order, inboxes[n])
  {
    forall i | 0 <= i < n ensures !ZeroTakes(order, inboxes[i], actions[i]) {
      SessionCounts(order, actions, inboxes, i);
      SessionCounts(order, actions, inboxes, n);
      EarlyRequestHarmless(order, inboxes[i], actions[i]);
    }
    SessionKeepsRegistryUnlessZero(order, actions, inboxes, n);
  }

  /** An answer to a request, without content. */
  function AnswerTo(order: ByteOrder, id: u16): (m: bytes)
    ensures |m| == IPC_HEADER_SIZE && RequestIdOf(order, m) == id && DecodeRegistry(order, m) == None
  {
    var m := MemoryBytes(order, id, 2) + [9, 1];
    assert m[..2] == MemoryBytes(order, id, 2);
    Pow256Values();
    MemoryRoundTripExact(order, id, 2, 0x1_0000);
    m
  }

  lemma {:induction false} SessionExtends(order: ByteOrder, actions: seq<Action>, inboxes: seq<Inbox>, a: Action)
    requires IsSession(order, actions, inboxes) && Possible(inboxes[|actions|], a)
    ensures IsSession(order, actions + [a], inboxes + [Act(order, inboxes[|actions|], a)])
  {
    var actions', inboxes' := actions + [a], inboxes + [Act(order, inboxes[|actions|], a)];
    forall i | 0 <= i < |actions'|
      ensures Possible(inboxes'[i], actions'[i]) && inboxes'[i + 1] == Act(order, inboxes'[i], actions'[i])
    {
      if i < |actions| {
        assert actions'[i] == actions[i] && inboxes'[i] == inboxes[i] && inboxes'[i + 1] == inboxes[i + 1];
      }
    }
  }

  /** Nothing about the registry has been read, and no request is under way. */
  ghost predicate Idle(order: ByteOrder, b: Inbox) {
    b.waiting == None && CounterInv(b) && Registry(order, b.read) == [] && KeepsRegistry(order, b)
  }

  lemma {:induction false} OneRequest(order: ByteOrder, b: Inbox)
    requires Idle(order, b)
    ensures var b1 := Act(order, b, BeginRequest);
            && b1.waiting.Some?
            && var a := AwaitAnswer(AnswerTo(order, b1.waiting.value));
               Possible(b1, a) && Idle(order, Act(order, b1, a)) && Act(order, b1, a).begun == b.begun + 1
  {
    var b1 := Act(order, b, BeginRequest);
    var a := AwaitAnswer(AnswerTo(order, b1.waiting.value));
    ActMoves(order, b, BeginRequest);
    ActCounts(order, b, BeginRequest);
    ActMoves(order, b1, a);
    ActCounts(order, b1, a);
  }

  /** A session that has made `k` requests and got their answers. */
  lemma {:induction false} Requests(order: ByteOrder, k: nat) returns (actions: seq<Action>, inboxes: seq<Inbox>)
    ensures IsSession(order, actions, inboxes)
    ensures inboxes[|actions|].begun == k && Idle(order, inboxes[|actions|])
  {
    if k == 0 {
      actions, inboxes := [], [NewInbox];
      NewInboxKeeps(order);
    } else {
      var before, past := Requests(order, k - 1);
      var b := past[|before|];
      OneRequest(order, b);
      var b1 := Act(order, b, BeginRequest);
      var a := AwaitAnswer(AnswerTo(order, b1.waiting.value));
      SessionExtends(order, before, past, BeginRequest);
      SessionExtends(order, before + [BeginRequest], past + [b1], a);
      actions, inboxes := before + [BeginRequest] + [a], past + [b1] + [Act(order, b1, a)];
    }
  }

  /** A registry message taken for the answer to request zero. */
  lemma {:induction false} ZeroTakesRegistry(order: ByteOrder, b: Inbox, m: RegistryMessage)
    requires b.waiting == Some(0)
    ensures var a := AwaitAnswer(EncodeRegistry(order, m));
            && Possible(b, a)
            && Registry(order, Act(order, b, a).read) == Registry(order, b.read) + [m]
            && Registry(order, Act(order, b, a).handled + Act(order, b, a).queue) == Registry(order, b.handled + b.queue)
            && Act(order, b, a).begun == b.begun
  {
    RegistryRoundTrip(order, m);
    ActMoves(order, b, AwaitAnswer(EncodeRegistry(order, m)));
  }

  /**
   The next request has ID zero. If the daemon sends news of the registry before the answer,
   the client takes them for the answer: they are never handled.
   */
  lemma {:induction false} RequestZeroFails(order: ByteOrder, m: RegistryMessage)
    returns (actions: seq<Action>, inboxes: seq<Inbox>)
    ensures IsSession(order, actions, inboxes)
    ensures var b := inboxes[|actions|];
            && b.begun == REQUESTS_BEFORE_ZERO + 1
            && Registry(order, b.read) == [m] && Registry(order, b.handled + b.queue) == []
  {
    var before, past := Requests(order, REQUESTS_BEFORE_ZERO);
    var b := past[|before|];
    var b1 := Act(order, b, BeginRequest);
    SessionExtends(order, before, past, BeginRequest);
    ActQueues(order, b, BeginRequest);
    assert b1.waiting == Some(0);
    var a := AwaitAnswer(EncodeRegistry(order, m));
    ZeroTakesRegistry(order, b1, m);
    SessionExtends(order, before + [BeginRequest], past + [b1], a);
    actions, inboxes := before + [BeginRequest] + [a], past + [b1] + [Act(order, b1, a)];
  }

  // ---- The classes ----

  /** `SafeMessageQueue`: a vector and the position of its first message. */
  class SafeMessageQueue {
    var messageQueue: seq<bytes>
    var queueHeadIndex: nat

    predicate Valid()
      reads this
    {
      queueHeadIndex <= |messageQueue|
    }

    function Contents(): (s: seq<bytes>)
      requires Valid()
      reads this
    {
      messageQueue[queueHeadIndex..]
    }

    constructor ()
      ensures Valid() && Contents() == []
    {
      messageQueue, queueHeadIndex := [], 0;
    }

    method IsEmpty() returns (b: bool)
      requires Valid()
      ensures b <==> Contents() == []
    {
      b := queueHeadIndex == |messageQueue|;
    }

    method Push(m: bytes)
      requires Valid()
      modifies this
      ensures Valid() && Contents() == old(Contents()) + [m]
    {
      messageQueue := messageQueue + [m];
    }

    method Pop() returns (m: Option<bytes>)
      requires Valid()
      modifies this
      ensures Valid()
      ensures old(Contents()) == [] ==> m == None && Contents() == []
      ensures old(Contents()) != [] ==> m == Some(old(Contents())[0]) && Contents() == old(Contents())[1..]
    {
      m := None;
      var empty := IsEmpty();
      if !empty {
        m := Some(messageQueue[queueHeadIndex]);
        queueHeadIndex := queueHeadIndex + 1;
      } else {
        queueHeadIndex := 0;
        messageQueue := [];
      }
    }
  }

  /** `ServiceRegistry`: the replica. */
  class ServiceRegistry {
    var availableServices: seq<ServiceIDs>

    constructor ()
      ensures availableServices == []
    {
      availableServices := [];
    }

    method IsServiceRegistered(id: ServiceIDs) returns (found: bool)
      ensures found <==> id in availableServices
    {
      found := false;
      var i := 0;
      while i < |availableServices| && !found
        invariant 0 <= i <= |availableServices|
        invariant found <==> id in availableServices[..i]
      {
        found := availableServices[i] == id;
        i := i + 1;
      }
    }

    method OnServiceRegistered(id: ServiceIDs)
      modifies this
      ensures availableServices == old(availableServices) + [id]
    {
      availableServices := availableServices + [id];
    }

    /** Erasing what `find` did not find is undefined, so the service has to be there. */
    method OnServiceUnregistered(id: ServiceIDs)
      requires id in availableServices
      modifies this
      ensures availableServices == RemoveFirst(old(availableServices), id)
    {
      availableServices := RemoveFromVector(availableServices, id);
    }

    method HandleRegistered(order: ByteOrder, data: bytes)
      requires DecodeIds(order, data).Some?
      modifies this
      ensures availableServices == old(availableServices) + DecodeIds(order, data).value
    {
      var rest := data;
      while |rest| >= 2
        invariant DecodeIds(order, rest).Some?
        invariant availableServices + DecodeIds(order, rest).value == old(availableServices) + DecodeIds(order, data).value
        decreases |rest|
      {
        var id := ServiceIDs(Value16(order, rest[..2]), Value16(order, rest[2..4]));
        ghost var later := DecodeIds(order, rest[4..]).value;
        assert availableServices + ([id] + later) == availableServices + [id] + later;
        OnServiceRegistered(id);
        rest := rest[4..];
      }
    }

    method HandleUnregistered(order: ByteOrder, data: bytes)
      requires DecodeIds(order, data).Some?
      requires Erase(availableServices, DecodeIds(order, data).value).Some?
      modifies this
      ensures Erase(old(availableServices), DecodeIds(order, data).value) == Some(availableServices)
    {
      var rest := data;
      while |rest| >= 2
        invariant DecodeIds(order, rest).Some?
        invariant Erase(availableServices, DecodeIds(order, rest).value) ==
                  Erase(old(availableServices), DecodeIds(order, data).value)
        decreases |rest|
      {
        var id := ServiceIDs(Value16(order, rest[..2]), Value16(order, rest[2..4]));
        ghost var later := DecodeIds(order, rest[4..]).value;
        assert ([id] + later)[1..] == later;
        OnServiceUnregistered(id);
        rest := rest[4..];
      }
    }

    /** `handleConstIncomingIPCMessage`, as far as it concerns the registry. */
    method HandleMessage(order: ByteOrder, m: bytes)
      requires Readable(order, m)
      requires DecodeRegistry(order, m).Some? ==> Apply(availableServices, DecodeRegistry(order, m).value).Some?
      modifies this
      ensures var r := DecodeRegistry(order, m);
              if r.None? then availableServices == old(availableServices)
              else Apply(old(availableServices), r.value) == Some(availableServices)
    {
      if m[2] == SERVICES_REGISTERED {
        HandleRegistered(order, m[IPC_HEADER_SIZE..]);
      } else if m[2] == SERVICES_UNREGISTERED {
        HandleUnregistered(order, m[IPC_HEADER_SIZE..]);
      }
    }

    /** `dispatchQueuedMessages`: the replica ends up where the queued messages take it. */
    method DispatchQueuedMessages(order: ByteOrder, queue: SafeMessageQueue, ghost before: seq<RegistryMessage>)
      requires queue.Valid() && forall m | m in queue.Contents() :: Readable(order, m)
      requires Replay(before) == Some(availableServices)
      requires Replayable(before, Registry(order, queue.Contents()))
      modifies this, queue
      ensures queue.Valid() && queue.Contents() == []
      ensures Replay(before + Registry(order, old(queue.Contents()))) == Some(availableServices)
    {
      ghost var all := queue.Contents();
      ghost var done: nat := 0;
      assert all[..0] == [] && before + [] == before;
      var m := queue.Pop();
      while m.Some?
        invariant queue.Valid() && done <= |all|
        invariant m.None? ==> done == |all| && queue.Contents() == []
        invariant m.Some? ==> done < |all| && m.value == all[done] && queue.Contents() == all[done + 1..]
        invariant Replay(before + Registry(order, all[..done])) == Some(availableServices)
        decreases |all| - done
      {
        NextHandled(order, before, all, done, availableServices);
        HandleMessage(order, m.value);
        done := done + 1;
        m := queue.Pop();
      }
      assert all[..done] == all;
    }
  }

  /** Every message of the box can be handled after `before`. */
  ghost predicate Replayable(before: seq<RegistryMessage>, box: seq<RegistryMessage>) {
    forall n | 0 <= n <= |box| :: Replay(before + box[..n]).Some?
  }

  lemma {:induction false} NextHandled(
    order: ByteOrder, before: seq<RegistryMessage>, all: seq<bytes>, done: nat, replica: seq<ServiceIDs>)
    requires done < |all| && Replayable(before, Registry(order, all))
    requires Replay(before + Registry(order, all[..done])) == Some(replica)
    ensures var m := DecodeRegistry(order, all[done]);
            && (m.Some? ==> Apply(replica, m.value).Some?)
            && Replay(before + Registry(order, all[..done + 1])) == (if m.Some? then Apply(replica, m.value) else Some(replica))
  {
    var box, m := Registry(order, all[..done]), DecodeRegistry(order, all[done]);
    assert all[..done + 1][..done] == all[..done];
    RegistryPrefix(order, all[..done + 1], all);
    if m.Some? {
      assert Registry(order, all[..done + 1]) == box + [m.value];
      assert before + (box + [m.value]) == (before + box) + [m.value];
      ReplayAppend(before + box, m.value);
      assert Registry(order, all)[..|box| + 1] == box + [m.value];
    } else {
      assert Registry(order, all[..done + 1]) == box;
    }
  }
}
