/**
 Queries and subscriptions in discovery messages (lib/ServiceDiscovery.h): what the receiver of
 any mix of entries is told.
 */
module Requests {
  import opened Bytes
  import opened SomeIp
  import opened ServiceDiscovery
  import opened DiscoveryRoundTrip
  import opened Announcements

  /** `SomeIPServiceDiscoveryServiceQueryEntry`: every instance, any version. */
  function QueryEntry(serviceID: u16): (e: Entry) {
    ServiceEntry(EntryHeader(FIND_SERVICE, 0, 0, 0, 0, serviceID, 0xFFFF, 0xFF, 0xFFFF_FFFF), 0xFFFF_FFFF)
  }

  /** `SomeIPServiceDiscoverySubscribeNotificationEntry`; nobody sets the reserved field. */
  function SubscribeEntry(ids: ServiceIDs, group: u16, reserved: u16): (e: Entry) {
    EventGroupEntry(EntryHeader(SUBSCRIBE, 0, 0, 0, 0, ids.serviceID, ids.instanceID, 1, 0xFFFF_FFFF), reserved, group)
  }

  /** The same entry with a lifetime and perhaps an address, as other devices may send it. */
  function GroupEntry(ids: ServiceIDs, group: u16, reserved: u16, ttl: u32, run: byte, index: byte): (e: Entry) {
    EventGroupEntry(EntryHeader(SUBSCRIBE, index, index, run, 0, ids.serviceID, ids.instanceID, 1, ttl), reserved, group)
  }

  ghost predicate Sendable(m: Message) {
    AllWellTyped(m.entries) && LengthsFit(m)
  }

  /** The receiver of `m` has one entry for each and handles the k-th exactly by saying `c`. */
  ghost predicate Told(m: Message, k: nat, c: Callback) {
    var r := ParseMessage(EncodeMessage(m));
    && r.Some? && r.value.1 == [] && |r.value.0.entries| == |m.entries| && k < |m.entries|
    && Visitable(r.value.0, r.value.0.entries[k]) && Visit(r.value.0, r.value.0.entries[k]) == c
  }

  lemma {:induction false} ReceivedEntry(m: Message, k: nat)
    requires Sendable(m) && k < |m.entries|
    ensures var r := KeptMessage(m);
            && ParseMessage(EncodeMessage(m)) == Some((r, []))
            && |r.entries| == |m.entries| && r.entries[k] == Kept(m.entries[k]) && r.options == m.options
  {
    RoundTripIff(m);
  }

  /** In a received message, the k-th entry makes the receiver say `c`. */
  ghost predicate Handles(r: Message, k: nat, c: Callback) {
    k < |r.entries| && Visitable(r, r.entries[k]) && Visit(r, r.entries[k]) == c
  }

  lemma {:induction false} HandledIsTold(m: Message, k: nat, c: Callback)
    requires Sendable(m) && k < |m.entries| && Handles(KeptMessage(m), k, c)
    ensures Told(m, k, c)
  {
    ReceivedEntry(m, k);
  }

  /** A query among any entries is heard as a query. */
  lemma {:induction false} QueryIsHeard(m: Message, k: nat, serviceID: u16)
    requires Sendable(m) && k < |m.entries| && m.entries[k] == QueryEntry(serviceID)
    ensures Told(m, k, FindRequested(ServiceIDs(serviceID, 0xFFFF)))
  {
    HandledIsTold(m, k, FindRequested(ServiceIDs(serviceID, 0xFFFF)));
  }

  lemma {:induction false} KeptRuns(e: Entry)
    requires e.header.run1 < 16 && e.header.run2 < 16
    ensures Kept(e) == e.(header := e.header.(ttl := e.header.ttl % 0x100_0000))
  {
  }

  /**
   With an address option and a lifetime: the address is passed on if the entry says it has
   one, and the subscription ends exactly when the three bytes kept of the lifetime are zero.
   */
  lemma {:induction false} GroupEntryIsHeard(
    m: Message, k: nat, ids: ServiceIDs, group: u16, reserved: u16, ttl: u32, run: byte, index: byte)
    requires Sendable(m) && k < |m.entries| && m.entries[k] == GroupEntry(ids, group, reserved, ttl, run, index)
    requires run < 16 && (run > 0 ==> index < |m.options|)
    ensures var from := if run > 0 then Some(EndPoint(m.options[index].address, m.options[index].port)) else None;
            Told(m, k, if ttl % 0x100_0000 > 0 then Subscribed(ids, group, from) else SubscriptionFinished(ids, group, from))
  {
    KeptRuns(m.entries[k]);
    var from := if run > 0 then Some(EndPoint(m.options[index].address, m.options[index].port)) else None;
    var c := if ttl % 0x100_0000 > 0 then Subscribed(ids, group, from) else SubscriptionFinished(ids, group, from);
    HandledIsTold(m, k, c);
  }

  /** A subscription among any entries is heard with its service and its event group, without an address. */
  lemma {:induction false} SubscriptionIsHeard(m: Message, k: nat, ids: ServiceIDs, group: u16, reserved: u16)
    requires Sendable(m) && k < |m.entries| && m.entries[k] == SubscribeEntry(ids, group, reserved)
    ensures Told(m, k, Subscribed(ids, group, None))
  {
    KeptRuns(m.entries[k]);
    HandledIsTold(m, k, Subscribed(ids, group, None));
  }

  /** An offer among any entries, with the endpoint of the option it points to. */
  lemma {:induction false} OfferIsHeard(m: Message, k: nat, a: Announcement, index: nat)
    requires Sendable(m) && k < |m.entries| && index < |m.options| && index < 0x100
    requires m.entries[k] == EntryFor(a, index) && m.options[index] == OptionFor(a.endPoint)
    ensures Told(m, k, if a.Offer? then Available(a.service, a.endPoint) else Unavailable(a.service, a.endPoint))
  {
    KeptRuns(m.entries[k]);
    HandledIsTold(m, k, if a.Offer? then Available(a.service, a.endPoint) else Unavailable(a.service, a.endPoint));
  }

  /** Acknowledgements are received, and then have no listener: the visitor does not accept them. */
  lemma {:induction false} AcknowledgementNotHandled(m: Message, k: nat)
    requires Sendable(m) && k < |m.entries| && m.entries[k].header.kind == 0x07
    ensures var r := ParseMessage(EncodeMessage(m));
            r.Some? && |r.value.0.entries| == |m.entries| && !Visitable(r.value.0, r.value.0.entries[k])
  {
    ReceivedEntry(m, k);
    assert WellTyped(m.entries[k]);
  }
}
