/**
 Offers and stop-offers (lib/ServiceDiscovery.h): how they are put into a discovery message
 and what a receiver makes of it.
 */
module Announcements {
  import opened Bytes
  import opened SomeIp
  import opened ServiceDiscovery
  import opened DiscoveryRoundTrip

  const TCP: byte := 0x06

  datatype EndPoint = EndPoint(address: u32, port: u16)

  datatype Announcement =
    | Offer(service: ServiceIDs, endPoint: EndPoint)
    | StopOffer(service: ServiceIDs, endPoint: EndPoint)

  /** What the listener is told; an event group entry may come without an address. */
  datatype Callback =
    | Available(service: ServiceIDs, endPoint: EndPoint)
    | Unavailable(service: ServiceIDs, endPoint: EndPoint)
    | FindRequested(service: ServiceIDs)
    | Subscribed(service: ServiceIDs, eventGroupID: u16, from: Option<EndPoint>)
    | SubscriptionFinished(service: ServiceIDs, eventGroupID: u16, from: Option<EndPoint>)

  /** The option index is the position of the option, stored in one byte. */
  function EntryFor(a: Announcement, index: nat): (e: Entry) {
    var i := index % 0x100;
    ServiceEntry(
      EntryHeader(OFFER_SERVICE, i, i, if a.Offer? then 1 else 0, 0, a.service.serviceID, a.service.instanceID, 1,
                  if a.Offer? then 0xFFFF_FFFF else 0), 1)
  }

  function OptionFor(p: EndPoint): (o: IPv4Option) {
    IPv4Option(p.address, 0, TCP, p.port)
  }

  /** The constructor of an offer or stop-offer entry, followed by `addEntry`. */
  function Announce(m: Message, a: Announcement): (m': Message) {
    m.(options := m.options + [OptionFor(a.endPoint)], entries := m.entries + [EntryFor(a, |m.options|)])
  }

  function AnnounceAll(m: Message, announcements: seq<Announcement>): (m': Message) {
    if announcements == [] then m
    else Announce(AnnounceAll(m, announcements[..|announcements| - 1]), announcements[|announcements| - 1])
  }

  function ServiceOf(h: EntryHeader): (ids: ServiceIDs) {
    ServiceIDs(h.serviceID, h.instanceID)
  }

  function EndPointOf(o: IPv4Option): (p: EndPoint) {
    EndPoint(o.address, o.port)
  }

  /** An entry the visitor handles: known type, and an option where it looks for one. */
  predicate Visitable(m: Message, e: Entry) {
    match e
    case ServiceEntry(h, _) => h.kind == FIND_SERVICE || (h.kind == OFFER_SERVICE && h.indexFirst < |m.options|)
    case EventGroupEntry(h, _, _) => h.kind == SUBSCRIBE && (h.run1 != 0 ==> h.indexFirst < |m.options|)
  }

  /** `EntryVisitor`. */
  function Visit(m: Message, e: Entry): (c: Callback)
    requires Visitable(m, e)
  {
    match e
    case ServiceEntry(h, _) =>
      if h.kind == OFFER_SERVICE then
        var p := EndPointOf(m.options[h.indexFirst]);
        if h.ttl != 0 then Available(ServiceOf(h), p) else Unavailable(ServiceOf(h), p)
      else FindRequested(ServiceOf(h))
    case EventGroupEntry(h, _, group) =>
      var from := if h.run1 != 0 then Some(EndPointOf(m.options[h.indexFirst])) else None;
      if h.ttl != 0 then Subscribed(ServiceOf(h), group, from) else SubscriptionFinished(ServiceOf(h), group, from)
  }

  /** `decodeMessage`: one callback per entry, in order. */
  method DecodeMessage(m: Message) returns (callbacks: seq<Callback>)
    requires forall i | 0 <= i < |m.entries| :: Visitable(m, m.entries[i])
    ensures |callbacks| == |m.entries|
    ensures forall i | 0 <= i < |m.entries| :: callbacks[i] == Visit(m, m.entries[i])
  {
    callbacks := [];
    var i := 0;
    while i < |m.entries|
      invariant 0 <= i <= |m.entries| == |m.entries| && |callbacks| == i
      invariant forall j | 0 <= j < i :: callbacks[j] == Visit(m, m.entries[j])
    {
      callbacks := callbacks + [Visit(m, m.entries[i])];
      i := i + 1;
    }
  }

  /** The callback that matches an announcement, for a given endpoint. */
  function Reported(a: Announcement, p: EndPoint): (c: Callback) {
    if a.Offer? then Available(a.service, p) else Unavailable(a.service, p)
  }

  ghost predicate Plain(m: Message) {
    m.entries == [] && m.options == []
  }

  lemma {:induction false} AnnouncedAt(m: Message, announcements: seq<Announcement>, k: nat)
    requires Plain(m)
    ensures var r := AnnounceAll(m, announcements);
            && |r.entries| == |r.options| == |announcements|
            && r.(entries := [], options := []) == m
            && (k < |announcements| ==>
                  r.options[k] == OptionFor(announcements[k].endPoint) && r.entries[k] == EntryFor(announcements[k], k))
  {
    if announcements != [] {
      AnnouncedAt(m, announcements[..|announcements| - 1], k);
    }
  }

  /** What the k-th entry of a received message reports: `a`, at the endpoint of `at`. */
  ghost predicate Hears(r: Message, k: nat, a: Announcement, at: Announcement) {
    k < |r.entries| && Visitable(r, r.entries[k]) && Visit(r, r.entries[k]) == Reported(a, at.endPoint)
  }

  lemma {:induction false} HearsKept(r: Message, k: nat, a: Announcement, at: Announcement)
    requires k < |r.entries| && r.entries[k] == Kept(EntryFor(a, k))
    requires k % 0x100 < |r.options| && r.options[k % 0x100] == OptionFor(at.endPoint)
    ensures Hears(r, k, a, at)
  {
  }

  /** The message a receiver of the announcements ends up with. */
  function Received(m: Message, announcements: seq<Announcement>): (r: Message) {
    KeptMessage(AnnounceAll(m, announcements))
  }

  /** Parsing the serialized announcements yields `Received`, with nothing left over. */
  lemma {:induction false} AnnouncedIsReceived(m: Message, announcements: seq<Announcement>)
    requires Plain(m) && ENTRY_SIZE * |announcements| < 0x1_0000_0000
    ensures ParseMessage(EncodeMessage(AnnounceAll(m, announcements))) == Some((Received(m, announcements), []))
  {
    var sent := AnnounceAll(m, announcements);
    forall k | 0 <= k < |sent.entries| ensures WellTyped(sent.entries[k]) {
      AnnouncedAt(m, announcements, k);
    }
    AnnouncedAt(m, announcements, 0);
    RoundTripIff(sent);
  }

  /**
   A received message has one entry per announcement, and the k-th makes exactly the k-th
   callback, offered or withdrawn with its own service IDs. The endpoint is the one stored
   at index k modulo 256.
   */
  lemma {:induction false} AnnouncedIsHeard(m: Message, announcements: seq<Announcement>, k: nat)
    requires Plain(m) && k < |announcements|
    ensures |Received(m, announcements).entries| == |announcements|
    ensures Hears(Received(m, announcements), k, announcements[k], announcements[k % 0x100])
  {
    var r := Received(m, announcements);
    assert |r.entries| == |r.options| == |announcements| && r.entries[k] == Kept(EntryFor(announcements[k], k)) by {
      AnnouncedAt(m, announcements, k);
    }
    assert r.options[k % 0x100] == OptionFor(announcements[k % 0x100].endPoint) by {
      AnnouncedAt(m, announcements, k % 0x100);
    }
    HearsKept(r, k, announcements[k], announcements[k % 0x100]);
  }

  lemma {:induction false} HeardOwnEndPoint(m: Message, announcements: seq<Announcement>, k: nat)
    requires Plain(m) && k < |announcements|
    ensures Hears(Received(m, announcements), k, announcements[k], announcements[k]) <==> Points(announcements, k)
  {
    AnnouncedIsHeard(m, announcements, k);
  }

  /** The announcement that the one-byte index of the k-th entry points to has the same endpoint. */
  predicate Points(announcements: seq<Announcement>, k: nat)
    requires k < |announcements|
  {
    announcements[k].endPoint == announcements[k % 0x100].endPoint
  }

  lemma {:induction false} SmallIndexPoints(announcements: seq<Announcement>, k: nat)
    requires k < |announcements| && k < 0x100
    ensures Points(announcements, k)
  {
  }

  /**
   Every announcement is heard with its own endpoint exactly when each one numbered 256 or
   more repeats the endpoint of the one its truncated index points to.
   */
  lemma {:induction false} HeardCorrectlyIff(m: Message, announcements: seq<Announcement>)
    requires Plain(m)
    ensures (forall k | 0 <= k < |announcements| ::
               Hears(Received(m, announcements), k, announcements[k], announcements[k])) <==>
            (forall k | 0x100 <= k < |announcements| :: Points(announcements, k))
  {
    var r := Received(m, announcements);
    forall k | 0 <= k < |announcements|
      ensures Hears(r, k, announcements[k], announcements[k]) <==> Points(announcements, k)
      ensures k < 0x100 ==> Points(announcements, k)
    {
      HeardOwnEndPoint(m, announcements, k);
      if k < 0x100 {
        SmallIndexPoints(announcements, k);
      }
    }
  }

  /** 256 offers at one endpoint and a last one at another. */
  function ManyOffers(service: ServiceIDs, first: EndPoint, last: EndPoint): (r: seq<Announcement>)
    ensures |r| == 0x101 && r[0x100] == Offer(service, last)
    ensures forall k | 0 <= k < 0x100 :: r[k] == Offer(service, first)
  {
    seq(0x101, k => Offer(service, if k < 0x100 then first else last))
  }

  /** The 257th offer is heard with the endpoint of the first. */
  lemma {:induction false} ManyOffersMisheard(m: Message, service: ServiceIDs, first: EndPoint, last: EndPoint)
    requires Plain(m) && first != last
    ensures var announcements := ManyOffers(service, first, last);
            && ParseMessage(EncodeMessage(AnnounceAll(m, announcements))) == Some((Received(m, announcements), []))
            && Hears(Received(m, announcements), 0x100, announcements[0x100], announcements[0])
            && !Hears(Received(m, announcements), 0x100, announcements[0x100], announcements[0x100])
  {
    var announcements := ManyOffers(service, first, last);
    AnnouncedIsReceived(m, announcements);
    AnnouncedIsHeard(m, announcements, 0x100);
    HeardOwnEndPoint(m, announcements, 0x100);
  }
}
