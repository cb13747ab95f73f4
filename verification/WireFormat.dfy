/**
 The bytes of messages on the network (lib/SomeIP.h, lib/ServiceDiscovery.h,
 lib/TCPClient.cpp, lib/SomeIP-Serialization.h) and between daemon and clients (lib/ipc.h), position by position.
 */
module WireFormat {
  import opened Bytes
  import opened Wire
  import opened SomeIp
  import opened ServiceDiscovery
  import opened Announcements
  import Containers
  import Daemon
  import IpcStream
  import RegistryClient
  import TcpFraming

  function Two(v: nat): (s: bytes) {
    [v / 0x100 % 0x100, v % 0x100]
  }

  function Three(v: nat): (s: bytes) {
    [v / 0x1_0000 % 0x100, v / 0x100 % 0x100, v % 0x100]
  }

  function Four(v: nat): (s: bytes) {
    [v / 0x100_0000 % 0x100, v / 0x1_0000 % 0x100, v / 0x100 % 0x100, v % 0x100]
  }

  /** The most significant byte comes first. */
  lemma {:induction false} NumbersOnWire(v: nat)
    ensures NetworkBytes(v, 1) == [v % 0x100] && NetworkBytes(v, 2) == Two(v)
    ensures NetworkBytes(v, 3) == Three(v) && NetworkBytes(v, 4) == Four(v)
  {
    Pow256Values();
    forall w: nat, i: nat | i < w ensures NetworkBytes(v, w)[i] == v / Pow256(w - 1 - i) % 256 {
      NetworkByteAt(v, w, i);
    }
    assert Pow256(0) == 1;
  }

  lemma {:induction false} FieldOnWire(w: nat, widths: seq<nat>, v: nat, values: seq<nat>)
    requires |widths| == |values|
    ensures EncodeFields([w] + widths, [v] + values) == NetworkBytes(v, w) + EncodeFields(widths, values)
  {
    assert ([w] + widths)[1..] == widths && ([v] + values)[1..] == values;
  }

  lemma {:induction false} ByteOnWire(v: byte, widths: seq<nat>, values: seq<nat>)
    requires |widths| == |values|
    ensures EncodeFields([1] + widths, [v] + values) == [v] + EncodeFields(widths, values)
  {
    FieldOnWire(1, widths, v, values);
    assert NetworkBytes(v, 1) == [v] by { NumbersOnWire(v); }
  }

  lemma {:induction false} TwoOnWire(v: u16, widths: seq<nat>, values: seq<nat>)
    requires |widths| == |values|
    ensures EncodeFields([2] + widths, [v] + values) == Two(v) + EncodeFields(widths, values)
  {
    FieldOnWire(2, widths, v, values);
    assert NetworkBytes(v, 2) == Two(v) by { NumbersOnWire(v); }
  }

  lemma {:induction false} FourOnWire(v: nat, widths: seq<nat>, values: seq<nat>)
    requires |widths| == |values|
    ensures EncodeFields([4] + widths, [v] + values) == Four(v) + EncodeFields(widths, values)
  {
    FieldOnWire(4, widths, v, values);
    assert NetworkBytes(v, 4) == Four(v) by { NumbersOnWire(v); }
  }

  lemma {:induction false} LastTwoOnWire(v: u16)
    ensures EncodeFields([2], [v]) == Two(v)
  {
    EncodeOneField(2, v);
    assert NetworkBytes(v, 2) == Two(v) by { NumbersOnWire(v); }
  }

  lemma {:induction false} LastFourOnWire(v: nat)
    ensures EncodeFields([4], [v]) == Four(v)
  {
    EncodeOneField(4, v);
    assert NetworkBytes(v, 4) == Four(v) by { NumbersOnWire(v); }
  }

  lemma {:induction false} LastByteOnWire(v: byte)
    ensures EncodeFields([1], [v]) == [v]
  {
    EncodeOneField(1, v);
    assert NetworkBytes(v, 1) == [v] by { NumbersOnWire(v); }
  }

  /** A SOME/IP header: message ID, length, request ID, versions, type and return code. */
  lemma {:induction false} HeaderOnWire(h: Header, length: nat)
    ensures EncodeHeader(h, length) ==
            Four(h.messageID) + (Four(length) + (Four(h.requestID) +
              ([h.protocolVersion] + ([h.interfaceVersion] + ([h.messageType] + [h.returnCode])))))
  {
    var w1, v1 := [1], [h.returnCode];
    LastByteOnWire(h.returnCode);
    ByteOnWire(h.messageType, w1, v1);
    var w2, v2 := [1] + w1, [h.messageType] + v1;
    ByteOnWire(h.interfaceVersion, w2, v2);
    var w3, v3 := [1] + w2, [h.interfaceVersion] + v2;
    ByteOnWire(h.protocolVersion, w3, v3);
    var w4, v4 := [1] + w3, [h.protocolVersion] + v3;
    FourOnWire(h.requestID, w4, v4);
    var w5, v5 := [4] + w4, [h.requestID] + v4;
    FourOnWire(length, w5, v5);
    var w6, v6 := [4] + w5, [length] + v5;
    FourOnWire(h.messageID, w6, v6);
    assert [4] + w6 == HEADER_WIDTHS && [h.messageID] + v6 == HeaderValues(h, length);
  }

  /** A message: the length counts what comes after it. */
  lemma {:induction false} PacketOnWire(h: Header, payload: bytes)
    ensures TcpFraming.FramePacket(TcpFraming.Packet(h, payload)) ==
            Four(h.messageID) + (Four(|payload| + 8) + (Four(h.requestID) +
              ([h.protocolVersion] + ([h.interfaceVersion] + ([h.messageType] + [h.returnCode]))))) + payload
  {
    HeaderOnWire(h, 8 + |payload|);
  }

  // ---- Discovery ----

  /** Option indexes, both runs in one byte, service and instance ID. */
  lemma {:induction false} EntryStartOnWire(h: EntryHeader, widths: seq<nat>, values: seq<nat>)
    requires |widths| == |values| && h.run1 < 16 && h.run2 < 16
    ensures EncodeFields([1] + ([1] + ([1] + ([2] + ([2] + widths)))),
                         [h.indexFirst] + ([h.indexSecond] + ([h.run1 * 16 + h.run2] +
                           ([h.serviceID] + ([h.instanceID] + values))))) ==
            [h.indexFirst] + ([h.indexSecond] + ([h.run1 * 16 + h.run2] +
              (Two(h.serviceID) + (Two(h.instanceID) + EncodeFields(widths, values)))))
  {
    TwoOnWire(h.instanceID, widths, values);
    var w1, v1 := [2] + widths, [h.instanceID] + values;
    TwoOnWire(h.serviceID, w1, v1);
    var w2, v2 := [2] + w1, [h.serviceID] + v1;
    ByteOnWire(h.run1 * 16 + h.run2, w2, v2);
    var w3, v3 := [1] + w2, [h.run1 * 16 + h.run2] + v2;
    ByteOnWire(h.indexSecond, w3, v3);
    ByteOnWire(h.indexFirst, [1] + w3, [h.indexSecond] + v3);
  }

  /** Version and the three bytes of the lifetime. */
  lemma {:induction false} EntryEndOnWire(h: EntryHeader, widths: seq<nat>, values: seq<nat>)
    requires |widths| == |values|
    ensures EncodeFields([1] + ([3] + widths), [h.majorVersion] + ([h.ttl] + values)) ==
            [h.majorVersion] + (Three(h.ttl) + EncodeFields(widths, values))
  {
    FieldOnWire(3, widths, h.ttl, values);
    assert NetworkBytes(h.ttl, 3) == Three(h.ttl) by { NumbersOnWire(h.ttl); }
    ByteOnWire(h.majorVersion, [3] + widths, [h.ttl] + values);
  }

  /** The fields common to all entries and what follows them. */
  function EntryStart(h: EntryHeader, rest: bytes): (s: bytes)
    requires h.run1 < 16 && h.run2 < 16
  {
    [h.kind] + ([h.indexFirst] + ([h.indexSecond] + ([h.run1 * 16 + h.run2] +
      (Two(h.serviceID) + (Two(h.instanceID) + ([h.majorVersion] + (Three(h.ttl) + rest)))))))
  }

  lemma {:induction false} ServiceValues(h: EntryHeader, minor: u32)
    ensures EntryValues(ServiceEntry(h, minor)) ==
            [h.indexFirst] + ([h.indexSecond] + ([h.run1 * 16 + h.run2] + ([h.serviceID] + ([h.instanceID] +
              ([h.majorVersion] + ([h.ttl] + [minor]))))))
    ensures SERVICE_WIDTHS == [1] + ([1] + ([1] + ([2] + ([2] + ([1] + ([3] + [4]))))))
  {
  }

  lemma {:induction false} ServiceEntryOnWire(h: EntryHeader, minor: u32)
    requires h.run1 < 16 && h.run2 < 16
    ensures EncodeEntry(ServiceEntry(h, minor)) == EntryStart(h, Four(minor))
  {
    LastFourOnWire(minor);
    EntryEndOnWire(h, [4], [minor]);
    EntryStartOnWire(h, [1] + ([3] + [4]), [h.majorVersion] + ([h.ttl] + [minor]));
    ServiceValues(h, minor);
  }

  lemma {:induction false} GroupValues(h: EntryHeader, reserved: u16, group: u16)
    ensures EntryValues(EventGroupEntry(h, reserved, group)) ==
            [h.indexFirst] + ([h.indexSecond] + ([h.run1 * 16 + h.run2] + ([h.serviceID] + ([h.instanceID] +
              ([h.majorVersion] + ([h.ttl] + ([reserved] + [group])))))))
    ensures GROUP_WIDTHS == [1] + ([1] + ([1] + ([2] + ([2] + ([1] + ([3] + ([2] + [2])))))))
  {
  }

  lemma {:induction false} GroupEntryOnWire(h: EntryHeader, reserved: u16, group: u16)
    requires h.run1 < 16 && h.run2 < 16
    ensures EncodeEntry(EventGroupEntry(h, reserved, group)) == EntryStart(h, Two(reserved) + Two(group))
  {
    LastTwoOnWire(group);
    TwoOnWire(reserved, [2], [group]);
    EntryEndOnWire(h, [2] + [2], [reserved] + [group]);
    EntryStartOnWire(h, [1] + ([3] + ([2] + [2])), [h.majorVersion] + ([h.ttl] + ([reserved] + [group])));
    GroupValues(h, reserved, group);
  }

  /** An address option: its length does not count itself and the type. */
  lemma {:induction false} OptionOnWire(o: IPv4Option)
    ensures EncodeOption(o) ==
            [0, 9] + ([4] + ([0] + (Four(o.address) + ([o.reserved] + ([o.protocol] + Two(o.port))))))
  {
    LastTwoOnWire(o.port);
    ByteOnWire(o.protocol, [2], [o.port]);
    var w1, v1 := [1] + [2], [o.protocol] + [o.port];
    ByteOnWire(o.reserved, w1, v1);
    var w2, v2 := [1] + w1, [o.reserved] + v1;
    FourOnWire(o.address, w2, v2);
    var w3, v3 := [4] + w2, [o.address] + v2;
    ByteOnWire(0, w3, v3);
    var w4, v4 := [1] + w3, [0] + v3;
    ByteOnWire(4, w4, v4);
    var w5, v5 := [1] + w4, [4] + v4;
    TwoOnWire(9, w5, v5);
    assert [2] + w5 == OPTION_WIDTHS && [9] + v5 == OptionValues(o);
  }

  lemma {:induction false} Shifted(first: bytes, rest: bytes, i: nat, n: nat)
    requires i + n <= |rest|
    ensures (first + rest)[|first| + i..|first| + i + n] == rest[i..i + n]
  {
  }

  lemma {:induction false} EntryPosition(entries: seq<Entry>, k: nat)
    requires k < |entries|
    ensures 16 * k + 16 <= |EncodeEntries(entries)|
    ensures EncodeEntries(entries)[16 * k..16 * k + 16] == EncodeEntry(entries[k])
  {
    var first, rest := EncodeEntry(entries[0]), EncodeEntries(entries[1..]);
    if k > 0 {
      EntryPosition(entries[1..], k - 1);
      Shifted(first, rest, 16 * (k - 1), 16);
    }
  }

  lemma {:induction false} OptionPosition(options: seq<IPv4Option>, k: nat)
    requires k < |options|
    ensures 12 * k + 12 <= |EncodeOptions(options)|
    ensures EncodeOptions(options)[12 * k..12 * k + 12] == EncodeOption(options[k])
  {
    var first, rest := EncodeOption(options[0]), EncodeOptions(options[1..]);
    if k > 0 {
      OptionPosition(options[1..], k - 1);
      Shifted(first, rest, 12 * (k - 1), 12);
    }
  }

  function Bit(b: bool): (v: byte) {
    if b then 1 else 0
  }

  lemma {:induction false} FlagsOnWire(m: Message)
    ensures FlagFields(m) ==
            [4 * m.flags.unused + 2 * Bit(m.flags.unicast) + Bit(m.flags.reboot), m.reserved1, m.reserved2, m.reserved3]
  {
  }

  lemma {:induction false} SizedOnWire(s: bytes, n: nat)
    requires n == |s|
    ensures Sized(s) == Four(n) + s
  {
    assert NetworkBytes(n, 4) == Four(n) by { NumbersOnWire(n); }
  }

  /** A discovery message after its header: flags, then entries and options, each after its length in bytes. */
  lemma {:induction false} BodyOnWire(m: Message)
    ensures EncodeBody(m) ==
            [4 * m.flags.unused + 2 * Bit(m.flags.unicast) + Bit(m.flags.reboot), m.reserved1, m.reserved2, m.reserved3] +
            (Four(16 * |m.entries|) + EncodeEntries(m.entries)) + (Four(12 * |m.options|) + EncodeOptions(m.options))
  {
    FlagsOnWire(m);
    SizedOnWire(EncodeEntries(m.entries), 16 * |m.entries|);
    SizedOnWire(EncodeOptions(m.options), 12 * |m.options|);
  }

  lemma {:induction false} FixedNumbers()
    ensures Four(1) == [0, 0, 0, 1] && Three(0xFFFF_FFFF) == [0xFF, 0xFF, 0xFF] && Three(0) == [0, 0, 0]
  {
  }

  /** The sixteen bytes of an offer or stop-offer of which the option is number `index`. */
  lemma {:induction false} AnnouncementOnWire(a: Announcement, index: byte)
    ensures EncodeEntry(EntryFor(a, index)) ==
            [1] + ([index] + ([index] + ([if a.Offer? then 16 else 0] +
              (Two(a.service.serviceID) + (Two(a.service.instanceID) + ([1] +
                ((if a.Offer? then [0xFF, 0xFF, 0xFF] else [0, 0, 0]) + [0, 0, 0, 1])))))))
  {
    var h := EntryFor(a, index).header;
    ServiceEntryOnWire(h, 1);
    FixedNumbers();
    assert h.run1 * 16 + h.run2 == if a.Offer? then 16 else 0;
  }

  /** The option of an announcement: TCP at the endpoint. */
  lemma {:induction false} EndPointOnWire(e: EndPoint)
    ensures EncodeOption(OptionFor(e)) == [0, 9] + ([4] + ([0] + (Four(e.address) + ([0] + ([6] + Two(e.port))))))
  {
    OptionOnWire(OptionFor(e));
  }

  // ---- Between daemon and clients ----

  /** On a little-endian host the least significant byte comes first. */
  lemma {:induction false} ByteInMemory(v: nat, width: nat, i: nat)
    requires i < width
    ensures MemoryBytes(LittleEndian, v, width)[i] == v / Pow256(i) % 256
    ensures MemoryBytes(BigEndian, v, width)[i] == v / Pow256(width - 1 - i) % 256
  {
    NetworkByteAt(v, width, i);
    NetworkByteAt(v, width, width - 1 - i);
  }

  /** A message is sent after its length, eight bytes in the order of the host. */
  lemma {:induction false} FrameOnStream(order: ByteOrder, payload: bytes, i: nat)
    ensures var s := IpcStream.Frame(order, payload);
            && |s| == 8 + |payload| && s[8..] == payload
            && (i < 8 ==> s[i] == |payload| / Pow256(if order.LittleEndian? then i else 7 - i) % 256)
  {
    if i < 8 {
      ByteInMemory(|payload|, 8, i);
    }
  }

  function HostTwo(order: ByteOrder, v: u16): (s: bytes) {
    if order.LittleEndian? then [v % 0x100, v / 0x100] else [v / 0x100, v % 0x100]
  }

  lemma {:induction false} TwoInMemory(order: ByteOrder, v: u16)
    ensures MemoryBytes(order, v, 2) == HostTwo(order, v)
  {
    assert NetworkBytes(v, 2) == Two(v) by { NumbersOnWire(v); }
  }

  /** A message about the registry: request ID zero, type 10 or 11, return code, and four bytes per service. */
  lemma {:induction false} RegistryOnStream(order: ByteOrder, m: Daemon.RegistryMessage, k: nat)
    requires k < |m.ids|
    ensures var s := RegistryClient.EncodeRegistry(order, m);
            && |s| == 4 + 4 * |m.ids|
            && s[..4] == [0, 0, if m.Registered? then 10 else 11, 0]
            && s[4 + 4 * k..8 + 4 * k] == HostTwo(order, m.ids[k].serviceID) + HostTwo(order, m.ids[k].instanceID)
  {
    var s, ids := RegistryClient.EncodeRegistry(order, m), RegistryClient.IdsBytes(order, m.ids);
    TwoInMemory(order, 0);
    IdOnStream(order, m.ids, k);
    Shifted(s[..4], ids, 4 * k, 4);
    assert s == s[..4] + ids;
  }

  lemma {:induction false} IdsLength(order: ByteOrder, ids: seq<ServiceIDs>)
    ensures |RegistryClient.IdsBytes(order, ids)| == 4 * |ids|
  {
    if ids != [] {
      IdsLength(order, ids[1..]);
    }
  }

  lemma {:induction false} IdOnStream(order: ByteOrder, ids: seq<ServiceIDs>, k: nat)
    requires k < |ids|
    ensures var s := RegistryClient.IdsBytes(order, ids);
            && |s| == 4 * |ids|
            && s[4 * k..4 * k + 4] == HostTwo(order, ids[k].serviceID) + HostTwo(order, ids[k].instanceID)
  {
    var first, rest := RegistryClient.IdBytes(order, ids[0]), RegistryClient.IdsBytes(order, ids[1..]);
    IdsLength(order, ids);
    if k > 0 {
      IdOnStream(order, ids[1..], k - 1);
      Shifted(first, rest, 4 * (k - 1), 4);
    } else {
      FirstOnStream(order, ids[0], rest);
    }
  }

  lemma {:induction false} FirstOnStream(order: ByteOrder, id: ServiceIDs, rest: bytes)
    ensures (RegistryClient.IdBytes(order, id) + rest)[0..4] == HostTwo(order, id.serviceID) + HostTwo(order, id.instanceID)
  {
    TwoInMemory(order, id.serviceID);
    TwoInMemory(order, id.instanceID);
  }

  // ---- Payloads ----

  lemma {:induction false} LengthOnWire(n: nat)
    ensures NetworkBytes(n, 4) == Four(n)
  {
    NumbersOnWire(n);
  }

  lemma {:induction false} ScalarOnWire(n: nat, width: nat, i: nat)
    requires n < Pow256(width) && i < width
    ensures var s := Containers.Write(Containers.Scalar(width), Containers.LNum(n));
            |s| == width && s[i] == n / Pow256(width - 1 - i) % 256
  {
    NetworkByteAt(n, width, i);
  }

  /** A string is its length and its characters. */
  lemma {:induction false} TextOnWire(x: bytes)
    requires |x| < 0x1_0000_0000
    ensures Containers.Write(Containers.Text, Containers.LString(x)) == Four(|x|) + x
    ensures Containers.WriteKey(Containers.TextKey, Containers.StringKey(x)) == Four(|x|) + x
  {
    LengthOnWire(|x|);
  }

  lemma {:induction false} ItemsGrow(t: Containers.Type, items: seq<Containers.Layout>, x: Containers.Layout)
    requires (forall i | 0 <= i < |items| :: Containers.Fits(t, items[i])) && Containers.Fits(t, x)
    ensures Containers.WriteItems(t, items + [x]) == Containers.WriteItems(t, items) + Containers.Write(t, x)
  {
    if items == [] {
      assert items + [x] == [x] && [x][1..] == [];
    } else {
      assert (items + [x])[1..] == items[1..] + [x] && (items + [x])[0] == items[0];
      ItemsGrow(t, items[1..], x);
      Assoc(Containers.Write(t, items[0]), Containers.WriteItems(t, items[1..]), Containers.Write(t, x));
    }
  }

  /** A vector is the number of its elements and the elements, one after the other. */
  lemma {:induction false} ListOnWire(t: Containers.Type, items: seq<Containers.Layout>, x: Containers.Layout)
    requires Containers.Fits(Containers.List(t), Containers.LItems(items)) && Containers.Fits(t, x)
    requires |items| + 1 < 0x1_0000_0000
    ensures Containers.Write(Containers.List(t), Containers.LItems([])) == [0, 0, 0, 0]
    ensures Containers.Write(Containers.List(t), Containers.LItems(items + [x])) ==
            Four(|items| + 1) + Containers.Write(Containers.List(t), Containers.LItems(items))[4..] + Containers.Write(t, x)
  {
    assert Containers.Fits(Containers.List(t), Containers.LItems(items + [x]));
    LengthOnWire(0);
    LengthOnWire(|items| + 1);
    ItemsGrow(t, items, x);
    var list := Containers.WriteItems(t, items);
    assert (NetworkBytes(|items|, 4) + list)[4..] == list;
    Assoc(Four(|items| + 1), list, Containers.Write(t, x));
  }

  lemma {:induction false} PairsGrow(
    k: Containers.KeyType, t: Containers.Type, pairs: seq<Containers.Pair>, x: Containers.Pair)
    requires forall i | 0 <= i < |pairs| :: Containers.KeyFits(k, pairs[i].key) && Containers.Fits(t, pairs[i].value)
    requires Containers.KeyFits(k, x.key) && Containers.Fits(t, x.value)
    ensures Containers.WritePairs(k, t, pairs + [x]) ==
            Containers.WritePairs(k, t, pairs) + (Containers.WriteKey(k, x.key) + Containers.Write(t, x.value))
  {
    var last := Containers.WriteKey(k, x.key) + Containers.Write(t, x.value);
    if pairs == [] {
      assert pairs + [x] == [x] && [x][1..] == [];
    } else {
      assert (pairs + [x])[1..] == pairs[1..] + [x] && (pairs + [x])[0] == pairs[0];
      PairsGrow(k, t, pairs[1..], x);
      Assoc(Containers.WriteKey(k, pairs[0].key) + Containers.Write(t, pairs[0].value),
            Containers.WritePairs(k, t, pairs[1..]), last);
    }
  }

  /** A map is the number of its entries and the entries, each a key and its value. */
  lemma {:induction false} MapOnWire(
    k: Containers.KeyType, t: Containers.Type, pairs: seq<Containers.Pair>, x: Containers.Pair)
    requires Containers.Fits(Containers.Dict(k, t), Containers.LEntries(pairs + [x]))
    requires Containers.Fits(Containers.Dict(k, t), Containers.LEntries(pairs))
    requires Containers.KeyFits(k, x.key) && Containers.Fits(t, x.value)
    ensures Containers.Write(Containers.Dict(k, t), Containers.LEntries([])) == [0, 0, 0, 0]
    ensures Containers.Write(Containers.Dict(k, t), Containers.LEntries(pairs + [x])) ==
            Four(|pairs| + 1) + Containers.Write(Containers.Dict(k, t), Containers.LEntries(pairs))[4..] +
            (Containers.WriteKey(k, x.key) + Containers.Write(t, x.value))
  {
    LengthOnWire(0);
    LengthOnWire(|pairs| + 1);
    PairsGrow(k, t, pairs, x);
    var list := Containers.WritePairs(k, t, pairs);
    assert (NetworkBytes(|pairs|, 4) + list)[4..] == list;
    Assoc(Four(|pairs| + 1), list, Containers.WriteKey(k, x.key) + Containers.Write(t, x.value));
  }
}
