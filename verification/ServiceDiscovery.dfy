/**
 Service discovery messages (lib/ServiceDiscovery.h): what the serializer writes and what the
 parser reads back, as functions on byte sequences.

 The encoder below puts every length in front of what it measures. The serializer of the
 source reserves the length fields and fills them in later; `DiscoveryCodec` proves that
 this writes the same bytes.
 */
module ServiceDiscovery {
  import opened Bytes
  import opened Wire
  import opened SomeIp
  import TcpFraming

  const FIND_SERVICE: byte := 0x00
  const OFFER_SERVICE: byte := 0x01
  const SUBSCRIBE: byte := 0x06
  const SUBSCRIBE_ACK: byte := 0x07
  const IPV4_OPTION: byte := 0x04

  /** Fields common to all entries; `run1` and `run2` share a byte, `ttl` has three. */
  datatype EntryHeader = EntryHeader(
    kind: byte, indexFirst: byte, indexSecond: byte, run1: byte, run2: byte,
    serviceID: u16, instanceID: u16, majorVersion: byte, ttl: u32)

  datatype Entry =
    | ServiceEntry(header: EntryHeader, minorVersion: u32)
    | EventGroupEntry(header: EntryHeader, reserved16: u16, eventGroupID: u16)

  datatype IPv4Option = IPv4Option(address: u32, reserved: byte, protocol: byte, port: u16)

  type SixBits = x: int | 0 <= x < 64

  /** The bit field of the source: reboot is the lowest bit, unicast the next. */
  datatype Flags = Flags(reboot: bool, unicast: bool, unused: SixBits)

  datatype Message = Message(
    header: Header, flags: Flags, reserved1: byte, reserved2: byte, reserved3: byte,
    entries: seq<Entry>, options: seq<IPv4Option>)

  function FlagsByte(f: Flags): (b: byte)
    ensures FlagsOf(b) == f
  {
    (if f.reboot then 1 else 0) + (if f.unicast then 2 else 0) + 4 * f.unused
  }

  function FlagsOf(b: byte): (f: Flags) {
    Flags(b % 2 == 1, b / 2 % 2 == 1, b / 4)
  }

  // ---- Encoding ----

  const SERVICE_WIDTHS: seq<nat> := [1, 1, 1, 2, 2, 1, 3, 4]
  const GROUP_WIDTHS: seq<nat> := [1, 1, 1, 2, 2, 1, 3, 2, 2]
  const OPTION_WIDTHS: seq<nat> := [2, 1, 1, 4, 1, 1, 2]
  const ENTRY_SIZE: nat := 16
  const OPTION_SIZE: nat := 12

  lemma {:induction false} EntryWidths()
    ensures Total(SERVICE_WIDTHS) == Total(GROUP_WIDTHS) == 15
  {
    assert Total([3, 4]) == 7 && Total([3, 2, 2]) == 7 by {
      assert [3, 4][1..] == [4] && [3, 2, 2][1..] == [2, 2] && [2, 2][1..] == [2];
    }
    assert [1, 3, 4][1..] == [3, 4] && [1, 3, 2, 2][1..] == [3, 2, 2];
    assert [2, 1, 3, 4][1..] == [1, 3, 4] && [2, 1, 3, 2, 2][1..] == [1, 3, 2, 2];
    assert [2, 2, 1, 3, 4][1..] == [2, 1, 3, 4] && [2, 2, 1, 3, 2, 2][1..] == [2, 1, 3, 2, 2];
    assert [1, 2, 2, 1, 3, 4][1..] == [2, 2, 1, 3, 4] && [1, 2, 2, 1, 3, 2, 2][1..] == [2, 2, 1, 3, 2, 2];
    assert [1, 1, 2, 2, 1, 3, 4][1..] == [1, 2, 2, 1, 3, 4] && [1, 1, 2, 2, 1, 3, 2, 2][1..] == [1, 2, 2, 1, 3, 2, 2];
    assert SERVICE_WIDTHS[1..] == [1, 1, 2, 2, 1, 3, 4] && GROUP_WIDTHS[1..] == [1, 1, 2, 2, 1, 3, 2, 2];
  }

  lemma {:induction false} OptionWidths()
    ensures Total(OPTION_WIDTHS) == OPTION_SIZE
  {
    assert [1, 2][1..] == [2] && [1, 1, 2][1..] == [1, 2];
    assert [4, 1, 1, 2][1..] == [1, 1, 2] && [1, 4, 1, 1, 2][1..] == [4, 1, 1, 2];
    assert [1, 1, 4, 1, 1, 2][1..] == [1, 4, 1, 1, 2] && OPTION_WIDTHS[1..] == [1, 1, 4, 1, 1, 2];
  }

  function HeaderFields(h: EntryHeader): (values: seq<nat>)
    ensures |values| == 7
  {
    [h.indexFirst, h.indexSecond, h.run1 * 16 + h.run2, h.serviceID, h.instanceID, h.majorVersion, h.ttl]
  }

  function EntryValues(e: Entry): (values: seq<nat>)
    ensures |values| == |EntryLayout(e)|
  {
    HeaderFields(e.header) + if e.ServiceEntry? then [e.minorVersion] else [e.reserved16, e.eventGroupID]
  }

  function EntryLayout(e: Entry): (widths: seq<nat>) {
    if e.ServiceEntry? then SERVICE_WIDTHS else GROUP_WIDTHS
  }

  function EncodeEntry(e: Entry): (s: bytes)
    ensures |s| == ENTRY_SIZE
  {
    EntryWidths();
    [e.header.kind] + EncodeFields(EntryLayout(e), EntryValues(e))
  }

  function EncodeEntries(entries: seq<Entry>): (s: bytes)
    ensures |s| == ENTRY_SIZE * |entries|
  {
    if entries == [] then [] else EncodeEntry(entries[0]) + EncodeEntries(entries[1..])
  }

  function OptionValues(o: IPv4Option): (values: seq<nat>)
    ensures |values| == 7
  {
    [9, IPV4_OPTION, 0, o.address, o.reserved, o.protocol, o.port]
  }

  /** The option length does not count the type byte. */
  function EncodeOption(o: IPv4Option): (s: bytes)
    ensures |s| == OPTION_SIZE
  {
    OptionWidths();
    EncodeFields(OPTION_WIDTHS, OptionValues(o))
  }

  function EncodeOptions(options: seq<IPv4Option>): (s: bytes)
    ensures |s| == OPTION_SIZE * |options|
  {
    if options == [] then [] else EncodeOption(options[0]) + EncodeOptions(options[1..])
  }

  function Sized(s: bytes): (r: bytes)
    ensures |r| == 4 + |s|
  {
    NetworkBytes(|s|, 4) + s
  }

  function FlagFields(m: Message): (s: bytes)
    ensures |s| == 4
  {
    [FlagsByte(m.flags), m.reserved1, m.reserved2, m.reserved3]
  }

  /** Everything after the SOME/IP header. */
  function EncodeBody(m: Message): (s: bytes) {
    FlagFields(m) + Sized(EncodeEntries(m.entries)) + Sized(EncodeOptions(m.options))
  }

  /** A discovery message is framed like any other SOME/IP message. */
  function EncodeMessage(m: Message): (s: bytes) {
    TcpFraming.FramePacket(TcpFraming.Packet(m.header, EncodeBody(m)))
  }

  // ---- Parsing ----

  function HeaderOf(kind: byte, v: seq<nat>): (h: EntryHeader)
    requires |v| >= 7 && v[0] < 0x100 && v[1] < 0x100 && v[2] < 0x100
    requires v[3] < 0x1_0000 && v[4] < 0x1_0000 && v[5] < 0x100 && v[6] < 0x1_0000_0000
  {
    EntryHeader(kind, v[0], v[1], v[2] / 16, v[2] % 16, v[3], v[4], v[5], v[6])
  }

  lemma {:induction false} EntryRanges(widths: seq<nat>, s: bytes)
    requires widths in {SERVICE_WIDTHS, GROUP_WIDTHS} && |s| >= 15
    ensures Total(widths) == 15 && DecodeFields(widths, s).Some?
    ensures var v := DecodeFields(widths, s).value.0;
            && |v| == |widths|
            && v[0] < 0x100 && v[1] < 0x100 && v[2] < 0x100 && v[3] < 0x1_0000 && v[4] < 0x1_0000
            && v[5] < 0x100 && v[6] < 0x100_0000
            && (widths == SERVICE_WIDTHS ==> v[7] < 0x1_0000_0000)
            && (widths == GROUP_WIDTHS ==> v[7] < 0x1_0000 && v[8] < 0x1_0000)
  {
    EntryWidths();
    Pow256Values();
    DecodedAt(widths, s, 0, 0x100);
    DecodedAt(widths, s, 1, 0x100);
    DecodedAt(widths, s, 2, 0x100);
    DecodedAt(widths, s, 3, 0x1_0000);
    DecodedAt(widths, s, 4, 0x1_0000);
    DecodedAt(widths, s, 5, 0x100);
    DecodedAt(widths, s, 6, 0x100_0000);
    if widths == SERVICE_WIDTHS {
      DecodedAt(widths, s, 7, 0x1_0000_0000);
    } else {
      DecodedAt(widths, s, 7, 0x1_0000);
      DecodedAt(widths, s, 8, 0x1_0000);
    }
  }

  /** One entry, or nothing for an unknown type, of which only the type byte is consumed. */
  function ParseEntry(s: bytes): (r: Option<(Option<Entry>, bytes)>)
    ensures r.Some? ==> |r.value.1| < |s|
  {
    if s == [] then None
    else
      var kind := s[0];
      if kind == FIND_SERVICE || kind == OFFER_SERVICE then
        if |s| < ENTRY_SIZE then None
        else
          EntryRanges(SERVICE_WIDTHS, s[1..]);
          var v := DecodeFields(SERVICE_WIDTHS, s[1..]).value.0;
          Some((Some(ServiceEntry(HeaderOf(kind, v), v[7])), s[ENTRY_SIZE..]))
      else if kind == SUBSCRIBE || kind == SUBSCRIBE_ACK then
        if |s| < ENTRY_SIZE then None
        else
          EntryRanges(GROUP_WIDTHS, s[1..]);
          var v := DecodeFields(GROUP_WIDTHS, s[1..]).value.0;
          Some((Some(EventGroupEntry(HeaderOf(kind, v), v[7], v[8])), s[ENTRY_SIZE..]))
      else Some((None, s[1..]))
  }

  /** The entry loop: it reads while fewer than `length` bytes have been consumed. */
  function ParseEntries(s: bytes, length: int): (r: Option<(seq<Entry>, bytes)>)
    decreases |s|
  {
    if length <= 0 then Some(([], s))
    else
      var first := ParseEntry(s);
      if first.None? then None
      else
        var rest := ParseEntries(first.value.1, length - (|s| - |first.value.1|));
        if rest.None? then None
        else if first.value.0.None? then rest
        else Some(([first.value.0.value] + rest.value.0, rest.value.1))
  }

  lemma {:induction false} OptionRanges(s: bytes)
    requires |s| >= OPTION_SIZE
    ensures Total(OPTION_WIDTHS) == OPTION_SIZE && DecodeFields(OPTION_WIDTHS, s).Some?
    ensures var v := DecodeFields(OPTION_WIDTHS, s).value.0;
            |v| == 7 && v[3] < 0x1_0000_0000 && v[4] < 0x100 && v[5] < 0x100 && v[6] < 0x1_0000
  {
    OptionWidths();
    Pow256Values();
    DecodedAt(OPTION_WIDTHS, s, 3, 0x1_0000_0000);
    DecodedAt(OPTION_WIDTHS, s, 4, 0x100);
    DecodedAt(OPTION_WIDTHS, s, 5, 0x100);
    DecodedAt(OPTION_WIDTHS, s, 6, 0x1_0000);
  }

  /** One option; of an unknown one only length, type and reserved byte are consumed. */
  function ParseOption(s: bytes): (r: Option<(Option<IPv4Option>, bytes)>)
    ensures r.Some? ==> |r.value.1| < |s|
  {
    if |s| < 4 then None
    else if s[2] == IPV4_OPTION then
      if |s| < OPTION_SIZE then None
      else
        OptionRanges(s);
        var v := DecodeFields(OPTION_WIDTHS, s).value.0;
        Some((Some(IPv4Option(v[3], v[4], v[5], v[6])), s[OPTION_SIZE..]))
    else Some((None, s[4..]))
  }

  function ParseOptions(s: bytes, length: int): (r: Option<(seq<IPv4Option>, bytes)>)
    decreases |s|
  {
    if length <= 0 then Some(([], s))
    else
      var first := ParseOption(s);
      if first.None? then None
      else
        var rest := ParseOptions(first.value.1, length - (|s| - |first.value.1|));
        if rest.None? then None
        else if first.value.0.None? then rest
        else Some(([first.value.0.value] + rest.value.0, rest.value.1))
  }

  /** `deserialize`: the message after its SOME/IP header, and the bytes left. */
  function ParseBody(h: Header, s: bytes): (r: Option<(Message, bytes)>) {
    if |s| < 8 then None
    else
      var entries := ParseEntries(s[8..], NetworkValue(s[4..8]));
      if entries.None? || |entries.value.1| < 4 then None
      else
        var t := entries.value.1;
        var options := ParseOptions(t[4..], NetworkValue(t[..4]));
        if options.None? then None
        else Some((Message(h, FlagsOf(s[0]), s[1], s[2], s[3], entries.value.0, options.value.0), options.value.1))
  }

  /** A whole datagram. The length in the header is read and not used. */
  function ParseMessage(s: bytes): (r: Option<(Message, bytes)>) {
    if |s| < HEADER_SIZE then None else ParseBody(DecodeHeader(s).0, s[HEADER_SIZE..])
  }
}
