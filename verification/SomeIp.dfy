/**
 Identifiers and message headers (lib/SomeIP.h) and the packing of a client identifier into
 the upper half of a request ID (lib/TCPClient.h).
 */
module SomeIp {
  import opened Bytes
  import opened Wire

  datatype ServiceIDs = ServiceIDs(serviceID: u16, instanceID: u16)

  datatype MemberIDs = MemberIDs(service: ServiceIDs, memberID: u16)

  const REQUEST: byte := 0x00
  const REQUEST_NO_RETURN: byte := 0x01
  const NOTIFICATION: byte := 0x02
  const RESPONSE: byte := 0x80
  const ERROR: byte := 0x81

  /** `SERVICE_DISCOVERY_MEMBER_ID`. */
  const SERVICE_DISCOVERY: u32 := 0xFFFF_8100

  datatype Header = Header(
    messageID: u32, requestID: u32, protocolVersion: byte, interfaceVersion: byte, messageType: byte, returnCode: byte)

  predicate IsReply(h: Header) {
    h.messageType == RESPONSE || h.messageType == ERROR
  }

  function ServiceIdOf(messageID: u32): (id: u16) {
    messageID / 0x1_0000
  }

  function MemberIdOf(messageID: u32): (id: u16) {
    messageID % 0x1_0000
  }

  function MessageIdOf(serviceID: u16, memberID: u16): (id: u32)
    ensures ServiceIdOf(id) == serviceID && MemberIdOf(id) == memberID
  {
    serviceID * 0x1_0000 + memberID
  }

  /** Puts a client identifier in the upper half of the request ID, keeping the lower half. */
  function TagClientIdentifier(h: Header, client: u16): (r: Header)
    ensures ExtractClientIdentifier(r) == client && r.requestID % 0x1_0000 == h.requestID % 0x1_0000
    ensures r.(requestID := h.requestID) == h
  {
    h.(requestID := client * 0x1_0000 + h.requestID % 0x1_0000)
  }

  function ExtractClientIdentifier(h: Header): (client: u16) {
    h.requestID / 0x1_0000
  }

  // ---- The header on the network ----

  /** Message ID, length, request ID, protocol and interface version, message type, return code. */
  const HEADER_WIDTHS: seq<nat> := [4, 4, 4, 1, 1, 1, 1]
  const HEADER_SIZE: nat := 16

  lemma {:induction false} HeaderWidths()
    ensures |HEADER_WIDTHS| == 7 && Total(HEADER_WIDTHS) == HEADER_SIZE
  {
    assert Total([1]) == 1 && Total([1, 1]) == 2 by { assert [1, 1][1..] == [1]; }
    assert [1, 1, 1][1..] == [1, 1] && [1, 1, 1, 1][1..] == [1, 1, 1];
    assert [4, 1, 1, 1, 1][1..] == [1, 1, 1, 1] && [4, 4, 1, 1, 1, 1][1..] == [4, 1, 1, 1, 1];
    assert HEADER_WIDTHS[1..] == [4, 4, 1, 1, 1, 1];
  }

  function HeaderValues(h: Header, length: nat): (values: seq<nat>)
    ensures |values| == 7
  {
    [h.messageID, length, h.requestID, h.protocolVersion, h.interfaceVersion, h.messageType, h.returnCode]
  }

  function EncodeHeader(h: Header, length: nat): (s: bytes)
    ensures |s| == HEADER_SIZE
  {
    HeaderWidths();
    EncodeFields(HEADER_WIDTHS, HeaderValues(h, length))
  }

  lemma {:induction false} HeaderRanges(s: bytes)
    requires |s| >= HEADER_SIZE
    ensures DecodeFields(HEADER_WIDTHS, s).Some?
    ensures var v := DecodeFields(HEADER_WIDTHS, s).value.0;
            && |v| == 7 && v[0] < 0x1_0000_0000 && v[1] < 0x1_0000_0000 && v[2] < 0x1_0000_0000
            && v[3] < 0x100 && v[4] < 0x100 && v[5] < 0x100 && v[6] < 0x100
  {
    HeaderWidths();
    Pow256Values();
    DecodedAt(HEADER_WIDTHS, s, 0, 0x1_0000_0000);
    DecodedAt(HEADER_WIDTHS, s, 1, 0x1_0000_0000);
    DecodedAt(HEADER_WIDTHS, s, 2, 0x1_0000_0000);
    DecodedAt(HEADER_WIDTHS, s, 3, 0x100);
    DecodedAt(HEADER_WIDTHS, s, 4, 0x100);
    DecodedAt(HEADER_WIDTHS, s, 5, 0x100);
    DecodedAt(HEADER_WIDTHS, s, 6, 0x100);
  }

  /** The header and the length field at the start of `s`. */
  function DecodeHeader(s: bytes): (r: (Header, u32))
    requires |s| >= HEADER_SIZE
  {
    HeaderRanges(s);
    var v := DecodeFields(HEADER_WIDTHS, s).value.0;
    (Header(v[0], v[2], v[3], v[4], v[5], v[6]), v[1])
  }

  lemma {:induction false} HeaderRoundTrip(h: Header, length: nat, rest: bytes)
    ensures DecodeHeader(EncodeHeader(h, length) + rest) == (h, length % 0x1_0000_0000)
  {
    HeaderWidths();
    var values := HeaderValues(h, length);
    FieldsRoundTrip(HEADER_WIDTHS, values, rest);
    var kept := Truncated(HEADER_WIDTHS, values);
    assert kept[0] == h.messageID && kept[1] == length % 0x1_0000_0000 && kept[2] == h.requestID by {
      Pow256Values();
      TruncatedAt(HEADER_WIDTHS, values, 0, 0x1_0000_0000);
      TruncatedAt(HEADER_WIDTHS, values, 1, 0x1_0000_0000);
      TruncatedAt(HEADER_WIDTHS, values, 2, 0x1_0000_0000);
    }
    assert kept[3] == h.protocolVersion && kept[4] == h.interfaceVersion &&
           kept[5] == h.messageType && kept[6] == h.returnCode by {
      Pow256Values();
      TruncatedAt(HEADER_WIDTHS, values, 3, 0x100);
      TruncatedAt(HEADER_WIDTHS, values, 4, 0x100);
      TruncatedAt(HEADER_WIDTHS, values, 5, 0x100);
      TruncatedAt(HEADER_WIDTHS, values, 6, 0x100);
    }
  }
}
