/**
 Discovery messages that are not what the serializer writes (lib/ServiceDiscovery.h): entries
 and options of unknown type, and messages that end too early, on which a read would pass the
 end.
 */
module DiscoveryLimits {
  import opened Bytes
  import opened SomeIp
  import opened ServiceDiscovery
  import opened DiscoveryRoundTrip
  import TcpFraming

  // ---- Unknown types ----

  lemma {:induction false} UnknownEntry(kind: byte, rest: bytes)
    requires kind !in {0x00, 0x01, 0x06, 0x07}
    ensures ParseEntry([kind] + rest) == Some((None, rest))
  {
    assert ([kind] + rest)[0] == kind && ([kind] + rest)[1..] == rest;
  }

  /** An entry of unknown type is passed over byte by byte: only its type byte is skipped. */
  lemma {:induction false} UnknownEntrySkipped(kind: byte, rest: bytes, length: int)
    requires kind !in {0x00, 0x01, 0x06, 0x07} && length > 0
    ensures ParseEntries([kind] + rest, length) == ParseEntries(rest, length - 1)
  {
    UnknownEntry(kind, rest);
  }

  /** An option of unknown type is passed over up to its content: length, type and reserved byte. */
  lemma {:induction false} UnknownOptionSkipped(a: byte, b: byte, kind: byte, reserved: byte, rest: bytes, length: int)
    requires kind != 0x04 && length > 0
    ensures ParseOptions([a, b, kind, reserved] + rest, length) == ParseOptions(rest, length - 4)
  {
    assert ([a, b, kind, reserved] + rest)[4..] == rest;
  }

  // ---- Messages that end too early ----

  lemma {:induction false} CutFirst(a: bytes, b: bytes, n: nat)
    requires n <= |a|
    ensures (a + b)[..n] == a[..n]
  {
  }

  lemma {:induction false} CutSecond(a: bytes, b: bytes, n: nat)
    requires |a| <= n <= |a| + |b|
    ensures (a + b)[..n] == a + b[..n - |a|]
  {
  }

  lemma {:induction false} CutEntry(e: Entry, n: nat, length: int)
    requires WellTyped(e) && n < ENTRY_SIZE && length > 0
    ensures ParseEntries(EncodeEntry(e)[..n], length) == None
  {
    EntryBytes(e, []);
    assert EncodeEntry(e) + [] == EncodeEntry(e);
  }

  lemma {:induction false} CutLater(e: Entry, tail: bytes, length: int)
    requires WellTyped(e) && length > 0 && ParseEntries(tail, length - ENTRY_SIZE) == None
    ensures ParseEntries(EncodeEntry(e) + tail, length) == None
  {
    ParseFirstEntry(e, tail, length);
  }

  /** The first entry is cut, or it is whole and the others are cut. */
  lemma {:induction false} CutWhere(entries: seq<Entry>, n: nat)
    requires entries != [] && n <= ENTRY_SIZE * |entries|
    ensures var first, rest := EncodeEntry(entries[0]), EncodeEntries(entries[1..]);
            EncodeEntries(entries)[..n] == if n < ENTRY_SIZE then first[..n] else first + rest[..n - ENTRY_SIZE]
  {
    var first, rest := EncodeEntry(entries[0]), EncodeEntries(entries[1..]);
    if n < ENTRY_SIZE {
      CutFirst(first, rest, n);
    } else {
      CutSecond(first, rest, n);
    }
  }

  lemma {:induction false} CutEntries(entries: seq<Entry>, n: nat, s: bytes, length: int)
    requires AllWellTyped(entries) && n < ENTRY_SIZE * |entries| == length && s == EncodeEntries(entries)[..n]
    ensures ParseEntries(s, length) == None
    decreases |entries|
  {
    assert WellTyped(entries[0]);
    CutWhere(entries, n);
    if n < ENTRY_SIZE {
      CutEntry(entries[0], n, length);
    } else {
      var tail := EncodeEntries(entries[1..])[..n - ENTRY_SIZE];
      CutEntries(entries[1..], n - ENTRY_SIZE, tail, length - ENTRY_SIZE);
      CutLater(entries[0], tail, length);
    }
  }

  lemma {:induction false} CutOption(o: IPv4Option, n: nat, length: int)
    requires n < OPTION_SIZE && length > 0
    ensures ParseOptions(EncodeOption(o)[..n], length) == None
  {
    OptionTypeByte(o);
  }

  lemma {:induction false} CutOptions(options: seq<IPv4Option>, n: nat)
    requires n < OPTION_SIZE * |options|
    ensures ParseOptions(EncodeOptions(options)[..n], OPTION_SIZE * |options|) == None
    decreases |options|
  {
    var o, others := options[0], options[1..];
    var rest := EncodeOptions(others);
    if n < OPTION_SIZE {
      CutFirst(EncodeOption(o), rest, n);
      CutOption(o, n, OPTION_SIZE * |options|);
    } else {
      CutSecond(EncodeOption(o), rest, n);
      CutOptions(others, n - OPTION_SIZE);
      ParseFirstOption(o, rest[..n - OPTION_SIZE], OPTION_SIZE * |options|);
    }
  }

  /** What is left of the options and their length is less than they need. */
  ghost predicate OptionsIncomplete(t: bytes) {
    |t| < 4 || ParseOptions(t[4..], NetworkValue(t[..4])) == None
  }

  lemma {:induction false} FitsInFour(n: nat)
    requires n < 0x1_0000_0000
    ensures NetworkValue(NetworkBytes(n, 4)) == n
  {
    NetworkRoundTrip(n, 4);
    Pow256Values();
  }

  lemma {:induction false} CutSizedOptions(options: seq<IPv4Option>, n: nat)
    requires OPTION_SIZE * |options| < 0x1_0000_0000 && n < 4 + OPTION_SIZE * |options|
    ensures OptionsIncomplete(Sized(EncodeOptions(options))[..n])
  {
    if n >= 4 {
      var size, all := NetworkBytes(OPTION_SIZE * |options|, 4), EncodeOptions(options);
      CutSecond(size, all, n);
      var t := size + all[..n - 4];
      assert t[..4] == size && t[4..] == all[..n - 4];
      FitsInFour(OPTION_SIZE * |options|);
      CutOptions(options, n - 4);
    }
  }

  lemma {:induction false} EntriesIncomplete(h: Header, start: bytes, rest: bytes, length: nat)
    requires |start| == 8 && NetworkValue(start[4..]) == length && ParseEntries(rest, length) == None
    ensures ParseBody(h, start + rest) == None
  {
    assert (start + rest)[8..] == rest && (start + rest)[4..8] == start[4..];
  }

  lemma {:induction false} OptionsMissing(
    h: Header, start: bytes, rest: bytes, length: nat, entries: seq<Entry>, t: bytes)
    requires |start| == 8 && NetworkValue(start[4..]) == length
    requires ParseEntries(rest, length) == Some((entries, t)) && OptionsIncomplete(t)
    ensures ParseBody(h, start + rest) == None
  {
    assert (start + rest)[8..] == rest && (start + rest)[4..8] == start[4..];
  }

  /** A body begins with the flags and the length of the entries. */
  function BodyStart(m: Message): (s: bytes)
    ensures |s| == 8
  {
    FlagFields(m) + NetworkBytes(ENTRY_SIZE * |m.entries|, 4)
  }

  lemma {:induction false} BodySplit(m: Message)
    ensures EncodeBody(m) == BodyStart(m) + (EncodeEntries(m.entries) + Sized(EncodeOptions(m.options)))
  {
    var flags, size := FlagFields(m), NetworkBytes(ENTRY_SIZE * |m.entries|, 4);
    var entries, options := EncodeEntries(m.entries), Sized(EncodeOptions(m.options));
    Assoc(flags, size, entries);
    Assoc(flags + size, entries, options);
  }

  lemma {:induction false} BodyStartLength(m: Message)
    requires LengthsFit(m)
    ensures NetworkValue(BodyStart(m)[4..]) == ENTRY_SIZE * |m.entries|
  {
    FitsInFour(ENTRY_SIZE * |m.entries|);
    assert BodyStart(m)[4..] == NetworkBytes(ENTRY_SIZE * |m.entries|, 4);
  }

  lemma {:induction false} CutBeforeOptions(m: Message, n: nat)
    requires AllWellTyped(m.entries) && LengthsFit(m) && n < ENTRY_SIZE * |m.entries|
    ensures ParseBody(m.header, BodyStart(m) + EncodeEntries(m.entries)[..n]) == None
  {
    BodyStartLength(m);
    CutEntries(m.entries, n, EncodeEntries(m.entries)[..n], ENTRY_SIZE * |m.entries|);
    EntriesIncomplete(m.header, BodyStart(m), EncodeEntries(m.entries)[..n], ENTRY_SIZE * |m.entries|);
  }

  lemma {:induction false} WholeEntries(entries: seq<Entry>, rest: bytes)
    requires AllWellTyped(entries)
    ensures ParseEntries(EncodeEntries(entries) + rest, ENTRY_SIZE * |entries|) == Some((KeptAll(entries), rest))
  {
    var s, length := EncodeEntries(entries) + rest, ENTRY_SIZE * |entries|;
    TakenBound(length, ENTRY_SIZE, |entries|);
    ParseSomeEntries(s, entries, rest, length);
    assert entries[..|entries|] == entries && entries[|entries|..] == [];
    assert EncodeEntries([]) + rest == rest;
  }

  lemma {:induction false} CutAfterEntries(m: Message, t: bytes)
    requires AllWellTyped(m.entries) && LengthsFit(m) && OptionsIncomplete(t)
    ensures ParseBody(m.header, BodyStart(m) + (EncodeEntries(m.entries) + t)) == None
  {
    BodyStartLength(m);
    WholeEntries(m.entries, t);
    OptionsMissing(
      m.header, BodyStart(m), EncodeEntries(m.entries) + t, ENTRY_SIZE * |m.entries|, KeptAll(m.entries), t);
  }

  lemma {:induction false} CutItems(m: Message, n: nat)
    requires AllWellTyped(m.entries) && LengthsFit(m) && n < ENTRY_SIZE * |m.entries| + 4 + OPTION_SIZE * |m.options|
    ensures var s := (EncodeEntries(m.entries) + Sized(EncodeOptions(m.options)))[..n];
            ParseBody(m.header, BodyStart(m) + s) == None
  {
    var entries, options := EncodeEntries(m.entries), Sized(EncodeOptions(m.options));
    if n < |entries| {
      CutFirst(entries, options, n);
      CutBeforeOptions(m, n);
    } else {
      CutSecond(entries, options, n);
      CutSizedOptions(m.options, n - |entries|);
      CutAfterEntries(m, options[..n - |entries|]);
    }
  }

  lemma {:induction false} CutInParts(h: Header, start: bytes, items: bytes, n: nat)
    requires |start| == 8 && n < 8 + |items| && forall k | 0 <= k < |items| :: ParseBody(h, start + items[..k]) == None
    ensures ParseBody(h, (start + items)[..n]) == None
  {
    if n >= 8 {
      CutSecond(start, items, n);
    }
  }

  lemma {:induction false} CutBody(m: Message, n: nat)
    requires AllWellTyped(m.entries) && LengthsFit(m) && n < |EncodeBody(m)|
    ensures ParseBody(m.header, EncodeBody(m)[..n]) == None
  {
    var start, items := BodyStart(m), EncodeEntries(m.entries) + Sized(EncodeOptions(m.options));
    forall k | 0 <= k < |items| ensures ParseBody(m.header, start + items[..k]) == None {
      CutItems(m, k);
    }
    BodySplit(m);
    CutInParts(m.header, start, items, n);
  }

  lemma {:induction false} ParseAfterHeader(h: Header, length: nat, s: bytes)
    ensures ParseMessage(EncodeHeader(h, length) + s) == ParseBody(h, s)
  {
    HeaderRoundTrip(h, length, s);
    assert (EncodeHeader(h, length) + s)[HEADER_SIZE..] == s;
  }

  lemma {:induction false} CutFramed(h: Header, body: bytes, n: nat)
    requires n < HEADER_SIZE + |body| && forall k | 0 <= k < |body| :: ParseBody(h, body[..k]) == None
    ensures ParseMessage(TcpFraming.FramePacket(TcpFraming.Packet(h, body))[..n]) == None
  {
    CutHeaded(h, EncodeHeader(h, 8 + |body|), body, 8 + |body|, n);
  }

  lemma {:induction false} CutHeaded(h: Header, head: bytes, body: bytes, length: nat, n: nat)
    requires head == EncodeHeader(h, length) && n < HEADER_SIZE + |body|
    requires forall k | 0 <= k < |body| :: ParseBody(h, body[..k]) == None
    ensures ParseMessage((head + body)[..n]) == None
  {
    if n >= HEADER_SIZE {
      var k := n - HEADER_SIZE;
      assert (head + body)[..n] == head + body[..k] by { CutSecond(head, body, n); }
      assert ParseMessage(head + body[..k]) == ParseBody(h, body[..k]) by { ParseAfterHeader(h, length, body[..k]); }
    }
  }

  lemma {:induction false} EveryCut(m: Message)
    requires AllWellTyped(m.entries) && LengthsFit(m)
    ensures forall k | 0 <= k < |EncodeBody(m)| :: ParseBody(m.header, EncodeBody(m)[..k]) == None
  {
    forall k | 0 <= k < |EncodeBody(m)| ensures ParseBody(m.header, EncodeBody(m)[..k]) == None {
      CutBody(m, k);
    }
  }

  /** Parsing needs every byte of a serialized message: no shorter part of it is a message. */
  lemma {:induction false} OnlyWholeMessages(m: Message, n: nat)
    requires AllWellTyped(m.entries) && LengthsFit(m) && n < |EncodeMessage(m)|
    ensures ParseMessage(EncodeMessage(m)[..n]) == None
  {
    EveryCut(m);
    CutFramed(m.header, EncodeBody(m), n);
  }
}
