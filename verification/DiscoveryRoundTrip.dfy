/** Parsing a serialized discovery message gives the message back. */
module DiscoveryRoundTrip {
  import opened Bytes
  import opened Wire
  import opened SomeIp
  import opened ServiceDiscovery
  import TcpFraming

  /** The type byte of an entry selects its layout. */
  predicate WellTyped(e: Entry) {
    if e.ServiceEntry? then e.header.kind == FIND_SERVICE || e.header.kind == OFFER_SERVICE
    else e.header.kind == SUBSCRIBE || e.header.kind == SUBSCRIBE_ACK
  }

  predicate AllWellTyped(entries: seq<Entry>) {
    forall i | 0 <= i < |entries| :: WellTyped(entries[i])
  }

  /** What the wire keeps of an entry header: three bytes of TTL and one byte for both runs. */
  function KeptHeader(h: EntryHeader): (r: EntryHeader) {
    h.(run1 := (h.run1 * 16 + h.run2) % 0x100 / 16, run2 := h.run2 % 16, ttl := h.ttl % 0x100_0000)
  }

  function Kept(e: Entry): (r: Entry) {
    e.(header := KeptHeader(e.header))
  }

  function KeptAll(entries: seq<Entry>): (r: seq<Entry>)
    ensures |r| == |entries|
    ensures forall i | 0 <= i < |r| :: r[i] == Kept(entries[i])
  {
    if entries == [] then [] else [Kept(entries[0])] + KeptAll(entries[1..])
  }

  lemma {:induction false} KeptFields(e: Entry)
    ensures var v := Truncated(EntryLayout(e), EntryValues(e));
            && v[0] == e.header.indexFirst && v[1] == e.header.indexSecond
            && v[2] == (e.header.run1 * 16 + e.header.run2) % 0x100
            && v[3] == e.header.serviceID && v[4] == e.header.instanceID && v[5] == e.header.majorVersion
            && v[6] == e.header.ttl % 0x100_0000
            && (if e.ServiceEntry? then v[7] == e.minorVersion
                else v[7] == e.reserved16 && v[8] == e.eventGroupID)
  {
    var w, values := EntryLayout(e), EntryValues(e);
    Pow256Values();
    TruncatedAt(w, values, 0, 0x100);
    TruncatedAt(w, values, 1, 0x100);
    TruncatedAt(w, values, 2, 0x100);
    TruncatedAt(w, values, 3, 0x1_0000);
    TruncatedAt(w, values, 4, 0x1_0000);
    TruncatedAt(w, values, 5, 0x100);
    TruncatedAt(w, values, 6, 0x100_0000);
    if e.ServiceEntry? {
      TruncatedAt(w, values, 7, 0x1_0000_0000);
    } else {
      TruncatedAt(w, values, 7, 0x1_0000);
      TruncatedAt(w, values, 8, 0x1_0000);
    }
  }

  lemma {:induction false} EntryBytes(e: Entry, rest: bytes)
    requires WellTyped(e)
    ensures var s := EncodeEntry(e) + rest;
            && |s| >= ENTRY_SIZE && s[0] == e.header.kind && s[ENTRY_SIZE..] == rest
            && s[1..] == EncodeFields(EntryLayout(e), EntryValues(e)) + rest
  {
    EntryWidths();
  }

  lemma {:induction false} EntryRoundTrip(e: Entry, rest: bytes)
    requires WellTyped(e)
    ensures ParseEntry(EncodeEntry(e) + rest) == Some((Some(Kept(e)), rest))
  {
    EntryBytes(e, rest);
    FieldsRoundTrip(EntryLayout(e), EntryValues(e), rest);
    KeptFields(e);
    var v := Truncated(EntryLayout(e), EntryValues(e));
    assert HeaderOf(e.header.kind, v) == KeptHeader(e.header) by {
      NibbleMod(e.header.run1, e.header.run2);
    }
  }

  lemma {:induction false} NibbleMod(a: byte, b: byte)
    ensures (a * 16 + b) % 0x100 % 16 == b % 16
  {
  }

  /** How many items of `size` bytes a loop reads while fewer than `length` bytes are consumed. */
  function Taken(length: int, size: nat): (n: nat)
    requires size > 0
    decreases length
  {
    if length <= 0 then 0 else 1 + Taken(length - size, size)
  }

  lemma {:induction false} TakenBound(length: int, size: nat, n: nat)
    requires size > 0 && length <= size * n
    ensures Taken(length, size) <= n
    ensures length == size * n ==> Taken(length, size) == n
  {
    if n == 0 {
      assert size * n == 0;
    } else {
      assert size * n == size * (n - 1) + size;
      assert size * (n - 1) >= 0;
      if length > 0 {
        TakenBound(length - size, size, n - 1);
      }
    }
  }

  function Cons<T>(x: T, r: Option<(seq<T>, bytes)>): (q: Option<(seq<T>, bytes)>) {
    if r.None? then None else Some(([x] + r.value.0, r.value.1))
  }

  lemma {:induction false} ParseEntryThen(s: bytes, e: Entry, tail: bytes, length: int)
    requires ParseEntry(s) == Some((Some(e), tail)) && length > 0
    ensures ParseEntries(s, length) == Cons(e, ParseEntries(tail, length - (|s| - |tail|)))
  {
  }

  lemma {:induction false} ParseFirstEntry(e: Entry, tail: bytes, length: int)
    requires WellTyped(e) && length > 0
    ensures ParseEntries(EncodeEntry(e) + tail, length) == Cons(Kept(e), ParseEntries(tail, length - ENTRY_SIZE))
  {
    EntryRoundTrip(e, tail);
    ParseEntryThen(EncodeEntry(e) + tail, Kept(e), tail, length);
  }

  lemma {:induction false} ParseOneMore(e: Entry, tail: bytes, length: int, others: seq<Entry>, rest: bytes)
    requires WellTyped(e) && length > 0 && ParseEntries(tail, length - ENTRY_SIZE) == Some((others, rest))
    ensures ParseEntries(EncodeEntry(e) + tail, length) == Some(([Kept(e)] + others, rest))
  {
    ParseFirstEntry(e, tail, length);
  }

  lemma {:induction false} KeptAllCons(entries: seq<Entry>, k: nat)
    requires 0 < k <= |entries|
    ensures KeptAll(entries[..k]) == [Kept(entries[0])] + KeptAll(entries[1..][..k - 1])
  {
    assert entries[..k][1..] == entries[1..][..k - 1];
  }

  lemma {:induction false} ParseSomeEntries(s: bytes, entries: seq<Entry>, rest: bytes, length: int)
    requires AllWellTyped(entries) && Taken(length, ENTRY_SIZE) <= |entries|
    requires s == EncodeEntries(entries) + rest
    ensures var k := Taken(length, ENTRY_SIZE);
            ParseEntries(s, length) == Some((KeptAll(entries[..k]), EncodeEntries(entries[k..]) + rest))
    decreases |entries|
  {
    var k := Taken(length, ENTRY_SIZE);
    if k == 0 {
      assert entries[0..] == entries && KeptAll(entries[..0]) == [];
    } else {
      var e, others := entries[0], entries[1..];
      var tail := EncodeEntries(others) + rest;
      assert s == EncodeEntry(e) + tail by {
        Assoc(EncodeEntry(e), EncodeEntries(others), rest);
      }
      ParseSomeEntries(tail, others, rest, length - ENTRY_SIZE);
      KeptAllCons(entries, k);
      assert others[k - 1..] == entries[k..];
      ParseOneMore(e, tail, length, KeptAll(others[..k - 1]), EncodeEntries(entries[k..]) + rest);
    }
  }

  lemma {:induction false} OptionRoundTrip(o: IPv4Option, rest: bytes)
    ensures ParseOption(EncodeOption(o) + rest) == Some((Some(o), rest))
  {
    OptionWidths();
    var s, values := EncodeOption(o) + rest, OptionValues(o);
    FieldsRoundTrip(OPTION_WIDTHS, values, rest);
    OptionTypeByte(o);
    Pow256Values();
    TruncatedAt(OPTION_WIDTHS, values, 3, 0x1_0000_0000);
    TruncatedAt(OPTION_WIDTHS, values, 4, 0x100);
    TruncatedAt(OPTION_WIDTHS, values, 5, 0x100);
    TruncatedAt(OPTION_WIDTHS, values, 6, 0x1_0000);
    assert s[OPTION_SIZE..] == rest && s[2] == EncodeOption(o)[2];
  }

  lemma {:induction false} OptionTypeByte(o: IPv4Option)
    ensures EncodeOption(o)[2] == IPV4_OPTION
  {
    OptionWidths();
    var values := OptionValues(o);
    assert NetworkBytes(IPV4_OPTION, 1) == [IPV4_OPTION] by {
      assert NetworkBytes(0, 0) == [];
    }
    assert EncodeFields(OPTION_WIDTHS, values) ==
           NetworkBytes(9, 2) + EncodeFields(OPTION_WIDTHS[1..], values[1..]);
    assert OPTION_WIDTHS[1..][0] == 1 && values[1..][0] == IPV4_OPTION;
    assert EncodeFields(OPTION_WIDTHS[1..], values[1..])[0] == IPV4_OPTION;
  }

  lemma {:induction false} ParseFirstOption(o: IPv4Option, tail: bytes, length: int)
    requires length > 0
    ensures ParseOptions(EncodeOption(o) + tail, length) == Cons(o, ParseOptions(tail, length - OPTION_SIZE))
  {
    OptionRoundTrip(o, tail);
  }

  lemma {:induction false} ParseSomeOptions(s: bytes, options: seq<IPv4Option>, rest: bytes, length: int)
    requires Taken(length, OPTION_SIZE) <= |options|
    requires s == EncodeOptions(options) + rest
    ensures var k := Taken(length, OPTION_SIZE);
            ParseOptions(s, length) == Some((options[..k], EncodeOptions(options[k..]) + rest))
    decreases |options|
  {
    var k := Taken(length, OPTION_SIZE);
    if k == 0 {
      assert options[0..] == options && options[..0] == [];
    } else {
      var o, others := options[0], options[1..];
      var tail := EncodeOptions(others) + rest;
      assert s == EncodeOption(o) + tail by {
        Assoc(EncodeOption(o), EncodeOptions(others), rest);
      }
      ParseSomeOptions(tail, others, rest, length - OPTION_SIZE);
      assert others[k - 1..] == options[k..];
      assert ParseOptions(s, length) == Cons(o, ParseOptions(tail, length - OPTION_SIZE)) by {
        ParseFirstOption(o, tail, length);
      }
      assert [o] + others[..k - 1] == options[..k];
    }
  }

  /** What the wire keeps of a message. */
  function KeptMessage(m: Message): (r: Message) {
    m.(entries := KeptAll(m.entries))
  }

  /** Both length fields can hold the lengths they announce. */
  predicate LengthsFit(m: Message) {
    ENTRY_SIZE * |m.entries| < 0x1_0000_0000 && OPTION_SIZE * |m.options| < 0x1_0000_0000
  }

  /** A length field holds its length modulo 2^32; when that wraps, fewer items are read. */
  lemma {:induction false} AnnouncedItems(count: nat, size: nat) returns (length: nat)
    requires 0 < size <= 16
    ensures length == (size * count) % 0x1_0000_0000 && length <= size * count
    ensures Taken(length, size) <= count
    ensures Taken(length, size) == count <==> size * count < 0x1_0000_0000
  {
    var all := size * count;
    length := all % 0x1_0000_0000;
    TakenBound(length, size, count);
    if all >= 0x1_0000_0000 {
      assert length <= all - 0x1_0000_0000;
      assert count > 0 && all == size * (count - 1) + size;
      TakenBound(length, size, count - 1);
    }
  }

  lemma {:induction false} SizedField(s: bytes, rest: bytes)
    ensures var all := Sized(s) + rest;
            all[4..] == s + rest && NetworkValue(all[..4]) == |s| % 0x1_0000_0000
  {
    NetworkRoundTrip(|s|, 4);
    Pow256Values();
    assert (Sized(s) + rest)[..4] == NetworkBytes(|s|, 4);
  }

  lemma {:induction false} Slices(a: bytes, b: bytes)
    requires |a| == 4 && |b| >= 4
    ensures (a + b)[..4] == a && (a + b)[4..8] == b[..4] && (a + b)[8..] == b[4..]
  {
  }

  lemma {:induction false} BodyParts(m: Message, rest: bytes)
    ensures var s := EncodeBody(m) + rest;
            && |s| >= 8 && s[..4] == FlagFields(m)
            && s[8..] == EncodeEntries(m.entries) + (Sized(EncodeOptions(m.options)) + rest)
            && NetworkValue(s[4..8]) == (ENTRY_SIZE * |m.entries|) % 0x1_0000_0000
  {
    var flags, entries, options := FlagFields(m), EncodeEntries(m.entries), Sized(EncodeOptions(m.options));
    Assoc4(flags, Sized(entries), options, rest);
    Assoc(Sized(entries), options, rest);
    SizedField(entries, options + rest);
    Slices(flags, Sized(entries) + (options + rest));
  }

  /** The options part of a body, given its entries. */
  lemma {:induction false} OptionsRoundTrip(options: seq<IPv4Option>, rest: bytes)
    ensures var t := Sized(EncodeOptions(options)) + rest;
            var r := ParseOptions(t[4..], NetworkValue(t[..4]));
            && r.Some?
            && (OPTION_SIZE * |options| < 0x1_0000_0000 ==> r == Some((options, rest)))
            && (OPTION_SIZE * |options| >= 0x1_0000_0000 ==> |r.value.0| < |options|)
  {
    SizedField(EncodeOptions(options), rest);
    var length := AnnouncedItems(|options|, OPTION_SIZE);
    ParseSomeOptions(EncodeOptions(options) + rest, options, rest, length);
    var k := Taken(length, OPTION_SIZE);
    if k == |options| {
      assert options[..k] == options && options[k..] == [];
      assert EncodeOptions([]) + rest == rest;
    }
  }

  lemma {:induction false} EntriesRoundTrip(entries: seq<Entry>, rest: bytes)
    requires AllWellTyped(entries)
    ensures var r := ParseEntries(EncodeEntries(entries) + rest, (ENTRY_SIZE * |entries|) % 0x1_0000_0000);
            && r.Some?
            && (ENTRY_SIZE * |entries| < 0x1_0000_0000 ==> r == Some((KeptAll(entries), rest)))
            && (ENTRY_SIZE * |entries| >= 0x1_0000_0000 ==> |r.value.0| < |entries|)
  {
    var length := AnnouncedItems(|entries|, ENTRY_SIZE);
    ParseSomeEntries(EncodeEntries(entries) + rest, entries, rest, length);
    var k := Taken(length, ENTRY_SIZE);
    if k == |entries| {
      assert entries[..k] == entries && entries[k..] == [];
      assert EncodeEntries([]) + rest == rest;
    }
  }

  /** The body comes back, the suffix untouched, exactly when both length fields fit. */
  lemma {:induction false} BodyRoundTrip(h: Header, m: Message, rest: bytes)
    requires AllWellTyped(m.entries) && m.header == h
    ensures LengthsFit(m) ==> ParseBody(h, EncodeBody(m) + rest) == Some((KeptMessage(m), rest))
    ensures !LengthsFit(m) ==>
              var r := ParseBody(h, EncodeBody(m) + rest);
              r.Some? ==> |r.value.0.entries| < |m.entries| || |r.value.0.options| < |m.options|
  {
    var s := EncodeBody(m) + rest;
    BodyParts(m, rest);
    EntriesRoundTrip(m.entries, Sized(EncodeOptions(m.options)) + rest);
    OptionsRoundTrip(m.options, rest);
    assert s[..4][0] == s[0] && s[..4][1] == s[1] && s[..4][2] == s[2] && s[..4][3] == s[3];
  }

  /** Parsing starts after the SOME/IP header, whatever length the header announces. */
  lemma {:induction false} ParseFramed(h: Header, body: bytes)
    ensures ParseMessage(TcpFraming.FramePacket(TcpFraming.Packet(h, body))) == ParseBody(h, body)
  {
    var head := EncodeHeader(h, 8 + |body|);
    HeaderRoundTrip(h, 8 + |body|, body);
    assert (head + body)[HEADER_SIZE..] == body;
  }

  /**
   Parsing a serialized message consumes every byte and returns the message, entries and
   options in order, with TTLs modulo 2^24, if and only if both length fields fit.
   */
  lemma {:induction false} RoundTripIff(m: Message)
    requires AllWellTyped(m.entries)
    ensures ParseMessage(EncodeMessage(m)) == Some((KeptMessage(m), [])) <==> LengthsFit(m)
  {
    ParseFramed(m.header, EncodeBody(m));
    assert EncodeBody(m) + [] == EncodeBody(m);
    BodyRoundTrip(m.header, m, []);
  }

  /** The wire keeps an entry exactly when its runs are nibbles and its TTL has 24 bits. */
  lemma {:induction false} KeptExactly(e: Entry)
    ensures Kept(e) == e <==> e.header.run1 < 16 && e.header.run2 < 16 && e.header.ttl < 0x100_0000
  {
    var h := e.header;
    if h.run1 < 16 && h.run2 < 16 {
      assert (h.run1 * 16 + h.run2) % 0x100 == h.run1 * 16 + h.run2;
    }
  }

  lemma {:induction false} KeptMessageExactly(m: Message)
    ensures KeptMessage(m) == m <==>
            forall i | 0 <= i < |m.entries| ::
              m.entries[i].header.run1 < 16 && m.entries[i].header.run2 < 16 && m.entries[i].header.ttl < 0x100_0000
  {
    forall i | 0 <= i < |m.entries|
      ensures KeptAll(m.entries)[i] == m.entries[i] <==>
              m.entries[i].header.run1 < 16 && m.entries[i].header.run2 < 16 && m.entries[i].header.ttl < 0x100_0000
    {
      KeptExactly(m.entries[i]);
    }
  }
}
