/**
 The serializer and the parser of discovery messages as the source runs them: nested length
 fields filled in afterwards, and loops that count the bytes still to be read.
 */
module DiscoveryCodec {
  import opened Bytes
  import opened ByteArrays
  import opened Wire
  import opened SomeIp
  import opened ServiceDiscovery
  import opened TcpFraming

  lemma {:induction false} EncodeEntriesAppend(entries: seq<Entry>, e: Entry)
    ensures EncodeEntries(entries + [e]) == EncodeEntries(entries) + EncodeEntry(e)
  {
    if entries == [] {
      assert entries + [e] == [e] && EncodeEntries([e][1..]) == [];
    } else {
      assert (entries + [e])[1..] == entries[1..] + [e];
      EncodeEntriesAppend(entries[1..], e);
      Assoc(EncodeEntry(entries[0]), EncodeEntries(entries[1..]), EncodeEntry(e));
    }
  }

  lemma {:induction false} EncodeOptionsAppend(options: seq<IPv4Option>, o: IPv4Option)
    ensures EncodeOptions(options + [o]) == EncodeOptions(options) + EncodeOption(o)
  {
    if options == [] {
      assert options + [o] == [o] && EncodeOptions([o][1..]) == [];
    } else {
      assert (options + [o])[1..] == options[1..] + [o];
      EncodeOptionsAppend(options[1..], o);
      Assoc(EncodeOption(options[0]), EncodeOptions(options[1..]), EncodeOption(o));
    }
  }

  /** The fields of an entry before and after its three-byte TTL. */
  const ENTRY_FRONT: seq<nat> := [1, 1, 1, 2, 2, 1]

  function EntryTail(widths: seq<nat>): (tail: seq<nat>) {
    if widths == SERVICE_WIDTHS then [4] else [2, 2]
  }

  lemma {:induction false} EntryParts(before: bytes, e: Entry)
    ensures |EntryTail(EntryLayout(e))| == |EntryValues(e)[7..]| && EntryValues(e)[6] == e.header.ttl
    ensures before + [e.header.kind] + EncodeFields(ENTRY_FRONT, EntryValues(e)[..6]) +
            EncodeFields([3], [e.header.ttl]) + EncodeFields(EntryTail(EntryLayout(e)), EntryValues(e)[7..]) ==
            before + EncodeEntry(e)
  {
    var w, v := EntryLayout(e), EntryValues(e);
    var tail := EntryTail(w);
    var a, b, c := EncodeFields(ENTRY_FRONT, v[..6]), EncodeFields([3], [v[6]]), EncodeFields(tail, v[7..]);
    assert w == ENTRY_FRONT + [3] + tail && v == v[..6] + [v[6]] + v[7..];
    EncodeFieldsConcat(ENTRY_FRONT + [3], v[..6] + [v[6]], tail, v[7..]);
    EncodeFieldsConcat(ENTRY_FRONT, v[..6], [3], [v[6]]);
    Regrouped4(before, [e.header.kind], a, b, c);
  }

  lemma {:induction false} Regrouped4(o: bytes, k: bytes, a: bytes, b: bytes, c: bytes)
    ensures o + k + a + b + c == o + (k + (a + b + c))
  {
  }

  method SerializeEntry(serializer: NetworkSerializer, e: Entry)
    requires serializer.payload.Valid()
    modifies serializer.payload, serializer.payload.staticData
    ensures serializer.payload.Valid()
    ensures serializer.payload.Contents() == old(serializer.payload.Contents()) + EncodeEntry(e)
  {
    EntryParts(serializer.payload.Contents(), e);
    var widths, values := EntryTail(EntryLayout(e)), EntryValues(e);
    serializer.WriteRawData([e.header.kind]);
    serializer.Write(ENTRY_FRONT, values[..6]);
    serializer.WriteLowBytes(3, e.header.ttl);
    serializer.Write(widths, values[7..]);
  }

  /** Fields of an option that its length covers, and the type byte before them. */
  const OPTION_TAIL: seq<nat> := [1, 1, 4, 1, 1, 2]

  lemma {:induction false} OptionParts(o: IPv4Option)
    ensures |EncodeFields(OPTION_TAIL, OptionValues(o)[1..])| == 10
    ensures EncodeOption(o) == NetworkBytes(9, 2) + EncodeFields(OPTION_TAIL, OptionValues(o)[1..])
  {
    OptionWidths();
    assert OPTION_WIDTHS[1..] == OPTION_TAIL;
  }

  method SerializeOption(serializer: NetworkSerializer, o: IPv4Option)
    requires serializer.payload.Valid()
    modifies serializer.payload, serializer.payload.staticData
    ensures serializer.payload.Valid()
    ensures serializer.payload.Contents() == old(serializer.payload.Contents()) + EncodeOption(o)
  {
    ghost var before := serializer.payload.Contents();
    ghost var body := EncodeFields(OPTION_TAIL, OptionValues(o)[1..]);
    OptionParts(o);
    var basePosition, hole := serializer.OpenLength(2);
    serializer.Write(OPTION_TAIL, OptionValues(o)[1..]);
    serializer.CloseLength(2, basePosition, 1, before, hole, body);
    Assoc(before, NetworkBytes(9, 2), body);
  }

  lemma {:induction false} EntriesWritten(start: bytes, entries: seq<Entry>, i: nat)
    requires i < |entries|
    ensures start + EncodeEntries(entries[..i]) + EncodeEntry(entries[i]) == start + EncodeEntries(entries[..i + 1])
  {
    EncodeEntriesAppend(entries[..i], entries[i]);
    assert entries[..i + 1] == entries[..i] + [entries[i]];
    Assoc(start, EncodeEntries(entries[..i]), EncodeEntry(entries[i]));
  }

  method WriteEntries(serializer: NetworkSerializer, entries: seq<Entry>)
    requires serializer.payload.Valid()
    modifies serializer.payload, serializer.payload.staticData
    ensures serializer.payload.Valid()
    ensures serializer.payload.Contents() == old(serializer.payload.Contents()) + EncodeEntries(entries)
  {
    ghost var start := serializer.payload.Contents();
    var i := 0;
    while i < |entries|
      invariant 0 <= i <= |entries| && serializer.payload.Valid()
      invariant serializer.payload.Contents() == start + EncodeEntries(entries[..i])
    {
      SerializeEntry(serializer, entries[i]);
      EntriesWritten(start, entries, i);
      i := i + 1;
    }
    assert entries[..i] == entries;
  }

  method SerializeEntries(serializer: NetworkSerializer, entries: seq<Entry>)
    requires serializer.payload.Valid()
    modifies serializer.payload, serializer.payload.staticData
    ensures serializer.payload.Valid()
    ensures serializer.payload.Contents() == old(serializer.payload.Contents()) + Sized(EncodeEntries(entries))
  {
    ghost var before, body := serializer.payload.Contents(), EncodeEntries(entries);
    var basePosition, hole := serializer.OpenLength(4);
    WriteEntries(serializer, entries);
    serializer.CloseLength(4, basePosition, 0, before, hole, body);
    Assoc(before, NetworkBytes(|body|, 4), body);
  }

  method WriteOptions(serializer: NetworkSerializer, options: seq<IPv4Option>)
    requires serializer.payload.Valid()
    modifies serializer.payload, serializer.payload.staticData
    ensures serializer.payload.Valid()
    ensures serializer.payload.Contents() == old(serializer.payload.Contents()) + EncodeOptions(options)
  {
    ghost var start := serializer.payload.Contents();
    var i := 0;
    while i < |options|
      invariant 0 <= i <= |options| && serializer.payload.Valid()
      invariant serializer.payload.Contents() == start + EncodeOptions(options[..i])
    {
      SerializeOption(serializer, options[i]);
      EncodeOptionsAppend(options[..i], options[i]);
      assert options[..i + 1] == options[..i] + [options[i]];
      Assoc(start, EncodeOptions(options[..i]), EncodeOption(options[i]));
      i := i + 1;
    }
    assert options[..i] == options;
  }

  method SerializeOptions(serializer: NetworkSerializer, options: seq<IPv4Option>)
    requires serializer.payload.Valid()
    modifies serializer.payload, serializer.payload.staticData
    ensures serializer.payload.Valid()
    ensures serializer.payload.Contents() == old(serializer.payload.Contents()) + Sized(EncodeOptions(options))
  {
    ghost var before, body := serializer.payload.Contents(), EncodeOptions(options);
    var basePosition, hole := serializer.OpenLength(4);
    WriteOptions(serializer, options);
    serializer.CloseLength(4, basePosition, 0, before, hole, body);
    Assoc(before, NetworkBytes(|body|, 4), body);
  }

  method SerializeBody(serializer: NetworkSerializer, m: Message)
    requires serializer.payload.Valid()
    modifies serializer.payload, serializer.payload.staticData
    ensures serializer.payload.Valid()
    ensures serializer.payload.Contents() == old(serializer.payload.Contents()) + EncodeBody(m)
  {
    serializer.WriteRawData([FlagsByte(m.flags), m.reserved1, m.reserved2, m.reserved3]);
    SerializeEntries(serializer, m.entries);
    SerializeOptions(serializer, m.options);
    Assoc4(old(serializer.payload.Contents()), FlagFields(m),
           Sized(EncodeEntries(m.entries)), Sized(EncodeOptions(m.options)));
  }

  /** Everything the length in the header counts. */
  function AfterLength(m: Message): (s: bytes) {
    EncodeFields(HEADER_TAIL, TailValues(m.header)) + EncodeBody(m)
  }

  method SerializeAfterLength(serializer: NetworkSerializer, m: Message)
    requires serializer.payload.Valid()
    modifies serializer.payload, serializer.payload.staticData
    ensures serializer.payload.Valid()
    ensures serializer.payload.Contents() == old(serializer.payload.Contents()) + AfterLength(m)
  {
    serializer.Write(HEADER_TAIL, TailValues(m.header));
    SerializeBody(serializer, m);
    Assoc(old(serializer.payload.Contents()), EncodeFields(HEADER_TAIL, TailValues(m.header)), EncodeBody(m));
  }

  lemma {:induction false} MessageParts(before: bytes, m: Message)
    ensures before + EncodeFields([4], [m.header.messageID]) + NetworkBytes(|AfterLength(m)|, 4) + AfterLength(m) ==
            before + EncodeMessage(m)
  {
    HeaderParts(m.header, 0);
    FrameParts(before, m.header, EncodeBody(m));
  }

  /** Length fields nested three deep and filled in from the inside out. */
  method SerializeMessage(serializer: NetworkSerializer, m: Message)
    requires serializer.payload.Valid()
    modifies serializer.payload, serializer.payload.staticData
    ensures serializer.payload.Valid()
    ensures serializer.payload.Contents() == old(serializer.payload.Contents()) + EncodeMessage(m)
  {
    ghost var body := AfterLength(m);
    ghost var front := serializer.payload.Contents() + EncodeFields([4], [m.header.messageID]);
    assert front + NetworkBytes(|body|, 4) + body == old(serializer.payload.Contents()) + EncodeMessage(m) by {
      MessageParts(old(serializer.payload.Contents()), m);
    }
    serializer.Write([4], [m.header.messageID]);
    var basePosition, hole := serializer.OpenLength(4);
    SerializeAfterLength(serializer, m);
    serializer.CloseLength(4, basePosition, 0, front, hole, body);
  }

  // ---- Parsing ----

  lemma {:induction false} EntryFields(widths: seq<nat>, s: bytes)
    requires widths in {SERVICE_WIDTHS, GROUP_WIDTHS} && |s| >= 15
    ensures Total(ENTRY_FRONT) == 8
    ensures var front := DecodeFields(ENTRY_FRONT, s).value;
            && |front.1| >= 7
            && var ttl := DecodeFields([3], front.1).value;
               && Total(EntryTail(widths)) <= |ttl.1|
               && DecodeFields(widths, s) == Prepend(front.0 + ttl.0, DecodeFields(EntryTail(widths), ttl.1))
  {
    var tail := EntryTail(widths);
    EntryWidths();
    assert widths == ENTRY_FRONT + [3] + tail && widths == ENTRY_FRONT + ([3] + tail);
    assert Total([3]) == 3 && Total([4]) == 4;
    assert Total([2, 2]) == 4 by { assert [2, 2][1..] == [2]; }
    TotalConcat(ENTRY_FRONT, [3] + tail);
    TotalConcat([3], tail);
    DecodeFieldsConcat(ENTRY_FRONT, [3] + tail, s);
    var front := DecodeFields(ENTRY_FRONT, s).value;
    DecodeFieldsConcat([3], tail, front.1);
    var ttl := DecodeFields([3], front.1).value;
    PrependTwice(front.0, ttl.0, DecodeFields(tail, ttl.1));
  }

  /** The fields in the source's groups: the TTL is shifted in byte by byte. */
  method ReadEntryFields(deserializer: NetworkDeserializer, widths: seq<nat>) returns (v: seq<nat>)
    requires deserializer.Valid() && widths in {SERVICE_WIDTHS, GROUP_WIDTHS} && |deserializer.Rest()| >= 15
    modifies deserializer`position
    ensures deserializer.Valid() && DecodeFields(widths, old(deserializer.Rest())) == Some((v, deserializer.Rest()))
  {
    EntryFields(widths, deserializer.Rest());
    var front := deserializer.Read(ENTRY_FRONT);
    var ttl := deserializer.ReadLowBytes(3);
    var tail := deserializer.Read(EntryTail(widths));
    v := front + [ttl] + tail;
  }

  method DeserializeEntry(deserializer: NetworkDeserializer) returns (e: Option<Entry>)
    requires deserializer.Valid() && ParseEntry(deserializer.Rest()).Some?
    modifies deserializer`position
    ensures deserializer.Valid() && ParseEntry(old(deserializer.Rest())) == Some((e, deserializer.Rest()))
  {
    ghost var start := deserializer.Rest();
    DecodeOneField(1, start);
    assert Total([1]) == 1;
    var kinds := deserializer.Read([1]);
    assert NetworkValue(start[..1]) == start[0] by {
      assert start[..1][..0] == [];
    }
    var kind := kinds[0];
    assert deserializer.Rest() == start[1..];
    if kind == FIND_SERVICE || kind == OFFER_SERVICE {
      EntryRanges(SERVICE_WIDTHS, deserializer.Rest());
      var v := ReadEntryFields(deserializer, SERVICE_WIDTHS);
      e := Some(ServiceEntry(HeaderOf(kind, v), v[7]));
    } else if kind == SUBSCRIBE || kind == SUBSCRIBE_ACK {
      EntryRanges(GROUP_WIDTHS, deserializer.Rest());
      var v := ReadEntryFields(deserializer, GROUP_WIDTHS);
      e := Some(EventGroupEntry(HeaderOf(kind, v), v[7], v[8]));
    } else {
      e := None;
    }
  }

  function Listed<T>(x: Option<T>): (xs: seq<T>) {
    if x.None? then [] else [x.value]
  }

  lemma {:induction false} EntriesTurn(s: bytes, length: int, entries: seq<Entry>)
    requires length > 0 && ParseEntries(s, length).Some?
    ensures ParseEntry(s).Some?
    ensures var first := ParseEntry(s).value;
            Prepend(entries, ParseEntries(s, length)) ==
            Prepend(entries + Listed(first.0), ParseEntries(first.1, length - (|s| - |first.1|)))
  {
    var first := ParseEntry(s).value;
    EntriesUnfold(s, length);
    PrependTwice(entries, Listed(first.0), ParseEntries(first.1, length - (|s| - |first.1|)));
  }

  lemma {:induction false} EntriesUnfold(s: bytes, length: int)
    requires length > 0 && ParseEntries(s, length).Some?
    ensures ParseEntry(s).Some?
    ensures var first := ParseEntry(s).value;
            ParseEntries(s, length) == Prepend(Listed(first.0), ParseEntries(first.1, length - (|s| - |first.1|)))
  {
    var first := ParseEntry(s).value;
    var rest := ParseEntries(first.1, length - (|s| - |first.1|)).value;
    assert [] + rest.0 == rest.0;
  }

  /** What is parsed in the end, when these entries have been read and this much is left. */
  ghost function EntriesFrom(entries: seq<Entry>, s: bytes, left: int): (r: Option<(seq<Entry>, bytes)>) {
    Prepend(entries, ParseEntries(s, left))
  }

  /** One turn of the loop: what is parsed in the end stays the same. */
  method EntriesStep(deserializer: NetworkDeserializer, ghost left: int, entries: seq<Entry>)
    returns (more: seq<Entry>, ghost left': int)
    requires deserializer.Valid() && left > 0 && EntriesFrom(entries, deserializer.Rest(), left).Some?
    modifies deserializer`position
    ensures deserializer.Valid() && |deserializer.Rest()| < |old(deserializer.Rest())|
    ensures left' == left - (|old(deserializer.Rest())| - |deserializer.Rest()|)
    ensures EntriesFrom(more, deserializer.Rest(), left') == EntriesFrom(entries, old(deserializer.Rest()), left)
  {
    ghost var s := deserializer.Rest();
    EntriesTurn(s, left, entries);
    ghost var first := ParseEntry(s).value;
    left' := left - (|s| - |first.1|);
    assert EntriesFrom(entries + Listed(first.0), first.1, left') == EntriesFrom(entries, s, left);
    var x := DeserializeEntry(deserializer);
    more := entries + Listed(x);
  }

  lemma {:induction false} EntriesBegin(s: bytes, left: int)
    ensures EntriesFrom([], s, left) == ParseEntries(s, left)
  {
    var all := ParseEntries(s, left);
    assert all.Some? ==> [] + all.value.0 == all.value.0;
  }

  lemma {:induction false} EntriesDone(entries: seq<Entry>, s: bytes, left: int)
    requires left <= 0
    ensures EntriesFrom(entries, s, left) == Some((entries, s))
  {
    assert entries + [] == entries;
  }

  method DeserializeEntries(deserializer: NetworkDeserializer, entriesLength: nat) returns (entries: seq<Entry>)
    requires deserializer.Valid() && ParseEntries(deserializer.Rest(), entriesLength).Some?
    modifies deserializer`position
    ensures deserializer.Valid()
    ensures ParseEntries(old(deserializer.Rest()), entriesLength) == Some((entries, deserializer.Rest()))
  {
    entries := [];
    var baseRemain := deserializer.RemainingBytesCount();
    ghost var all, left: int := ParseEntries(deserializer.Rest(), entriesLength), entriesLength;
    EntriesBegin(deserializer.Rest(), left);
    while baseRemain - deserializer.RemainingBytesCount() < entriesLength
      invariant deserializer.Valid() && left == entriesLength - (baseRemain - |deserializer.Rest()|)
      invariant EntriesFrom(entries, deserializer.Rest(), left) == all
      decreases |deserializer.Rest()|
    {
      entries, left := EntriesStep(deserializer, left, entries);
    }
    EntriesDone(entries, deserializer.Rest(), left);
  }

  method DeserializeOption(deserializer: NetworkDeserializer) returns (o: Option<IPv4Option>)
    requires deserializer.Valid() && ParseOption(deserializer.Rest()).Some?
    modifies deserializer`position
    ensures deserializer.Valid() && ParseOption(old(deserializer.Rest())) == Some((o, deserializer.Rest()))
  {
    ghost var start := deserializer.Rest();
    var kind := deserializer.buffer[deserializer.position + 2];
    assert kind == start[2];
    if kind == IPV4_OPTION {
      OptionRanges(start);
      var v := deserializer.Read(OPTION_WIDTHS);
      o := Some(IPv4Option(v[3], v[4], v[5], v[6]));
    } else {
      assert Total([2, 1, 1]) == 4 by { assert [2, 1, 1][1..] == [1, 1] && [1, 1][1..] == [1]; }
      var _ := deserializer.Read([2, 1, 1]);
      o := None;
    }
  }

  lemma {:induction false} OptionsTurn(s: bytes, length: int, options: seq<IPv4Option>)
    requires length > 0 && ParseOptions(s, length).Some?
    ensures ParseOption(s).Some?
    ensures var first := ParseOption(s).value;
            Prepend(options, ParseOptions(s, length)) ==
            Prepend(options + Listed(first.0), ParseOptions(first.1, length - (|s| - |first.1|)))
  {
    var first := ParseOption(s).value;
    OptionsUnfold(s, length);
    PrependTwice(options, Listed(first.0), ParseOptions(first.1, length - (|s| - |first.1|)));
  }

  lemma {:induction false} OptionsUnfold(s: bytes, length: int)
    requires length > 0 && ParseOptions(s, length).Some?
    ensures ParseOption(s).Some?
    ensures var first := ParseOption(s).value;
            ParseOptions(s, length) == Prepend(Listed(first.0), ParseOptions(first.1, length - (|s| - |first.1|)))
  {
    var first := ParseOption(s).value;
    var rest := ParseOptions(first.1, length - (|s| - |first.1|)).value;
    assert [] + rest.0 == rest.0;
  }

  /** What is parsed in the end, when these options have been read and this much is left. */
  ghost function OptionsFrom(options: seq<IPv4Option>, s: bytes, left: int): (r: Option<(seq<IPv4Option>, bytes)>) {
    Prepend(options, ParseOptions(s, left))
  }

  /** One turn of the loop: what is parsed in the end stays the same. */
  method OptionsStep(deserializer: NetworkDeserializer, ghost left: int, options: seq<IPv4Option>)
    returns (more: seq<IPv4Option>, ghost left': int)
    requires deserializer.Valid() && left > 0 && OptionsFrom(options, deserializer.Rest(), left).Some?
    modifies deserializer`position
    ensures deserializer.Valid() && |deserializer.Rest()| < |old(deserializer.Rest())|
    ensures left' == left - (|old(deserializer.Rest())| - |deserializer.Rest()|)
    ensures OptionsFrom(more, deserializer.Rest(), left') == OptionsFrom(options, old(deserializer.Rest()), left)
  {
    ghost var s := deserializer.Rest();
    OptionsTurn(s, left, options);
    ghost var first := ParseOption(s).value;
    left' := left - (|s| - |first.1|);
    assert OptionsFrom(options + Listed(first.0), first.1, left') == OptionsFrom(options, s, left);
    var x := DeserializeOption(deserializer);
    more := options + Listed(x);
  }

  lemma {:induction false} OptionsBegin(s: bytes, left: int)
    ensures OptionsFrom([], s, left) == ParseOptions(s, left)
  {
    var all := ParseOptions(s, left);
    assert all.Some? ==> [] + all.value.0 == all.value.0;
  }

  lemma {:induction false} OptionsDone(options: seq<IPv4Option>, s: bytes, left: int)
    requires left <= 0
    ensures OptionsFrom(options, s, left) == Some((options, s))
  {
    assert options + [] == options;
  }

  method DeserializeOptions(deserializer: NetworkDeserializer, optionsLength: nat) returns (options: seq<IPv4Option>)
    requires deserializer.Valid() && ParseOptions(deserializer.Rest(), optionsLength).Some?
    modifies deserializer`position
    ensures deserializer.Valid()
    ensures ParseOptions(old(deserializer.Rest()), optionsLength) == Some((options, deserializer.Rest()))
  {
    options := [];
    var baseRemain := deserializer.RemainingBytesCount();
    ghost var all, left: int := ParseOptions(deserializer.Rest(), optionsLength), optionsLength;
    OptionsBegin(deserializer.Rest(), left);
    while baseRemain - deserializer.RemainingBytesCount() < optionsLength
      invariant deserializer.Valid() && left == optionsLength - (baseRemain - |deserializer.Rest()|)
      invariant OptionsFrom(options, deserializer.Rest(), left) == all
      decreases |deserializer.Rest()|
    {
      options, left := OptionsStep(deserializer, left, options);
    }
    OptionsDone(options, deserializer.Rest(), left);
  }

  method ReadLength(deserializer: NetworkDeserializer) returns (length: nat)
    requires deserializer.Valid() && |deserializer.Rest()| >= 4
    modifies deserializer`position
    ensures deserializer.Valid() && length == NetworkValue(old(deserializer.Rest())[..4])
    ensures deserializer.Rest() == old(deserializer.Rest())[4..]
  {
    DecodeOneField(4, deserializer.Rest());
    assert Total([4]) == 4;
    var lengths := deserializer.Read([4]);
    length := lengths[0];
  }

  /** Parses a well-formed body: one on which no read passes the end. */
  method Deserialize(h: Header, deserializer: NetworkDeserializer) returns (m: Message)
    requires deserializer.Valid() && ParseBody(h, deserializer.Rest()).Some?
    modifies deserializer`position
    ensures deserializer.Valid() && ParseBody(h, old(deserializer.Rest())) == Some((m, deserializer.Rest()))
  {
    ghost var s := deserializer.Rest();
    var p := deserializer.position;
    var flags := deserializer.buffer[p..p + 4];
    deserializer.position := p + 4;
    assert flags == s[..4];
    var entriesLength := ReadLength(deserializer);
    assert s[4..][..4] == s[4..8] && s[4..][4..] == s[8..];
    var entries := DeserializeEntries(deserializer, entriesLength);
    var optionsLength := ReadLength(deserializer);
    var options := DeserializeOptions(deserializer, optionsLength);
    m := Message.Message(h, FlagsOf(flags[0]), flags[1], flags[2], flags[3], entries, options);
  }
}
