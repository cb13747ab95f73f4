/**
 The serializer and deserializer of utilLib/serialization.h in network byte order.

 A chain of `<<` or `>>` operators is a list of fields, each an unsigned integer of a given
 width. `EncodeFields` and `DecodeFields` say what such a chain writes and reads.
 */
module Wire {
  import opened Bytes
  import opened ByteArrays

  // ---- Specification ----

  function EncodeFields(widths: seq<nat>, values: seq<nat>): (s: bytes)
    requires |widths| == |values|
    ensures |s| == Total(widths)
  {
    if widths == [] then [] else NetworkBytes(values[0], widths[0]) + EncodeFields(widths[1..], values[1..])
  }

  function Total(widths: seq<nat>): (n: nat) {
    if widths == [] then 0 else widths[0] + Total(widths[1..])
  }

  /** The values read and the bytes left, or nothing when a read would pass the end. */
  function DecodeFields(widths: seq<nat>, s: bytes): (r: Option<(seq<nat>, bytes)>)
    ensures r.Some? <==> Total(widths) <= |s|
    ensures r.Some? ==> |r.value.0| == |widths| && r.value.1 == s[Total(widths)..]
  {
    if widths == [] then Some(([], s))
    else if |s| < widths[0] then None
    else
      match DecodeFields(widths[1..], s[widths[0]..])
      case None => None
      case Some(p) => Some(([NetworkValue(s[..widths[0]])] + p.0, p.1))
  }

  /** What a field of a given width keeps of a value. */
  function Truncated(widths: seq<nat>, values: seq<nat>): (r: seq<nat>)
    requires |widths| == |values|
  {
    seq(|values|, i requires 0 <= i < |values| => values[i] % Pow256(widths[i]))
  }

  predicate InRange(widths: seq<nat>, values: seq<nat>) {
    |widths| == |values| && forall i | 0 <= i < |values| :: values[i] < Pow256(widths[i])
  }

  lemma {:induction false} DecodedInRange(widths: seq<nat>, s: bytes)
    requires Total(widths) <= |s|
    ensures InRange(widths, DecodeFields(widths, s).value.0)
  {
    if widths != [] {
      var rest := DecodeFields(widths[1..], s[widths[0]..]).value.0;
      DecodedInRange(widths[1..], s[widths[0]..]);
      NetworkValueBound(s[..widths[0]]);
      var values := DecodeFields(widths, s).value.0;
      forall i | 0 <= i < |values| ensures values[i] < Pow256(widths[i]) {
        if i > 0 {
          assert values[i] == rest[i - 1] && widths[1..][i - 1] == widths[i];
        }
      }
    }
  }

  lemma {:induction false} DecodedAt(widths: seq<nat>, s: bytes, i: nat, m: nat)
    requires Total(widths) <= |s| && i < |widths| && Pow256(widths[i]) == m
    ensures |DecodeFields(widths, s).value.0| == |widths| && DecodeFields(widths, s).value.0[i] < m
  {
    DecodedInRange(widths, s);
  }

  /** Reading the fields that were written returns them truncated and leaves the suffix. */
  lemma {:induction false} FieldsRoundTrip(widths: seq<nat>, values: seq<nat>, rest: bytes)
    requires |widths| == |values|
    ensures DecodeFields(widths, EncodeFields(widths, values) + rest) == Some((Truncated(widths, values), rest))
  {
    var s := EncodeFields(widths, values) + rest;
    if widths == [] {
      assert s == rest;
      assert Truncated(widths, values) == [];
    } else {
      var head := NetworkBytes(values[0], widths[0]);
      var tail := EncodeFields(widths[1..], values[1..]) + rest;
      var kept := Truncated(widths[1..], values[1..]);
      assert s == head + tail;
      assert s[..widths[0]] == head && s[widths[0]..] == tail;
      FieldsRoundTrip(widths[1..], values[1..], rest);
      assert DecodeFields(widths, s) == Some(([NetworkValue(head)] + kept, rest));
      NetworkRoundTrip(values[0], widths[0]);
      assert Truncated(widths, values) == [NetworkValue(head)] + kept;
    }
  }

  lemma {:induction false} TruncatedAt(widths: seq<nat>, values: seq<nat>, i: nat, m: nat)
    requires i < |widths| == |values| && Pow256(widths[i]) == m
    ensures Truncated(widths, values)[i] == values[i] % m
    ensures values[i] < m ==> Truncated(widths, values)[i] == values[i]
  {
    if values[i] < m {
      ModSmall(values[i], m);
    }
  }

  lemma {:induction false} EncodeFieldsConcat(w1: seq<nat>, v1: seq<nat>, w2: seq<nat>, v2: seq<nat>)
    requires |w1| == |v1| && |w2| == |v2|
    ensures EncodeFields(w1 + w2, v1 + v2) == EncodeFields(w1, v1) + EncodeFields(w2, v2)
  {
    if w1 == [] {
      assert w1 + w2 == w2 && v1 + v2 == v2;
    } else {
      assert (w1 + w2)[1..] == w1[1..] + w2;
      assert (v1 + v2)[1..] == v1[1..] + v2;
      EncodeFieldsConcat(w1[1..], v1[1..], w2, v2);
    }
  }

  lemma {:induction false} EncodeOneField(w: nat, v: nat)
    ensures EncodeFields([w], [v]) == NetworkBytes(v, w)
  {
    assert EncodeFields([w][1..], [v][1..]) == [];
  }

  lemma {:induction false} EncodeFieldsStep(widths: seq<nat>, values: seq<nat>, i: nat)
    requires i < |widths| == |values|
    ensures EncodeFields(widths[..i + 1], values[..i + 1]) ==
            EncodeFields(widths[..i], values[..i]) + NetworkBytes(values[i], widths[i])
  {
    assert widths[..i + 1] == widths[..i] + [widths[i]] && values[..i + 1] == values[..i] + [values[i]];
    EncodeFieldsConcat(widths[..i], values[..i], [widths[i]], [values[i]]);
    EncodeOneField(widths[i], values[i]);
  }

  lemma {:induction false} DecodeOneField(w: nat, s: bytes)
    requires w <= |s|
    ensures DecodeFields([w], s) == Some(([NetworkValue(s[..w])], s[w..]))
  {
    assert DecodeFields([w][1..], s[w..]) == Some(([], s[w..]));
    assert [NetworkValue(s[..w])] + [] == [NetworkValue(s[..w])];
  }

  lemma {:induction false} NetworkByteAt(v: nat, width: nat, i: nat)
    requires i < width
    ensures NetworkBytes(v, width)[i] == v / Pow256(width - 1 - i) % 256
  {
    if i < width - 1 {
      NetworkByteAt(v / 256, width - 1, i);
      DivDiv(v, Pow256(width - 2 - i), Pow256(width - 1 - i));
    } else {
      assert Pow256(0) == 1;
    }
  }

  lemma {:induction false} NetworkValueAppend(s: bytes, b: byte)
    ensures NetworkValue(s + [b]) == NetworkValue(s) * 256 + b
  {
    assert (s + [b])[..|s|] == s;
  }

  lemma {:induction false} DivDiv(v: nat, p: nat, m: nat)
    requires 0 < p && m == 256 * p
    ensures v / 256 / p == v / m
  {
    var q, r := DivMod(v, 256);
    var k, t := DivMod(q, p);
    var a, b := DivMod(v, m);
    Regroup(p, k, t, r);
    QuotientUnique(m, a, b, k, 256 * t + r);
  }

  // ---- Objects ----

  class NetworkSerializer {
    const payload: ByteArray

    constructor (payload: ByteArray)
      ensures this.payload == payload
    {
      this.payload := payload;
    }

    /** A chain of `<<` operators. */
    method Write(widths: seq<nat>, values: seq<nat>)
      requires |widths| == |values| && payload.Valid()
      modifies payload, payload.staticData
      ensures payload.Valid()
      ensures payload.Contents() == old(payload.Contents()) + EncodeFields(widths, values)
    {
      var i := 0;
      ghost var before, done: bytes := payload.Contents(), [];
      while i < |widths|
        invariant 0 <= i <= |widths| && payload.Valid()
        invariant done == EncodeFields(widths[..i], values[..i]) && payload.Contents() == before + done
      {
        var next := NetworkBytes(values[i], widths[i]);
        payload.Append(next);
        Assoc(before, done, next);
        EncodeFieldsStep(widths, values, i);
        done := done + next;
        i := i + 1;
      }
      assert widths[..i] == widths && values[..i] == values;
    }

    /** `LSBSerializer`: the low bytes of a wider integer, one shift per byte. */
    method WriteLowBytes(width: nat, v: nat)
      requires payload.Valid()
      modifies payload, payload.staticData
      ensures payload.Valid()
      ensures payload.Contents() == old(payload.Contents()) + EncodeFields([width], [v])
    {
      var i := 0;
      while i < width
        invariant 0 <= i <= width && payload.Valid()
        invariant payload.Contents() == old(payload.Contents()) + NetworkBytes(v, width)[..i]
      {
        NetworkByteAt(v, width, i);
        payload.AppendByte(v / Pow256(width - i - 1) % 256);
        i := i + 1;
      }
      EncodeOneField(width, v);
    }

    method WriteRawData(data: bytes)
      requires payload.Valid()
      modifies payload, payload.staticData
      ensures payload.Valid() && payload.Contents() == old(payload.Contents()) + data
    {
      payload.Append(data);
    }

    /** The constructor of a `LengthPlaceHolder`: reserves the field. */
    method OpenLength(width: nat) returns (basePosition: nat, ghost hole: bytes)
      requires payload.Valid()
      modifies payload, payload.staticData
      ensures payload.Valid() && basePosition == old(|payload.Contents()|)
      ensures |hole| == width && forall i | 0 <= i < width :: hole[i] == 0
      ensures payload.Contents() == old(payload.Contents()) + hole
    {
      hole := seq(width, _ => 0);
      basePosition := payload.Skip(width);
    }

    /**
     The destructor of a `LengthPlaceHolder`: whatever the field at `basePosition` held, it
     now holds the number of bytes written after it less `offset`, and nothing else changed.
     */
    method CloseLength(
      width: nat, basePosition: nat, offset: nat, ghost before: bytes, ghost hole: bytes, ghost body: bytes)
      requires payload.Valid() && |before| == basePosition && |hole| == width && offset <= |body|
      requires payload.Contents() == before + hole + body
      modifies payload, payload.staticData
      ensures payload.Valid()
      ensures payload.Contents() == before + NetworkBytes(|body| - offset, width) + body
    {
      var length := payload.Size() - basePosition - offset - width;
      payload.WriteAt(basePosition, NetworkBytes(length, width));
    }
  }

  // ---- Reading ----

  /** What has been read already goes in front of what is read next. */
  function Prepend<T>(xs: seq<T>, r: Option<(seq<T>, bytes)>): (q: Option<(seq<T>, bytes)>) {
    if r.None? then None else Some((xs + r.value.0, r.value.1))
  }

  lemma {:induction false} PrependTwice<T>(xs: seq<T>, ys: seq<T>, r: Option<(seq<T>, bytes)>)
    ensures Prepend(xs, Prepend(ys, r)) == Prepend(xs + ys, r)
  {
    if r.Some? {
      assert xs + (ys + r.value.0) == xs + ys + r.value.0;
    }
  }

  lemma {:induction false} TotalConcat(w1: seq<nat>, w2: seq<nat>)
    ensures Total(w1 + w2) == Total(w1) + Total(w2)
  {
    if w1 == [] {
      assert w1 + w2 == w2;
    } else {
      assert (w1 + w2)[1..] == w1[1..] + w2;
      TotalConcat(w1[1..], w2);
    }
  }

  /** Reading two groups of fields is reading one after the other. */
  lemma {:induction false} DecodeFieldsConcat(w1: seq<nat>, w2: seq<nat>, s: bytes)
    requires Total(w1) <= |s|
    ensures var front := DecodeFields(w1, s).value;
            DecodeFields(w1 + w2, s) == Prepend(front.0, DecodeFields(w2, front.1))
  {
    var front := DecodeFields(w1, s).value;
    if w1 == [] {
      assert w1 + w2 == w2;
      PrependNone(DecodeFields(w2, s));
    } else {
      assert (w1 + w2)[1..] == w1[1..] + w2;
      DecodeFieldsConcat(w1[1..], w2, s[w1[0]..]);
      var rest := DecodeFields(w1[1..], s[w1[0]..]).value;
      PrependTwice([NetworkValue(s[..w1[0]])], rest.0, DecodeFields(w2, rest.1));
    }
  }

  lemma {:induction false} PrependNone<T>(r: Option<(seq<T>, bytes)>)
    ensures Prepend([], r) == r
  {
    if r.Some? {
      assert [] + r.value.0 == r.value.0;
    }
  }

  /** One field off the front: what is read in the end stays the same. */
  lemma {:induction false} ReadTurn(widths: seq<nat>, i: nat, s: bytes, values: seq<nat>)
    requires i < |widths| && Total(widths[i..]) <= |s|
    ensures widths[i] <= |s| && Total(widths[i + 1..]) <= |s[widths[i]..]|
    ensures Prepend(values, DecodeFields(widths[i..], s)) ==
            Prepend(values + [NetworkValue(s[..widths[i]])], DecodeFields(widths[i + 1..], s[widths[i]..]))
  {
    assert widths[i..][1..] == widths[i + 1..];
    PrependTwice(values, [NetworkValue(s[..widths[i]])], DecodeFields(widths[i + 1..], s[widths[i]..]));
  }

  class NetworkDeserializer {
    const buffer: bytes
    var position: nat

    ghost predicate Valid()
      reads this
    {
      position <= |buffer|
    }

    ghost function Rest(): (s: bytes)
      requires Valid()
      reads this
    {
      buffer[position..]
    }

    constructor (buffer: bytes)
      ensures Valid() && this.buffer == buffer && position == 0
    {
      this.buffer := buffer;
      position := 0;
    }

    function RemainingBytesCount(): (n: nat)
      requires Valid()
      reads this
      ensures n == |Rest()|
    {
      |buffer| - position
    }

    /** A chain of `>>` operators; like the source it may not be asked to pass the end. */
    method Read(widths: seq<nat>) returns (values: seq<nat>)
      requires Valid() && Total(widths) <= |Rest()|
      modifies this`position
      ensures Valid() && DecodeFields(widths, old(Rest())) == Some((values, Rest()))
    {
      values := [];
      var i := 0;
      ghost var s := Rest();
      ghost var all := DecodeFields(widths, s);
      assert widths[0..] == widths;
      PrependNone(all);
      while i < |widths|
        invariant 0 <= i <= |widths| && Valid() && Rest() == s && Total(widths[i..]) <= |s|
        invariant all == Prepend(values, DecodeFields(widths[i..], s))
      {
        ReadTurn(widths, i, s, values);
        assert s[..widths[i]] == buffer[position..position + widths[i]];
        values := values + [NetworkValue(buffer[position..position + widths[i]])];
        position := position + widths[i];
        s := s[widths[i]..];
        i := i + 1;
      }
      assert widths[i..] == [];
      assert values + [] == values;
    }

    /** `LSBDeserializer`: shifts the bytes in one at a time. */
    method ReadLowBytes(width: nat) returns (v: nat)
      requires Valid() && width <= |Rest()|
      modifies this`position
      ensures Valid() && DecodeFields([width], old(Rest())) == Some(([v], Rest()))
    {
      v := 0;
      var i := 0;
      ghost var rest, got := Rest(), [];
      while i < width
        invariant 0 <= i <= width && Valid() && Rest() == rest[i..]
        invariant got == rest[..i] && v == NetworkValue(got)
      {
        var b := buffer[position];
        assert b == rest[i];
        NetworkValueAppend(got, b);
        got := got + [b];
        position := position + 1;
        v := v * 256 + b;
        i := i + 1;
      }
      DecodeOneField(width, rest);
    }
  }
}
