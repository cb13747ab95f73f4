/**
 Strings, vectors and maps on the payload stream (lib/SomeIP-Serialization.h), nested to any
 depth.

 A map is written in whatever order its hash table is traversed. A `Layout` is a value
 together with the traversal orders chosen at every level; `Meaning` forgets the orders.
 */
module Containers {
  import opened Bytes
  import opened Wire

  /** Types that can be hashed: fixed-width scalars, by their bits, and strings. */
  datatype KeyType = ScalarKey(width: nat) | TextKey

  datatype Type = Scalar(width: nat) | Text | List(element: Type) | Dict(key: KeyType, value: Type)

  datatype Key = NumKey(n: nat) | StringKey(s: bytes)

  datatype Data = Num(n: nat) | String(s: bytes) | Items(items: seq<Data>) | Entries(entries: map<Key, Data>)

  datatype Layout =
    | LNum(n: nat)
    | LString(s: bytes)
    | LItems(items: seq<Layout>)
    | LEntries(pairs: seq<Pair>)

  datatype Pair = Pair(key: Key, value: Layout)

  /** Lengths are written as 32-bit integers. */
  const LENGTH_BOUND: nat := 0x1_0000_0000

  predicate KeyFits(t: KeyType, k: Key) {
    match (t, k)
    case (ScalarKey(w), NumKey(n)) => n < Pow256(w)
    case (TextKey, StringKey(s)) => |s| < LENGTH_BOUND
    case _ => false
  }

  /** A value of the type, of representable sizes, whose maps have distinct keys. */
  predicate Fits(t: Type, l: Layout)
    decreases t
  {
    match (t, l)
    case (Scalar(w), LNum(n)) => n < Pow256(w)
    case (Text, LString(s)) => |s| < LENGTH_BOUND
    case (List(e), LItems(items)) =>
      |items| < LENGTH_BOUND && forall i | 0 <= i < |items| :: Fits(e, items[i])
    case (Dict(k, v), LEntries(pairs)) =>
      && |pairs| < LENGTH_BOUND
      && (forall i | 0 <= i < |pairs| :: KeyFits(k, pairs[i].key) && Fits(v, pairs[i].value))
      && (forall i, j | 0 <= i < j < |pairs| :: pairs[i].key != pairs[j].key)
    case _ => false
  }

  function Meaning(l: Layout): (d: Data)
    decreases l, 0
  {
    match l
    case LNum(n) => Num(n)
    case LString(s) => String(s)
    case LItems(items) => Items(Meanings(items))
    case LEntries(pairs) => Entries(MapOf(pairs))
  }

  function Meanings(items: seq<Layout>): (d: seq<Data>)
    ensures |d| == |items|
    decreases items
  {
    if items == [] then [] else Meanings(items[..|items| - 1]) + [Meaning(items[|items| - 1])]
  }

  function PairMeaning(p: Pair): (d: Data)
    decreases p, 1
  {
    Meaning(p.value)
  }

  /** Insertion in traversal order, as `v[key] = value`. */
  function MapOf(pairs: seq<Pair>): (m: map<Key, Data>)
    decreases pairs
  {
    if pairs == [] then map[]
    else MapOf(pairs[..|pairs| - 1])[pairs[|pairs| - 1].key := PairMeaning(pairs[|pairs| - 1])]
  }

  // ---- Writing ----

  function WriteLength(n: nat): (s: bytes)
    ensures |s| == 4
  {
    NetworkBytes(n, 4)
  }

  function WriteKey(t: KeyType, k: Key): (s: bytes)
    requires KeyFits(t, k)
  {
    match k
    case NumKey(n) => NetworkBytes(n, t.width)
    case StringKey(s) => WriteLength(|s|) + s
  }

  function Write(t: Type, l: Layout): (s: bytes)
    requires Fits(t, l)
    decreases t, 0
  {
    match l
    case LNum(n) => NetworkBytes(n, t.width)
    case LString(s) => WriteLength(|s|) + s
    case LItems(items) => WriteLength(|items|) + WriteItems(t.element, items)
    case LEntries(pairs) => WriteLength(|pairs|) + WritePairs(t.key, t.value, pairs)
  }

  function WriteItems(t: Type, items: seq<Layout>): (s: bytes)
    requires forall i | 0 <= i < |items| :: Fits(t, items[i])
    decreases t, |items| + 1
  {
    if items == [] then [] else Write(t, items[0]) + WriteItems(t, items[1..])
  }

  function WritePairs(k: KeyType, t: Type, pairs: seq<Pair>): (s: bytes)
    requires forall i | 0 <= i < |pairs| :: KeyFits(k, pairs[i].key) && Fits(t, pairs[i].value)
    decreases t, |pairs| + 1
  {
    if pairs == [] then []
    else WriteKey(k, pairs[0].key) + Write(t, pairs[0].value) + WritePairs(k, t, pairs[1..])
  }

  // ---- Reading ----

  function Take(s: bytes, n: nat): (r: Option<(bytes, bytes)>) {
    if n <= |s| then Some((s[..n], s[n..])) else None
  }

  function ReadNumber(w: nat, s: bytes): (r: Option<(nat, bytes)>) {
    if w <= |s| then Some((NetworkValue(s[..w]), s[w..])) else None
  }

  function ReadString(s: bytes): (r: Option<(bytes, bytes)>) {
    var n := ReadNumber(4, s);
    if n.None? then None else Take(n.value.1, n.value.0)
  }

  function ReadKey(t: KeyType, s: bytes): (r: Option<(Key, bytes)>) {
    match t
    case ScalarKey(w) => (var n := ReadNumber(w, s); if n.None? then None else Some((NumKey(n.value.0), n.value.1)))
    case TextKey => (var x := ReadString(s); if x.None? then None else Some((StringKey(x.value.0), x.value.1)))
  }

  function Read(t: Type, s: bytes): (r: Option<(Data, bytes)>)
    decreases t, 0
  {
    match t
    case Scalar(w) => (var n := ReadNumber(w, s); if n.None? then None else Some((Num(n.value.0), n.value.1)))
    case Text => (var x := ReadString(s); if x.None? then None else Some((String(x.value.0), x.value.1)))
    case List(e) =>
      var n := ReadNumber(4, s);
      if n.None? then None
      else
        var items := ReadItems(e, n.value.0, n.value.1, []);
        if items.None? then None else Some((Items(items.value.0), items.value.1))
    case Dict(k, v) =>
      var n := ReadNumber(4, s);
      if n.None? then None
      else
        var entries := ReadPairs(k, v, n.value.0, n.value.1, map[]);
        if entries.None? then None else Some((Entries(entries.value.0), entries.value.1))
  }

  /** The vector loop: `count` more elements are pushed behind `done`. */
  function ReadItems(t: Type, count: nat, s: bytes, done: seq<Data>): (r: Option<(seq<Data>, bytes)>)
    decreases t, count + 1
  {
    if count == 0 then Some((done, s))
    else
      var x := Read(t, s);
      if x.None? then None else ReadItems(t, count - 1, x.value.1, done + [x.value.0])
  }

  /** The map loop: `count` more entries are put into `done`. */
  function ReadPairs(k: KeyType, t: Type, count: nat, s: bytes, done: map<Key, Data>)
    : (r: Option<(map<Key, Data>, bytes)>)
    decreases t, count + 1
  {
    if count == 0 then Some((done, s))
    else
      var key := ReadKey(k, s);
      if key.None? then None
      else
        var x := Read(t, key.value.1);
        if x.None? then None else ReadPairs(k, t, count - 1, x.value.1, done[key.value.0 := x.value.0])
  }

  // ---- Round trip ----

  lemma {:induction false} NumberRoundTrip(n: nat, w: nat, rest: bytes)
    requires n < Pow256(w)
    ensures ReadNumber(w, NetworkBytes(n, w) + rest) == Some((n, rest))
  {
    var s := NetworkBytes(n, w) + rest;
    assert s[..w] == NetworkBytes(n, w) && s[w..] == rest;
    NetworkRoundTrip(n, w);
    ModSmall(n, Pow256(w));
  }

  lemma {:induction false} LengthRoundTrip(n: nat, rest: bytes)
    requires n < LENGTH_BOUND
    ensures ReadNumber(4, WriteLength(n) + rest) == Some((n, rest))
  {
    assert Pow256(4) == LENGTH_BOUND by { Pow256Values(); }
    NumberRoundTrip(n, 4, rest);
  }

  lemma {:induction false} StringRoundTrip(x: bytes, rest: bytes)
    requires |x| < LENGTH_BOUND
    ensures ReadString(WriteLength(|x|) + x + rest) == Some((x, rest))
  {
    Assoc(WriteLength(|x|), x, rest);
    LengthRoundTrip(|x|, x + rest);
    assert (x + rest)[..|x|] == x && (x + rest)[|x|..] == rest;
  }

  lemma {:induction false} KeyRoundTrip(t: KeyType, k: Key, rest: bytes)
    requires KeyFits(t, k)
    ensures ReadKey(t, WriteKey(t, k) + rest) == Some((k, rest))
  {
    match k
    case NumKey(n) => NumberRoundTrip(n, t.width, rest);
    case StringKey(s) => StringRoundTrip(s, rest);
  }

  /**
   Reading what was written, followed by anything, returns the value and leaves exactly what
   follows, whatever traversal orders the maps were written in.
   */
  lemma {:induction false} ContainerRoundTrip(t: Type, l: Layout, rest: bytes)
    requires Fits(t, l)
    ensures Read(t, Write(t, l) + rest) == Some((Meaning(l), rest))
    decreases t, 0
  {
    match l
    case LNum(n) => NumberRoundTrip(n, t.width, rest);
    case LString(s) => StringRoundTrip(s, rest);
    case LItems(items) =>
      var body := WriteItems(t.element, items);
      Assoc(WriteLength(|items|), body, rest);
      LengthRoundTrip(|items|, body + rest);
      assert items[0..] == items;
      ItemsRoundTrip(t.element, items, 0, rest);
    case LEntries(pairs) =>
      var body := WritePairs(t.key, t.value, pairs);
      Assoc(WriteLength(|pairs|), body, rest);
      LengthRoundTrip(|pairs|, body + rest);
      assert pairs[0..] == pairs;
      PairsRoundTrip(t.key, t.value, pairs, 0, rest);
  }

  lemma {:induction false} ItemsStep(t: Type, x: Layout, count: nat, tail: bytes, done: seq<Data>)
    requires Fits(t, x) && count > 0
    requires Read(t, Write(t, x) + tail) == Some((Meaning(x), tail))
    ensures ReadItems(t, count, Write(t, x) + tail, done) == ReadItems(t, count - 1, tail, done + [Meaning(x)])
  {
  }

  /** The vector loop after `i` elements. */
  lemma {:induction false} ItemsRoundTrip(t: Type, items: seq<Layout>, i: nat, rest: bytes)
    requires i <= |items| && forall j | 0 <= j < |items| :: Fits(t, items[j])
    ensures ReadItems(t, |items| - i, WriteItems(t, items[i..]) + rest, Meanings(items[..i])) ==
            Some((Meanings(items), rest))
    decreases t, |items| - i + 1
  {
    if i == |items| {
      assert items[i..] == [] && items[..i] == items;
      assert WriteItems(t, []) + rest == rest;
    } else {
      var x, tail := items[i], WriteItems(t, items[i + 1..]);
      assert WriteItems(t, items[i..]) + rest == Write(t, x) + (tail + rest) by {
        assert items[i..][1..] == items[i + 1..];
        Assoc(Write(t, x), tail, rest);
      }
      ContainerRoundTrip(t, x, tail + rest);
      ItemsStep(t, x, |items| - i, tail + rest, Meanings(items[..i]));
      assert Meanings(items[..i + 1]) == Meanings(items[..i]) + [Meaning(x)] by {
        assert items[..i + 1][..i] == items[..i];
      }
      ItemsRoundTrip(t, items, i + 1, rest);
    }
  }

  lemma {:induction false} PairsStep(k: KeyType, t: Type, p: Pair, count: nat, tail: bytes, done: map<Key, Data>)
    requires KeyFits(k, p.key) && Fits(t, p.value) && count > 0
    requires Read(t, Write(t, p.value) + tail) == Some((Meaning(p.value), tail))
    ensures ReadPairs(k, t, count, WriteKey(k, p.key) + (Write(t, p.value) + tail), done) ==
            ReadPairs(k, t, count - 1, tail, done[p.key := Meaning(p.value)])
  {
    KeyRoundTrip(k, p.key, Write(t, p.value) + tail);
  }

  lemma {:induction false} PairsNext(k: KeyType, t: Type, pairs: seq<Pair>, i: nat, rest: bytes)
    requires i < |pairs| && forall j | 0 <= j < |pairs| :: KeyFits(k, pairs[j].key) && Fits(t, pairs[j].value)
    ensures WritePairs(k, t, pairs[i..]) + rest ==
            WriteKey(k, pairs[i].key) + (Write(t, pairs[i].value) + (WritePairs(k, t, pairs[i + 1..]) + rest))
  {
    var p, tail := pairs[i], WritePairs(k, t, pairs[i + 1..]);
    assert pairs[i..][1..] == pairs[i + 1..];
    Assoc4(WriteKey(k, p.key), Write(t, p.value), tail, rest);
    Assoc(Write(t, p.value), tail, rest);
  }

  lemma {:induction false} MapOfNext(pairs: seq<Pair>, i: nat)
    requires i < |pairs|
    ensures MapOf(pairs[..i + 1]) == MapOf(pairs[..i])[pairs[i].key := Meaning(pairs[i].value)]
  {
    assert pairs[..i + 1][..i] == pairs[..i];
  }

  lemma {:induction false} PairsRoundTrip(k: KeyType, t: Type, pairs: seq<Pair>, i: nat, rest: bytes)
    requires i <= |pairs| && forall j | 0 <= j < |pairs| :: KeyFits(k, pairs[j].key) && Fits(t, pairs[j].value)
    ensures ReadPairs(k, t, |pairs| - i, WritePairs(k, t, pairs[i..]) + rest, MapOf(pairs[..i])) ==
            Some((MapOf(pairs), rest))
    decreases t, |pairs| - i + 1
  {
    if i == |pairs| {
      assert pairs[i..] == [] && pairs[..i] == pairs;
      assert WritePairs(k, t, []) + rest == rest;
    } else {
      var p, tail := pairs[i], WritePairs(k, t, pairs[i + 1..]);
      PairsNext(k, t, pairs, i, rest);
      ContainerRoundTrip(t, p.value, tail + rest);
      PairsStep(k, t, p, |pairs| - i, tail + rest, MapOf(pairs[..i]));
      MapOfNext(pairs, i);
      PairsRoundTrip(k, t, pairs, i + 1, rest);
    }
  }

  // ---- The order of a map does not matter ----

  lemma {:induction false} MapOfContains(pairs: seq<Pair>, i: nat)
    requires forall a, b | 0 <= a < b < |pairs| :: pairs[a].key != pairs[b].key
    requires i < |pairs|
    ensures pairs[i].key in MapOf(pairs) && MapOf(pairs)[pairs[i].key] == Meaning(pairs[i].value)
  {
    if i < |pairs| - 1 {
      MapOfContains(pairs[..|pairs| - 1], i);
    }
  }

  lemma {:induction false} MapOfKeys(pairs: seq<Pair>, k: Key)
    ensures k in MapOf(pairs) <==> exists i :: 0 <= i < |pairs| && pairs[i].key == k
  {
    if pairs != [] {
      var m := |pairs| - 1;
      MapOfKeys(pairs[..m], k);
      if pairs[m].key != k && k in MapOf(pairs) {
        var i :| 0 <= i < m && pairs[..m][i].key == k;
        assert pairs[i].key == k;
      }
      if i :| 0 <= i < |pairs| && pairs[i].key == k && i < m {
        assert pairs[..m][i].key == k;
      }
    }
  }

  lemma {:induction false} MeaningsAt(items: seq<Layout>, i: nat)
    requires i < |items|
    ensures Meanings(items)[i] == Meaning(items[i])
  {
    if i < |items| - 1 {
      MeaningsAt(items[..|items| - 1], i);
    }
  }

  /** Some pair of `q` has the key of `x` and a value that differs from its value in order only. */
  ghost predicate Matched(v: Type, x: Pair, q: seq<Pair>)
    decreases v, 1
  {
    exists j :: 0 <= j < |q| && q[j].key == x.key && Reordered(v, x.value, q[j].value)
  }

  ghost predicate AllMatched(v: Type, p: seq<Pair>, q: seq<Pair>)
    decreases v, 2, |p|
  {
    p != [] ==> AllMatched(v, p[..|p| - 1], q) && Matched(v, p[|p| - 1], q)
  }

  lemma {:induction false} AllMatchedAt(v: Type, p: seq<Pair>, q: seq<Pair>, i: nat)
    requires AllMatched(v, p, q) && i < |p|
    ensures Matched(v, p[i], q)
  {
    if i < |p| - 1 {
      AllMatchedAt(v, p[..|p| - 1], q, i);
    }
  }

  /** The same value with its maps, at every level, traversed in other orders. */
  ghost predicate Reordered(t: Type, a: Layout, b: Layout)
    decreases t, 0
  {
    match t
    case Scalar(_) => a == b
    case Text => a == b
    case List(e) =>
      a.LItems? && b.LItems? && |a.items| == |b.items| &&
      forall i | 0 <= i < |a.items| :: Reordered(e, a.items[i], b.items[i])
    case Dict(_, v) =>
      a.LEntries? && b.LEntries? && AllMatched(v, a.pairs, b.pairs) && AllMatched(v, b.pairs, a.pairs)
  }

  ghost predicate Keyed(k: KeyType, v: Type, pairs: seq<Pair>) {
    Fits(Dict(k, v), LEntries(pairs))
  }

  /** A matched pair stands for the same entry. */
  lemma {:induction false} MatchedEntry(k: KeyType, v: Type, x: Pair, q: seq<Pair>)
    requires Keyed(k, v, q) && Fits(v, x.value) && Matched(v, x, q)
    ensures x.key in MapOf(q) && MapOf(q)[x.key] == Meaning(x.value)
    decreases v, 1
  {
    var j :| 0 <= j < |q| && q[j].key == x.key && Reordered(v, x.value, q[j].value);
    MapOfContains(q, j);
    ReorderedMeaning(v, x.value, q[j].value);
  }

  lemma {:induction false} MatchedKey(k: KeyType, v: Type, p: seq<Pair>, q: seq<Pair>, x: Key)
    requires Keyed(k, v, p) && Keyed(k, v, q) && x in MapOf(p) && AllMatched(v, p, q)
    ensures x in MapOf(q) && MapOf(q)[x] == MapOf(p)[x]
    decreases v, 2
  {
    MapOfKeys(p, x);
    var i :| 0 <= i < |p| && p[i].key == x;
    MapOfContains(p, i);
    AllMatchedAt(v, p, q, i);
    MatchedEntry(k, v, p[i], q);
  }

  lemma {:induction false} MatchedMaps(k: KeyType, v: Type, p: seq<Pair>, q: seq<Pair>)
    requires Keyed(k, v, p) && Keyed(k, v, q) && AllMatched(v, p, q) && AllMatched(v, q, p)
    ensures MapOf(p) == MapOf(q)
    decreases v, 3
  {
    forall x | x in MapOf(p) ensures x in MapOf(q) && MapOf(q)[x] == MapOf(p)[x] {
      MatchedKey(k, v, p, q, x);
    }
    forall x | x in MapOf(q) ensures x in MapOf(p) {
      MatchedKey(k, v, q, p, x);
    }
  }

  lemma {:induction false} ReorderedMeaning(t: Type, a: Layout, b: Layout)
    requires Fits(t, a) && Fits(t, b) && Reordered(t, a, b)
    ensures Meaning(a) == Meaning(b)
    decreases t, 0
  {
    match t
    case Scalar(_) =>
    case Text =>
    case List(e) =>
      forall i | 0 <= i < |a.items| ensures Meanings(a.items)[i] == Meanings(b.items)[i] {
        MeaningsAt(a.items, i);
        MeaningsAt(b.items, i);
        ReorderedMeaning(e, a.items[i], b.items[i]);
      }
    case Dict(k, v) => MatchedMaps(k, v, a.pairs, b.pairs);
  }

  /** An entry of equal maps is matched. */
  lemma {:induction false} EntryMatched(k: KeyType, v: Type, p: seq<Pair>, i: nat, q: seq<Pair>)
    requires Keyed(k, v, p) && Keyed(k, v, q) && MapOf(p) == MapOf(q) && i < |p|
    ensures Matched(v, p[i], q)
    decreases v, 1
  {
    MapOfContains(p, i);
    MapOfKeys(q, p[i].key);
    var j :| 0 <= j < |q| && q[j].key == p[i].key;
    MapOfContains(q, j);
    MeaningReordered(v, p[i].value, q[j].value);
  }

  lemma {:induction false} EntriesMatched(k: KeyType, v: Type, p: seq<Pair>, n: nat, q: seq<Pair>)
    requires Keyed(k, v, p) && Keyed(k, v, q) && MapOf(p) == MapOf(q) && n <= |p|
    ensures AllMatched(v, p[..n], q)
    decreases v, 2, n
  {
    if n > 0 {
      EntriesMatched(k, v, p, n - 1, q);
      EntryMatched(k, v, p, n - 1, q);
      assert p[..n][..n - 1] == p[..n - 1];
    }
  }

  lemma {:induction false} MeaningReordered(t: Type, a: Layout, b: Layout)
    requires Fits(t, a) && Fits(t, b) && Meaning(a) == Meaning(b)
    ensures Reordered(t, a, b)
    decreases t, 0
  {
    match t
    case Scalar(_) =>
    case Text =>
    case List(e) =>
      assert Meanings(a.items) == Meanings(b.items);
      forall i | 0 <= i < |a.items| ensures Reordered(e, a.items[i], b.items[i]) {
        MeaningsAt(a.items, i);
        MeaningsAt(b.items, i);
        MeaningReordered(e, a.items[i], b.items[i]);
      }
    case Dict(k, v) =>
      assert MapOf(a.pairs) == MapOf(b.pairs);
      EntriesMatched(k, v, a.pairs, |a.pairs|, b.pairs);
      EntriesMatched(k, v, b.pairs, |b.pairs|, a.pairs);
      assert a.pairs[..|a.pairs|] == a.pairs && b.pairs[..|b.pairs|] == b.pairs;
  }

  /**
   What two written values are read back as is equal if and only if the values differ in the
   traversal order of maps only, at any levels.
   */
  lemma {:induction false} TraversalOrderIsInvisible(t: Type, a: Layout, b: Layout, rest: bytes)
    requires Fits(t, a) && Fits(t, b)
    ensures Read(t, Write(t, a) + rest) == Read(t, Write(t, b) + rest) <==> Reordered(t, a, b)
  {
    ContainerRoundTrip(t, a, rest);
    ContainerRoundTrip(t, b, rest);
    if Reordered(t, a, b) {
      ReorderedMeaning(t, a, b);
    }
    if Meaning(a) == Meaning(b) {
      MeaningReordered(t, a, b);
    }
  }

  // ---- The stream operators ----

  method WriteValue(stream: NetworkSerializer, t: Type, l: Layout)
    requires stream.payload.Valid() && Fits(t, l)
    modifies stream.payload, stream.payload.staticData
    ensures stream.payload.Valid()
    ensures stream.payload.Contents() == old(stream.payload.Contents()) + Write(t, l)
    decreases t, 0
  {
    match l {
      case LNum(n) => stream.WriteRawData(NetworkBytes(n, t.width));
      case LString(s) =>
        stream.WriteRawData(WriteLength(|s|));
        stream.WriteRawData(s);
        Assoc(old(stream.payload.Contents()), WriteLength(|s|), s);
      case LItems(items) =>
        stream.WriteRawData(WriteLength(|items|));
        WriteElements(stream, t.element, items);
        Assoc(old(stream.payload.Contents()), WriteLength(|items|), WriteItems(t.element, items));
      case LEntries(pairs) =>
        stream.WriteRawData(WriteLength(|pairs|));
        WriteEntries(stream, t.key, t.value, pairs);
        Assoc(old(stream.payload.Contents()), WriteLength(|pairs|), WritePairs(t.key, t.value, pairs));
    }
  }

  method WriteElements(stream: NetworkSerializer, t: Type, items: seq<Layout>)
    requires stream.payload.Valid() && forall i | 0 <= i < |items| :: Fits(t, items[i])
    modifies stream.payload, stream.payload.staticData
    ensures stream.payload.Valid()
    ensures stream.payload.Contents() == old(stream.payload.Contents()) + WriteItems(t, items)
    decreases t, 1
  {
    ghost var all := old(stream.payload.Contents()) + WriteItems(t, items);
    var i := 0;
    while i < |items|
      invariant 0 <= i <= |items| && stream.payload.Valid()
      invariant stream.payload.Contents() + WriteItems(t, items[i..]) == all
    {
      Assoc(stream.payload.Contents(), Write(t, items[i]), WriteItems(t, items[i + 1..]));
      assert items[i..][1..] == items[i + 1..];
      WriteValue(stream, t, items[i]);
      i := i + 1;
    }
    assert items[i..] == [];
  }

  lemma {:induction false} PairWritten(before: bytes, k: KeyType, t: Type, pairs: seq<Pair>, i: nat)
    requires i < |pairs| && forall j | 0 <= j < |pairs| :: KeyFits(k, pairs[j].key) && Fits(t, pairs[j].value)
    ensures before + WriteKey(k, pairs[i].key) + Write(t, pairs[i].value) + WritePairs(k, t, pairs[i + 1..]) ==
            before + WritePairs(k, t, pairs[i..])
  {
    assert pairs[i..][1..] == pairs[i + 1..];
    Assoc4(before, WriteKey(k, pairs[i].key), Write(t, pairs[i].value), WritePairs(k, t, pairs[i + 1..]));
  }

  method WriteEntries(stream: NetworkSerializer, k: KeyType, t: Type, pairs: seq<Pair>)
    requires stream.payload.Valid()
    requires forall i | 0 <= i < |pairs| :: KeyFits(k, pairs[i].key) && Fits(t, pairs[i].value)
    modifies stream.payload, stream.payload.staticData
    ensures stream.payload.Valid()
    ensures stream.payload.Contents() == old(stream.payload.Contents()) + WritePairs(k, t, pairs)
    decreases t, 1
  {
    ghost var all := old(stream.payload.Contents()) + WritePairs(k, t, pairs);
    var i := 0;
    while i < |pairs|
      invariant 0 <= i <= |pairs| && stream.payload.Valid()
      invariant stream.payload.Contents() + WritePairs(k, t, pairs[i..]) == all
    {
      ghost var before := stream.payload.Contents();
      PairWritten(before, k, t, pairs, i);
      stream.WriteRawData(WriteKey(k, pairs[i].key));
      WriteValue(stream, t, pairs[i].value);
      i := i + 1;
    }
    assert pairs[i..] == [];
  }

  method TakeNumber(stream: NetworkDeserializer, w: nat) returns (n: nat)
    requires stream.Valid() && w <= |stream.Rest()|
    modifies stream`position
    ensures stream.Valid() && ReadNumber(w, old(stream.Rest())) == Some((n, stream.Rest()))
  {
    n := NetworkValue(stream.buffer[stream.position..stream.position + w]);
    assert stream.buffer[stream.position..stream.position + w] == stream.Rest()[..w];
    stream.position := stream.position + w;
  }

  method TakeString(stream: NetworkDeserializer) returns (s: bytes)
    requires stream.Valid() && ReadString(stream.Rest()).Some?
    modifies stream`position
    ensures stream.Valid() && ReadString(old(stream.Rest())) == Some((s, stream.Rest()))
  {
    var n := TakeNumber(stream, 4);
    s := stream.buffer[stream.position..stream.position + n];
    assert s == stream.Rest()[..n];
    stream.position := stream.position + n;
  }

  method TakeKey(stream: NetworkDeserializer, t: KeyType) returns (k: Key)
    requires stream.Valid() && ReadKey(t, stream.Rest()).Some?
    modifies stream`position
    ensures stream.Valid() && ReadKey(t, old(stream.Rest())) == Some((k, stream.Rest()))
  {
    match t {
      case ScalarKey(w) =>
        var n := TakeNumber(stream, w);
        k := NumKey(n);
      case TextKey =>
        var s := TakeString(stream);
        k := StringKey(s);
    }
  }

  /** Reads a value from a stream that holds one: no read passes the end. */
  method ReadValue(stream: NetworkDeserializer, t: Type) returns (d: Data)
    requires stream.Valid() && Read(t, stream.Rest()).Some?
    modifies stream`position
    ensures stream.Valid() && Read(t, old(stream.Rest())) == Some((d, stream.Rest()))
    decreases t, 0
  {
    match t {
      case Scalar(w) =>
        var n := TakeNumber(stream, w);
        d := Num(n);
      case Text =>
        var s := TakeString(stream);
        d := String(s);
      case List(e) =>
        var n := TakeNumber(stream, 4);
        var items := ReadElements(stream, e, n);
        d := Items(items);
      case Dict(k, v) =>
        var n := TakeNumber(stream, 4);
        var entries := ReadEntries(stream, k, v, n);
        d := Entries(entries);
    }
  }

  method ReadElements(stream: NetworkDeserializer, t: Type, size: nat) returns (items: seq<Data>)
    requires stream.Valid() && ReadItems(t, size, stream.Rest(), []).Some?
    modifies stream`position
    ensures stream.Valid() && ReadItems(t, size, old(stream.Rest()), []) == Some((items, stream.Rest()))
    decreases t, 1
  {
    items := [];
    var i := 0;
    ghost var all := ReadItems(t, size, stream.Rest(), []);
    while i < size
      invariant 0 <= i <= size && stream.Valid()
      invariant ReadItems(t, size - i, stream.Rest(), items) == all
    {
      var element := ReadValue(stream, t);
      items := items + [element];
      i := i + 1;
    }
  }

  lemma {:induction false} PairReadable(k: KeyType, t: Type, count: nat, s: bytes, done: map<Key, Data>)
    requires count > 0 && ReadPairs(k, t, count, s, done).Some?
    ensures ReadKey(k, s).Some? && Read(t, ReadKey(k, s).value.1).Some?
  {
  }

  /** One entry is read, and then the others. */
  lemma {:induction false} PairRead(
    k: KeyType, t: Type, count: nat, s: bytes, done: map<Key, Data>, key: Key, s1: bytes, value: Data, s2: bytes)
    requires count > 0 && ReadKey(k, s) == Some((key, s1)) && Read(t, s1) == Some((value, s2))
    ensures ReadPairs(k, t, count, s, done) == ReadPairs(k, t, count - 1, s2, done[key := value])
  {
  }

  /** One turn of the map loop: a key and its value. */
  method ReadEntry(
    stream: NetworkDeserializer, k: KeyType, t: Type, ghost count: nat, ghost done: map<Key, Data>)
    returns (key: Key, value: Data)
    requires stream.Valid() && count > 0 && ReadPairs(k, t, count, stream.Rest(), done).Some?
    modifies stream`position
    ensures stream.Valid()
    ensures ReadPairs(k, t, count, old(stream.Rest()), done) ==
            ReadPairs(k, t, count - 1, stream.Rest(), done[key := value])
    decreases t, 1
  {
    ghost var s := stream.Rest();
    PairReadable(k, t, count, s, done);
    key := TakeKey(stream, k);
    ghost var s1 := stream.Rest();
    value := ReadValue(stream, t);
    PairRead(k, t, count, s, done, key, s1, value, stream.Rest());
  }

  method ReadEntries(stream: NetworkDeserializer, k: KeyType, t: Type, size: nat) returns (entries: map<Key, Data>)
    requires stream.Valid() && ReadPairs(k, t, size, stream.Rest(), map[]).Some?
    modifies stream`position
    ensures stream.Valid() && ReadPairs(k, t, size, old(stream.Rest()), map[]) == Some((entries, stream.Rest()))
    decreases t, 2
  {
    entries := map[];
    var i := 0;
    ghost var all := ReadPairs(k, t, size, stream.Rest(), map[]);
    while i < size
      invariant 0 <= i <= size && stream.Valid()
      invariant ReadPairs(k, t, size - i, stream.Rest(), entries) == all
    {
      var key, value := ReadEntry(stream, k, t, size - i, entries);
      entries := entries[key := value];
      i := i + 1;
    }
  }
}
