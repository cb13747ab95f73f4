/**
 The small-buffer vector of utilLib/common.h: up to `STATIC_SIZE` bytes live in a buffer
 inside the object, longer contents in a vector. The switch is one way.
 */
module ByteArrays {
  import opened Bytes

  const STATIC_SIZE: nat := 1024
  /** `m_length = -1`: the value left in the length field once the vector is in use. */
  const LENGTH_UNUSED: nat := 0xFFFF_FFFF_FFFF_FFFF

  function Min(a: nat, b: nat): (r: nat)
    ensures r <= a && r <= b && (r == a || r == b)
  {
    if a <= b then a else b
  }

  // ---- Where the bytes are ----

  function Zeros(n: nat): (s: bytes)
    ensures |s| == n && forall i | 0 <= i < n :: s[i] == 0
  {
    seq(n, _ => 0)
  }

  /** `memcpy` of `data` to position `p`. */
  function Patch(s: bytes, p: nat, data: bytes): (r: bytes)
    requires p + |data| <= |s|
    ensures |r| == |s| && r[p..p + |data|] == data
    ensures forall i | 0 <= i < |s| && (i < p || i >= p + |data|) :: r[i] == s[i]
  {
    s[..p] + data + s[p + |data|..]
  }

  /** The static buffer, the vector once there is one, and the length field. */
  datatype Storage = Storage(fixed: bytes, vector: Option<bytes>, length: nat)

  predicate ValidStorage(b: Storage) {
    && |b.fixed| == STATIC_SIZE
    && (b.vector.None? ==> b.length <= STATIC_SIZE)
    && (b.vector.Some? ==> b.length == LENGTH_UNUSED)
  }

  /** The memory behind `getData()`: all of it, also what lies beyond the length. */
  function Raw(b: Storage): (s: bytes) {
    if b.vector.None? then b.fixed else b.vector.value
  }

  function SizeOf(b: Storage): (n: nat)
    ensures ValidStorage(b) ==> n <= |Raw(b)|
  {
    if b.vector.None? then b.length else |b.vector.value|
  }

  /** A write through the pointer `getData()`, which may go beyond the length. */
  function Poked(b: Storage, p: nat, data: bytes): (r: Storage)
    requires p + |data| <= |Raw(b)|
    ensures Raw(r) == Patch(Raw(b), p, data) && SizeOf(r) == SizeOf(b)
    ensures ValidStorage(b) ==> ValidStorage(r)
  {
    if b.vector.None? then b.(fixed := Patch(b.fixed, p, data)) else b.(vector := Some(Patch(b.vector.value, p, data)))
  }

  /** The first `size` bytes of a vector, filled up with zeros. */
  function VectorResized(v: bytes, size: nat): (r: bytes)
    ensures |r| == size
  {
    if size <= |v| then v[..size] else v + Zeros(size - |v|)
  }

  /** `resize`: leaving the static buffer copies `length` bytes of it and no more. */
  function Resized(b: Storage, size: nat): (r: Storage)
    requires ValidStorage(b)
    ensures ValidStorage(r) && SizeOf(r) == size
  {
    if b.vector.Some? then b.(vector := Some(VectorResized(b.vector.value, size)))
    else if size <= STATIC_SIZE then b.(length := size)
    else Storage(b.fixed, Some(VectorResized(b.fixed[..b.length], size)), LENGTH_UNUSED)
  }

  /**
   What `resize` keeps of the memory below `n`: everything while the storage stays the same
   or the length covers it, and zeros beyond the length when the static buffer is left.
   */
  lemma {:induction false} ResizedMemory(b: Storage, size: nat, i: nat)
    requires ValidStorage(b) && i < size && i < |Raw(b)|
    ensures i < |Raw(Resized(b, size))|
    ensures Raw(Resized(b, size))[i] ==
            if b.vector.None? && size > STATIC_SIZE && i >= b.length then 0 else Raw(b)[i]
  {
  }

  class ByteArray {
    const staticData: array<byte>
    var dynamicData: Option<bytes>
    var length: nat

    ghost predicate Valid()
      reads this
    {
      && staticData.Length == STATIC_SIZE
      && (dynamicData.None? ==> length <= STATIC_SIZE)
      && (dynamicData.Some? ==> length == LENGTH_UNUSED)
    }

    /** The byte sequence the object stands for, wherever it is stored. */
    ghost function Contents(): (s: bytes)
      requires Valid()
      reads this, staticData
    {
      if dynamicData.None? then staticData[..length] else dynamicData.value
    }

    /** The object's storage as a value. */
    ghost function Store(): (b: Storage)
      requires Valid()
      reads this, staticData
      ensures ValidStorage(b) && Contents() == Raw(b)[..SizeOf(b)]
    {
      Storage(staticData[..], dynamicData, length)
    }

    constructor ()
      ensures Valid() && fresh(staticData) && Contents() == []
      ensures Store() == Storage(Zeros(STATIC_SIZE), None, 0)
    {
      staticData := new byte[STATIC_SIZE](_ => 0);
      dynamicData := None;
      length := 0;
    }

    /** The copy constructor. */
    constructor Copy(b: ByteArray)
      requires b.Valid()
      ensures Valid() && fresh(staticData) && Contents() == b.Contents()
    {
      staticData := new byte[STATIC_SIZE](_ => 0);
      dynamicData := None;
      length := 0;
      new;
      var data := b.GetData();
      Append(data);
    }

    function Size(): (n: nat)
      requires Valid()
      reads this, staticData
      ensures n == |Contents()|
    {
      if dynamicData.None? then length else |dynamicData.value|
    }

    /** The bytes at `getData()`, `size()` of them. */
    method GetData() returns (data: bytes)
      requires Valid()
      ensures data == Contents()
    {
      if dynamicData.None? {
        data := staticData[..length];
      } else {
        data := dynamicData.value;
      }
    }

    /**
     Keeps the common prefix. Growing inside the static buffer exposes whatever bytes are
     there; growing a vector, or out of the static buffer, fills up with zeros.
     */
    method Resize(size: nat)
      requires Valid()
      modifies this
      ensures Valid() && |Contents()| == size && Store() == Resized(old(Store()), size)
      ensures Contents()[..Min(size, old(|Contents()|))] == old(Contents())[..Min(size, old(|Contents()|))]
      ensures old(dynamicData).None? && size <= STATIC_SIZE ==> dynamicData.None? && Contents() == staticData[..size]
      ensures size > old(|Contents()|) && (old(dynamicData).Some? || size > STATIC_SIZE) ==>
                Contents() == old(Contents()) + Zeros(size - old(|Contents()|))
    {
      if dynamicData.Some? {
        var kept := dynamicData.value;
        dynamicData := Some(if size <= |kept| then kept[..size] else kept + Zeros(size - |kept|));
      } else if size <= STATIC_SIZE {
        length := size;
      } else {
        dynamicData := Some(staticData[..length] + Zeros(size - length));
        length := LENGTH_UNUSED;
      }
    }

    /** A write through the pointer `getData()`: the length is not looked at. */
    method Poke(position: nat, data: bytes)
      requires Valid() && position + |data| <= |Raw(Store())|
      modifies this, staticData
      ensures Valid() && Store() == Poked(old(Store()), position, data)
    {
      if dynamicData.Some? {
        var d := dynamicData.value;
        dynamicData := Some(d[..position] + data + d[position + |data|..]);
      } else {
        forall i | 0 <= i < |data| {
          staticData[position + i] := data[i];
        }
        assert staticData[..] == Patch(old(staticData[..]), position, data);
      }
    }

    /** A read through the pointer `getData()`. */
    method Peek(position: nat, count: nat) returns (data: bytes)
      requires Valid() && position + count <= |Raw(Store())|
      ensures data == Raw(Store())[position..position + count]
    {
      if dynamicData.Some? {
        data := dynamicData.value[position..position + count];
      } else {
        data := staticData[position..position + count];
        assert staticData[..][position..position + count] == data;
      }
    }

    /** Overwrites `data` in place; the block must lie inside the current contents. */
    method WriteAt(position: nat, data: bytes)
      requires Valid() && position + |data| <= |Contents()|
      modifies this, staticData
      ensures Valid()
      ensures Contents() == old(Contents())[..position] + data + old(Contents())[position + |data|..]
    {
      if dynamicData.Some? {
        var d := dynamicData.value;
        dynamicData := Some(d[..position] + data + d[position + |data|..]);
      } else {
        forall i | 0 <= i < |data| {
          staticData[position + i] := data[i];
        }
      }
    }

    method Append(data: bytes)
      requires Valid()
      modifies this, staticData
      ensures Valid() && Contents() == old(Contents()) + data
    {
      var i := Size();
      Resize(Size() + |data|);
      WriteAt(i, data);
    }

    method AppendByte(v: byte)
      requires Valid()
      modifies this, staticData
      ensures Valid() && Contents() == old(Contents()) + [v]
    {
      var i := Size();
      Resize(Size() + 1);
      WriteAt(i, [v]);
    }

    /** Reserves a block of zeros and returns its position. */
    method Skip(n: nat) returns (position: nat)
      requires Valid()
      modifies this, staticData
      ensures Valid() && position == old(|Contents()|)
      ensures Contents() == old(Contents()) + seq(n, _ => 0)
    {
      position := Size();
      Append(seq(n, _ => 0));
    }

    /** The assignment operator; `right` may be the object itself. */
    method Assign(right: ByteArray)
      requires Valid() && right.Valid() && (right == this || right.staticData != staticData)
      modifies this, staticData
      ensures Valid() && Contents() == old(right.Contents())
    {
      Resize(right.Size());
      var data := right.GetData();
      WriteAt(0, data);
    }

    method Perform(e: Edit)
      requires Valid() && (e.WriteAt? ==> e.position + |e.data| <= |Contents()|)
      modifies this, staticData
      ensures Valid() && Edited(e, old(Contents()), Contents())
    {
      match e
      case Append(data) => Append(data);
      case Skip(n) => var _ := Skip(n);
      case Resize(n) => Resize(n);
      case WriteAt(position, data) => WriteAt(position, data);
      case Assign(data) =>
        var right := new ByteArray();
        right.Append(data);
        Assign(right);
    }

    /** Any sequence of edits acts as the same edits on a plain byte sequence. */
    method Execute(edits: seq<Edit>)
      requires Valid() && Fits(edits, |Contents()|)
      modifies this, staticData
      ensures Valid() && EditedAll(edits, old(Contents()), Contents())
    {
      var i := 0;
      ghost var states := [Contents()];
      while i < |edits|
        invariant 0 <= i <= |edits| && Valid()
        invariant Fits(edits[i..], |Contents()|)
        invariant Path(edits[..i], states) && states[0] == old(Contents()) && states[i] == Contents()
      {
        ghost var before := states;
        Perform(edits[i]);
        states := before + [Contents()];
        assert Path(edits[..i + 1], states) by { PathGrows(edits, i, before, Contents()); }
        assert edits[i..][1..] == edits[i + 1..];
        i := i + 1;
      }
      assert edits[..i] == edits;
    }
  }

  // ---- Plain byte sequences under the same edits ----

  datatype Edit =
    | Append(data: bytes)
    | Skip(n: nat)
    | Resize(n: nat)
    | WriteAt(position: nat, data: bytes)
    | Assign(data: bytes)

  function SizeAfter(e: Edit, size: nat): (n: nat) {
    match e
    case Append(data) => size + |data|
    case Skip(n) => size + n
    case Resize(n) => n
    case WriteAt(_, _) => size
    case Assign(data) => |data|
  }

  /** Every write stays inside the contents, as `writeAt` asserts. */
  predicate Fits(edits: seq<Edit>, size: nat) {
    edits != [] ==>
      && (edits[0].WriteAt? ==> edits[0].position + |edits[0].data| <= size)
      && Fits(edits[1..], SizeAfter(edits[0], size))
  }

  ghost predicate Edited(e: Edit, s: bytes, t: bytes) {
    match e
    case Append(data) => t == s + data
    case Skip(n) => t == s + seq(n, _ => 0)
    case Resize(n) => |t| == n && t[..Min(n, |s|)] == s[..Min(n, |s|)]
    case WriteAt(position, data) =>
      position + |data| <= |s| && t == s[..position] + data + s[position + |data|..]
    case Assign(data) => t == data
  }

  ghost predicate Path(edits: seq<Edit>, states: seq<bytes>) {
    && |states| == |edits| + 1
    && forall i | 0 <= i < |edits| :: Edited(edits[i], states[i], states[i + 1])
  }

  lemma {:induction false} PathGrows(edits: seq<Edit>, i: nat, states: seq<bytes>, t: bytes)
    requires i < |edits| && Path(edits[..i], states) && Edited(edits[i], states[i], t)
    ensures Path(edits[..i + 1], states + [t])
  {
    var more := states + [t];
    forall j | 0 <= j < i + 1 ensures Edited(edits[..i + 1][j], more[j], more[j + 1]) {
      if j < i {
        assert edits[..i][j] == edits[j] && Edited(edits[..i][j], states[j], states[j + 1]);
      }
    }
  }

  ghost predicate EditedAll(edits: seq<Edit>, s: bytes, t: bytes) {
    exists states :: Path(edits, states) && states[0] == s && states[|edits|] == t
  }

  /** No `resize` makes the contents longer. */
  predicate NeverGrows(edits: seq<Edit>, size: nat) {
    edits != [] ==>
      && (edits[0].Resize? ==> edits[0].n <= size)
      && NeverGrows(edits[1..], SizeAfter(edits[0], size))
  }

  lemma {:induction false} PathSize(edits: seq<Edit>, states: seq<bytes>)
    requires Path(edits, states)
    ensures edits != [] ==> |states[1]| == SizeAfter(edits[0], |states[0]|)
    ensures edits != [] ==> Path(edits[1..], states[1..])
  {
    if edits != [] {
      assert Edited(edits[0], states[0], states[1]);
      forall i | 0 <= i < |edits| - 1
        ensures Edited(edits[1..][i], states[1..][i], states[1..][i + 1])
      {
        assert Edited(edits[i + 1], states[i + 1], states[i + 2]);
      }
    }
  }

  /**
   As long as `resize` is not used to grow, the contents after any edits are a function of
   the contents before: where the bytes are stored does not show.
   */
  lemma {:induction false} StorageIsInvisible(edits: seq<Edit>, s: bytes, t: bytes, t': bytes)
    requires NeverGrows(edits, |s|)
    requires EditedAll(edits, s, t) && EditedAll(edits, s, t')
    ensures t == t'
    decreases |edits|
  {
    var a :| Path(edits, a) && a[0] == s && a[|edits|] == t;
    var b :| Path(edits, b) && b[0] == s && b[|edits|] == t';
    if edits != [] {
      assert Edited(edits[0], a[0], a[1]) && Edited(edits[0], b[0], b[1]);
      assert a[1] == b[1];
      PathSize(edits, a);
      PathSize(edits, b);
      assert a[1..][|edits[1..]|] == t && b[1..][|edits[1..]|] == t';
      assert EditedAll(edits[1..], a[1], t) && EditedAll(edits[1..], a[1], t');
      StorageIsInvisible(edits[1..], a[1], t, t');
    }
  }
}
