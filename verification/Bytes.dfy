/**
 Bytes, fixed-width unsigned integers and the two byte orders (utilLib/common.h).

 An integer in memory is a sequence of bytes whose order depends on the host; on the
 network it is always most significant byte first.
 */
module Bytes {

  type byte = x: int | 0 <= x < 0x100
  type bytes = seq<byte>
  type u16 = x: int | 0 <= x < 0x1_0000
  type u32 = x: int | 0 <= x < 0x1_0000_0000
  type u64 = x: int | 0 <= x < 0x1_0000_0000_0000_0000

  datatype Option<+T> = None | Some(value: T)

  datatype ByteOrder = LittleEndian | BigEndian

  lemma {:induction false} Assoc(a: bytes, b: bytes, c: bytes)
    ensures a + b + c == a + (b + c)
  {
  }

  lemma {:induction false} Assoc4(a: bytes, b: bytes, c: bytes, d: bytes)
    ensures a + b + c + d == a + (b + c + d)
  {
  }

  /** Number of values of an unsigned integer of `width` bytes. */
  function Pow256(width: nat): (r: nat)
    ensures r > 0
  {
    if width == 0 then 1 else 256 * Pow256(width - 1)
  }

  lemma {:induction false} Pow256Values()
    ensures Pow256(1) == 0x100
    ensures Pow256(2) == 0x1_0000
    ensures Pow256(3) == 0x100_0000
    ensures Pow256(4) == 0x1_0000_0000
    ensures Pow256(8) == 0x1_0000_0000_0000_0000
  {
    assert Pow256(3) == 256 * Pow256(2);
    assert Pow256(4) == 256 * Pow256(3);
    assert Pow256(5) == 256 * Pow256(4);
    assert Pow256(6) == 256 * Pow256(5);
    assert Pow256(7) == 256 * Pow256(6);
    assert Pow256(8) == 256 * Pow256(7);
  }

  /** The low `width` bytes of `v`, most significant first: the network form. */
  function NetworkBytes(v: nat, width: nat): (s: bytes)
    ensures |s| == width
  {
    if width == 0 then [] else NetworkBytes(v / 256, width - 1) + [v % 256]
  }

  /** The number whose network form is `s`. */
  function NetworkValue(s: bytes): (v: nat)
  {
    if s == [] then 0 else NetworkValue(s[..|s| - 1]) * 256 + s[|s| - 1]
  }

  lemma {:induction false} MulMonotonic(m: nat, a: nat, b: nat)
    requires a < b
    ensures m * a + m <= m * b
  {
    assert m * b == m * a + m * (b - a);
    assert m * (b - a) == m * (b - a - 1) + m;
  }

  lemma {:induction false} QuotientUnique(m: nat, q: nat, r: nat, k: nat, x: nat)
    requires r < m && x < m && m * q + r == m * k + x
    ensures q == k && r == x
  {
    if q < k {
      MulMonotonic(m, q, k);
    } else if k < q {
      MulMonotonic(m, k, q);
    }
  }

  lemma {:induction false} ModSmall(v: nat, m: nat)
    requires v < m
    ensures v % m == v
  {
  }

  lemma {:induction false} Regroup(p: nat, k: nat, t: nat, r: nat)
    ensures 256 * (p * k + t) + r == (256 * p) * k + (256 * t + r)
  {
  }

  lemma {:induction false} DivMod(v: nat, m: nat) returns (q: nat, r: nat)
    requires 0 < m
    ensures q == v / m && r == v % m && r < m && v == m * q + r
  {
    q, r := v / m, v % m;
  }

  lemma {:induction false} ModSplit(v: nat, p: nat, m: nat)
    requires 0 < p && m == 256 * p
    ensures v % m == (v / 256 % p) * 256 + v % 256
  {
    var q, r := DivMod(v, 256);
    var k, t := DivMod(q, p);
    var a, b := DivMod(v, m);
    Regroup(p, k, t, r);
    QuotientUnique(m, a, b, k, 256 * t + r);
  }

  /** Reading back what was written keeps exactly the low `width` bytes. */
  lemma {:induction false} NetworkRoundTrip(v: nat, width: nat)
    ensures NetworkValue(NetworkBytes(v, width)) == v % Pow256(width)
  {
    if width > 0 {
      var s := NetworkBytes(v, width);
      assert s[..|s| - 1] == NetworkBytes(v / 256, width - 1);
      NetworkRoundTrip(v / 256, width - 1);
      ModSplit(v, Pow256(width - 1), Pow256(width));
    }
  }

  lemma {:induction false} NetworkValueBound(s: bytes)
    ensures NetworkValue(s) < Pow256(|s|)
  {
    if s != [] {
      NetworkValueBound(s[..|s| - 1]);
    }
  }

  /** Writing what was read restores the bytes. */
  lemma {:induction false} NetworkBytesOfValue(s: bytes)
    ensures NetworkBytes(NetworkValue(s), |s|) == s
  {
    if s != [] {
      NetworkBytesOfValue(s[..|s| - 1]);
      assert s == s[..|s| - 1] + [s[|s| - 1]];
    }
  }

  lemma {:induction false} NonzeroByte(s: bytes, i: nat)
    requires i < |s| && s[i] != 0
    ensures NetworkValue(s) != 0
  {
    if i < |s| - 1 {
      NonzeroByte(s[..|s| - 1], i);
    }
  }

  function Reversed(s: bytes): (r: bytes)
    ensures |r| == |s|
  {
    seq(|s|, i requires 0 <= i < |s| => s[|s| - 1 - i])
  }

  lemma {:induction false} ReversedTwice(s: bytes)
    ensures Reversed(Reversed(s)) == s
  {
  }

  /** The bytes an unsigned integer of `width` bytes occupies in the memory of a host. */
  function MemoryBytes(order: ByteOrder, v: nat, width: nat): (s: bytes)
    ensures |s| == width
  {
    if order == BigEndian then NetworkBytes(v, width) else Reversed(NetworkBytes(v, width))
  }

  function MemoryValue(order: ByteOrder, s: bytes): (v: nat)
  {
    if order == BigEndian then NetworkValue(s) else NetworkValue(Reversed(s))
  }

  lemma {:induction false} ZeroNetworkBytes(width: nat)
    ensures forall i | 0 <= i < width :: NetworkBytes(0, width)[i] == 0
  {
    if width > 0 {
      ZeroNetworkBytes(width - 1);
    }
  }

  /** The value zero is zero bytes, in either order. */
  lemma {:induction false} ZeroBytes(order: ByteOrder, width: nat)
    ensures forall i | 0 <= i < width :: MemoryBytes(order, 0, width)[i] == 0
  {
    ZeroNetworkBytes(width);
  }

  lemma {:induction false} MemoryRoundTrip(order: ByteOrder, v: nat, width: nat)
    ensures MemoryValue(order, MemoryBytes(order, v, width)) == v % Pow256(width)
  {
    NetworkRoundTrip(v, width);
    ReversedTwice(NetworkBytes(v, width));
  }

  lemma {:induction false} MemoryRoundTripExact(order: ByteOrder, v: nat, width: nat, bound: nat)
    requires v < bound == Pow256(width)
    ensures MemoryValue(order, MemoryBytes(order, v, width)) == v
  {
    MemoryRoundTrip(order, v, width);
    ModSmall(v, bound);
  }

  lemma {:induction false} MemoryBytesOfValue(order: ByteOrder, s: bytes)
    ensures MemoryValue(order, s) < Pow256(|s|)
    ensures MemoryBytes(order, MemoryValue(order, s), |s|) == s
  {
    var t := if order == BigEndian then s else Reversed(s);
    NetworkValueBound(t);
    NetworkBytesOfValue(t);
    ReversedTwice(s);
  }

  /** `swapBytes`: exchanges the bytes of a buffer end for end. */
  method SwapBytes(data: array<byte>)
    modifies data
    ensures data[..] == Reversed(old(data[..]))
  {
    var length := data.Length;
    var i := 0;
    while i < length / 2
      invariant 0 <= i <= length / 2
      invariant forall k | 0 <= k < length ::
        data[k] == if k < i || k >= length - i then old(data[length - 1 - k]) else old(data[k])
    {
      data[i], data[length - i - 1] := data[length - i - 1], data[i];
      i := i + 1;
    }
  }

  /** `NativeToNetworkOrder`: the memory image of a host integer, put in network order. */
  method NativeToNetworkOrder(order: ByteOrder, memory: array<byte>, ghost v: nat)
    requires memory[..] == MemoryBytes(order, v, memory.Length)
    modifies memory
    ensures memory[..] == NetworkBytes(v, memory.Length)
  {
    if order != BigEndian {
      SwapBytes(memory);
      ReversedTwice(NetworkBytes(v, memory.Length));
    }
  }

  /** `NetworkToNativeOrder`: the converse, for the same host. */
  method NetworkToNativeOrder(order: ByteOrder, memory: array<byte>)
    modifies memory
    ensures MemoryValue(order, memory[..]) == NetworkValue(old(memory[..]))
  {
    if order != BigEndian {
      SwapBytes(memory);
      ReversedTwice(old(memory[..]));
    }
  }
}
