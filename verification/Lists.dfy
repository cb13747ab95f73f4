/** Vectors without order on their elements: first-occurrence removal and multiplicities. */
module Lists {

  /** `removeFromVector`: erases the first occurrence, if there is one (utilLib/common.h). */
  function RemoveFirst<T(==)>(s: seq<T>, x: T): (r: seq<T>) {
    if s == [] then [] else if s[0] == x then s[1..] else [s[0]] + RemoveFirst(s[1..], x)
  }

  method RemoveFromVector<T(==)>(s: seq<T>, x: T) returns (r: seq<T>)
    ensures r == RemoveFirst(s, x)
  {
    var i := 0;
    while i < |s|
      invariant 0 <= i <= |s|
      invariant s[..i] + RemoveFirst(s[i..], x) == RemoveFirst(s, x)
    {
      if s[i] == x {
        assert RemoveFirst(s[i..], x) == s[i + 1..] by { assert s[i..][1..] == s[i + 1..]; }
        return s[..i] + s[i + 1..];
      }
      assert RemoveFirst(s[i..], x) == [s[i]] + RemoveFirst(s[i + 1..], x) by { assert s[i..][1..] == s[i + 1..]; }
      assert s[..i] + ([s[i]] + RemoveFirst(s[i + 1..], x)) == s[..i + 1] + RemoveFirst(s[i + 1..], x);
      i := i + 1;
    }
    assert s[..i] + RemoveFirst(s[i..], x) == s;
    r := s;
  }

  function Count<T(==)>(s: seq<T>, x: T): (n: nat) {
    if s == [] then 0 else (if s[0] == x then 1 else 0) + Count(s[1..], x)
  }

  ghost predicate NoDup<T(!new)>(s: seq<T>) {
    forall i, j | 0 <= i < j < |s| :: s[i] != s[j]
  }

  lemma {:induction false} CountAppend<T>(s: seq<T>, y: T, x: T)
    ensures Count(s + [y], x) == Count(s, x) + if y == x then 1 else 0
  {
    if s == [] {
      assert s + [y] == [y] && [y][1..] == [];
    } else {
      assert (s + [y])[1..] == s[1..] + [y];
      CountAppend(s[1..], y, x);
    }
  }

  lemma {:induction false} CountIn<T>(s: seq<T>, x: T)
    ensures x in s <==> Count(s, x) > 0
  {
    if s != [] {
      CountIn(s[1..], x);
      assert x in s <==> x == s[0] || x in s[1..];
    }
  }

  lemma {:induction false} CountRemoveFirst<T>(s: seq<T>, y: T, x: T)
    ensures Count(RemoveFirst(s, y), x) == if x == y && x in s then Count(s, x) - 1 else Count(s, x)
  {
    if s != [] {
      assert y in s <==> y == s[0] || y in s[1..];
      if s[0] != y {
        CountRemoveFirst(s[1..], y, x);
        assert ([s[0]] + RemoveFirst(s[1..], y))[1..] == RemoveFirst(s[1..], y);
      }
    }
  }

  lemma {:induction false} RemoveFirstAbsent<T>(s: seq<T>, x: T)
    requires x !in s
    ensures RemoveFirst(s, x) == s
  {
    if s != [] {
      RemoveFirstAbsent(s[1..], x);
    }
  }

  lemma {:induction false} RemoveFirstCons<T>(x: T, s: seq<T>, y: T)
    ensures RemoveFirst([x] + s, y) == if x == y then s else [x] + RemoveFirst(s, y)
  {
    assert ([x] + s)[1..] == s;
  }

  lemma {:induction false} RemoveFirstLength<T>(s: seq<T>, x: T)
    ensures |RemoveFirst(s, x)| == if x in s then |s| - 1 else |s|
  {
    if s != [] && s[0] != x {
      RemoveFirstLength(s[1..], x);
      assert x in s <==> x in s[1..];
    }
  }

  /** Removing the element at position `i`, when it does not occur before. */
  lemma {:induction false} RemoveFirstAt<T>(s: seq<T>, i: nat)
    requires i < |s| && s[i] !in s[..i]
    ensures RemoveFirst(s, s[i]) == s[..i] + s[i + 1..]
  {
    if i > 0 {
      assert s[0] in s[..i];
      assert s[1..][..i - 1] == s[..i][1..];
      RemoveFirstAt(s[1..], i - 1);
      assert s[1..][i - 1] == s[i];
    }
  }

  lemma {:induction false} RemoveFirstMembers<T>(s: seq<T>, x: T, y: T)
    ensures y in RemoveFirst(s, x) ==> y in s
    ensures y in s && y != x ==> y in RemoveFirst(s, x)
  {
    CountRemoveFirst(s, x, y);
    CountIn(s, y);
    CountIn(RemoveFirst(s, x), y);
  }

  lemma {:induction false} NoDupCount<T(!new)>(s: seq<T>, x: T)
    requires NoDup(s)
    ensures Count(s, x) <= 1
  {
    if s != [] {
      NoDupCount(s[1..], x);
      CountIn(s[1..], x);
    }
  }

  lemma {:induction false} RemoveFirstNoDup<T(!new)>(s: seq<T>, x: T)
    requires NoDup(s)
    ensures NoDup(RemoveFirst(s, x)) && x !in RemoveFirst(s, x)
  {
    if x in s {
      var i :| 0 <= i < |s| && s[i] == x;
      RemoveFirstAt(s, i);
      var r := s[..i] + s[i + 1..];
      assert forall j | 0 <= j < |r| :: r[j] == s[if j < i then j else j + 1];
    } else {
      RemoveFirstAbsent(s, x);
    }
  }
}
