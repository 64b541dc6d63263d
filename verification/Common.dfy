/** The option type shared by every module. */
module Common {
  datatype Option<+T> = None | Some(value: T)

  // Where saves go: the database row or the local file.
  datatype Backend = Database | LocalFile

  function Lookup<K, V>(m: map<K, V>, k: K): Option<V> {
    if k in m then Some(m[k]) else None
  }

  lemma SameMap<K, V>(a: map<K, V>, b: map<K, V>)
    requires forall k :: Lookup(a, k) == Lookup(b, k)
    ensures a == b
  {
    assert forall k :: k in a <==> Lookup(a, k).Some?;
    assert forall k :: k in b <==> Lookup(b, k).Some?;
    assert a.Keys == b.Keys;
    forall k | k in a ensures a[k] == b[k] {
      assert Lookup(a, k) == Lookup(b, k);
    }
  }

  function Min(a: int, b: int): int {
    if a <= b then a else b
  }

  function Max(a: int, b: int): int {
    if a >= b then a else b
  }
}

/** Array.prototype.sort with a numeric comparator is a stable sort; this is its specification. */
module Sorting {
  ghost predicate SortedBy<T(!new)>(s: seq<T>, key: T -> int) {
    forall i, j :: 0 <= i < j < |s| ==> key(s[i]) <= key(s[j])
  }

  // x comes from before everything in t, so it goes in front of its equals.
  function Insert<T>(x: T, t: seq<T>, key: T -> int): (r: seq<T>)
    ensures |r| == |t| + 1
    ensures multiset(r) == multiset(t) + multiset{x}
  {
    if t == [] then [x]
    else if key(x) <= key(t[0]) then [x] + t
    else
      assert t == [t[0]] + t[1..];
      [t[0]] + Insert(x, t[1..], key)
  }

  function SortBy<T>(s: seq<T>, key: T -> int): (r: seq<T>)
    ensures |r| == |s|
    ensures multiset(r) == multiset(s)
  {
    if s == [] then []
    else
      assert s == [s[0]] + s[1..];
      Insert(s[0], SortBy(s[1..], key), key)
  }

  // The elements of s whose key is v, in order: what a stable sort must not disturb.
  function WithKey<T>(s: seq<T>, key: T -> int, v: int): seq<T> {
    if s == [] then []
    else if key(s[0]) == v then [s[0]] + WithKey(s[1..], key, v)
    else WithKey(s[1..], key, v)
  }

  lemma {:induction false} InsertSorted<T(!new)>(x: T, t: seq<T>, key: T -> int)
    requires SortedBy(t, key)
    ensures SortedBy(Insert(x, t, key), key)
  {
    if t != [] && key(x) > key(t[0]) {
      InsertSorted(x, t[1..], key);
      var rest := Insert(x, t[1..], key);
      forall y | y in rest ensures key(t[0]) <= key(y) {
        assert y in multiset(rest);
        assert y == x || y in t[1..];
      }
    }
  }

  lemma {:induction false} SortSorted<T(!new)>(s: seq<T>, key: T -> int)
    ensures SortedBy(SortBy(s, key), key)
  {
    if s != [] {
      SortSorted(s[1..], key);
      InsertSorted(s[0], SortBy(s[1..], key), key);
    }
  }

  lemma {:induction false} InsertStable<T>(x: T, t: seq<T>, key: T -> int, v: int)
    ensures WithKey(Insert(x, t, key), key, v) == WithKey([x] + t, key, v)
  {
    assert ([x] + t)[1..] == t;
    if t != [] && key(x) > key(t[0]) {
      InsertStable(x, t[1..], key, v);
      assert ([x] + t[1..])[1..] == t[1..];
      var rest := Insert(x, t[1..], key);
      assert ([t[0]] + rest)[1..] == rest;
    }
  }

  lemma {:induction false} SortStable<T>(s: seq<T>, key: T -> int, v: int)
    ensures WithKey(SortBy(s, key), key, v) == WithKey(s, key, v)
  {
    if s != [] {
      SortStable(s[1..], key, v);
      InsertStable(s[0], SortBy(s[1..], key), key, v);
      var sorted := SortBy(s[1..], key);
      assert ([s[0]] + sorted)[1..] == sorted;
    }
  }

  // What .sort(...)[0] picks.
  lemma FirstIsLeast<T(!new)>(s: seq<T>, key: T -> int)
    requires s != []
    ensures SortBy(s, key)[0] in s
    ensures forall x :: x in s ==> key(SortBy(s, key)[0]) <= key(x)
  {
    var sorted := SortBy(s, key);
    SortSorted(s, key);
    assert sorted[0] in multiset(s);
    forall x | x in s ensures key(sorted[0]) <= key(x) {
      assert x in multiset(sorted);
      var j :| 0 <= j < |sorted| && sorted[j] == x;
    }
  }

  // Sorting a sequence that is already in order changes nothing.
  lemma {:induction false} SortOfSorted<T(!new)>(s: seq<T>, key: T -> int)
    requires SortedBy(s, key)
    ensures SortBy(s, key) == s
  {
    if |s| > 0 {
      TailSorted(s, key);
      SortOfSorted(s[1..], key);
      assert s == [s[0]] + s[1..];
    }
  }

  lemma TailSorted<T(!new)>(s: seq<T>, key: T -> int)
    requires SortedBy(s, key) && s != []
    ensures SortedBy(s[1..], key) && (s[1..] == [] || key(s[0]) <= key(s[1..][0]))
  {
    var t := s[1..];
    forall i, j | 0 <= i < j < |t| ensures key(t[i]) <= key(t[j]) {
      assert t[i] == s[i + 1] && t[j] == s[j + 1];
    }
  }

  function MapSeq<T, U>(f: T -> U, s: seq<T>): (r: seq<U>)
    ensures |r| == |s| && forall i :: 0 <= i < |s| ==> r[i] == f(s[i])
  {
    if s == [] then [] else [f(s[0])] + MapSeq(f, s[1..])
  }

  lemma {:induction false} MapSeqAppend<T, U>(f: T -> U, s: seq<T>, t: seq<T>)
    ensures MapSeq(f, s + t) == MapSeq(f, s) + MapSeq(f, t)
  {
  }

  lemma {:induction false} InsertMapped<T, U>(x: T, t: seq<T>, key: T -> int, f: T -> U)
    ensures multiset(MapSeq(f, Insert(x, t, key))) == multiset(MapSeq(f, t)) + multiset{f(x)}
  {
    if t != [] {
      if key(x) <= key(t[0]) {
        assert ([x] + t)[1..] == t;
      } else {
        InsertMapped(x, t[1..], key, f);
        var rest := Insert(x, t[1..], key);
        assert ([t[0]] + rest)[1..] == rest;
      }
    }
  }

  // Sorting permutes any image of the elements as well.
  lemma {:induction false} SortMapped<T, U>(s: seq<T>, key: T -> int, f: T -> U)
    ensures multiset(MapSeq(f, SortBy(s, key))) == multiset(MapSeq(f, s))
  {
    if s != [] {
      SortMapped(s[1..], key, f);
      InsertMapped(s[0], SortBy(s[1..], key), key, f);
    }
  }
}
