/** Python's `sorted`: stable, by an integer key. */
module Sorting {

  function Insert<T>(s: seq<T>, x: T, key: T -> int): seq<T> {
    if s == [] then [x]
    else if key(s[|s| - 1]) <= key(x) then s + [x]
    else Insert(s[..|s| - 1], x, key) + [s[|s| - 1]]
  }

  /** Each element goes after the elements already placed that have the same key. */
  function Sorted<T>(s: seq<T>, key: T -> int): seq<T> {
    if s == [] then [] else Insert(Sorted(s[..|s| - 1], key), s[|s| - 1], key)
  }

  ghost predicate Ascending<T>(s: seq<T>, key: T -> int) {
    forall i, j :: 0 <= i < j < |s| ==> key(s[i]) <= key(s[j])
  }

  /** The elements with one particular key, in order. */
  function WithKey<T>(s: seq<T>, key: T -> int, k: int): seq<T> {
    if s == [] then []
    else WithKey(s[..|s| - 1], key, k) + (if key(s[|s| - 1]) == k then [s[|s| - 1]] else [])
  }

  lemma {:induction false} WithKeySplit<T>(a: seq<T>, b: seq<T>, key: T -> int, k: int)
    ensures WithKey(a + b, key, k) == WithKey(a, key, k) + WithKey(b, key, k)
  {
    if b == [] {
      assert a + b == a;
    } else {
      assert (a + b)[..|a + b| - 1] == a + b[..|b| - 1];
      WithKeySplit(a, b[..|b| - 1], key, k);
    }
  }

  lemma {:induction false} InsertFacts<T>(s: seq<T>, x: T, key: T -> int)
    requires Ascending(s, key)
    ensures Ascending(Insert(s, x, key), key)
    ensures multiset(Insert(s, x, key)) == multiset(s) + multiset{x}
  {
    if s == [] {
    } else if key(s[|s| - 1]) <= key(x) {
    } else {
      var init, last := s[..|s| - 1], s[|s| - 1];
      assert s == init + [last];
      InsertFacts(init, x, key);
      var r := Insert(init, x, key);
      forall i | 0 <= i < |r| ensures key(r[i]) <= key(last) {
        InsertedFrom(init, x, r, r[i]);
        if r[i] != x {
          var j :| 0 <= j < |init| && init[j] == r[i];
          assert s[j] == r[i] && s[|s| - 1] == last;
        }
      }
    }
  }

  lemma InsertedFrom<T>(s: seq<T>, x: T, r: seq<T>, y: T)
    requires multiset(r) == multiset(s) + multiset{x} && y in r
    ensures y == x || y in s
  {
    assert y in multiset(r);
    assert y == x || y in multiset(s);
  }

  lemma {:induction false} SingleKey<T>(x: T, key: T -> int, k: int)
    ensures WithKey([x], key, k) == if key(x) == k then [x] else []
  {
    assert [x][..0] == [];
  }

  lemma OneEmptyCommutes<T>(a: seq<T>, b: seq<T>, c: seq<T>)
    requires b == [] || c == []
    ensures (a + b) + c == (a + c) + b
  {
  }

  /** Elements with different keys may change places. */
  lemma {:induction false} KeysCommute<T>(s: seq<T>, x: T, y: T, key: T -> int, k: int)
    requires key(x) != key(y)
    ensures (WithKey(s, key, k) + WithKey([x], key, k)) + WithKey([y], key, k) == WithKey(s + [y] + [x], key, k)
  {
    SingleKey(x, key, k);
    SingleKey(y, key, k);
    OneEmptyCommutes(WithKey(s, key, k), WithKey([x], key, k), WithKey([y], key, k));
    WithKeySplit(s, [y], key, k);
    WithKeySplit(s + [y], [x], key, k);
  }

  lemma {:induction false} InsertStable<T>(s: seq<T>, x: T, key: T -> int, k: int)
    requires Ascending(s, key)
    ensures WithKey(Insert(s, x, key), key, k) == WithKey(s + [x], key, k)
  {
    if s == [] {
      assert s + [x] == [x];
    } else if key(s[|s| - 1]) > key(x) {
      var init, last := s[..|s| - 1], s[|s| - 1];
      assert s == init + [last] && Insert(s, x, key) == Insert(init, x, key) + [last];
      InsertStable(init, x, key, k);
      WithKeySplit(Insert(init, x, key), [last], key, k);
      WithKeySplit(init, [x], key, k);
      KeysCommute(init, x, last, key, k);
    }
  }

  /** Sorting permutes, puts the keys in order and keeps equal keys in their original order. */
  lemma {:induction false} SortedFacts<T>(s: seq<T>, key: T -> int)
    ensures Ascending(Sorted(s, key), key)
    ensures multiset(Sorted(s, key)) == multiset(s)
    ensures forall k :: WithKey(Sorted(s, key), key, k) == WithKey(s, key, k)
  {
    if s != [] {
      var init, last := s[..|s| - 1], s[|s| - 1];
      assert s == init + [last];
      SortedFacts(init, key);
      InsertFacts(Sorted(init, key), last, key);
      forall k ensures WithKey(Sorted(s, key), key, k) == WithKey(s, key, k) {
        InsertStable(Sorted(init, key), last, key, k);
        WithKeySplit(Sorted(init, key), [last], key, k);
        WithKeySplit(init, [last], key, k);
      }
    }
  }

  lemma {:induction false} SortedMembers<T>(s: seq<T>, key: T -> int)
    ensures |Sorted(s, key)| == |s|
    ensures forall x :: x in Sorted(s, key) <==> x in s
  {
    SortedFacts(s, key);
    assert |multiset(Sorted(s, key))| == |multiset(s)|;
    forall x ensures x in Sorted(s, key) <==> x in s {
      assert x in multiset(Sorted(s, key)) <==> x in multiset(s);
    }
  }
}
