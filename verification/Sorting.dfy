/** The stable sorts and filters of the two languages' libraries, on sequences. */
module Sorting {
  /** Puts `x` before the first element that is not smaller. */
  function Insert<T>(x: T, s: seq<T>, key: T -> int): (r: seq<T>)
    ensures multiset(r) == multiset{x} + multiset(s)
  {
    if s == [] || key(x) <= key(s[0]) then [x] + s
    else
      assert s == [s[0]] + s[1..];
      [s[0]] + Insert(x, s[1..], key)
  }

  /** Ascending by `key`; elements with equal keys keep their order. */
  function StableSort<T>(s: seq<T>, key: T -> int): (r: seq<T>)
    ensures multiset(r) == multiset(s)
  {
    if s == [] then []
    else
      assert s == [s[0]] + s[1..];
      Insert(s[0], StableSort(s[1..], key), key)
  }

  ghost predicate Ascending<T>(s: seq<T>, key: T -> int) {
    forall i, j :: 0 <= i < j < |s| ==> key(s[i]) <= key(s[j])
  }

  lemma {:induction false} InsertAscends<T>(x: T, s: seq<T>, key: T -> int)
    requires Ascending(s, key)
    ensures Ascending(Insert(x, s, key), key)
  {
    if s != [] && key(x) > key(s[0]) {
      InsertAscends(x, s[1..], key);
      var rest := Insert(x, s[1..], key);
      forall y | y in rest ensures key(s[0]) <= key(y) {
        assert y in multiset(rest);
        assert y == x || y in s[1..];
      }
    }
  }

  lemma {:induction false} StableSortAscends<T>(s: seq<T>, key: T -> int)
    ensures Ascending(StableSort(s, key), key)
  {
    if s != [] {
      StableSortAscends(s[1..], key);
      InsertAscends(s[0], StableSort(s[1..], key), key);
    }
  }

  function Filter<T(!new)>(s: seq<T>, p: T -> bool): seq<T> {
    if s == [] then []
    else if p(s[0]) then [s[0]] + Filter(s[1..], p)
    else Filter(s[1..], p)
  }

  lemma {:induction false} FilterMembers<T(!new)>(s: seq<T>, p: T -> bool)
    ensures forall x :: x in Filter(s, p) <==> x in s && p(x)
  {
    if s != [] { FilterMembers(s[1..], p); }
  }

  lemma {:induction false} FilterNone<T(!new)>(s: seq<T>, p: T -> bool)
    requires forall x :: x in s ==> !p(x)
    ensures Filter(s, p) == []
  {
    if s != [] { FilterNone(s[1..], p); }
  }

  lemma {:induction false} FilterConcat<T(!new)>(a: seq<T>, b: seq<T>, p: T -> bool)
    ensures Filter(a + b, p) == Filter(a, p) + Filter(b, p)
  {
    if a == [] {
      assert a + b == b;
    } else {
      assert (a + b)[1..] == a[1..] + b;
      FilterConcat(a[1..], b, p);
    }
  }

  lemma FilterInFront<T(!new)>(x: T, s: seq<T>, key: T -> int, p: T -> bool)
    requires Ascending(s, key) && (s == [] || key(x) <= key(s[0]))
    ensures Insert(x, Filter(s, p), key) == [x] + Filter(s, p)
  {
    var f := Filter(s, p);
    if f != [] {
      FilterMembers(s, p);
      assert f[0] in f;
      var i :| 0 <= i < |s| && s[i] == f[0];
      assert key(s[0]) <= key(s[i]);
    }
  }

  lemma {:induction false} FilterInsert<T(!new)>(x: T, s: seq<T>, key: T -> int, p: T -> bool)
    requires Ascending(s, key)
    ensures Filter(Insert(x, s, key), p) == if p(x) then Insert(x, Filter(s, p), key) else Filter(s, p)
  {
    if s == [] || key(x) <= key(s[0]) {
      assert Insert(x, s, key) == [x] + s && ([x] + s)[1..] == s;
      FilterInFront(x, s, key, p);
    } else {
      var rest := Insert(x, s[1..], key);
      var f := Filter(s[1..], p);
      assert Insert(x, s, key) == [s[0]] + rest;
      assert ([s[0]] + rest)[1..] == rest && ([s[0]] + f)[1..] == f;
      FilterInsert(x, s[1..], key, p);
    }
  }

  /** Leaving elements out before or after sorting makes no difference. */
  lemma {:induction false} FilterSorted<T(!new)>(s: seq<T>, key: T -> int, p: T -> bool)
    ensures Filter(StableSort(s, key), p) == StableSort(Filter(s, p), key)
  {
    if s != [] {
      var f := Filter(s[1..], p);
      assert ([s[0]] + f)[1..] == f && [] + f == f;
      FilterSorted(s[1..], key, p);
      StableSortAscends(s[1..], key);
      FilterInsert(s[0], StableSort(s[1..], key), key, p);
    }
  }

  /** `x` stands somewhere before `y`. */
  ghost predicate Precedes<T(!new)>(s: seq<T>, x: T, y: T) {
    exists i, j :: 0 <= i < j < |s| && s[i] == x && s[j] == y
  }

  ghost predicate Distinct<T(!new)>(s: seq<T>) {
    forall i, j :: 0 <= i < j < |s| ==> s[i] != s[j]
  }

  lemma PrecedesIsStrict<T(!new)>(s: seq<T>, x: T, y: T)
    requires Distinct(s) && Precedes(s, x, y)
    ensures !Precedes(s, y, x)
  {}

  lemma PrecedesInConcat<T(!new)>(a: seq<T>, b: seq<T>, x: T, y: T)
    requires Precedes(a, x, y) || Precedes(b, x, y) || (x in a && y in b)
    ensures Precedes(a + b, x, y)
  {
    if Precedes(a, x, y) {
      var i, j :| 0 <= i < j < |a| && a[i] == x && a[j] == y;
      assert (a + b)[i] == x && (a + b)[j] == y;
    } else if Precedes(b, x, y) {
      var i, j :| 0 <= i < j < |b| && b[i] == x && b[j] == y;
      assert (a + b)[|a| + i] == x && (a + b)[|a| + j] == y;
    } else {
      var i :| 0 <= i < |a| && a[i] == x;
      var j :| 0 <= j < |b| && b[j] == y;
      assert (a + b)[i] == x && (a + b)[|a| + j] == y;
    }
  }

  lemma FilterKeepsOrder<T(!new)>(s: seq<T>, p: T -> bool, x: T, y: T)
    requires Precedes(s, x, y) && p(x) && p(y)
    ensures Precedes(Filter(s, p), x, y)
  {
    var i, j :| 0 <= i < j < |s| && s[i] == x && s[j] == y;
    var a, b := s[..j], s[j..];
    assert s == a + b;
    FilterConcat(a, b, p);
    FilterMembers(a, p);
    FilterMembers(b, p);
    assert x == a[i] && y == b[0];
    PrecedesInConcat(Filter(a, p), Filter(b, p), x, y);
  }

  lemma {:induction false} DistinctMultiset<T(!new)>(a: seq<T>, b: seq<T>)
    requires Distinct(a) && Distinct(b) && forall x :: x in a <==> x in b
    ensures multiset(a) == multiset(b)
  {
    forall x ensures multiset(a)[x] == multiset(b)[x] {
      Occurrences(a, x);
      Occurrences(b, x);
    }
  }

  lemma {:induction false} Occurrences<T(!new)>(s: seq<T>, x: T)
    requires Distinct(s)
    ensures multiset(s)[x] == if x in s then 1 else 0
  {
    if s != [] {
      assert s == [s[0]] + s[1..];
      Occurrences(s[1..], x);
    }
  }

  lemma CountedTwice<T(!new)>(s: seq<T>, i: nat, j: nat)
    requires i < j < |s| && s[i] == s[j]
    ensures multiset(s)[s[i]] >= 2
  {
    assert s == s[..i] + [s[i]] + s[i + 1..j] + [s[j]] + s[j + 1..];
  }

  lemma DistinctFromMultiset<T(!new)>(a: seq<T>, b: seq<T>)
    requires Distinct(a) && multiset(a) == multiset(b)
    ensures Distinct(b)
  {
    forall i, j | 0 <= i < j < |b| ensures b[i] != b[j] {
      Occurrences(a, b[i]);
      if b[i] == b[j] { CountedTwice(b, i, j); }
    }
  }

  lemma {:induction false} FilterDistinct<T(!new)>(s: seq<T>, p: T -> bool)
    requires Distinct(s)
    ensures Distinct(Filter(s, p))
  {
    if s != [] {
      FilterMembers(s[1..], p);
      FilterDistinct(s[1..], p);
      assert s[0] !in s[1..];
    }
  }

  lemma SameElements<T>(a: seq<T>, b: seq<T>)
    requires multiset(a) == multiset(b)
    ensures forall x :: x in a <==> x in b
  {
    forall x ensures x in a <==> x in b {
      assert x in a <==> x in multiset(a);
      assert x in b <==> x in multiset(b);
    }
  }

  function NotAmong<T(==, !new)>(gone: seq<T>): T -> bool {
    (x: T) => x !in gone
  }

  lemma {:induction false} FilterNotAmongNone<T(!new)>(s: seq<T>)
    ensures Filter(s, NotAmong([])) == s
  {
    if s != [] { FilterNotAmongNone(s[1..]); }
  }

  lemma {:induction false} FilterNotAmongMore<T(!new)>(s: seq<T>, gone: seq<T>, x: T)
    ensures Filter(Filter(s, NotAmong(gone)), NotAmong([x])) == Filter(s, NotAmong(gone + [x]))
  {
    if s != [] { FilterNotAmongMore(s[1..], gone, x); }
  }
}
