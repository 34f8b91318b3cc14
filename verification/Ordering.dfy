/** Sorting by an order, as the languages' libraries do it, and the order of strings. */
module Ordering {
  /** A strict order that may rank elements alike. */
  ghost predicate IsOrder<T(!new)>(before: (T, T) -> bool) {
    && (forall a, b :: before(a, b) ==> !before(b, a))
    && (forall a, b, c :: before(a, c) ==> before(a, b) || before(b, c))
  }

  /** Nothing is before what stands ahead of it: what a sort promises. */
  ghost predicate Ordered<T(!new)>(s: seq<T>, before: (T, T) -> bool) {
    s == [] || (NoneBefore(s[1..], s[0], before) && Ordered(s[1..], before))
  }

  ghost predicate NoneBefore<T(!new)>(s: seq<T>, x: T, before: (T, T) -> bool) {
    forall y :: y in s ==> !before(y, x)
  }

  /** One such sort. */
  function SortBy<T(!new)>(s: seq<T>, before: (T, T) -> bool): seq<T> {
    if s == [] then [] else InsertBy(SortBy(s[1..], before), s[0], before)
  }

  function InsertBy<T(!new)>(sorted: seq<T>, x: T, before: (T, T) -> bool): seq<T> {
    if sorted == [] || !before(sorted[0], x) then [x] + sorted
    else [sorted[0]] + InsertBy(sorted[1..], x, before)
  }

  lemma {:induction false} InsertKeepsAll<T(!new)>(sorted: seq<T>, x: T, before: (T, T) -> bool)
    ensures multiset(InsertBy(sorted, x, before)) == multiset(sorted) + multiset{x}
  {
    if sorted != [] {
      InsertKeepsAll(sorted[1..], x, before);
      assert sorted == [sorted[0]] + sorted[1..];
    }
  }

  lemma InsertedAre<T(!new)>(sorted: seq<T>, x: T, before: (T, T) -> bool, y: T)
    ensures y in InsertBy(sorted, x, before) <==> y == x || y in sorted
  {
    InsertKeepsAll(sorted, x, before);
    assert y in InsertBy(sorted, x, before) <==> y in multiset(InsertBy(sorted, x, before));
  }

  lemma {:induction false} InsertKeepsOrder<T(!new)>(sorted: seq<T>, x: T, before: (T, T) -> bool)
    requires IsOrder(before) && Ordered(sorted, before)
    ensures Ordered(InsertBy(sorted, x, before), before)
  {
    if sorted == [] || !before(sorted[0], x) {
      assert ([x] + sorted)[1..] == sorted;
      forall y | y in sorted ensures !before(y, x) {
        if y != sorted[0] {
          assert y in sorted[1..];
          assert !before(y, sorted[0]);
        }
      }
    } else {
      InsertKeepsOrder(sorted[1..], x, before);
      var rest := InsertBy(sorted[1..], x, before);
      assert ([sorted[0]] + rest)[1..] == rest;
      forall y | y in rest ensures !before(y, sorted[0]) {
        InsertedAre(sorted[1..], x, before, y);
      }
    }
  }

  lemma {:induction false} SortOrders<T(!new)>(s: seq<T>, before: (T, T) -> bool)
    requires IsOrder(before)
    ensures Ordered(SortBy(s, before), before)
  {
    if s != [] {
      SortOrders(s[1..], before);
      InsertKeepsOrder(SortBy(s[1..], before), s[0], before);
    }
  }

  lemma {:induction false} SortKeepsAll<T(!new)>(s: seq<T>, before: (T, T) -> bool)
    ensures multiset(SortBy(s, before)) == multiset(s)
    ensures |SortBy(s, before)| == |s|
  {
    if s != [] {
      SortKeepsAll(s[1..], before);
      InsertKeepsAll(SortBy(s[1..], before), s[0], before);
      assert s == [s[0]] + s[1..];
    }
    assert |multiset(SortBy(s, before))| == |multiset(s)|;
  }

  lemma SortedAre<T(!new)>(s: seq<T>, before: (T, T) -> bool, x: T)
    ensures x in SortBy(s, before) <==> x in s
  {
    SortKeepsAll(s, before);
    assert x in s <==> x in multiset(s);
    assert x in SortBy(s, before) <==> x in multiset(SortBy(s, before));
  }

  // Strings

  predicate Less(a: string, b: string) {
    b != [] && (a == [] || a[0] < b[0] || (a[0] == b[0] && Less(a[1..], b[1..])))
  }

  function ByLess(): (string, string) -> bool {
    (a: string, b: string) => Less(a, b)
  }

  lemma {:induction false} LessIsTotal(a: string, b: string)
    ensures a == b || Less(a, b) || Less(b, a)
    ensures !(Less(a, b) && Less(b, a))
  {
    if a != [] && b != [] && a[0] == b[0] {
      LessIsTotal(a[1..], b[1..]);
      assert a == [a[0]] + a[1..] && b == [b[0]] + b[1..];
    }
  }

  lemma {:induction false} LessIsTransitive(a: string, b: string, c: string)
    requires Less(a, b) && Less(b, c)
    ensures Less(a, c)
  {
    if a != [] && a[0] == b[0] == c[0] {
      LessIsTransitive(a[1..], b[1..], c[1..]);
    }
  }

  lemma LessIsOrder()
    ensures IsOrder(ByLess())
  {
    forall a, b ensures ByLess()(a, b) ==> !ByLess()(b, a) {
      LessIsTotal(a, b);
    }
    forall a, b, c | ByLess()(a, c) ensures ByLess()(a, b) || ByLess()(b, c) {
      LessIsTotal(a, b);
      if Less(b, a) {
        LessIsTransitive(b, a, c);
      }
    }
  }
}
