/**
 How far a plan depends on the order in which the daemon lists equally old images: an image has one
 fate in every listing just when its ties cannot make a difference.
 */
module Listings {
  import opened Pruner
  import opened Sorting

  /** The images that bear the repository and are not kept anyway. */
  ghost function Bearing(s: seq<Image>, repo: string, fixed: set<string>): set<Image> {
    set x | x in s && x.id !in fixed && repo in Repos(x)
  }

  /** Those of them newer than `img`. */
  ghost function NewerOf(images: seq<Image>, img: Image, repo: string, fixed: set<string>): set<Image> {
    set x | x in Bearing(images, repo, fixed) && x.created > img.created
  }

  /** Those of them, other than `img`, newer than it or of its age. */
  ghost function RivalsOf(images: seq<Image>, img: Image, repo: string, fixed: set<string>): set<Image> {
    set x | x in Bearing(images, repo, fixed) && x.created >= img.created && x != img
  }

  /** Newer images alone use up the budgets of all its repositories. */
  ghost predicate SurelyGoes(images: seq<Image>, img: Image, fixed: set<string>, keep: int) {
    img.id !in fixed && forall r :: r in Repos(img) ==> |NewerOf(images, img, r, fixed)| >= keep
  }

  /** Some budget has room for it even after all images of its age. */
  ghost predicate SurelyStays(images: seq<Image>, img: Image, fixed: set<string>, keep: int) {
    img.id in fixed || exists r :: r in Repos(img) && |RivalsOf(images, img, r, fixed)| < keep
  }

  lemma SubsetIsSmaller<T>(a: set<T>, b: set<T>)
    requires a <= b
    ensures |a| <= |b|
  {
    assert |b| == |a| + |b - a| by { assert b == a + (b - a); }
  }

  lemma {:induction false} CountIsSize(s: seq<Image>, repo: string, fixed: set<string>)
    requires UniqueImages(s)
    ensures Count(s, repo, fixed) == |Bearing(s, repo, fixed)|
  {
    if s != [] {
      var front, last := s[..|s| - 1], s[|s| - 1];
      CountIsSize(front, repo, fixed);
      LastDiffers(s);
      if last.id !in fixed && repo in Repos(last) {
        assert Bearing(s, repo, fixed) == Bearing(front, repo, fixed) + {last};
      } else {
        assert Bearing(s, repo, fixed) == Bearing(front, repo, fixed);
      }
    }
  }

  lemma LastDiffers(s: seq<Image>)
    requires UniqueImages(s) && s != []
    ensures
      var front, last := s[..|s| - 1], s[|s| - 1];
      s == front + [last] && last !in front
  {
    var front, last := s[..|s| - 1], s[|s| - 1];
    assert forall i :: 0 <= i < |front| ==> front[i] == s[i] && s[i].id != last.id;
  }

  /** What is listed before an image: all that is newer, and of the rest only what is as old. */
  lemma ListedBefore(images: seq<Image>, items: seq<Image>, i: nat)
    requires UniqueImages(items) && Ascending(items, ByAge()) && i < |items|
    requires forall x :: x in items <==> x in images
    ensures forall r, fixed :: NewerOf(images, items[i], r, fixed) <= Bearing(items[..i], r, fixed)
    ensures forall r, fixed :: Bearing(items[..i], r, fixed) <= RivalsOf(images, items[i], r, fixed)
  {
    OldestLast(items);
    forall x | x in items && x.created > items[i].created ensures x in items[..i] {
      var j :| 0 <= j < |items| && items[j] == x;
      assert items[..i][j] == x;
    }
    forall x | x in items[..i] ensures x in items && x.created >= items[i].created && x != items[i] {
      var j :| 0 <= j < i && items[..i][j] == x;
    }
  }

  lemma OldestLast(items: seq<Image>)
    requires Ascending(items, ByAge())
    ensures forall i, j :: 0 <= i < j < |items| ==> items[i].created >= items[j].created
  {
    forall i, j | 0 <= i < j < |items| ensures items[i].created >= items[j].created {
      assert ByAge()(items[i]) <= ByAge()(items[j]);
    }
  }

  // The two extreme listings

  /** Where a stable sort puts one more element. */
  lemma {:induction false} InsertPosition<T>(x: T, s: seq<T>, key: T -> int) returns (k: nat)
    ensures k <= |s| && Insert(x, s, key) == s[..k] + [x] + s[k..]
    ensures forall j :: 0 <= j < k ==> key(s[j]) < key(x)
    ensures k < |s| ==> key(x) <= key(s[k])
  {
    if s == [] || key(x) <= key(s[0]) {
      k := 0;
      assert s[..0] + [x] + s[0..] == [x] + s;
    } else {
      k := InsertPosition(x, s[1..], key);
      PutBehind(s, x, k);
      k := k + 1;
    }
  }

  lemma PutBehind<T>(s: seq<T>, x: T, k: nat)
    requires k < |s|
    ensures [s[0]] + (s[1..][..k] + [x] + s[1..][k..]) == s[..k + 1] + [x] + s[k + 1..]
  {}

  /** Listed first, an element comes before all that rank alike. */
  lemma ListedFirst<T>(rest: seq<T>, x: T, key: T -> int) returns (k: nat)
    ensures
      var s := StableSort([x] + rest, key);
      k < |s| && s[k] == x && forall j :: 0 <= j < k ==> key(s[j]) < key(x)
  {
    assert ([x] + rest)[1..] == rest;
    k := InsertPosition(x, StableSort(rest, key), key);
  }

  /** Listed last, it comes after all that rank alike. */
  lemma {:induction false} ListedLast<T>(rest: seq<T>, x: T, key: T -> int) returns (k: nat)
    ensures
      var s := StableSort(rest + [x], key);
      k < |s| && s[k] == x && forall j :: k < j < |s| ==> key(s[j]) > key(x)
  {
    if rest == [] {
      assert [] + [x] == [x];
      assert StableSort([x], key) == [x] by { assert [x][1..] == []; }
      k := 0;
    } else {
      var y, t := rest[0], StableSort(rest[1..] + [x], key);
      assert rest + [x] == [y] + (rest[1..] + [x]);
      assert ([y] + (rest[1..] + [x]))[1..] == rest[1..] + [x];
      var l := ListedLast(rest[1..], x, key);
      var m := InsertPosition(y, t, key);
      k := MovedBy(t, l, y, m, x, key);
    }
  }

  lemma MovedBy<T>(t: seq<T>, l: nat, y: T, m: nat, x: T, key: T -> int) returns (k: nat)
    requires l < |t| && t[l] == x && forall j :: l < j < |t| ==> key(t[j]) > key(x)
    requires m <= |t| && forall j :: 0 <= j < m ==> key(t[j]) < key(y)
    ensures
      var s := t[..m] + [y] + t[m..];
      k < |s| && s[k] == x && forall j :: k < j < |s| ==> key(s[j]) > key(x)
  {
    var s := t[..m] + [y] + t[m..];
    k := if m <= l then l + 1 else l;
    forall j | k < j < |s| ensures key(s[j]) > key(x) {
      assert s[j] == if j < m then t[j] else if j == m then y else t[j - 1];
    }
  }

  // The fate of an image

  /** With the images in this listing, the image goes. */
  ghost predicate GoesIn(listing: seq<Image>, img: Image, fixed: set<string>, keep: int) {
    img in Gone(NewestFirst(listing), fixed, keep)
  }

  lemma GoesAt(listing: seq<Image>, i: nat, fixed: set<string>, keep: int)
    requires UniqueImages(listing) && i < |NewestFirst(listing)|
    ensures
      var items := NewestFirst(listing);
      GoesIn(listing, items[i], fixed, keep) <==> Goes(items[..i], items[i], fixed, keep)
  {
    var items := NewestFirst(listing);
    NewestFirstUnique(listing);
    GoneMembers(items, fixed, keep);
    forall k | 0 <= k < |items| && items[k] == items[i] ensures k == i {
      assert items[k].id == items[i].id;
    }
  }

  /**
   * In any listing, the images ahead of it in its repositories number at least the newer ones, and no more
   * than its rivals.
   */
  lemma AheadIsBetween(images: seq<Image>, listing: seq<Image>, i: nat, repo: string, fixed: set<string>)
    requires UniqueImages(listing) && i < |NewestFirst(listing)| && forall x :: x in listing <==> x in images
    ensures
      var items := NewestFirst(listing);
      |NewerOf(images, items[i], repo, fixed)|
      <= Count(items[..i], repo, fixed)
      <= |RivalsOf(images, items[i], repo, fixed)|
  {
    var items := NewestFirst(listing);
    NewestFirstUnique(listing);
    StableSortAscends(listing, ByAge());
    ListedBefore(images, items, i);
    CountIsSize(items[..i], repo, fixed);
    SubsetIsSmaller(NewerOf(images, items[i], repo, fixed), Bearing(items[..i], repo, fixed));
    SubsetIsSmaller(Bearing(items[..i], repo, fixed), RivalsOf(images, items[i], repo, fixed));
  }

  lemma Relisted(images: seq<Image>, listing: seq<Image>)
    requires UniqueImages(images) && multiset(listing) == multiset(images)
    ensures UniqueImages(listing) && forall x :: x in listing <==> x in images
  {
    SameElements(images, listing);
    DistinctFromMultiset(images, listing);
    forall i, j | 0 <= i < j < |listing| ensures listing[i].id != listing[j].id {
      assert listing[i] in images && listing[j] in images && listing[i] != listing[j];
    }
  }

  lemma SureOnesAreSure(images: seq<Image>, listing: seq<Image>, img: Image, fixed: set<string>, keep: int)
    requires UniqueImages(images) && img in images && multiset(listing) == multiset(images)
    ensures SurelyGoes(images, img, fixed, keep) ==> GoesIn(listing, img, fixed, keep)
    ensures SurelyStays(images, img, fixed, keep) ==> !GoesIn(listing, img, fixed, keep)
  {
    Relisted(images, listing);
    NewestFirstUnique(listing);
    var items := NewestFirst(listing);
    var i :| 0 <= i < |items| && items[i] == img;
    GoesAt(listing, i, fixed, keep);
    forall r | r in Repos(img)
      ensures |NewerOf(images, img, r, fixed)| <= Count(items[..i], r, fixed) <= |RivalsOf(images, img, r, fixed)|
    {
      AheadIsBetween(images, listing, i, r, fixed);
    }
  }

  lemma TakenOut(images: seq<Image>, img: Image) returns (rest: seq<Image>)
    requires img in images
    ensures multiset([img] + rest) == multiset(images) && multiset(rest + [img]) == multiset(images)
  {
    var i :| 0 <= i < |images| && images[i] == img;
    rest := images[..i] + images[i + 1..];
    assert images == images[..i] + [img] + images[i + 1..];
  }

  /** Listed ahead of all of its age, an image goes only if newer ones use up its budgets. */
  lemma FirstOfItsAge(images: seq<Image>, img: Image, fixed: set<string>, keep: int) returns (listing: seq<Image>)
    requires UniqueImages(images) && img in images
    ensures multiset(listing) == multiset(images)
    ensures GoesIn(listing, img, fixed, keep) ==> SurelyGoes(images, img, fixed, keep)
  {
    var rest := TakenOut(images, img);
    listing := [img] + rest;
    Relisted(images, listing);
    var i := ListedFirst(rest, img, ByAge());
    var items := NewestFirst(listing);
    NewestFirstUnique(listing);
    GoesAt(listing, i, fixed, keep);
    forall r ensures Count(items[..i], r, fixed) <= |NewerOf(images, img, r, fixed)| {
      CountIsSize(items[..i], r, fixed);
      forall x | x in Bearing(items[..i], r, fixed) ensures x in NewerOf(images, img, r, fixed) {
        var j :| 0 <= j < i && items[..i][j] == x;
        assert ByAge()(items[j]) < ByAge()(img);
        assert items[j] in items;
      }
      SubsetIsSmaller(Bearing(items[..i], r, fixed), NewerOf(images, img, r, fixed));
    }
  }

  /** Listed behind all of its age, it stays only if some budget has room even then. */
  lemma LastOfItsAge(images: seq<Image>, img: Image, fixed: set<string>, keep: int) returns (listing: seq<Image>)
    requires UniqueImages(images) && img in images
    ensures multiset(listing) == multiset(images)
    ensures !GoesIn(listing, img, fixed, keep) ==> SurelyStays(images, img, fixed, keep)
  {
    var rest := TakenOut(images, img);
    listing := rest + [img];
    Relisted(images, listing);
    var i := ListedLast(rest, img, ByAge());
    var items := NewestFirst(listing);
    NewestFirstUnique(listing);
    GoesAt(listing, i, fixed, keep);
    forall r ensures |RivalsOf(images, img, r, fixed)| <= Count(items[..i], r, fixed) {
      CountIsSize(items[..i], r, fixed);
      RivalsAhead(images, items, i, r, fixed);
      SubsetIsSmaller(RivalsOf(images, img, r, fixed), Bearing(items[..i], r, fixed));
    }
  }

  lemma RivalsAhead(images: seq<Image>, items: seq<Image>, i: nat, repo: string, fixed: set<string>)
    requires i < |items| && (forall x :: x in items <==> x in images)
    requires forall j :: i < j < |items| ==> ByAge()(items[j]) > ByAge()(items[i])
    ensures RivalsOf(images, items[i], repo, fixed) <= Bearing(items[..i], repo, fixed)
  {
    forall j | i < j < |items| ensures items[j].created < items[i].created {
      assert ByAge()(items[j]) > ByAge()(items[i]);
    }
    forall x | x in RivalsOf(images, items[i], repo, fixed) ensures x in items[..i] {
      var j :| 0 <= j < |items| && items[j] == x;
      assert items[..i][j] == x;
    }
  }

  /** The fate of an image is the same in every listing. */
  ghost predicate OneFate(images: seq<Image>, img: Image, fixed: set<string>, keep: int) {
    forall listing :: multiset(listing) == multiset(images) ==>
                        (GoesIn(listing, img, fixed, keep) <==> GoesIn(images, img, fixed, keep))
  }

  /**
   The fate of an image does not depend on how the images are listed, if and only if either newer
   images alone use up the budgets of all its repositories, or it is kept anyway, or some budget has
   room for it even after all images of its age.
   */
  lemma OneFateIffSure(images: seq<Image>, img: Image, fixed: set<string>, keep: int)
    requires UniqueImages(images) && img in images
    ensures OneFate(images, img, fixed, keep) <==>
            SurelyGoes(images, img, fixed, keep) || SurelyStays(images, img, fixed, keep)
  {
    forall listing | multiset(listing) == multiset(images)
      ensures SurelyGoes(images, img, fixed, keep) ==> GoesIn(listing, img, fixed, keep)
      ensures SurelyStays(images, img, fixed, keep) ==> !GoesIn(listing, img, fixed, keep)
    {
      SureOnesAreSure(images, listing, img, fixed, keep);
    }
    var first := FirstOfItsAge(images, img, fixed, keep);
    var last := LastOfItsAge(images, img, fixed, keep);
  }

  // Whole plans

  ghost predicate Sure(images: seq<Image>, img: Image, fixed: set<string>, keep: int) {
    SurelyGoes(images, img, fixed, keep) || SurelyStays(images, img, fixed, keep)
  }

  /** The plan of this listing removes the same images. */
  ghost predicate SameImagesGo(containers: seq<Container>, images: seq<Image>, listing: seq<Image>,
                               opts: Options, kept: Protection)
  {
    forall img :: img in PlanOf(containers, listing, opts, kept).images <==>
                  img in PlanOf(containers, images, opts, kept).images
  }

  lemma PlannedAre(containers: seq<Container>, images: seq<Image>, listing: seq<Image>, opts: Options, kept: Protection,
                   img: Image)
    requires UniqueImages(images) && multiset(listing) == multiset(images)
    ensures img in PlanOf(containers, listing, opts, kept).images <==>
            img in images && GoesIn(listing, img, Fixed(images, containers, opts, kept), opts.keepPrevious)
  {
    Relisted(images, listing);
    assert Fixed(listing, containers, opts, kept) == Fixed(images, containers, opts, kept);
    NewestFirstUnique(listing);
    GoneMembers(NewestFirst(listing), Fixed(images, containers, opts, kept), opts.keepPrevious);
  }

  /** What a prune removes does not depend on how the images are listed, if and only if each image's fate is sure. */
  lemma PlanIgnoresListingIff(containers: seq<Container>, images: seq<Image>, opts: Options, kept: Protection)
    requires UniqueImages(images)
    ensures (forall listing :: multiset(listing) == multiset(images) ==>
            SameImagesGo(containers, images, listing, opts, kept))
            <==>
            (forall img :: img in images ==>
                Sure(images, img, Fixed(images, containers, opts, kept), opts.keepPrevious))
  {
    if forall img :: img in images ==> Sure(images, img, Fixed(images, containers, opts, kept), opts.keepPrevious) {
      forall listing | multiset(listing) == multiset(images)
          ensures SameImagesGo(containers, images, listing, opts, kept) {
        SurePlan(containers, images, listing, opts, kept);
      }
    } else {
      var img :| img in images && !Sure(images, img, Fixed(images, containers, opts, kept), opts.keepPrevious);
      var listing := UnsurePlan(containers, images, opts, kept, img);
    }
  }

  lemma SurePlan(containers: seq<Container>, images: seq<Image>, listing: seq<Image>, opts: Options, kept: Protection)
    requires UniqueImages(images) && multiset(listing) == multiset(images)
    requires forall img :: img in images ==> Sure(images, img, Fixed(images, containers, opts, kept), opts.keepPrevious)
    ensures SameImagesGo(containers, images, listing, opts, kept)
  {
    var fixed, keep := Fixed(images, containers, opts, kept), opts.keepPrevious;
    forall img | img in images ensures GoesIn(listing, img, fixed, keep) <==> GoesIn(images, img, fixed, keep) {
      SureOnesAreSure(images, listing, img, fixed, keep);
      SureOnesAreSure(images, images, img, fixed, keep);
    }
    GoesAlikeIff(containers, images, listing, opts, kept);
  }

  lemma UnsurePlan(containers: seq<Container>, images: seq<Image>, opts: Options, kept: Protection, img: Image)
      returns (listing: seq<Image>)
    requires UniqueImages(images) && img in images
    requires !Sure(images, img, Fixed(images, containers, opts, kept), opts.keepPrevious)
    ensures multiset(listing) == multiset(images) && !SameImagesGo(containers, images, listing, opts, kept)
  {
    var fixed, keep := Fixed(images, containers, opts, kept), opts.keepPrevious;
    OneFateIffSure(images, img, fixed, keep);
    listing :| multiset(listing) == multiset(images)
               && (GoesIn(listing, img, fixed, keep) <==> !GoesIn(images, img, fixed, keep));
    GoesAlikeIff(containers, images, listing, opts, kept);
  }

  lemma GoesAlikeIff(containers: seq<Container>, images: seq<Image>, listing: seq<Image>, opts: Options,
      kept: Protection)
    requires UniqueImages(images) && multiset(listing) == multiset(images)
    ensures
      var fixed, keep := Fixed(images, containers, opts, kept), opts.keepPrevious;
      SameImagesGo(containers, images, listing, opts, kept) <==>
      forall img :: img in images ==> (GoesIn(listing, img, fixed, keep) <==> GoesIn(images, img, fixed, keep))
  {
    forall img
      ensures img in PlanOf(containers, listing, opts, kept).images <==>
              img in images && GoesIn(listing, img, Fixed(images, containers, opts, kept), opts.keepPrevious)
      ensures img in PlanOf(containers, images, opts, kept).images <==>
              img in images && GoesIn(images, img, Fixed(images, containers, opts, kept), opts.keepPrevious)
    {
      PlannedAre(containers, images, listing, opts, kept, img);
      PlannedAre(containers, images, images, opts, kept, img);
    }
  }

  ghost predicate DifferentTimes(images: seq<Image>) {
    forall x, y :: x in images && y in images && x.created == y.created ==> x == y
  }

  /** With different creation times there is only one order. */
  lemma OneOrder(images: seq<Image>, listing: seq<Image>)
    requires DifferentTimes(images) && multiset(listing) == multiset(images)
    ensures NewestFirst(listing) == NewestFirst(images)
  {
    StableSortAscends(listing, ByAge());
    StableSortAscends(images, ByAge());
    SameElements(images, NewestFirst(images));
    AscendingIsUnique(NewestFirst(listing), NewestFirst(images));
  }

  lemma {:induction false} AscendingIsUnique(a: seq<Image>, b: seq<Image>)
    requires Ascending(a, ByAge()) && Ascending(b, ByAge()) && multiset(a) == multiset(b) && DifferentTimes(b)
    ensures a == b
  {
    assert |multiset(a)| == |multiset(b)|;
    if a != [] {
      SameElements(a, b);
      FirstIsNewest(a, b[0]);
      FirstIsNewest(b, a[0]);
      TailOf(a);
      TailOf(b);
      AscendingIsUnique(a[1..], b[1..]);
    }
  }

  lemma TailOf(items: seq<Image>)
    requires items != []
    ensures items == [items[0]] + items[1..] && multiset(items[1..]) == multiset(items) - multiset{items[0]}
    ensures Ascending(items, ByAge()) ==> Ascending(items[1..], ByAge())
    ensures DifferentTimes(items) ==> DifferentTimes(items[1..])
  {
    assert items == [items[0]] + items[1..];
  }

  lemma FirstIsNewest(items: seq<Image>, x: Image)
    requires Ascending(items, ByAge()) && x in items
    ensures items[0].created >= x.created
  {
    OldestLast(items);
  }
}
