/**
 Image retention: which stopped containers and unused images a prune removes, as the greedy
 loop over per-repository budgets decides it and as one condition per image.
 */
module Pruner {
  import Docker
  import opened ImageRefs
  import opened Sorting

  type Name = Docker.Name

  const MAX_KEEP_PREVIOUS := 10

  datatype Status = Running | Exited | Created | Dead | Paused | Restarting | Removing

  datatype Container = Container(id: string, name: Name, imageId: string, status: Status, sizeRw: int)

  datatype Image = Image(id: string, created: int, tags: seq<string>, digests: seq<string>, size: int, sharedSize: int)

  datatype Options = Options(keepPrevious: int, dryRun: bool, includeStopped: bool)

  /** What the updater's snapshots need kept. */
  datatype Protection = Protection(refs: set<string>, ids: set<string>, names: set<Name>)

  function UniqueSize(img: Image): int {
    if 0 < img.sharedSize <= img.size then img.size - img.sharedSize else img.size
  }

  predicate IsStopped(c: Container) {
    c.status in {Exited, Created, Dead}
  }

  /** Containers in the middle of an update are left alone, whatever their state. */
  predicate Removable(c: Container, opts: Options, kept: Protection) {
    opts.includeStopped && IsStopped(c) && c.id !in kept.ids && c.name !in kept.names && c.name.Service?
  }

  function ProtectedRefs(kept: Protection): set<string> {
    (set r | r in kept.refs && r != "" :: Normalize(r)) + (set r | r in kept.refs && r != "")
  }

  predicate MatchesRollbackRef(img: Image, refs: set<string>) {
    || img.id in refs
    || (exists t :: t in img.tags && Normalize(t) in refs)
    || (exists d :: d in img.digests && (Normalize(d) in refs || ('@' in d && AfterAt(d) in refs)))
  }

  /** The image references of containers that stay. */
  function Used(containers: seq<Container>, opts: Options, kept: Protection): set<string> {
    set c | c in containers && !Removable(c, opts, kept) :: c.imageId
  }

  /** The images kept whatever their age. */
  function Fixed(images: seq<Image>, containers: seq<Container>, opts: Options, kept: Protection): set<string> {
    set img | img in images
        && (img.id in Used(containers, opts, kept) || MatchesRollbackRef(img, ProtectedRefs(kept))) :: img.id
  }

  function Repos(img: Image): set<string> {
    set t | t in img.tags :: RepoTag(t).0
  }

  // ---------------------------------------------------------------- one condition per image

  /** How many images of the repository in `newer` are not kept anyway. */
  function Count(newer: seq<Image>, repo: string, fixed: set<string>): nat {
    if newer == [] then 0
    else
      var last := newer[|newer| - 1];
      Count(newer[..|newer| - 1], repo, fixed) + (if last.id !in fixed && repo in Repos(last) then 1 else 0)
  }

  /** The image goes: it is not kept anyway, and no repository of it has room for it after the `newer` images. */
  ghost predicate Goes(newer: seq<Image>, img: Image, fixed: set<string>, keep: int) {
    img.id !in fixed && forall r :: r in Repos(img) ==> Count(newer, r, fixed) >= keep
  }

  /** The images that go, newest first. */
  ghost function Gone(items: seq<Image>, fixed: set<string>, keep: int): seq<Image> {
    if items == [] then []
    else
      var n := |items| - 1;
      Gone(items[..n], fixed, keep) + (if Goes(items[..n], items[n], fixed, keep) then [items[n]] else [])
  }

  ghost predicate UniqueImages(images: seq<Image>) {
    forall i, j :: 0 <= i < j < |images| ==> images[i].id != images[j].id
  }

  function ByAge(): Image -> int {
    (img: Image) => -img.created
  }

  function NewestFirst(images: seq<Image>): seq<Image> {
    StableSort(images, ByAge())
  }

  // ---------------------------------------------------------------- the greedy loop

  /** What is left of a repository's budget after the given images. */
  function Left(newer: seq<Image>, repo: string, fixed: set<string>, keep: int): int {
    if Count(newer, repo, fixed) < keep then keep - Count(newer, repo, fixed)
    else if keep < 0 then keep else 0
  }

  /** The loop over the repositories of one image, in whatever order. */
  method Spend(img: Image, budget: map<string, int>, kept: set<string>)
      returns (budget': map<string, int>, kept': set<string>)
    requires Repos(img) <= budget.Keys
    ensures budget'.Keys == budget.Keys
    ensures forall r :: r in budget ==>
            budget'[r] == if r in Repos(img) && budget[r] > 0 then budget[r] - 1 else budget[r]
    ensures kept' == if exists r :: r in Repos(img) && budget[r] > 0 then kept + {img.id} else kept
  {
    budget', kept' := budget, kept;
    var todo := Repos(img);
    while todo != {}
      invariant todo <= Repos(img) && budget'.Keys == budget.Keys
      invariant forall r :: r in budget ==>
                  budget'[r] == if r in Repos(img) && r !in todo && budget[r] > 0 then budget[r] - 1 else budget[r]
      invariant kept' == if exists r :: r in Repos(img) && r !in todo && budget[r] > 0 then kept + {img.id} else kept
      decreases todo
    {
      var r :| r in todo;
      todo := todo - {r};
      if budget'[r] > 0 {
        budget' := budget'[r := budget'[r] - 1];
        kept' := kept' + {img.id};
      }
    }
  }

  method Budgets(items: seq<Image>, keep: int) returns (budget: map<string, int>)
    ensures forall r :: r in budget <==> exists i :: 0 <= i < |items| && r in Repos(items[i])
    ensures forall r :: r in budget ==> budget[r] == keep
  {
    budget := map[];
    for i := 0 to |items|
      invariant forall r :: r in budget <==> exists k :: 0 <= k < i && r in Repos(items[k])
      invariant forall r :: r in budget ==> budget[r] == keep
    {
      budget := budget + map r | r in Repos(items[i]) && r !in budget :: keep;
    }
  }

  lemma LeftMore(items: seq<Image>, i: nat, repo: string, fixed: set<string>, keep: int)
    requires i < |items|
    ensures Left(items[..i + 1], repo, fixed, keep) ==
              if items[i].id !in fixed && repo in Repos(items[i]) && Left(items[..i], repo, fixed, keep) > 0
              then Left(items[..i], repo, fixed, keep) - 1 else Left(items[..i], repo, fixed, keep)
  {
    assert items[..i + 1][..i] == items[..i];
  }

  /** How far the loop has come: what is left of the budgets, and which images are kept. */
  ghost predicate Progress(items: seq<Image>, i: nat, fixed: set<string>, keep: int, budget: map<string, int>,
      kept: set<string>)
    requires i <= |items|
  {
    && (forall k :: 0 <= k < |items| ==> Repos(items[k]) <= budget.Keys)
    && (forall r :: r in budget ==> budget[r] == Left(items[..i], r, fixed, keep))
    && (forall k :: 0 <= k < i ==> (items[k].id in kept <==> !Goes(items[..k], items[k], fixed, keep)))
    && (forall k :: i <= k < |items| ==> (items[k].id in kept <==> items[k].id in fixed))
  }

  lemma SpentRight(items: seq<Image>, i: nat, fixed: set<string>, keep: int,
                   budget: map<string, int>, kept: set<string>, budget': map<string, int>, kept': set<string>)
    requires UniqueImages(items) && i < |items| && Progress(items, i, fixed, keep, budget, kept)
    requires budget'.Keys == budget.Keys
    requires forall r :: r in budget ==>
               budget'[r] == if items[i].id !in fixed && r in Repos(items[i]) && budget[r] > 0
                             then budget[r] - 1 else budget[r]
    requires kept' == if items[i].id !in fixed && exists r :: r in Repos(items[i]) && budget[r] > 0
                      then kept + {items[i].id} else kept
    ensures Progress(items, i + 1, fixed, keep, budget', kept')
  {
    forall r | r in budget ensures budget'[r] == Left(items[..i + 1], r, fixed, keep) {
      LeftMore(items, i, r, fixed, keep);
    }
    assert items[i].id in kept' <==> !Goes(items[..i], items[i], fixed, keep) by {
      forall r | r in Repos(items[i]) ensures budget[r] > 0 <==> Count(items[..i], r, fixed) < keep {
        assert budget[r] == Left(items[..i], r, fixed, keep);
      }
    }
    forall k | 0 <= k < |items| && k != i ensures items[k].id in kept' <==> items[k].id in kept {
      assert items[k].id != items[i].id;
    }
  }

  /** The loop over the images, newest first. */
  method Greedy(items: seq<Image>, fixed: set<string>, keep: int) returns (kept: set<string>)
    requires UniqueImages(items)
    ensures forall i :: 0 <= i < |items| ==> (items[i].id in kept <==> !Goes(items[..i], items[i], fixed, keep))
  {
    kept := fixed;
    var budget := Budgets(items, keep);
    for i := 0 to |items|
      invariant Progress(items, i, fixed, keep, budget, kept)
    {
      if items[i].id !in kept {
        var budget', kept' := Spend(items[i], budget, kept);
        SpentRight(items, i, fixed, keep, budget, kept, budget', kept');
        budget, kept := budget', kept';
      } else {
        SpentRight(items, i, fixed, keep, budget, kept, budget, kept);
      }
    }
  }

  // ---------------------------------------------------------------- the plan

  lemma {:induction false} GoneMembers(items: seq<Image>, fixed: set<string>, keep: int)
    ensures forall img :: img in Gone(items, fixed, keep) <==>
              exists i :: 0 <= i < |items| && items[i] == img && Goes(items[..i], img, fixed, keep)
  {
    if items != [] {
      var n := |items| - 1;
      GoneMembers(items[..n], fixed, keep);
      assert forall i :: 0 <= i < n ==> items[..n][..i] == items[..i];
      forall img | img in Gone(items, fixed, keep)
        ensures exists i :: 0 <= i < |items| && items[i] == img && Goes(items[..i], img, fixed, keep)
      {
        if img in Gone(items[..n], fixed, keep) {
          var i :| 0 <= i < n && items[..n][i] == img && Goes(items[..n][..i], img, fixed, keep);
          assert items[i] == img && Goes(items[..i], img, fixed, keep);
        } else {
          assert items[n] == img && Goes(items[..n], img, fixed, keep);
        }
      }
    }
  }

  /** Collecting what the greedy loop did not keep. */
  method Collect(items: seq<Image>, fixed: set<string>, keep: int, kept: set<string>) returns (images: seq<Image>)
    requires UniqueImages(items)
    requires forall i :: 0 <= i < |items| ==> (items[i].id in kept <==> !Goes(items[..i], items[i], fixed, keep))
    ensures images == Gone(items, fixed, keep)
  {
    images := [];
    var seen: set<string> := {};
    for i := 0 to |items|
      invariant images == Gone(items[..i], fixed, keep)
      invariant forall id :: id in seen ==> exists k :: 0 <= k < i && items[k].id == id
    {
      assert items[..i + 1][..i] == items[..i];
      if items[i].id !in kept && items[i].id !in seen {
        seen := seen + {items[i].id};
        images := images + [items[i]];
      }
    }
    assert items[..|items|] == items;
  }

  datatype Plan = Plan(containers: seq<Container>, images: seq<Image>)

  function IsRemovable(opts: Options, kept: Protection): Container -> bool {
    (c: Container) => Removable(c, opts, kept)
  }

  /** What a prune with these options would remove, as one condition per container and image. */
  ghost function PlanOf(containers: seq<Container>, images: seq<Image>, opts: Options, kept: Protection): Plan {
    Plan(Filter(containers, IsRemovable(opts, kept)),
         Gone(NewestFirst(images), Fixed(images, containers, opts, kept), opts.keepPrevious))
  }

  lemma NewestFirstUnique(images: seq<Image>)
    requires UniqueImages(images)
    ensures UniqueImages(NewestFirst(images))
    ensures forall img :: img in NewestFirst(images) <==> img in images
  {
    var sorted := NewestFirst(images);
    SameElements(images, sorted);
    DistinctFromMultiset(images, sorted);
    forall i, j | 0 <= i < j < |sorted| ensures sorted[i].id != sorted[j].id {
      assert sorted[i] in images && sorted[j] in images && sorted[i] != sorted[j];
    }
  }

  // ---------------------------------------------------------------- what the plan promises

  /** A larger budget never removes more. */
  lemma RaisingKeepShrinks(items: seq<Image>, fixed: set<string>, keep: int, keep': int)
    requires keep <= keep'
    ensures forall img :: img in Gone(items, fixed, keep') ==> img in Gone(items, fixed, keep)
  {
    GoneMembers(items, fixed, keep);
    GoneMembers(items, fixed, keep');
  }

  lemma {:induction false} CountGrows(newer: seq<Image>, repo: string, fixed: set<string>, fixed': set<string>)
    requires forall img :: img in newer && img.id in fixed' ==> img.id in fixed
    ensures Count(newer, repo, fixed) <= Count(newer, repo, fixed')
  {
    if newer != [] { CountGrows(newer[..|newer| - 1], repo, fixed, fixed'); }
  }

  /** Keeping fewer images unconditionally never removes less, though it frees no budget. */
  lemma FixingLessGrows(items: seq<Image>, fixed: set<string>, fixed': set<string>, keep: int)
    requires forall img :: img in items && img.id in fixed' ==> img.id in fixed
    ensures forall img :: img in Gone(items, fixed, keep) ==> img in Gone(items, fixed', keep)
  {
    GoneMembers(items, fixed, keep);
    GoneMembers(items, fixed', keep);
    forall i | 0 <= i < |items| && Goes(items[..i], items[i], fixed, keep)
      ensures Goes(items[..i], items[i], fixed', keep)
    {
      forall r ensures Count(items[..i], r, fixed) <= Count(items[..i], r, fixed') {
        CountGrows(items[..i], r, fixed, fixed');
      }
    }
  }

  /** Raising KeepPrevious only shrinks the plan; turning IncludeStopped on only grows it. */
  lemma PlanIsMonotone(containers: seq<Container>, images: seq<Image>, opts: Options, kept: Protection, keep': int)
    requires UniqueImages(images) && opts.keepPrevious <= keep'
    ensures var p, fewer := PlanOf(containers, images, opts, kept),
                             PlanOf(containers, images, opts.(keepPrevious := keep'), kept);
            fewer.containers == p.containers && forall img :: img in fewer.images ==> img in p.images
    ensures var p, more := PlanOf(containers, images, opts, kept),
                             PlanOf(containers, images, opts.(includeStopped := true), kept);
            (forall c :: c in p.containers ==> c in more.containers)
            && forall img :: img in p.images ==> img in more.images
  {
    var raised, stopped := opts.(keepPrevious := keep'), opts.(includeStopped := true);
    FilterExt(containers, IsRemovable(opts, kept), IsRemovable(raised, kept));
    assert Fixed(images, containers, raised, kept) == Fixed(images, containers, opts, kept);
    RaisingKeepShrinks(NewestFirst(images), Fixed(images, containers, opts, kept), opts.keepPrevious, keep');
    FilterMembers(containers, IsRemovable(opts, kept));
    FilterMembers(containers, IsRemovable(stopped, kept));
    assert Fixed(images, containers, stopped, kept) <= Fixed(images, containers, opts, kept);
    FixingLessGrows(NewestFirst(images), Fixed(images, containers, opts, kept),
                    Fixed(images, containers, stopped, kept), opts.keepPrevious);
  }

  lemma {:induction false} FilterExt(s: seq<Container>, p: Container -> bool, q: Container -> bool)
    requires forall c :: c in s ==> p(c) == q(c)
    ensures Filter(s, p) == Filter(s, q)
  {
    if s != [] { FilterExt(s[1..], p, q); }
  }

  function NotRemovable(opts: Options, kept: Protection): Container -> bool {
    (c: Container) => !Removable(c, opts, kept)
  }

  lemma CountMore(newer: seq<Image>, img: Image, repo: string, fixed: set<string>)
    ensures Count(newer + [img], repo, fixed) ==
              Count(newer, repo, fixed) + (if img.id !in fixed && repo in Repos(img) then 1 else 0)
  {
    assert (newer + [img])[..|newer|] == newer;
  }

  lemma GoneMore(items: seq<Image>, img: Image, fixed: set<string>, keep: int)
    ensures Gone(items + [img], fixed, keep) == Gone(items, fixed, keep)
            + (if Goes(items, img, fixed, keep) then [img] else [])
  {
    assert (items + [img])[..|items|] == items;
  }

  /** Among the images that a plan leaves, none goes. */
  lemma {:induction false} NothingMoreGoes(items: seq<Image>, n: nat, gone: seq<Image>, fixed: set<string>,
      fixed': set<string>, keep: int)
    requires UniqueImages(items) && n <= |items| && gone == Gone(items, fixed, keep)
    requires forall img :: img in items && img !in gone ==> (img.id in fixed' <==> img.id in fixed)
    ensures Gone(Filter(items[..n], NotAmong(gone)), fixed', keep) == []
    ensures forall r :: Count(Filter(items[..n], NotAmong(gone)), r, fixed') <= Count(items[..n], r, fixed)
  {
    assert items[..0] == [];
    if n > 0 {
      var img, before := items[n - 1], items[..n - 1];
      NothingMoreGoes(items, n - 1, gone, fixed, fixed', keep);
      assert items[..n] == before + [img];
      FilterConcat(before, [img], NotAmong(gone));
      if img in gone {
        assert Filter([img], NotAmong(gone)) == [];
        assert Filter(items[..n], NotAmong(gone)) == Filter(before, NotAmong(gone));
      } else {
        assert Filter([img], NotAmong(gone)) == [img];
        GoneMembers(items, fixed, keep);
      }
      OneMoreStays(before, Filter(before, NotAmong(gone)), img, fixed, fixed', keep);
    }
  }

  lemma OneMoreStays(before: seq<Image>, left: seq<Image>, img: Image, fixed: set<string>, fixed': set<string>,
      keep: int)
    requires Gone(left, fixed', keep) == [] && forall r :: Count(left, r, fixed') <= Count(before, r, fixed)
    ensures forall r :: Count(left, r, fixed') <= Count(before + [img], r, fixed)
    ensures !Goes(before, img, fixed, keep) && (img.id in fixed' <==> img.id in fixed) ==>
              && Gone(left + [img], fixed', keep) == []
              && forall r :: Count(left + [img], r, fixed') <= Count(before + [img], r, fixed)
  {
    forall r ensures Count(before + [img], r, fixed) == Count(before, r, fixed)
        + (if img.id !in fixed && r in Repos(img) then 1 else 0) {
      CountMore(before, img, r, fixed);
    }
    forall r ensures Count(left + [img], r, fixed') == Count(left, r, fixed')
        + (if img.id !in fixed' && r in Repos(img) then 1 else 0) {
      CountMore(left, img, r, fixed');
    }
    GoneMore(left, img, fixed', keep);
  }

  /** Removing the removable containers leaves the used images as they were. */
  lemma ContainersSettled(containers: seq<Container>, opts: Options, kept: Protection)
    ensures var rest := Filter(containers, NotRemovable(opts, kept));
            Filter(rest, IsRemovable(opts, kept)) == [] && Used(rest, opts, kept) == Used(containers, opts, kept)
  {
    FilterMembers(containers, NotRemovable(opts, kept));
    FilterNone(Filter(containers, NotRemovable(opts, kept)), IsRemovable(opts, kept));
  }

  /** After a prune without errors, the same prune finds nothing, and no image that a container uses is missing. */
  lemma PruneIsIdempotent(containers: seq<Container>, images: seq<Image>, opts: Options, kept: Protection)
    requires UniqueImages(images)
    ensures var p := PlanOf(containers, images, opts, kept);
            var containers' := Filter(containers, NotRemovable(opts, kept));
            var images' := Filter(images, NotAmong(p.images));
            && PlanOf(containers', images', opts, kept) == Plan([], [])
            && forall c, img :: c in containers' && img in images && img.id == c.imageId ==> img in images'
  {
    var gone := PlanOf(containers, images, opts, kept).images;
    var containers' := Filter(containers, NotRemovable(opts, kept));
    var images' := Filter(images, NotAmong(gone));
    var fixed := Fixed(images, containers, opts, kept);
    var fixed' := Fixed(images', containers', opts, kept);
    ContainersSettled(containers, opts, kept);
    FilterMembers(images, NotAmong(gone));
    FilterMembers(containers, NotRemovable(opts, kept));
    NewestFirstUnique(images);
    var items := NewestFirst(images);
    GoneMembers(items, fixed, opts.keepPrevious);
    ImagesSettled(images, items, gone, fixed, fixed', opts.keepPrevious);
  }

  lemma ImagesSettled(images: seq<Image>, items: seq<Image>, gone: seq<Image>, fixed: set<string>,
      fixed': set<string>, keep: int)
    requires items == NewestFirst(images) && UniqueImages(items) && gone == Gone(items, fixed, keep)
    requires forall img :: img in items && img !in gone ==> (img.id in fixed' <==> img.id in fixed)
    ensures Gone(NewestFirst(Filter(images, NotAmong(gone))), fixed', keep) == []
  {
    FilterSorted(images, ByAge(), NotAmong(gone));
    NothingMoreGoes(items, |items|, gone, fixed, fixed', keep);
    assert items[..|items|] == items;
  }

  /** The reference names the image: by its id, by one of its tags or digests in any spelling, or by a bare digest. */
  ghost predicate Names(ref: string, img: Image) {
    || img.id == ref
    || (exists t :: t in img.tags && Normalize(t) == Normalize(ref))
    || (exists d :: d in img.digests && Normalize(d) == Normalize(ref))
    || (exists d :: d in img.digests && '@' in d && AfterAt(d) == ref)
  }

  /** An image that a snapshot's reference names, in whatever form, is never planned away. */
  lemma RollbackTargetKept(containers: seq<Container>, images: seq<Image>, opts: Options, kept: Protection,
      img: Image, ref: string)
    requires UniqueImages(images) && img in images && ref in kept.refs && ref != "" && Names(ref, img)
    ensures img !in PlanOf(containers, images, opts, kept).images
  {
    NamedIsProtected(kept, img, ref);
    NewestFirstUnique(images);
    GoneMembers(NewestFirst(images), Fixed(images, containers, opts, kept), opts.keepPrevious);
    assert img.id in Fixed(images, containers, opts, kept);
  }

  lemma NamedIsProtected(kept: Protection, img: Image, ref: string)
    requires ref in kept.refs && ref != "" && Names(ref, img)
    ensures MatchesRollbackRef(img, ProtectedRefs(kept))
  {
    ProtectedAre(kept, ref);
  }

  lemma ProtectedAre(kept: Protection, ref: string)
    requires ref in kept.refs && ref != ""
    ensures ref in ProtectedRefs(kept) && Normalize(ref) in ProtectedRefs(kept)
  {}

  /** The containers planned, spelled out: stopped, of no use for a rollback, and not in the middle of an update. */
  lemma PlannedContainersAre(containers: seq<Container>, images: seq<Image>, opts: Options, kept: Protection,
                             c: Container)
    ensures c in PlanOf(containers, images, opts, kept).containers <==>
            && c in containers && opts.includeStopped
            && (c.status == Exited || c.status == Created || c.status == Dead)
            && c.id !in kept.ids && c.name !in kept.names && !c.name.New? && !c.name.Old?
  {
    FilterMembers(containers, IsRemovable(opts, kept));
  }

  /** The images kept whatever their age, spelled out: those of containers that stay, and those a snapshot names. */
  lemma FixedAre(containers: seq<Container>, images: seq<Image>, opts: Options, kept: Protection, img: Image)
    requires UniqueImages(images) && img in images
    ensures img.id in Fixed(images, containers, opts, kept) <==>
            || (exists c :: c in containers && c.imageId == img.id
                            && c !in PlanOf(containers, images, opts, kept).containers)
            || (exists ref :: ref in kept.refs && ref != "" && (Names(ref, img) || NamesSpelled(ref, img)))
  {
    FilterMembers(containers, IsRemovable(opts, kept));
    assert img.id in Fixed(images, containers, opts, kept) <==>
           img.id in Used(containers, opts, kept) || MatchesRollbackRef(img, ProtectedRefs(kept)) by {
      forall other | other in images && other.id == img.id ensures other == img {
        var i :| 0 <= i < |images| && images[i] == img;
        var j :| 0 <= j < |images| && images[j] == other;
      }
    }
    ProtectedIffNamed(kept, img);
  }

  /**
   * The reference is one of the image's tags or digests in the shortest spelling, or a digest cut out of such
   * a spelling.
   */
  ghost predicate NamesSpelled(ref: string, img: Image) {
    || (exists t :: t in img.tags && Normalize(t) == ref)
    || (exists d :: d in img.digests && Normalize(d) == ref)
    || img.id == Normalize(ref)
    || (exists d :: d in img.digests && '@' in d && AfterAt(d) == Normalize(ref))
  }

  lemma ProtectedIffNamed(kept: Protection, img: Image)
    ensures MatchesRollbackRef(img, ProtectedRefs(kept)) <==>
            exists ref :: ref in kept.refs && ref != "" && (Names(ref, img) || NamesSpelled(ref, img))
  {
    var refs := ProtectedRefs(kept);
    if MatchesRollbackRef(img, refs) {
      if img.id in refs {
        var ref := ReferenceOf(kept, img.id);
      } else if t :| t in img.tags && Normalize(t) in refs {
        var ref := ReferenceOf(kept, Normalize(t));
      } else if d :| d in img.digests && Normalize(d) in refs {
        var ref := ReferenceOf(kept, Normalize(d));
      } else {
        var d :| d in img.digests && '@' in d && AfterAt(d) in refs;
        var ref := ReferenceOf(kept, AfterAt(d));
      }
    }
    forall ref | ref in kept.refs && ref != "" && (Names(ref, img) || NamesSpelled(ref, img))
      ensures MatchesRollbackRef(img, refs)
    {
      ProtectedAre(kept, ref);
    }
  }

  /** The reference that something protected comes from. */
  lemma ReferenceOf(kept: Protection, x: string) returns (ref: string)
    requires x in ProtectedRefs(kept)
    ensures ref in kept.refs && ref != "" && (x == ref || x == Normalize(ref))
  {
    ref :| ref in kept.refs && ref != "" && (x == ref || x == Normalize(ref));
  }

  /** Of two equally old images the listing order decides: a plan that keeps both may, on another listing, drop one. */
  lemma TiesGoByListing(x: Image, y: Image, a: string, b: string)
    requires Repos(x) == {a} && Repos(y) == {a, b} && a != b && x.id != y.id && x.created == y.created
    ensures Gone(NewestFirst([x, y]), {}, 1) == [] && Gone(NewestFirst([y, x]), {}, 1) == [x]
  {
    TwoListed(x, y);
    TwoListed(y, x);
    TwoGone(x, y);
    TwoGone(y, x);
    assert !(Repos(y) <= Repos(x)) by { assert b in Repos(y) && b !in Repos(x); }
    assert Repos(x) <= Repos(y);
  }

  /** What becomes of two images when one other version is kept, by the repositories they share. */
  lemma TwoGone(x: Image, y: Image)
    requires Repos(x) != {}
    ensures Gone([x, y], {}, 1) == if Repos(y) <= Repos(x) then [y] else []
  {
    assert [] + [x] == [x] && [x] + [y] == [x, y];
    GoneMore([], x, {}, 1);
    GoneMore([x], y, {}, 1);
    var r :| r in Repos(x);
    assert Count([], r, {}) == 0;
    forall q | q in Repos(y) ensures Count([x], q, {}) >= 1 <==> q in Repos(x) {
      CountOfOne(x, q);
    }
  }

  lemma CountOfOne(x: Image, repo: string)
    ensures Count([x], repo, {}) == if repo in Repos(x) then 1 else 0
  {
    CountMore([], x, repo, {});
    assert [] + [x] == [x];
  }

  lemma TwoListed(x: Image, y: Image)
    requires x.created == y.created
    ensures NewestFirst([x, y]) == [x, y]
  {
    assert [x, y][1..] == [y] && [y][1..] == [];
    assert StableSort([y], ByAge()) == [y];
  }

  // ---------------------------------------------------------------- carrying the plan out

  datatype Item = ContainerItem(c: Container) | ImageItem(img: Image)

  function ItemSize(item: Item): int {
    match item
    case ContainerItem(c) => c.sizeRw
    case ImageItem(img) => UniqueSize(img)
  }

  function TotalSize(items: seq<Item>): int {
    if items == [] then 0 else TotalSize(items[..|items| - 1]) + ItemSize(items[|items| - 1])
  }

  lemma TotalSizeMore(items: seq<Item>, item: Item)
    ensures TotalSize(items + [item]) == TotalSize(items) + ItemSize(item)
  {
    assert (items + [item])[..|items|] == items;
  }

  /** What sharing a layer saves: it stays on disk as long as others use it, so only the rest counts as reclaimed. */
  function SharedSize(items: seq<Item>): int {
    if items == [] then 0
    else SharedSize(items[..|items| - 1]) + (match items[|items| - 1] case ContainerItem(_) => 0
                                             case ImageItem(img) => img.sharedSize)
  }

  function FullSize(items: seq<Item>): int {
    if items == [] then 0
    else FullSize(items[..|items| - 1]) + (match items[|items| - 1] case ContainerItem(c) => c.sizeRw
                                           case ImageItem(img) => img.size)
  }

  /** With sensible figures, what is reclaimed and what is shared make up the sizes; senseless ones are disregarded. */
  lemma {:induction false} ReclaimedAndShared(items: seq<Item>)
    ensures (forall item :: item in items && item.ImageItem? ==> 0 <= item.img.sharedSize <= item.img.size) ==>
              TotalSize(items) + SharedSize(items) == FullSize(items)
    ensures (forall item :: item in items && item.ImageItem? ==>
               item.img.sharedSize <= 0 || item.img.sharedSize > item.img.size) ==>
              TotalSize(items) == FullSize(items)
  {
    if items != [] {
      var n := |items| - 1;
      ReclaimedAndShared(items[..n]);
      assert items[n] in items;
    }
  }

  function ContainerItems(cs: seq<Container>): (items: seq<Item>)
    ensures |items| == |cs|
  {
    seq(|cs|, i requires 0 <= i < |cs| => ContainerItem(cs[i]))
  }

  function ImageItems(imgs: seq<Image>): (items: seq<Item>)
    ensures |items| == |imgs|
  {
    seq(|imgs|, i requires 0 <= i < |imgs| => ImageItem(imgs[i]))
  }

  datatype Result = Result(dryRun: bool, imagesRemoved: nat, containersRemoved: nat, spaceReclaimed: int,
                           details: seq<Item>, errors: nat)

  /** The counters agree with the details. */
  ghost predicate Consistent(r: Result) {
    && r.containersRemoved <= |r.details|
    && r.imagesRemoved == |r.details| - r.containersRemoved
    && (forall i :: 0 <= i < |r.details| ==> (r.details[i].ContainerItem? <==> i < r.containersRemoved))
    && r.spaceReclaimed == TotalSize(r.details)
  }

  /** One object removed, or found removable. */
  function Counted(r: Result, item: Item): Result {
    r.(imagesRemoved := r.imagesRemoved + (if item.ImageItem? then 1 else 0),
       containersRemoved := r.containersRemoved + (if item.ContainerItem? then 1 else 0),
       spaceReclaimed := r.spaceReclaimed + ItemSize(item),
       details := r.details + [item])
  }

  lemma CountedConsistent(r: Result, item: Item)
    requires Consistent(r) && (item.ContainerItem? ==> r.imagesRemoved == 0)
    ensures Consistent(Counted(r, item))
  {
    TotalSizeMore(r.details, item);
  }

  // ---------------------------------------------------------------- what the daemon refuses to remove

  function Allowed(refuses: set<string>): Container -> bool {
    (c: Container) => c.id !in refuses
  }

  /** An image is removed by untagging it, one tag after the other, or by its id if it has none. */
  predicate GivesWay(img: Image, refuses: set<string>) {
    if img.tags == [] then img.id !in refuses else forall t :: t in img.tags ==> t !in refuses
  }

  function Yielding(refuses: set<string>): Image -> bool {
    (img: Image) => GivesWay(img, refuses)
  }

  /** The tags from the first refused one on. */
  function FromRefused(tags: seq<string>, refuses: set<string>): seq<string> {
    if tags == [] || tags[0] in refuses then tags else FromRefused(tags[1..], refuses)
  }

  /** A refused image keeps the tags it was not yet rid of. */
  function Rest(img: Image, refuses: set<string>): Image {
    img.(tags := FromRefused(img.tags, refuses))
  }

  /** Of the images planned those that give way are gone, the others have lost tags at most; no other has changed. */
  ghost predicate ImagesLeft(before: seq<Image>, after: seq<Image>, plan: seq<Image>, refuses: set<string>) {
    && (forall img :: img in before && img !in plan ==> img in after)
    && (forall img :: img in plan && !GivesWay(img, refuses) ==> Rest(img, refuses) in after)
    && (forall img :: img in after ==>
          || (img in before && img !in plan)
          || exists p :: p in plan && !GivesWay(p, refuses) && img == Rest(p, refuses))
  }

  /** What a prune with these options does, but for what the daemon refuses. */
  ghost predicate Pruned(opts: Options, kept: Protection, refuses: set<string>, containers: seq<Container>,
                         images: seq<Image>, containers': seq<Container>, images': seq<Image>, r: Result)
  {
    var p := PlanOf(containers, images, opts, kept);
    if opts.dryRun then
      && containers' == containers && images' == images
      && r.details == ContainerItems(p.containers) + ImageItems(p.images) && r.errors == 0
    else
      var cs, imgs := Filter(p.containers, Allowed(refuses)), Filter(p.images, Yielding(refuses));
      && r.details == ContainerItems(cs) + ImageItems(imgs)
      && r.errors == |p.containers| - |cs| + |p.images| - |imgs|
      && containers' == Filter(containers, NotAmong(cs))
      && ImagesLeft(images, images', p.images, refuses)
      && (imgs == p.images ==> images' == Filter(images, NotAmong(p.images)))
  }

  /** The images and containers of a host, what the updater wants kept, and what the daemon refuses to remove. */
  class Host {
    var containers: seq<Container>
    var images: seq<Image>
    const kept: Protection
    const refuses: set<string>

    constructor (containers: seq<Container>, images: seq<Image>, kept: Protection, refuses: set<string>)
      ensures this.containers == containers && this.images == images && this.kept == kept && this.refuses == refuses
    {
      this.containers, this.images, this.kept, this.refuses := containers, images, kept, refuses;
    }

    /** The plan, from the greedy loop. */
    method MakePlan(opts: Options) returns (plan: Plan)
      requires UniqueImages(images)
      ensures plan == PlanOf(containers, images, opts, kept)
    {
      var fixed := Fixed(images, containers, opts, kept);
      var items := NewestFirst(images);
      NewestFirstUnique(images);
      var keptIds := Greedy(items, fixed, opts.keepPrevious);
      var gone := Collect(items, fixed, opts.keepPrevious, keptIds);
      plan := Plan(Filter(containers, IsRemovable(opts, kept)), gone);
    }

    /** Untags one reference after the other; the last one deletes the image. */
    method RemoveImage(img: Image) returns (ok: bool)
      modifies this`images
      ensures ok <==> GivesWay(img, refuses)
      ensures images == if ok then Filter(old(images), NotAmong([img]))
              else Swapped(old(images), img, Rest(img, refuses))
    {
      if img.tags == [] {
        if img.id in refuses {
          SwappedForItself(images, img);
          return false;
        }
      } else {
        for k := 0 to |img.tags|
          invariant images == old(images)
          invariant FromRefused(img.tags, refuses) == FromRefused(img.tags[k..], refuses)
          invariant forall t :: t in img.tags[..k] ==> t !in refuses
        {
          assert img.tags[k..][1..] == img.tags[k + 1..] && img.tags[..k + 1] == img.tags[..k] + [img.tags[k]];
          if img.tags[k] in refuses {
            images := Swapped(images, img, img.(tags := img.tags[k..]));
            return false;
          }
        }
        assert img.tags[..|img.tags|] == img.tags;
      }
      images := Filter(images, NotAmong([img]));
      return true;
    }

    method RemoveContainer(c: Container) returns (ok: bool)
      modifies this`containers
      ensures ok <==> c.id !in refuses
      ensures containers == if ok then Filter(old(containers), NotAmong([c])) else old(containers)
    {
      ok := c.id !in refuses;
      if ok { containers := Filter(containers, NotAmong([c])); }
    }

    method RemoveContainers(plan: seq<Container>, dryRun: bool) returns (r: Result)
      modifies this`containers
      ensures Consistent(r) && r.imagesRemoved == 0 && r.dryRun == dryRun
      ensures dryRun ==> containers == old(containers) && r.errors == 0 && r.details == ContainerItems(plan)
      ensures !dryRun ==> var cs := Filter(plan, Allowed(refuses));
                r.details == ContainerItems(cs) && r.errors == |plan| - |cs|
                && containers == Filter(old(containers), NotAmong(cs))
    {
      r := Result(dryRun, 0, 0, 0, [], 0);
      FilterNotAmongNone(containers);
      assert plan[..0] == [];
      for i := 0 to |plan|
        invariant Consistent(r) && r.imagesRemoved == 0 && r.dryRun == dryRun
        invariant dryRun ==> containers == old(containers) && r.errors == 0 && r.details == ContainerItems(plan[..i])
        invariant !dryRun ==> r.details == ContainerItems(Filter(plan[..i], Allowed(refuses)))
        invariant !dryRun ==> r.errors == i - |Filter(plan[..i], Allowed(refuses))|
        invariant !dryRun ==> containers == Filter(old(containers), NotAmong(Filter(plan[..i], Allowed(refuses))))
      {
        var ok := true;
        assert plan[..i + 1] == plan[..i] + [plan[i]];
        if !dryRun {
          FilterStep(plan[..i], plan[i], Allowed(refuses));
          FilterNotAmongMore(old(containers), Filter(plan[..i], Allowed(refuses)), plan[i]);
          ok := RemoveContainer(plan[i]);
        }
        if ok {
          CountedConsistent(r, ContainerItem(plan[i]));
          r := Counted(r, ContainerItem(plan[i]));
        } else {
          r := r.(errors := r.errors + 1);
        }
      }
      assert plan[..|plan|] == plan;
    }

    method RemoveImages(plan: seq<Image>, before: Result) returns (r: Result)
      requires Consistent(before) && UniqueImages(images) && UniqueImages(plan) && forall img :: img in plan ==>
               img in images
      modifies this`images
      ensures Consistent(r) && r.dryRun == before.dryRun
      ensures r.dryRun ==> images == old(images) && r.errors == before.errors
                           && r.details == before.details + ImageItems(plan)
      ensures !r.dryRun ==> var imgs := Filter(plan, Yielding(refuses));
                && r.details == before.details + ImageItems(imgs) && r.errors == before.errors + |plan| - |imgs|
                && ImagesLeft(old(images), images, plan, refuses)
                && (imgs == plan ==> images == Filter(old(images), NotAmong(plan)))
    {
      r := before;
      FilterNotAmongNone(images);
      assert plan[..0] == [] && before.details + ImageItems([]) == before.details;
      ghost var original := images;
      for i := 0 to |plan|
        invariant Consistent(r) && r.dryRun == before.dryRun
        invariant r.dryRun ==> images == original && r.errors == before.errors
                               && r.details == before.details + ImageItems(plan[..i])
        invariant !r.dryRun ==>
                  Tallied(before, r, plan[..i], refuses) && ImagesLeft(original, images, plan[..i], refuses)
        invariant !r.dryRun && r.errors == before.errors ==> images == Filter(original, NotAmong(plan[..i]))
      {
        if r.dryRun {
          assert plan[..i + 1] == plan[..i] + [plan[i]];
          CountedConsistent(r, ImageItem(plan[i]));
          r := Counted(r, ImageItem(plan[i]));
        } else {
          r := RemoveNext(plan, i, r, before, original);
        }
      }
      assert plan[..|plan|] == plan;
      FilterLength(plan, Yielding(refuses));
    }

    method RemoveNext(plan: seq<Image>, i: nat, r: Result, ghost before: Result, ghost original: seq<Image>)
      returns (r': Result)
      requires i < |plan| && UniqueImages(original) && UniqueImages(plan) && forall img :: img in plan ==>
               img in original
      requires Consistent(r) && !r.dryRun && Tallied(before, r, plan[..i], refuses)
      requires ImagesLeft(original, images, plan[..i], refuses)
      requires r.errors == before.errors ==> images == Filter(original, NotAmong(plan[..i]))
      modifies this`images
      ensures Consistent(r') && !r'.dryRun && Tallied(before, r', plan[..i + 1], refuses)
      ensures ImagesLeft(original, images, plan[..i + 1], refuses)
      ensures r'.errors == before.errors ==> images == Filter(original, NotAmong(plan[..i + 1]))
    {
      ghost var was := images;
      assert plan[..i + 1] == plan[..i] + [plan[i]];
      FilterNotAmongMore(original, plan[..i], plan[i]);
      TallyMore(before, r, plan[..i], plan[i], refuses);
      var ok := RemoveImage(plan[i]);
      OneMoreTurn(original, was, images, plan, i, refuses);
      if ok {
        CountedConsistent(r, ImageItem(plan[i]));
        r' := Counted(r, ImageItem(plan[i]));
      } else {
        r' := r.(errors := r.errors + 1);
      }
    }

    /**
     Containers first, then images; a dry run only counts. An unavailable list is one error. From 0 to 10
     versions are kept as asked, ten if more are asked for, and one if the number is negative.
     */
    method Prune(requested: Options, listed: bool) returns (r: Result)
      requires UniqueImages(images)
      modifies this`containers, this`images
      ensures Consistent(r) && r.dryRun == requested.dryRun
      ensures !listed ==> r.errors == 1 && r.details == [] && containers == old(containers) && images == old(images)
      ensures listed && 0 <= requested.keepPrevious <= 10 ==>
                Pruned(requested, kept, refuses, old(containers), old(images), containers, images, r)
      ensures listed && requested.keepPrevious < 0 ==>
                Pruned(requested.(keepPrevious := 1), kept, refuses, old(containers), old(images), containers,
                    images, r)
      ensures listed && requested.keepPrevious > 10 ==>
                Pruned(requested.(keepPrevious := 10), kept, refuses, old(containers), old(images), containers,
                    images, r)
    {
      var opts := requested;
      if opts.keepPrevious < 0 {
        opts := opts.(keepPrevious := 1);
      }
      if opts.keepPrevious > MAX_KEEP_PREVIOUS {
        opts := opts.(keepPrevious := MAX_KEEP_PREVIOUS);
      }
      if !listed {
        return Result(opts.dryRun, 0, 0, 0, [], 1);
      }
      var plan := MakePlan(opts);
      PlannedAreUnique(images, Fixed(images, containers, opts, kept), opts.keepPrevious);
      r := RemoveContainers(plan.containers, opts.dryRun);
      r := RemoveImages(plan.images, r);
    }
  }

  /** The counts after these images of the plan had their turn. */
  ghost predicate Tallied(before: Result, r: Result, plan: seq<Image>, refuses: set<string>) {
    var imgs := Filter(plan, Yielding(refuses));
    r.details == before.details + ImageItems(imgs) && r.errors == before.errors + |plan| - |imgs|
  }

  lemma TallyMore(before: Result, r: Result, plan: seq<Image>, img: Image, refuses: set<string>)
    requires Tallied(before, r, plan, refuses)
    ensures r.errors >= before.errors
    ensures if GivesWay(img, refuses) then Tallied(before, Counted(r, ImageItem(img)), plan + [img], refuses)
            else Tallied(before, r.(errors := r.errors + 1), plan + [img], refuses)
  {
    FilterStep(plan, img, Yielding(refuses));
    FilterLength(plan, Yielding(refuses));
    ItemsMore(before.details, Filter(plan, Yielding(refuses)), img);
  }

  lemma ItemsMore(details: seq<Item>, imgs: seq<Image>, img: Image)
    ensures details + ImageItems(imgs + [img]) == details + ImageItems(imgs) + [ImageItem(img)]
  {}

  function Swapped(images: seq<Image>, img: Image, rest: Image): seq<Image> {
    seq(|images|, i requires 0 <= i < |images| => if images[i] == img then rest else images[i])
  }

  lemma SwappedForItself(images: seq<Image>, img: Image)
    ensures Swapped(images, img, img) == images && img.(tags := img.tags) == img
  {}

  lemma FilterStep<T(!new)>(s: seq<T>, x: T, p: T -> bool)
    ensures Filter(s + [x], p) == if p(x) then Filter(s, p) + [x] else Filter(s, p)
  {
    FilterConcat(s, [x], p);
    assert Filter([x], p) == if p(x) then [x] else [];
  }

  lemma PlannedAreUnique(images: seq<Image>, fixed: set<string>, keep: int)
    requires UniqueImages(images)
    ensures UniqueImages(Gone(NewestFirst(images), fixed, keep))
    ensures forall img :: img in Gone(NewestFirst(images), fixed, keep) ==> img in images
  {
    NewestFirstUnique(images);
    GoneUnique(NewestFirst(images), fixed, keep);
  }

  lemma {:induction false} GoneUnique(items: seq<Image>, fixed: set<string>, keep: int)
    requires UniqueImages(items)
    ensures UniqueImages(Gone(items, fixed, keep))
    ensures forall img :: img in Gone(items, fixed, keep) ==> img in items
  {
    if items != [] {
      var n := |items| - 1;
      var gone := Gone(items[..n], fixed, keep);
      GoneUnique(items[..n], fixed, keep);
      forall img | img in gone ensures img.id != items[n].id {
        var i :| 0 <= i < n && items[..n][i] == img;
        assert items[i] == img;
      }
    }
  }

  /** One more of the plan had its turn. */
  lemma OneMoreTurn(before: seq<Image>, was: seq<Image>, now: seq<Image>, plan: seq<Image>, i: nat,
      refuses: set<string>)
    requires UniqueImages(before) && UniqueImages(plan) && i < |plan| && forall img :: img in plan ==> img in before
    requires ImagesLeft(before, was, plan[..i], refuses)
    requires now == if GivesWay(plan[i], refuses) then Filter(was, NotAmong([plan[i]]))
                    else Swapped(was, plan[i], Rest(plan[i], refuses))
    ensures ImagesLeft(before, now, plan[..i + 1], refuses)
  {
    var img := plan[i];
    FilterMembers(was, NotAmong([img]));
    forall p | p in plan[..i] ensures p.id != img.id && Rest(p, refuses) != img {
      var k :| 0 <= k < i && plan[k] == p;
    }
    assert img in was;
    assert plan[..i + 1] == plan[..i] + [img];
    SwappedAre(was, img, Rest(img, refuses));
  }

  lemma SwappedAre(images: seq<Image>, img: Image, rest: Image)
    ensures forall x :: x in images && x != img ==> x in Swapped(images, img, rest)
    ensures img in images ==> rest in Swapped(images, img, rest)
    ensures forall x :: x in Swapped(images, img, rest) ==> x == rest || (x in images && x != img)
  {
    forall x | x in images ensures (if x == img then rest else x) in Swapped(images, img, rest) {
      var i :| 0 <= i < |images| && images[i] == x;
      assert Swapped(images, img, rest)[i] == if x == img then rest else x;
    }
  }

  /** Two prunes in a row: if the first met no error, the second finds nothing to do. */
  method PruneTwice(host: Host, opts: Options) returns (first: Result, second: Result)
    requires UniqueImages(host.images) && !opts.dryRun
    modifies host
    ensures first.errors == 0 ==> second.details == [] && second.errors == 0
  {
    ghost var containers, images := host.containers, host.images;
    first := host.Prune(opts, true);
    second := first;
    if first.errors == 0 {
      ghost var effective := if opts.keepPrevious < 0 then opts.(keepPrevious := 1)
                             else if opts.keepPrevious > 10 then opts.(keepPrevious := 10) else opts;
      ghost var plan := PlanOf(containers, images, effective, host.kept);
      AllAllowed(plan.containers, Allowed(host.refuses), plan.images, Yielding(host.refuses));
      PruneIsIdempotent(containers, images, effective, host.kept);
      RemainingContainers(containers, effective, host.kept);
      RemainingUnique(images, plan.images);
      second := host.Prune(opts, true);
    }
  }

  /** A filter that leaves as many leaves all. */
  lemma AllAllowed(cs: seq<Container>, p: Container -> bool, imgs: seq<Image>, q: Image -> bool)
    requires |cs| - |Filter(cs, p)| + |imgs| - |Filter(imgs, q)| == 0
    ensures Filter(cs, p) == cs && Filter(imgs, q) == imgs
  {
    FilterLength(cs, p);
    FilterLength(imgs, q);
  }

  lemma {:induction false} FilterLength<T(!new)>(s: seq<T>, p: T -> bool)
    ensures |Filter(s, p)| <= |s| && (|Filter(s, p)| == |s| ==> Filter(s, p) == s)
  {
    if s != [] { FilterLength(s[1..], p); }
  }

  lemma RemainingContainers(cs: seq<Container>, opts: Options, kept: Protection)
    ensures Filter(cs, NotAmong(Filter(cs, IsRemovable(opts, kept)))) == Filter(cs, NotRemovable(opts, kept))
  {
    FilterMembers(cs, IsRemovable(opts, kept));
    FilterExt(cs, NotAmong(Filter(cs, IsRemovable(opts, kept))), NotRemovable(opts, kept));
  }

  lemma RemainingUnique(images: seq<Image>, gone: seq<Image>)
    requires UniqueImages(images)
    ensures UniqueImages(Filter(images, NotAmong(gone)))
  {
    var rest := Filter(images, NotAmong(gone));
    FilterDistinct(images, NotAmong(gone));
    FilterMembers(images, NotAmong(gone));
    forall i, j | 0 <= i < j < |rest| ensures rest[i].id != rest[j].id {
      assert rest[i] in images && rest[j] in images && rest[i] != rest[j];
    }
  }
}
