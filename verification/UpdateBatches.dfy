/**
 From the sorted containers to batches, and from batches to what the agent does with them.
 */
module UpdateBatches {
  import opened Orchestrator
  import opened Sorting

  predicate Requested(c: Container, requested: set<string>) {
    c.dockerId in requested || c.id in requested
  }

  function IsRequested(requested: set<string>): Container -> bool {
    (c: Container) => Requested(c, requested)
  }

  function ToUpdate(all: seq<Container>, requested: set<string>): seq<Container> {
    Filter(all, IsRequested(requested))
  }

  /** A container is named by its row's identifier or by Docker's. */
  lemma ToUpdateAre(all: seq<Container>, requested: set<string>, c: Container)
    ensures c in ToUpdate(all, requested) <==> c in all && (c.id in requested || c.dockerId in requested)
  {
    FilterMembers(all, IsRequested(requested));
  }

  predicate HasLabels(cs: seq<Container>) {
    exists c :: c in cs && (c.priority != 100 || !c.dependsOn.Absent?)
  }

  function HasPriority(priority: int): Container -> bool {
    (c: Container) => c.priority == priority
  }

  function OfPriority(sorted: seq<Container>, priority: int): seq<Container> {
    Filter(sorted, HasPriority(priority))
  }

  lemma OfPriorityMore(sorted: seq<Container>, c: Container, priority: int)
    ensures OfPriority(sorted + [c], priority) == OfPriority(sorted, priority)
            + (if c.priority == priority then [c] else [])
  {
    FilterConcat(sorted, [c], HasPriority(priority));
    assert Filter([c], HasPriority(priority)) == if c.priority == priority then [c] else [];
  }

  /** Each batch is the part of `sorted` that has its priority; lower priorities come first. */
  ghost predicate Slices(batches: seq<Batch>, sorted: seq<Container>) {
    && (forall i :: 0 <= i < |batches| ==> batches[i].containers == OfPriority(sorted, batches[i].priority))
    && (forall i, j :: 0 <= i < j < |batches| ==> batches[i].priority < batches[j].priority)
  }

  ghost predicate Covers(batches: seq<Batch>, sorted: seq<Container>) {
    && (forall c :: c in sorted ==> exists i :: 0 <= i < |batches| && batches[i].priority == c.priority)
    && (forall i :: 0 <= i < |batches| ==> batches[i].containers != [])
  }

  /** Only the last batch is not waited for. */
  ghost predicate WaitsBetween(batches: seq<Batch>) {
    forall i :: 0 <= i < |batches| ==> (batches[i].waitForHealthy <==> i < |batches| - 1)
  }

  /** The order in which the agent goes through the batches. */
  function Flatten(batches: seq<Batch>): seq<Container> {
    if batches == [] then [] else batches[0].containers + Flatten(batches[1..])
  }

  method ResolveUpdateBatches(all: seq<Container>, requested: set<string>)
      returns (batches: seq<Batch>, ghost sorted: seq<Container>)
    requires UniqueIds(all)
    ensures ToUpdate(all, requested) == [] ==> batches == []
    ensures ToUpdate(all, requested) != [] && !HasLabels(ToUpdate(all, requested)) ==>
              batches == [Batch(ToUpdate(all, requested), 100, false)]
    ensures multiset(sorted) == multiset(ToUpdate(all, requested))
    ensures Ordered(NameMap(all), Nodes(ToUpdate(all, requested)), sorted)
    ensures Slices(batches, sorted) && Covers(batches, sorted) && WaitsBetween(batches)
  {
    var toUpdate := ToUpdate(all, requested);
    FilterMembers(all, IsRequested(requested));
    IdsIdentify(all);
    FilterDistinct(all, IsRequested(requested));
    sorted := toUpdate;
    if toUpdate == [] {
      return [], [];
    }
    if !HasLabels(toUpdate) {
      AllOfPriority(toUpdate, 100);
      batches := [Batch(toUpdate, 100, false)];
      assert batches[0].priority == 100;
      return;
    }
    var order := TopologicalSort(toUpdate, all);
    batches := GroupByPriority(order);
    sorted := order;
  }

  lemma {:induction false} AllOfPriority(cs: seq<Container>, priority: int)
    requires forall c :: c in cs ==> c.priority == priority
    ensures OfPriority(cs, priority) == cs
  {
    if cs != [] { AllOfPriority(cs[1..], priority); }
  }

  /** The map holds each priority's containers, in order, and `order` lists its keys. */
  ghost predicate Fills(batchMap: map<int, seq<Container>>, order: seq<int>, sorted: seq<Container>) {
    && Distinct(order) && (forall p :: p in order <==> p in batchMap)
    && (forall p :: p in batchMap ==> batchMap[p] == OfPriority(sorted, p) && batchMap[p] != [])
    && (forall p :: p !in batchMap ==> OfPriority(sorted, p) == [])
  }

  function Filled(batchMap: map<int, seq<Container>>, c: Container): map<int, seq<Container>> {
    batchMap[c.priority := (if c.priority in batchMap then batchMap[c.priority] else []) + [c]]
  }

  lemma FillsMore(batchMap: map<int, seq<Container>>, order: seq<int>, sorted: seq<Container>, c: Container)
    requires Fills(batchMap, order, sorted)
    ensures Fills(Filled(batchMap, c), if c.priority in batchMap then order else order + [c.priority], sorted + [c])
  {
    var more := Filled(batchMap, c);
    forall p | p in more ensures more[p] == OfPriority(sorted + [c], p) && more[p] != [] {
      OfPriorityMore(sorted, c, p);
    }
    forall p | p !in more ensures OfPriority(sorted + [c], p) == [] {
      OfPriorityMore(sorted, c, p);
    }
  }

  method FillBatchMap(sorted: seq<Container>) returns (batchMap: map<int, seq<Container>>, order: seq<int>)
    ensures Fills(batchMap, order, sorted)
  {
    batchMap, order := map[], [];
    for i := 0 to |sorted|
      invariant Fills(batchMap, order, sorted[..i])
    {
      var c := sorted[i];
      assert sorted[..i + 1] == sorted[..i] + [c];
      FillsMore(batchMap, order, sorted[..i], c);
      ghost var next := Filled(batchMap, c);
      if c.priority !in batchMap {
        batchMap := batchMap[c.priority := []];
        order := order + [c.priority];
      }
      batchMap := batchMap[c.priority := batchMap[c.priority] + [c]];
      assert batchMap == next;
    }
    assert sorted[..|sorted|] == sorted;
  }

  function AsIs(): int -> int {
    (p: int) => p
  }

  /** Filling the map of batches, then listing it by priority. */
  method GroupByPriority(sorted: seq<Container>) returns (batches: seq<Batch>)
    ensures Slices(batches, sorted) && Covers(batches, sorted) && WaitsBetween(batches)
  {
    var batchMap, order := FillBatchMap(sorted);
    var keys := StableSort(order, AsIs());
    KeysAscend(batchMap, order, sorted);
    batches := ListBatches(batchMap, keys);
    ListedAreSlices(batchMap, order, keys, sorted, batches);
  }

  /** The keys of the map, in ascending order. */
  ghost predicate ListsKeys(keys: seq<int>, batchMap: map<int, seq<Container>>) {
    && (forall i :: 0 <= i < |keys| ==> keys[i] in batchMap)
    && (forall p :: p in batchMap ==> p in keys)
    && (forall i, j :: 0 <= i < j < |keys| ==> keys[i] < keys[j])
  }

  lemma KeysAscend(batchMap: map<int, seq<Container>>, order: seq<int>, sorted: seq<Container>)
    requires Fills(batchMap, order, sorted)
    ensures ListsKeys(StableSort(order, AsIs()), batchMap)
  {
    var keys := StableSort(order, AsIs());
    KeysRise(order);
    SameElements(order, keys);
    forall p ensures p in keys <==> p in batchMap {
      assert p in keys <==> p in order;
      assert p in order <==> p in batchMap;
    }
  }

  lemma KeysRise(order: seq<int>)
    requires Distinct(order)
    ensures
      var keys := StableSort(order, AsIs());
      forall i, j :: 0 <= i < j < |keys| ==> keys[i] < keys[j]
  {
    var keys := StableSort(order, AsIs());
    StableSortAscends(order, AsIs());
    DistinctFromMultiset(order, keys);
    forall i, j | 0 <= i < j < |keys| ensures keys[i] < keys[j] {
      assert AsIs()(keys[i]) <= AsIs()(keys[j]);
    }
  }

  ghost predicate Listed(batches: seq<Batch>, batchMap: map<int, seq<Container>>, keys: seq<int>)
    requires ListsKeys(keys, batchMap)
  {
    && |batches| == |keys|
    && forall k :: 0 <= k < |keys| ==> batches[k] == Batch(batchMap[keys[k]], keys[k], k < |keys| - 1)
  }

  method ListBatches(batchMap: map<int, seq<Container>>, keys: seq<int>) returns (batches: seq<Batch>)
    requires ListsKeys(keys, batchMap)
    ensures Listed(batches, batchMap, keys)
  {
    batches := [];
    for i := 0 to |keys|
      invariant |batches| == i
      invariant forall k :: 0 <= k < i ==> batches[k] == Batch(batchMap[keys[k]], keys[k], k < |keys| - 1)
    {
      batches := batches + [Batch(batchMap[keys[i]], keys[i], i < |keys| - 1)];
    }
  }

  lemma ListedAreSlices(batchMap: map<int, seq<Container>>, order: seq<int>, keys: seq<int>, sorted: seq<Container>,
                        batches: seq<Batch>)
    requires Fills(batchMap, order, sorted) && ListsKeys(keys, batchMap) && Listed(batches, batchMap, keys)
    ensures Slices(batches, sorted) && Covers(batches, sorted) && WaitsBetween(batches)
  {
    forall i | 0 <= i < |batches|
      ensures batches[i].containers == OfPriority(sorted, batches[i].priority) && batches[i].containers != []
    {
      assert keys[i] in batchMap;
    }
    forall c | c in sorted ensures exists i :: 0 <= i < |batches| && batches[i].priority == c.priority {
      FilterMembers(sorted, HasPriority(c.priority));
      assert c in OfPriority(sorted, c.priority);
      var i :| 0 <= i < |keys| && keys[i] == c.priority;
      assert batches[i].priority == c.priority;
    }
  }

  // ---------------------------------------------------------------- what the batches amount to

  lemma {:induction false} FlattenMembers(batches: seq<Batch>, sorted: seq<Container>, c: Container)
    requires Slices(batches, sorted)
    ensures c in Flatten(batches) <==>
            c in sorted && exists i :: 0 <= i < |batches| && batches[i].priority == c.priority
  {
    if batches != [] {
      FilterMembers(sorted, HasPriority(batches[0].priority));
      FlattenMembers(batches[1..], sorted, c);
      assert forall i :: 0 <= i < |batches| - 1 ==> batches[1..][i] == batches[i + 1];
    }
  }

  lemma {:induction false} FlattenDistinct(batches: seq<Batch>, sorted: seq<Container>)
    requires Slices(batches, sorted) && Distinct(sorted)
    ensures Distinct(Flatten(batches))
  {
    if batches != [] {
      var head, rest := batches[0].containers, Flatten(batches[1..]);
      FilterDistinct(sorted, HasPriority(batches[0].priority));
      FlattenDistinct(batches[1..], sorted);
      FilterMembers(sorted, HasPriority(batches[0].priority));
      forall c | c in rest ensures c !in head {
        FlattenMembers(batches[1..], sorted, c);
      }
      DistinctConcat(head, rest);
    }
  }

  lemma DistinctConcat(a: seq<Container>, b: seq<Container>)
    requires Distinct(a) && Distinct(b) && forall c :: c in b ==> c !in a
    ensures Distinct(a + b)
  {
    forall i, j | 0 <= i < j < |a + b| ensures (a + b)[i] != (a + b)[j] {
      if i < |a| <= j { assert b[j - |a|] in b; }
    }
  }

  /** The batches partition what is to be updated. */
  lemma BatchesPartition(batches: seq<Batch>, sorted: seq<Container>)
    requires Slices(batches, sorted) && Covers(batches, sorted) && Distinct(sorted)
    ensures multiset(Flatten(batches)) == multiset(sorted)
  {
    forall c ensures c in Flatten(batches) <==> c in sorted {
      FlattenMembers(batches, sorted, c);
    }
    FlattenDistinct(batches, sorted);
    DistinctMultiset(Flatten(batches), sorted);
  }

  lemma {:induction false} FlattenOrder(batches: seq<Batch>, sorted: seq<Container>, d: Container, c: Container)
    requires Slices(batches, sorted) && d in Flatten(batches) && c in Flatten(batches)
    requires d.priority < c.priority || (d.priority == c.priority && Precedes(sorted, d, c))
    ensures Precedes(Flatten(batches), d, c)
  {
    var head, rest := batches[0].containers, Flatten(batches[1..]);
    var here := HasPriority(batches[0].priority);
    FilterMembers(sorted, here);
    FlattenMembers(batches[1..], sorted, c);
    FlattenMembers(batches[1..], sorted, d);
    if d in rest {
      FlattenOrder(batches[1..], sorted, d, c);
    } else if c !in rest {
      FilterKeepsOrder(sorted, here, d, c);
    }
    PrecedesInConcat(head, rest, d, c);
  }

  /** Of two containers in the order of the sort, the second goes first exactly when its priority number is lower. */
  lemma FlattenByPriority(batches: seq<Batch>, sorted: seq<Container>, d: Container, c: Container)
    requires Slices(batches, sorted) && Covers(batches, sorted) && Distinct(sorted) && Precedes(sorted, d, c)
    ensures Precedes(Flatten(batches), d, c) <==> d.priority <= c.priority
  {
    BatchesPartition(batches, sorted);
    SameElements(Flatten(batches), sorted);
    FlattenDistinct(batches, sorted);
    if d.priority <= c.priority {
      FlattenOrder(batches, sorted, d, c);
    } else {
      FlattenOrder(batches, sorted, c, d);
      PrecedesIsStrict(Flatten(batches), c, d);
    }
  }

  /** A dependency on no cycle is sorted before its dependent. */
  lemma SortedFirst(names: map<string, Container>, sorted: seq<Container>, c: Container, d: Container)
    requires Ordered(names, Nodes(sorted), sorted) && Edge(names, Nodes(sorted), c, d)
    requires !Reaches(names, Nodes(sorted), d, c)
    ensures Precedes(sorted, d, c)
  {
    var i :| 0 <= i < |sorted| && sorted[i] == c;
    assert d in sorted[..i];
    var j :| 0 <= j < i && sorted[j] == d;
  }

  /**
   So it is updated before its dependent exactly when its priority number is not higher: a higher one
   puts it in a later batch.
   */
  lemma DependencyFirst(names: map<string, Container>, sorted: seq<Container>, batches: seq<Batch>)
    requires Ordered(names, Nodes(sorted), sorted) && Distinct(sorted)
    requires Slices(batches, sorted) && Covers(batches, sorted)
    ensures forall c, d :: Edge(names, Nodes(sorted), c, d) && !Reaches(names, Nodes(sorted), d, c) ==>
              (Precedes(Flatten(batches), d, c) <==> d.priority <= c.priority)
  {
    forall c, d | Edge(names, Nodes(sorted), c, d) && !Reaches(names, Nodes(sorted), d, c)
      ensures Precedes(Flatten(batches), d, c) <==> d.priority <= c.priority
    {
      SortedFirst(names, sorted, c, d);
      FlattenByPriority(batches, sorted, d, c);
    }
  }

  /** So of two containers the dependency is updated last, if it has the higher priority number. */
  method LateDependency(c: Container, d: Container) returns (batches: seq<Batch>)
    requires c.id != d.id && c.name != d.name && c.dependsOn == DependsOn.Listed([d.name]) && d.dependsOn == Absent
    requires d.priority > c.priority
    ensures c in Flatten(batches) && d in Flatten(batches) && !Precedes(Flatten(batches), d, c)
  {
    ghost var sorted;
    batches, sorted := ResolveUpdateBatches([c, d], {c.id, d.id});
    BothRequested(c, d);
    OneDependsOnOther(c, d);
    SameElements([c, d], sorted);
    assert Nodes(sorted) == Nodes([c, d]);
    DistinctFromMultiset([c, d], sorted);
    SortedFirst(NameMap([c, d]), sorted, c, d);
    FlattenByPriority(batches, sorted, d, c);
    FlattenAll(batches, sorted);
  }

  lemma FlattenAll(batches: seq<Batch>, sorted: seq<Container>)
    requires Slices(batches, sorted) && Covers(batches, sorted) && Distinct(sorted)
    ensures forall c :: c in Flatten(batches) <==> c in sorted
  {
    BatchesPartition(batches, sorted);
    SameElements(Flatten(batches), sorted);
  }

  lemma OneDependsOnOther(c: Container, d: Container)
    requires c.name != d.name && c.dependsOn == DependsOn.Listed([d.name]) && d.dependsOn == Absent
    ensures Edge(NameMap([c, d]), Nodes([c, d]), c, d) && !Reaches(NameMap([c, d]), Nodes([c, d]), d, c)
    ensures Distinct([c, d])
  {
    TwoNames(c, d);
    assert d.name in c.dependsOn.names;
    NoWayBack(NameMap([c, d]), Nodes([c, d]), d, c);
  }

  lemma BothRequested(c: Container, d: Container)
    ensures ToUpdate([c, d], {c.id, d.id}) == [c, d]
  {
    var all := IsRequested({c.id, d.id});
    assert [c, d][1..] == [d] && [d][1..] == [];
    assert Filter([d], all) == [d];
  }

  lemma TwoNames(c: Container, d: Container)
    requires c.name != d.name
    ensures NameMap([c, d]) == map[c.name := c, d.name := d]
  {
    assert [c, d][..1] == [c] && [c][..0] == [];
    assert NameMap([c]) == map[c.name := c];
  }

  /** What depends on nothing leads nowhere. */
  lemma NoWayBack(names: map<string, Container>, nodes: set<Container>, d: Container, c: Container)
    requires d.dependsOn == Absent && d != c
    ensures !Reaches(names, nodes, d, c)
  {
    forall p | Path(names, nodes, p) && p[0] == d ensures p[|p| - 1] != c {
      assert |p| > 1 ==> Edge(names, nodes, p[0], p[1]);
    }
  }
}
