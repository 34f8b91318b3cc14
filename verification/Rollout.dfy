/**
 From the controller's batches to what the agent does with them: the orders of updates, stops and
 starts that a set of containers with dependencies and priorities ends up with.
 */
module Rollout {
  import opened Options
  import opened Sorting
  import opened Orchestrator
  import opened UpdateBatches
  import opened AgentOrder

  const HEALTH_TIMEOUT := 120

  function DockerIds(cs: seq<Container>): (ids: seq<string>)
    ensures |ids| == |cs|
  {
    seq(|cs|, i requires 0 <= i < |cs| => cs[i].dockerId)
  }

  /** The batches as they are sent. */
  function Wire(batches: seq<Batch>): (wire: seq<WireBatch>)
    ensures |wire| == |batches|
  {
    seq(|batches|, i requires 0 <= i < |batches| =>
      WireBatch(DockerIds(batches[i].containers), batches[i].waitForHealthy, HEALTH_TIMEOUT))
  }

  /** Docker's identifiers are unique. */
  ghost predicate UniqueDockerIds(cs: seq<Container>) {
    forall c, d :: c in cs && d in cs && c.dockerId == d.dockerId ==> c == d
  }

  // ---------------------------------------------------------------- orders of containers and of identifiers

  lemma {:induction false} WireLists(batches: seq<Batch>)
    ensures AllIds(Wire(batches)) == DockerIds(Flatten(batches))
  {
    if batches != [] {
      var wire := Wire(batches);
      WireLists(batches[1..]);
      assert wire[1..] == Wire(batches[1..]);
      FirstBatch(wire);
      assert DockerIds(batches[0].containers + Flatten(batches[1..]))
          == DockerIds(batches[0].containers) + DockerIds(Flatten(batches[1..]));
    }
  }

  lemma IdIsListed(cs: seq<Container>, c: Container)
    requires c in cs
    ensures c.dockerId in DockerIds(cs)
  {
    var i :| 0 <= i < |cs| && cs[i] == c;
    assert DockerIds(cs)[i] == c.dockerId;
  }

  lemma IdsKeepOrder(cs: seq<Container>, d: Container, c: Container)
    requires UniqueDockerIds(cs) && d in cs && c in cs
    ensures Precedes(DockerIds(cs), d.dockerId, c.dockerId) <==> Precedes(cs, d, c)
  {
    var ids := DockerIds(cs);
    if Precedes(cs, d, c) {
      var i, j :| 0 <= i < j < |cs| && cs[i] == d && cs[j] == c;
      assert ids[i] == d.dockerId && ids[j] == c.dockerId;
    }
    if Precedes(ids, d.dockerId, c.dockerId) {
      var i, j :| 0 <= i < j < |ids| && ids[i] == d.dockerId && ids[j] == c.dockerId;
      assert cs[i] == d && cs[j] == c;
    }
  }

  lemma IdsAreDistinct(cs: seq<Container>)
    requires UniqueDockerIds(cs) && Distinct(cs)
    ensures Distinct(DockerIds(cs))
  {
    forall i, j | 0 <= i < j < |cs| ensures DockerIds(cs)[i] != DockerIds(cs)[j] {
      assert cs[i] in cs && cs[j] in cs;
    }
  }

  // ---------------------------------------------------------------- what was resolved

  /** `c` waits for `d`, and `d` not, over others, for `c`. */
  ghost predicate DependsOnly(all: seq<Container>, toUpdate: seq<Container>, c: Container, d: Container) {
    var names, nodes := NameMap(all), Nodes(toUpdate);
    Edge(names, nodes, c, d) && !Reaches(names, nodes, d, c)
  }

  /** Batches that slice what was sorted. */
  ghost predicate Sliced(sorted: seq<Container>, batches: seq<Batch>) {
    Slices(batches, sorted) && Covers(batches, sorted) && Distinct(sorted) && UniqueDockerIds(sorted)
  }

  /** The batches, and what they slice: dependencies on no cycle stand before their dependents. */
  ghost predicate Resolved(all: seq<Container>, toUpdate: seq<Container>, sorted: seq<Container>, batches: seq<Batch>) {
    && Sliced(sorted, batches)
    && forall c, d :: DependsOnly(all, toUpdate, c, d) ==> Precedes(sorted, d, c) && c.dockerId != d.dockerId
  }

  method Resolve(all: seq<Container>, requested: set<string>)
    returns (batches: seq<Batch>, ghost sorted: seq<Container>)
    requires UniqueIds(all) && UniqueDockerIds(all)
    ensures Resolved(all, ToUpdate(all, requested), sorted, batches) && WaitsBetween(batches)
  {
    batches, sorted := ResolveUpdateBatches(all, requested);
    var toUpdate := ToUpdate(all, requested);
    FilterMembers(all, IsRequested(requested));
    IdsIdentify(all);
    FilterDistinct(all, IsRequested(requested));
    DistinctFromMultiset(toUpdate, sorted);
    SameElements(toUpdate, sorted);
    assert Nodes(sorted) == Nodes(toUpdate);
    forall c, d | DependsOnly(all, toUpdate, c, d) ensures Precedes(sorted, d, c) && c.dockerId != d.dockerId {
      SortedFirst(NameMap(all), sorted, c, d);
      ReachesItself(NameMap(all), Nodes(toUpdate), c);
      assert c in sorted && d in sorted && c != d;
    }
  }

  /** The order in which everything is listed. */
  lemma AllListed(sorted: seq<Container>, batches: seq<Batch>)
    requires Sliced(sorted, batches)
    ensures AllIds(Wire(batches)) == DockerIds(Flatten(batches)) && Distinct(AllIds(Wire(batches)))
    ensures UniqueDockerIds(Flatten(batches)) && forall x :: x in sorted <==> x in Flatten(batches)
  {
    BatchesPartition(batches, sorted);
    SameElements(Flatten(batches), sorted);
    FlattenDistinct(batches, sorted);
    WireLists(batches);
    IdsAreDistinct(Flatten(batches));
  }

  /** Of two containers as sorted, the lower priority number goes first, and the first if they are equal. */
  lemma ListedByPriority(sorted: seq<Container>, batches: seq<Batch>, d: Container, c: Container)
    requires Sliced(sorted, batches) && Precedes(sorted, d, c)
    ensures c.dockerId in AllIds(Wire(batches)) && d.dockerId in AllIds(Wire(batches))
    ensures Precedes(AllIds(Wire(batches)), d.dockerId, c.dockerId) <==> d.priority <= c.priority
  {
    FlattenByPriority(batches, sorted, d, c);
    AllListed(sorted, batches);
    IdIsListed(Flatten(batches), c);
    IdIsListed(Flatten(batches), d);
    IdsKeepOrder(Flatten(batches), d, c);
  }

  // ---------------------------------------------------------------- updates

  /** The dependency comes first if its priority number is not higher, and last if it is. */
  ghost predicate ByPriority(updated: seq<string>, c: Container, d: Container) {
    if d.priority <= c.priority then c.dockerId in updated ==> Precedes(updated, d.dockerId, c.dockerId)
    else d.dockerId in updated ==> Precedes(updated, c.dockerId, d.dockerId)
  }

  /** What is updated of a list, as far as it is, without some others, is in its order. */
  lemma PartOfRest(ids: seq<string>, p: string -> bool, updated: seq<string>, early: string, late: string)
    requires Distinct(ids) && Precedes(ids, early, late) && p(early) && p(late) && updated <= Filter(ids, p)
    ensures late in updated ==> Precedes(updated, early, late)
    ensures updated == Filter(ids, p) ==> early in updated && late in updated
  {
    FilterDistinct(ids, p);
    FilterMembers(ids, p);
    FilterKeepsOrder(ids, p, early, late);
    var whole := Filter(ids, p);
    var i, j :| 0 <= i < j < |whole| && whole[i] == early && whole[j] == late;
    if late in updated {
      var k :| 0 <= k < |updated| && updated[k] == late;
      assert whole[k] == late;
      assert updated[i] == early && updated[j] == late;
    }
  }

  lemma UpdatedByPriority(sorted: seq<Container>, batches: seq<Batch>, p: string -> bool, updated: seq<string>,
                          d: Container, c: Container)
    requires Sliced(sorted, batches) && Precedes(sorted, d, c) && c.dockerId != d.dockerId
    requires p(c.dockerId) && p(d.dockerId) && updated <= Filter(AllIds(Wire(batches)), p)
    ensures ByPriority(updated, c, d)
    ensures updated == Filter(AllIds(Wire(batches)), p) ==> c.dockerId in updated && d.dockerId in updated
  {
    var ids := AllIds(Wire(batches));
    AllListed(sorted, batches);
    ListedByPriority(sorted, batches, d, c);
    EitherWay(ids, d.dockerId, c.dockerId);
    if d.priority <= c.priority {
      PartOfRest(ids, p, updated, d.dockerId, c.dockerId);
    } else {
      PartOfRest(ids, p, updated, c.dockerId, d.dockerId);
    }
  }

  /** Dependencies on no cycle go by priority, in a complete run and in one cut short. */
  ghost predicate AllByPriority(all: seq<Container>, toUpdate: seq<Container>, own: set<string>, updated: seq<string>,
                                complete: bool) {
    forall c, d :: DependsOnly(all, toUpdate, c, d) && c.dockerId !in own && d.dockerId !in own ==>
      ByPriority(updated, c, d) && (complete ==> c.dockerId in updated && d.dockerId in updated)
  }

  function AsSet(ids: seq<string>): set<string> {
    set id | id in ids
  }

  /**
   The controller resolves the batches and sends them, or, if there is but one, just its containers;
   the agent carries out what it is sent, itself last of all.
   */
  method ExecuteOrchestratedUpdate(all: seq<Container>, containerIds: seq<string>, own: set<string>, deadline: nat)
    returns (log: seq<Action>, self: Option<string>, complete: bool, ghost sent: seq<Batch>)
    requires UniqueIds(all) && UniqueDockerIds(all)
    ensures complete <==> |sent| <= deadline + 1
    ensures AllByPriority(all, ToUpdate(all, AsSet(containerIds)), own, Updated(log), complete)
    ensures complete && self.Some? ==> log != [] && log[|log| - 1] == SelfUpdate(self.value)
  {
    var batches;
    ghost var sorted;
    batches, sorted := Resolve(all, AsSet(containerIds));
    ghost var toUpdate := ToUpdate(all, AsSet(containerIds));
    sent := batches;
    if |batches| <= 1 {
      var ids := if |batches| == 1 then DockerIds(batches[0].containers) else containerIds;
      log, self := UpdateAll(ids, own);
      complete := true;
      UpdatedByUpdateAll(ids, own);
      PlainInOrder(all, toUpdate, sorted, batches, own, Updated(log), ids);
    } else {
      log, self, complete := SendBatches(all, toUpdate, sorted, batches, own, deadline);
    }
  }

  method SendBatches(ghost all: seq<Container>, ghost toUpdate: seq<Container>, ghost sorted: seq<Container>,
                     batches: seq<Batch>, own: set<string>, deadline: nat)
    returns (log: seq<Action>, self: Option<string>, complete: bool)
    requires Resolved(all, toUpdate, sorted, batches) && WaitsBetween(batches)
    ensures complete <==> |batches| <= deadline + 1
    ensures AllByPriority(all, toUpdate, own, Updated(log), complete)
    ensures complete && self.Some? ==> log != [] && log[|log| - 1] == SelfUpdate(self.value)
  {
    forall i | 0 <= i < |batches| ensures WaitsAfter(Wire(batches), i) <==> i < |batches| - 1 {}
    log, self, complete := UpdateSequential(Wire(batches), own, deadline);
    LastOwnIsOwn(AllIds(Wire(batches)), own);
    if complete {
      UpdatedInAll(Wire(batches), self);
    } else {
      var i :| 0 <= i < |batches|
               && log == UpTo(Wire(batches), self, i) + Updates(Wire(batches)[i].containerIds, self);
      UpdatedWhenCut(Wire(batches), self, i);
    }
    SequentialInOrder(all, toUpdate, sorted, batches, own, Updated(log), self, complete);
  }

  lemma PlainInOrder(all: seq<Container>, toUpdate: seq<Container>, sorted: seq<Container>, batches: seq<Batch>,
                     own: set<string>, updated: seq<string>, ids: seq<string>)
    requires Resolved(all, toUpdate, sorted, batches) && |batches| <= 1
    requires |batches| == 1 ==> ids == DockerIds(batches[0].containers)
    requires updated == Filter(ids, NotOwn(own))
    ensures AllByPriority(all, toUpdate, own, updated, true)
  {
    forall c, d | DependsOnly(all, toUpdate, c, d) && c.dockerId !in own && d.dockerId !in own
      ensures ByPriority(updated, c, d) && c.dockerId in updated && d.dockerId in updated
    {
      assert c in sorted;
      assert |batches| == 1;
      OneBatch(batches);
      UpdatedByPriority(sorted, batches, NotOwn(own), updated, d, c);
    }
  }

  lemma OneBatch(batches: seq<Batch>)
    requires |batches| == 1
    ensures AllIds(Wire(batches)) == DockerIds(batches[0].containers)
  {
    FirstBatch(Wire(batches));
    assert Wire(batches)[1..] == [];
  }

  lemma SequentialInOrder(all: seq<Container>, toUpdate: seq<Container>, sorted: seq<Container>, batches: seq<Batch>,
                          own: set<string>, updated: seq<string>, self: Option<string>, complete: bool)
    requires Resolved(all, toUpdate, sorted, batches) && (self.Some? ==> self.value in own)
    requires updated <= Filter(AllIds(Wire(batches)), NotSelf(self))
    requires complete ==> updated == Filter(AllIds(Wire(batches)), NotSelf(self))
    ensures AllByPriority(all, toUpdate, own, updated, complete)
  {
    forall c, d | DependsOnly(all, toUpdate, c, d) && c.dockerId !in own && d.dockerId !in own
      ensures ByPriority(updated, c, d) && (complete ==> c.dockerId in updated && d.dockerId in updated)
    {
      UpdatedByPriority(sorted, batches, NotSelf(self), updated, d, c);
    }
  }

  /** Between any two batches the agent waits two minutes, or as long for each container to be healthy. */
  lemma WaitsTwoMinutes(batches: seq<Batch>, i: nat)
    requires WaitsBetween(batches) && i < |batches|
    ensures WaitAfter(Wire(batches), i) == if i < |batches| - 1 then [Wait(120)] else []
    ensures |HealthAfter(Wire(batches), i)| == if i < |batches| - 1 then |batches[i].containers| else 0
    ensures forall j :: 0 <= j < |HealthAfter(Wire(batches), i)| ==>
              HealthAfter(Wire(batches), i)[j] == AwaitHealthy(batches[i].containers[j].dockerId, 120)
  {
    WaitIsAsAsked(Wire(batches), i);
    HealthIsAwaited(Wire(batches), i);
  }

  // ---------------------------------------------------------------- restarts

  /** The batches that list a dependency and its dependent. */
  lemma BatchOf(sorted: seq<Container>, batches: seq<Batch>, c: Container) returns (i: nat)
    requires Slices(batches, sorted) && Covers(batches, sorted) && c in sorted
    ensures InBatch(Wire(batches), i, c.dockerId) && batches[i].priority == c.priority
    ensures c in batches[i].containers
  {
    i :| 0 <= i < |batches| && batches[i].priority == c.priority;
    FilterMembers(sorted, HasPriority(c.priority));
    IdIsListed(batches[i].containers, c);
  }

  /**
   In a restart of what was sorted, the second is stopped first exactly if the priority number of the
   first is lower, and the first is started first exactly if it is not higher.
   */
  lemma RestartedByPriority(sorted: seq<Container>, batches: seq<Batch>, d: Container, c: Container)
    requires Sliced(sorted, batches) && Precedes(sorted, d, c) && c.dockerId != d.dockerId
    ensures if d.priority < c.priority then Before(AllIdsBackwards(Wire(batches)), c.dockerId, d.dockerId)
            else Before(AllIdsBackwards(Wire(batches)), d.dockerId, c.dockerId)
    ensures if d.priority <= c.priority then Before(AllIds(Wire(batches)), d.dockerId, c.dockerId)
            else Before(AllIds(Wire(batches)), c.dockerId, d.dockerId)
  {
    StoppedByPriority(sorted, batches, d, c);
    AllListed(sorted, batches);
    ListedByPriority(sorted, batches, d, c);
    var ids, backwards := AllIds(Wire(batches)), AllIdsBackwards(Wire(batches));
    SameContainers(Wire(batches));
    DistinctFromMultiset(ids, backwards);
    SameElements(ids, backwards);
    BeforeOrAfter(ids, d.dockerId, c.dockerId);
    BeforeOrAfter(backwards, d.dockerId, c.dockerId);
  }

  ghost predicate Before(ids: seq<string>, x: string, y: string) {
    Precedes(ids, x, y) && !Precedes(ids, y, x)
  }

  lemma BeforeOrAfter(ids: seq<string>, x: string, y: string)
    requires Distinct(ids) && x in ids && y in ids && x != y
    ensures Before(ids, x, y) <==> Precedes(ids, x, y)
    ensures Before(ids, y, x) <==> !Precedes(ids, x, y)
  {
    EitherWay(ids, x, y);
    if Precedes(ids, x, y) { PrecedesIsStrict(ids, x, y); } else { PrecedesIsStrict(ids, y, x); }
  }

  lemma StoppedByPriority(sorted: seq<Container>, batches: seq<Batch>, d: Container, c: Container)
    requires Sliced(sorted, batches) && Precedes(sorted, d, c) && c.dockerId != d.dockerId
    ensures Precedes(AllIdsBackwards(Wire(batches)), c.dockerId, d.dockerId) <==> d.priority < c.priority
  {
    AllListed(sorted, batches);
    ListedByPriority(sorted, batches, d, c);
    var i := BatchOf(sorted, batches, d);
    var j := BatchOf(sorted, batches, c);
    StopsDependentFirst(Wire(batches), i, j, d.dockerId, c.dockerId);
    if d.priority == c.priority {
      assert i == j;
      assert Precedes(Wire(batches)[i].containerIds, d.dockerId, c.dockerId);
      IdsOfBatch(sorted, batches, i);
      PrecedesIsStrict(Wire(batches)[i].containerIds, d.dockerId, c.dockerId);
    } else {
      assert i < j <==> d.priority < c.priority;
    }
  }

  lemma IdsOfBatch(sorted: seq<Container>, batches: seq<Batch>, i: nat)
    requires Slices(batches, sorted) && Distinct(sorted) && UniqueDockerIds(sorted) && i < |batches|
    ensures Distinct(Wire(batches)[i].containerIds)
  {
    var here := HasPriority(batches[i].priority);
    FilterDistinct(sorted, here);
    FilterMembers(sorted, here);
    IdsAreDistinct(batches[i].containers);
  }

  /** RESTART_UNHEALTHY, from the request to the agent's log. */
  method RestartUnhealthySet(all: seq<Container>, expandedIds: set<string>) returns (log: seq<Action>)
    requires UniqueIds(all) && UniqueDockerIds(all)
    ensures forall c, d :: DependsOnly(all, ToUpdate(all, expandedIds), c, d) ==>
              && (if d.priority < c.priority then Before(Stopped(log), c.dockerId, d.dockerId)
                  else Before(Stopped(log), d.dockerId, c.dockerId))
              && (if d.priority <= c.priority then Before(Started(log), d.dockerId, c.dockerId)
                  else Before(Started(log), c.dockerId, d.dockerId))
  {
    ghost var toUpdate := ToUpdate(all, expandedIds);
    var batches;
    ghost var sorted;
    batches, sorted := Resolve(all, expandedIds);
    if |batches| == 0 {
      log := [];
      NothingResolved(all, toUpdate, sorted);
      return;
    }
    log := RestartUnhealthy(Wire(batches));
    RestartsAll(Wire(batches));
    forall c, d | DependsOnly(all, toUpdate, c, d)
      ensures if d.priority < c.priority then Before(Stopped(log), c.dockerId, d.dockerId)
              else Before(Stopped(log), d.dockerId, c.dockerId)
      ensures if d.priority <= c.priority then Before(Started(log), d.dockerId, c.dockerId)
              else Before(Started(log), c.dockerId, d.dockerId)
    {
      RestartedByPriority(sorted, batches, d, c);
    }
  }

  lemma NothingResolved(all: seq<Container>, toUpdate: seq<Container>, sorted: seq<Container>)
    requires Resolved(all, toUpdate, sorted, [])
    ensures forall c, d :: !DependsOnly(all, toUpdate, c, d)
  {
    forall c, d | DependsOnly(all, toUpdate, c, d) ensures false {
      assert false;
    }
  }

  /** So a container whose dependency has a higher priority number is stopped after it, and started before it. */
  method LateRestart(c: Container, d: Container) returns (log: seq<Action>)
    requires c.id != d.id && c.dockerId != d.dockerId && c.name != d.name && d.priority > c.priority
    requires c.dependsOn == DependsOn.Listed([d.name]) && d.dependsOn == Absent
    ensures Before(Stopped(log), d.dockerId, c.dockerId) && Before(Started(log), c.dockerId, d.dockerId)
  {
    log := RestartUnhealthySet([c, d], {c.id, d.id});
    BothRequested(c, d);
    OneDependsOnOther(c, d);
    assert DependsOnly([c, d], ToUpdate([c, d], {c.id, d.id}), c, d);
  }
}
