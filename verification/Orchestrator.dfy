/**
 The order in which the controller has the containers of an agent updated: a depth-first
 post-order over `depends_on`, regrouped into batches by priority.
 */
module Orchestrator {
  import opened Sorting

  /** The `depends_on` column: a JSON list of container names, something else, or nothing. */
  datatype DependsOn = Absent | Malformed | Listed(names: seq<string>)

  datatype Container = Container(id: string, dockerId: string, name: string, priority: int, dependsOn: DependsOn)

  datatype Batch = Batch(containers: seq<Container>, priority: int, waitForHealthy: bool)

  /** Row identifiers are unique. */
  ghost predicate UniqueIds(cs: seq<Container>) {
    forall i, j :: 0 <= i < j < |cs| ==> cs[i].id != cs[j].id
  }

  // ---------------------------------------------------------------- the dependency graph

  /** A name stands for the last container listed under it. */
  function NameMap(cs: seq<Container>): map<string, Container> {
    if cs == [] then map[] else NameMap(cs[..|cs| - 1])[cs[|cs| - 1].name := cs[|cs| - 1]]
  }

  /** `c` waits for `d`, both being updated. */
  predicate Edge(names: map<string, Container>, nodes: set<Container>, c: Container, d: Container) {
    c in nodes && d in nodes && c.dependsOn.Listed? && exists n :: n in c.dependsOn.names && n in names && names[n] == d
  }

  ghost predicate Path(names: map<string, Container>, nodes: set<Container>, p: seq<Container>) {
    p != [] && forall i :: 0 <= i < |p| - 1 ==> Edge(names, nodes, p[i], p[i + 1])
  }

  /** Following dependencies leads from `c` to `d`; in no step to itself. */
  ghost predicate Reaches(names: map<string, Container>, nodes: set<Container>, c: Container, d: Container) {
    exists p :: Path(names, nodes, p) && p[0] == c && p[|p| - 1] == d
  }

  lemma ReachesItself(names: map<string, Container>, nodes: set<Container>, c: Container)
    ensures Reaches(names, nodes, c, c)
  {
    assert Path(names, nodes, [c]);
  }

  lemma ReachesFurther(names: map<string, Container>, nodes: set<Container>, c: Container, d: Container, e: Container)
    requires Reaches(names, nodes, c, d) && Edge(names, nodes, d, e)
    ensures Reaches(names, nodes, c, e)
  {
    var p :| Path(names, nodes, p) && p[0] == c && p[|p| - 1] == d;
    var q := p + [e];
    assert Path(names, nodes, q);
  }

  lemma AllReachFurther(names: map<string, Container>, nodes: set<Container>, open: set<Container>, c: Container,
      d: Container)
    requires Edge(names, nodes, c, d) && forall o :: o in open ==> Reaches(names, nodes, o, c)
    ensures forall o :: o in open ==> Reaches(names, nodes, o, d)
  {
    forall o | o in open ensures Reaches(names, nodes, o, d) {
      ReachesFurther(names, nodes, o, c, d);
    }
  }

  /** Everybody stands after what it waits for, except where the dependency leads back. */
  ghost predicate Ordered(names: map<string, Container>, nodes: set<Container>, result: seq<Container>) {
    forall i, d :: 0 <= i < |result| && Edge(names, nodes, result[i], d) ==>
      d in result[..i] || Reaches(names, nodes, d, result[i])
  }

  // ---------------------------------------------------------------- the traversal

  /** The state that `visit` closes over: `names` and `ids` are fixed, `visited` and `result` grow. */
  class Sorter {
    const names: map<string, Container>
    const ids: set<string>
    ghost const nodes: set<Container>  // the containers to update
    var visited: set<string>
    var result: seq<Container>

    constructor (names: map<string, Container>, ids: set<string>, ghost nodes: set<Container>)
      ensures this.names == names && this.ids == ids && this.nodes == nodes && visited == {} && result == []
    {
      this.names, this.ids, this.nodes, visited, result := names, ids, nodes, {}, [];
    }

    /** `open` are the containers whose visit is under way. */
    ghost predicate Valid(open: set<Container>)
      reads this
    {
      && (forall c, d :: c in nodes && d in nodes && c.id == d.id ==> c == d)
      && (forall n :: n in names && names[n].id in ids ==> names[n] in nodes)
      && open <= nodes
      && Distinct(result)
      && (forall c :: c in result ==> c in nodes && c !in open)
      && (forall c :: c in nodes ==> c.id in ids && (c.id in visited <==> c in result || c in open))
      && Ordered(names, nodes, result)
    }

    ghost function Unvisited(): set<Container>
      reads this
    {
      set c | c in nodes && c.id !in visited
    }

    /** Following dependencies has led from every open container to `c`. */
    method Visit(c: Container, ghost open: set<Container>)
      requires Valid(open) && c in nodes
      requires forall o :: o in open ==> Reaches(names, nodes, o, c)
      modifies this
      ensures Valid(open)
      ensures old(visited) <= visited && c.id in visited
      ensures old(result) <= result
      decreases Unvisited(), 0
    {
      if c.id in visited { return; }
      Enter(c, open);
      ReachesItself(names, nodes, c);
      if c.dependsOn.Listed? {
        VisitDependencies(c, open + {c});
      }
      Append(c, open);
    }

    /** The loop over the dependencies of `c`. */
    method VisitDependencies(c: Container, ghost open: set<Container>)
      requires Valid(open) && c in open && c.dependsOn.Listed?
      requires forall o :: o in open ==> Reaches(names, nodes, o, c)
      modifies this
      ensures Valid(open)
      ensures old(visited) <= visited && old(result) <= result
      ensures forall d :: Edge(names, nodes, c, d) ==> d.id in visited
      decreases Unvisited(), 1
    {
      var deps := c.dependsOn.names;
      for i := 0 to |deps|
        invariant Valid(open)
        invariant old(visited) <= visited && old(result) <= result
        invariant forall n :: n in deps[..i] && n in names && names[n].id in ids ==> names[n].id in visited
      {
        assert deps[..i + 1] == deps[..i] + [deps[i]];
        if deps[i] in names && names[deps[i]].id in ids {
          var dep := names[deps[i]];
          AllReachFurther(names, nodes, open, c, dep);
          Visit(dep, open);
        }
      }
      assert deps[..|deps|] == deps;
    }

    method VisitAll(sorted: seq<Container>)
      requires Valid({}) && forall c :: c in sorted ==> c in nodes
      modifies this
      ensures Valid({}) && AllVisited(sorted, visited)
    {
      for i := 0 to |sorted|
        invariant Valid({}) && AllVisited(sorted[..i], visited)
      {
        ghost var before := visited;
        Visit(sorted[i], {});
        assert AllVisited(sorted[..i], before) && before <= visited;
        assert sorted[..i + 1] == sorted[..i] + [sorted[i]];
      }
      assert sorted[..|sorted|] == sorted;
    }

    /** `visited.add`. */
    method Enter(c: Container, ghost open: set<Container>)
      requires Valid(open) && c in nodes && c.id !in visited
      modifies this`visited
      ensures Valid(open + {c}) && c !in open
      ensures visited == old(visited) + {c.id}
      ensures Unvisited() < old(Unvisited())
    {
      visited := visited + {c.id};
      assert c !in Unvisited() && c in old(Unvisited());
    }

    /** `result.push`: what `c` waits for is in the result already, or still open and so leads back to `c`. */
    method Append(c: Container, ghost open: set<Container>)
      requires Valid(open + {c}) && c in nodes && c !in open
      requires forall o :: o in open + {c} ==> Reaches(names, nodes, o, c)
      requires forall d :: Edge(names, nodes, c, d) ==> d.id in visited
      modifies this`result
      ensures Valid(open) && result == old(result) + [c]
    {
      ghost var before := result;
      result := result + [c];
      forall i, d | 0 <= i < |result| && Edge(names, nodes, result[i], d)
        ensures d in result[..i] || Reaches(names, nodes, d, result[i])
      {
        assert result[..i] == before[..i];
        if i == |before| {
          assert result[..i] == before;
          assert d in before || d in open + {c};
        }
      }
    }
  }

  ghost predicate AllVisited(cs: seq<Container>, visited: set<string>) {
    forall c :: c in cs ==> c.id in visited
  }

  /** Dependencies come before their dependents, unless they depend on them in turn. */
  method TopologicalSort(toUpdate: seq<Container>, all: seq<Container>) returns (result: seq<Container>)
    requires UniqueIds(all) && UniqueIds(toUpdate) && forall c :: c in toUpdate ==> c in all
    ensures multiset(result) == multiset(toUpdate)
    ensures Ordered(NameMap(all), Nodes(toUpdate), result)
  {
    var names: map<string, Container> := map[];
    for i := 0 to |all|
      invariant names == NameMap(all[..i])
    {
      assert all[..i + 1][..i] == all[..i];
      names := names[all[i].name := all[i]];
    }
    assert all[..|all|] == all;
    NamedAreListed(all);
    var ids := set c | c in toUpdate :: c.id;
    var sorter := new Sorter(names, ids, Nodes(toUpdate));
    var sorted := StableSort(toUpdate, (c: Container) => c.priority);
    SameElements(toUpdate, sorted);
    IdsIdentify(all);
    IdsIdentify(toUpdate);
    sorter.VisitAll(sorted);
    result := sorter.result;
    DistinctMultiset(result, toUpdate);
  }

  function Nodes(cs: seq<Container>): set<Container> {
    set c | c in cs
  }

  lemma {:induction false} NamedAreListed(cs: seq<Container>)
    ensures forall n :: n in NameMap(cs) ==> NameMap(cs)[n] in cs && NameMap(cs)[n].name == n
  {
    if cs != [] { NamedAreListed(cs[..|cs| - 1]); }
  }

  lemma IdsIdentify(cs: seq<Container>)
    requires UniqueIds(cs)
    ensures forall c, d :: c in cs && d in cs && c.id == d.id ==> c == d
    ensures Distinct(cs)
  {}
}
