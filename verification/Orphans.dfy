/**
 `RecoverOrphans`, run when the agent starts: three loops over one listing of the containers,
 each in whatever order the maps yield.
 */
module Orphans {
  import opened CrashSafety
  import opened Docker
  import opened Options
  import opened Recovery
  import opened Updates

  /** The listing by name. */
  function NameToId(s: Store): (m: map<Name, ContainerId>)
    requires s.Valid()
    ensures m.Keys == s.Names()
    ensures forall name :: name in m ==> m[name] in s.containers && s.containers[m[name]].name == name
  {
    map id | id in s.containers :: s.containers[id].name := id
  }

  /** One `-ww-new` container: removed if its original exists, else it takes its name. */
  method ResolveNew(u: Updater, id: ContainerId, base: Name, running: bool, originalExists: bool)
    returns (alive: bool, renamed: bool)
    requires u.store.Valid()
    modifies u`store, u`past
    ensures u.store.Valid() && (u.faults == NoFaults ==> alive)
    ensures u.faults == NoFaults && originalExists && id in old(u.store).containers
            && (old(u.store).containers[id].state == Running ==> running) ==>
              !renamed && u.store == old(u.store).(containers := old(u.store).containers - {id})
    ensures u.faults == NoFaults && !originalExists && CanRename(old(u.store), id, base) ==>
              renamed && u.store == Rename(old(u.store), id, base)
    ensures renamed ==> !originalExists
    ensures alive <==> u.past.deaths == old(u.past).deaths
    ensures alive ==> u.past.calls == NewCalls(old(u.past).calls, id, base, running, originalExists)
    ensures NewResolved(old(u.store), u.store, id, base, originalExists)
  {
    alive, renamed := true, false;
    if originalExists {
      alive := DropNew(u, id, running);
      if !alive { return; }
    } else {
      var err := u.RenameContainer(id, base);
      renamed := !err;
    }
    var killed := u.Killed();
    alive := !killed;
  }

  /** Removes it, after a stop if it runs. */
  method DropNew(u: Updater, id: ContainerId, running: bool) returns (alive: bool)
    requires u.store.Valid()
    modifies u`store, u`past
    ensures u.store.Valid() && (u.faults == NoFaults ==> alive)
    ensures u.faults == NoFaults && id in old(u.store).containers
            && (old(u.store).containers[id].state == Running ==> running) ==>
              u.store == old(u.store).(containers := old(u.store).containers - {id})
    ensures alive <==> u.past.deaths == old(u.past).deaths
    ensures alive ==>
              u.past.calls ==
              Then(if running then Then(old(u.past).calls, Stopping(id)) else old(u.past).calls, Removing(id, false))
    ensures u.store.nextId == old(u.store).nextId && u.store.containers - {id} == old(u.store).containers - {id}
    ensures id in u.store.containers ==>
              id in old(u.store).containers && u.store.containers[id].name == old(u.store).containers[id].name
  {
    ghost var s := u.store;
    if running {
      var _ := u.Stop(id);
      var killed := u.Killed();
      if killed { return false; }
    }
    assert u.store.containers - {id} == s.containers - {id};
    var _ := u.RemoveContainer(id, false, false);
    alive := true;
  }

  /** What is asked for a `-ww-new` container; a running one is stopped before it is removed. */
  function NewCalls(calls: Calls, id: ContainerId, base: Name, running: bool, originalExists: bool): Calls {
    if !originalExists then Then(calls, Renaming(id, base))
    else Then(if running then Then(calls, Stopping(id)) else calls, Removing(id, false))
  }

  /** What is asked for a `-ww-old` container, by which of it and its original run. */
  function OldCalls(calls: Calls, id: ContainerId, base: Name, orphanRuns: bool, originalRuns: bool,
                    original: Option<ContainerId>): Calls
  {
    if !orphanRuns && originalRuns then Then(Then(calls, Stopping(id)), Removing(id, false))
    else if !orphanRuns then Then(calls, Removing(id, true))
    else if originalRuns then calls
    else Then(if original.Some? then Then(calls, Removing(original.value, true)) else calls, Renaming(id, base))
  }

  /** Whatever failed, and wherever it was cut off: at most this container was removed, or renamed. */
  ghost predicate NewResolved(s: Store, t: Store, id: ContainerId, base: Name, originalExists: bool) {
    && t.nextId == s.nextId && t.containers - {id} == s.containers - {id}
    && (originalExists && id in t.containers ==> id in s.containers && t.containers[id].name == s.containers[id].name)
    && (!originalExists && id in s.containers ==> KeptOrRenamed(s, t, id, base))
  }

  ghost predicate KeptOrRenamed(s: Store, t: Store, id: ContainerId, base: Name)
    requires id in s.containers
  {
    id in t.containers && t.containers[id] in {s.containers[id], s.containers[id].(name := base)}
  }

  /** The store once the orphans in `done` have had their turn. */
  function After(s: Store, done: set<Name>): Store {
    Store(Repaired(s, done), s.nextId)
  }

  function Bases(names: set<Name>): set<Name> {
    set name | name in names :: BaseOf(name)
  }

  /** How far a loop has come: the store, and the names it takes for present. */
  ghost predicate Progress(s: Store, t: Store, done: set<Name>, existing: set<Name>) {
    t == After(s, done) && existing == s.Names() + Bases(done)
  }

  lemma NewTurn(s: Store, done: set<Name>, existing: set<Name>, id: ContainerId)
    requires Repairable(s, {}) && id in s.containers && s.containers[id].name.New?
    requires s.containers[id].name !in done && (forall name :: name in done ==> name.New?)
    requires existing == s.Names() + Bases(done)
    ensures s.containers[id].name.of in existing <==> s.containers[id].name.of in s.Names()
    ensures id in After(s, done).containers && After(s, done).containers[id] == s.containers[id]
    ensures s.containers[id].name.of in s.Names() ==>
              After(s, done + {s.containers[id].name})
              == After(s, done).(containers := After(s, done).containers - {id})
    ensures s.containers[id].name.of !in s.Names() ==>
              CanRename(After(s, done), id, s.containers[id].name.of) &&
              After(s, done + {s.containers[id].name}) == Rename(After(s, done), id, s.containers[id].name.of)
    ensures existing + {s.containers[id].name.of} == s.Names() + Bases(done + {s.containers[id].name})
    ensures s.containers[id].state == Running <==> s.containers[id].name in s.RunningNames()
  {
    RepairNew(s, done, id);
    RunningNameOf(s, id);
    if s.containers[id].name.of !in s.Names() {
      BaseIsFree(s, {}, done, id);
      assert Originals(s, id) == {};
    }
    forall other | other in done ensures BaseOf(other) != s.containers[id].name.of {
      assert other == New(other.of);
    }
  }

  // ---------------------------------------------------------------- a pass that fails or is cut off

  /** Something is left of the service, and it is not stranded. */
  predicate Alive(s: Store, base: Name) {
    Marked(s, base) && !Stranded(s, base)
  }

  /** No orphan appears, and no service is lost. */
  ghost predicate Keeps(s: Store, t: Store) {
    && (forall name :: name in t.Names() && !name.Service? ==> name in s.Names())
    && (forall base: Name :: base.Service? && Alive(s, base) ==> Alive(t, base))
  }

  /** How far a loop has come, whatever failed: the containers whose turn has not come are as they were. */
  ghost predicate Along(s: Store, t: Store, done: set<Name>, existing: set<Name>) {
    && t.nextId == s.nextId
    && (forall id :: id in s.containers && Trigger(s.containers[id]) !in done ==>
          id in t.containers && t.containers[id] == s.containers[id])
    && Keeps(s, t)
    && s.Names() <= existing <= s.Names() + Bases(done)
  }

  /** Every service that was known, and not stranded, still is. */
  ghost predicate StaysKnown(s: Store, t: Store, snapshots: set<Snapshot>) {
    forall base: Name :: base.Service? && Known(s, snapshots, base) && !Stranded(s, base) ==>
                           Known(t, snapshots, base) && !Stranded(t, base)
  }

  lemma KeepsIsEnough(s: Store, t: Store, snapshots: set<Snapshot>)
    requires Repairable(s, snapshots) && t.Valid() && Keeps(s, t)
    ensures Repairable(t, snapshots) && StaysKnown(s, t, snapshots)
  {
    forall base: Name | base.Service? && Known(s, snapshots, base) && !Stranded(s, base)
      ensures Known(t, snapshots, base) && !Stranded(t, base)
    {
      if !Marked(s, base) {
        assert Old(base) !in t.Names();
      }
    }
  }

  lemma KeepsItself(s: Store, snapshots: set<Snapshot>)
    requires Repairable(s, snapshots)
    ensures Keeps(s, s) && StaysKnown(s, s, snapshots)
  {}

  lemma AlongKeeps(s: Store, t: Store, done: set<Name>, existing: set<Name>, snapshots: set<Snapshot>)
    requires Repairable(s, snapshots) && t.Valid() && (Repairable(s, {}) ==> Along(s, t, done, existing))
    ensures Keeps(s, t) && Repairable(t, snapshots) && StaysKnown(s, t, snapshots)
  {
    KeepsIsEnough(s, t, snapshots);
  }

  /** One turn changes only containers of one service. */
  ghost predicate TouchesOnly(t: Store, u: Store, base: Name) {
    && (forall id :: id in t.containers && BaseOf(t.containers[id].name) != base ==>
          id in u.containers && u.containers[id] == t.containers[id])
    && (forall id :: id in u.containers && BaseOf(u.containers[id].name) != base ==>
          id in t.containers && u.containers[id] == t.containers[id])
  }

  lemma OthersStayAlive(t: Store, u: Store, base: Name, other: Name)
    requires TouchesOnly(t, u, base) && other != base && other.Service?
    ensures Alive(t, other) <==> Alive(u, other)
  {
    forall name | name in {other, New(other), Old(other)}
      ensures name in t.Names() <==> name in u.Names()
      ensures name in t.RunningNames() <==> name in u.RunningNames()
    {
      assert BaseOf(name) == other;
    }
  }

  lemma TurnKeeps(s: Store, t: Store, u: Store, base: Name)
    requires Keeps(s, t) && TouchesOnly(t, u, base) && base.Service?
    requires forall name :: name in u.Names() && !name.Service? ==> name in t.Names()
    requires Alive(s, base) ==> Alive(u, base)
    ensures Keeps(s, u)
  {
    forall other: Name | other.Service? && Alive(s, other) ensures Alive(u, other) {
      if other != base {
        OthersStayAlive(t, u, base, other);
      }
    }
  }

  lemma NewTurnAlong(s: Store, t: Store, u: Store, done: set<Name>, existing: set<Name>, existing': set<Name>,
                     id: ContainerId, originalExists: bool)
    requires s.Valid() && Along(s, t, done, existing) && t.Valid() && u.Valid()
    requires id in s.containers && s.containers[id].name.New? && s.containers[id].name.of.Service?
    requires s.containers[id].name !in done
    requires forall name :: name in done ==> name.New?
    requires originalExists <==> s.containers[id].name.of in existing
    requires NewResolved(t, u, id, s.containers[id].name.of, originalExists)
    requires existing' == existing || existing' == existing + {s.containers[id].name.of}
    ensures Along(s, u, done + {s.containers[id].name}, existing')
  {
    var name := s.containers[id].name;
    var base := name.of;
    NamedIn(s, id);
    NamedIn(t, id);
    NewTouches(t, u, id, base, originalExists);
    NewStaysAlive(s, t, u, done, existing, id, originalExists);
    TurnKeeps(s, t, u, base);
    AlongMore(s, t, u, done, existing, existing', name, {id});
  }

  /** A turn that touched only containers it decides about. */
  lemma AlongMore(s: Store, t: Store, u: Store, done: set<Name>, existing: set<Name>, existing': set<Name>,
                  name: Name, touched: set<ContainerId>)
    requires Along(s, t, done, existing) && Keeps(s, u) && u.nextId == t.nextId
    requires t.containers - touched == u.containers - touched
    requires forall i :: i in s.containers && i in touched ==> Trigger(s.containers[i]) == name
    requires existing' == existing || existing' == existing + {BaseOf(name)}
    ensures Along(s, u, done + {name}, existing')
  {
    assert Bases(done + {name}) == Bases(done) + {BaseOf(name)};
    forall i | i in s.containers && Trigger(s.containers[i]) !in done + {name}
      ensures i in u.containers && u.containers[i] == s.containers[i]
    {
      SameElsewhere(t, u, touched, i);
    }
  }

  /** Either the original is there, or the orphan is. */
  lemma NewStaysAlive(s: Store, t: Store, u: Store, done: set<Name>, existing: set<Name>, id: ContainerId,
      originalExists: bool)
    requires s.Valid() && Along(s, t, done, existing)
    requires id in s.containers && s.containers[id].name.New? && s.containers[id].name.of.Service?
    requires s.containers[id].name !in done
    requires id in t.containers && t.containers[id] == s.containers[id]
    requires forall name :: name in done ==> name.New?
    requires originalExists <==> s.containers[id].name.of in existing
    requires NewResolved(t, u, id, s.containers[id].name.of, originalExists)
    requires forall name :: name in u.Names() && !name.Service? ==> name in t.Names()
    ensures Alive(u, s.containers[id].name.of)
  {
    var base := s.containers[id].name.of;
    NamedIn(s, id);
    if originalExists {
      forall other | other in done ensures BaseOf(other) != base {
        assert other == New(other.of);
      }
      var o :| o in s.containers && s.containers[o].name == base;
      assert Trigger(s.containers[o]) == Old(base) && o != id;
      SameElsewhere(t, u, {id}, o);
      NamedIn(u, o);
    } else {
      NamedIn(u, id);
    }
  }

  lemma NewTouches(t: Store, u: Store, id: ContainerId, base: Name, originalExists: bool)
    requires id in t.containers && t.containers[id].name == New(base) && base.Service?
    requires NewResolved(t, u, id, base, originalExists)
    ensures TouchesOnly(t, u, base)
    ensures forall name :: name in u.Names() && !name.Service? ==> name in t.Names()
  {
    forall i | i != id ensures i in t.containers <==> i in u.containers
      ensures i in t.containers ==> u.containers[i] == t.containers[i]
    {
      assert i in t.containers - {id} <==> i in u.containers - {id};
    }
  }

  lemma OldTurnAlong(s: Store, t: Store, u: Store, done: set<Name>, existing: set<Name>, existing': set<Name>,
                     id: ContainerId, original: Option<ContainerId>)
    requires s.Valid() && Along(s, t, done, existing) && t.Valid() && u.Valid()
    requires id in s.containers && s.containers[id].name.Old? && s.containers[id].name.of.Service?
    requires s.containers[id].name !in done
    requires original.Some? <==> s.containers[id].name.of in s.Names()
    requires original.Some? ==>
             original.value in s.containers && s.containers[original.value].name == s.containers[id].name.of
    requires OldResolved(t, u, id, s.containers[id].name.of, s.containers[id].name in s.RunningNames(),
                         s.containers[id].name.of in s.RunningNames(), original)
    requires existing' == existing || existing' == existing + {s.containers[id].name.of}
    ensures Along(s, u, done + {s.containers[id].name}, existing')
  {
    var name := s.containers[id].name;
    var base := name.of;
    NamedIn(s, id);
    NamedIn(t, id);
    RunningNameOf(s, id);
    if original.Some? {
      assert Trigger(s.containers[original.value]) == name;
      NamedIn(t, original.value);
    }
    OldTouches(t, u, id, base, s.containers[id].state == Running, base in s.RunningNames(), original);
    OldStaysAlive(s, t, u, id, original);
    TurnKeeps(s, t, u, base);
    AlongMore(s, t, u, done, existing, existing', name, {id} + IdOf(original));
  }

  lemma SameElsewhere(t: Store, u: Store, touched: set<ContainerId>, i: ContainerId)
    requires t.containers - touched == u.containers - touched && i !in touched
    ensures i in t.containers <==> i in u.containers
    ensures i in t.containers ==> u.containers[i] == t.containers[i]
  {
    assert i in t.containers - touched <==> i in u.containers - touched;
  }

  lemma OldTouches(t: Store, u: Store, id: ContainerId, base: Name, orphanRuns: bool, originalRuns: bool,
                   original: Option<ContainerId>)
    requires id in t.containers && t.containers[id].name == Old(base) && base.Service?
    requires original.Some? ==> original.value in t.containers && t.containers[original.value].name == base
    requires OldResolved(t, u, id, base, orphanRuns, originalRuns, original)
    ensures TouchesOnly(t, u, base)
    ensures t.containers - ({id} + IdOf(original)) == u.containers - ({id} + IdOf(original))
    ensures forall name :: name in u.Names() && !name.Service? ==> name in t.Names()
  {
    if !orphanRuns {
      assert t.containers - ({id} + IdOf(original)) == (t.containers - {id}) - IdOf(original);
      assert u.containers - ({id} + IdOf(original)) == (u.containers - {id}) - IdOf(original);
    }
    forall i | i != id && original != Some(i)
      ensures i in t.containers <==> i in u.containers
      ensures i in t.containers ==> u.containers[i] == t.containers[i]
    {
      SameElsewhere(t, u, {id} + IdOf(original), i);
    }
    if original.Some? && !orphanRuns {
      SameElsewhere(t, u, {id}, original.value);
    }
  }

  /** A running orphan keeps running, under one name or the other; a stopped one goes only beside its original. */
  lemma OldStaysAlive(s: Store, t: Store, u: Store, id: ContainerId, original: Option<ContainerId>)
    requires s.Valid() && id in s.containers && s.containers[id].name.Old? && s.containers[id].name.of.Service?
    requires id in t.containers && t.containers[id] == s.containers[id]
    requires original.Some? <==> s.containers[id].name.of in s.Names()
    requires original.Some? ==>
             original.value in t.containers && t.containers[original.value].name == s.containers[id].name.of
    requires OldResolved(t, u, id, s.containers[id].name.of, s.containers[id].name in s.RunningNames(),
                         s.containers[id].name.of in s.RunningNames(), original)
    requires Keeps(s, t) && t.Valid()
    ensures Alive(s, s.containers[id].name.of) ==> Alive(u, s.containers[id].name.of)
  {
    var base := s.containers[id].name.of;
    NamedIn(s, id);
    RunningNameOf(s, id);
    if s.containers[id].state == Running {
      if original.Some? { assert original.value != id; }
      NamedIn(u, id);
    } else if original.Some? {
      SameElsewhere(t, u, {id}, original.value);
      NamedIn(u, original.value);
    } else if Alive(s, base) {
      AnotherStays(t, u, id, base);
    }
  }

  /** Of a service that is not stranded, more is there than a stopped `-ww-old`, which may then go. */
  lemma AnotherStays(t: Store, u: Store, id: ContainerId, base: Name)
    requires t.Valid() && id in t.containers && t.containers[id].name == Old(base) && t.containers[id].state != Running
    requires Alive(t, base) && t.containers - {id} == u.containers - {id}
    ensures Alive(u, base)
  {
    NamedIn(t, id);
    RunningNameOf(t, id);
    assert base in t.Names() || New(base) in t.Names();
    var i :| i in t.containers && t.containers[i].name in {base, New(base)};
    SuffixDiffers(base);
    SameElsewhere(t, u, {id}, i);
    NamedIn(u, i);
  }

  /** Recreating a service loses none. */
  lemma AddingKeeps(s: Store, t: Store, u: Store, name: Name)
    requires Keeps(s, t) && Only(t, u, {}, {name}) && name.Service?
    ensures Keeps(s, u)
  {
    forall n | n in t.Names() ensures n in u.Names() {
      var i :| i in t.containers && t.containers[i].name == n;
      NamedIn(u, i);
    }
    forall n | n in t.RunningNames() ensures n in u.RunningNames() {
      var i :| i in t.containers && t.containers[i].state == Running && t.containers[i].name == n;
      NamedIn(u, i);
    }
    forall n | n in u.Names() && n !in t.Names() ensures n == name {
      var i :| i in u.containers && u.containers[i].name == n;
    }
    forall base: Name | base.Service? && Alive(s, base) ensures Alive(u, base) {
      assert Alive(t, base);
    }
  }

  /** First loop: the `-ww-new` containers. */
  method HandleNew(u: Updater, s: Store) returns (alive: bool, existing: set<Name>, ghost done: set<Name>)
    requires u.store == s && s.Valid()
    modifies u`store, u`past
    ensures u.store.Valid() && (u.faults == NoFaults ==> alive)
    ensures done <= s.Names() && forall name :: name in done ==> name.New?
    ensures alive ==> forall name :: name in s.Names() ==> (name in done <==> name.New?)
    ensures alive <==> u.past.deaths == old(u.past).deaths
    ensures u.faults == NoFaults && Repairable(s, {}) ==> Progress(s, u.store, done, existing)
    ensures Repairable(s, {}) ==> Along(s, u.store, done, existing)
  {
    var nameToId, running := NameToId(s), s.RunningNames();
    var todo := nameToId.Keys;
    alive := true;
    existing := s.Names();
    done := {};
    assert Repaired(s, {}) == s.containers;
    while todo != {}
      invariant u.store.Valid() && todo <= s.Names() && done <= s.Names()
      invariant forall name :: name in s.Names() ==> (name in done <==> name.New? && name !in todo)
      invariant forall name :: name in done ==> name.New?
      invariant u.faults == NoFaults && Repairable(s, {}) ==> Progress(s, u.store, done, existing)
      invariant Repairable(s, {}) ==> Along(s, u.store, done, existing)
      invariant alive && u.past.deaths == old(u.past).deaths
      decreases todo
    {
      var name :| name in todo;
      todo := todo - {name};
      if name.New? {
        alive, existing := TurnNew(u, s, name, nameToId[name], name in running, existing, done);
        done := done + {name};
        if !alive { return; }
      }
    }
  }

  method TurnNew(u: Updater, s: Store, name: Name, id: ContainerId, running: bool, existing: set<Name>,
      ghost done: set<Name>)
    returns (alive: bool, existing': set<Name>)
    requires u.store.Valid() && s.Valid() && name.New? && id in s.containers && s.containers[id].name == name
    requires running <==> name in s.RunningNames()
    requires name !in done && forall name :: name in done ==> name.New?
    requires u.faults == NoFaults && Repairable(s, {}) ==> Progress(s, u.store, done, existing)
    requires Repairable(s, {}) ==> Along(s, u.store, done, existing)
    modifies u`store, u`past
    ensures u.store.Valid() && (u.faults == NoFaults ==> alive)
    ensures alive <==> u.past.deaths == old(u.past).deaths
    ensures u.faults == NoFaults && Repairable(s, {}) ==> Progress(s, u.store, done + {name}, existing')
    ensures Repairable(s, {}) ==> Along(s, u.store, done + {name}, existing')
  {
    ghost var t := u.store;
    if Repairable(s, {}) && Progress(s, u.store, done, existing) { NewTurn(s, done, existing, id); }
    var renamed;
    alive, renamed := ResolveNew(u, id, name.of, running, name.of in existing);
    existing' := if renamed then existing + {name.of} else existing;
    if Repairable(s, {}) { NewTurnAlong(s, t, u.store, done, existing, existing', id, name.of in existing); }
  }

  /** One `-ww-old` container, by which of it and its original run. Returns whether its base now counts as present. */
  method ResolveOld(u: Updater, id: ContainerId, base: Name, orphanRuns: bool, originalRuns: bool,
                    original: Option<ContainerId>)
    returns (alive: bool, present: bool)
    requires u.store.Valid()
    modifies u`store, u`past
    ensures u.store.Valid() && (u.faults == NoFaults ==> alive)
    ensures u.faults == NoFaults && orphanRuns && originalRuns ==> !present && u.store == old(u.store)
    ensures u.faults == NoFaults && !orphanRuns && id in old(u.store).containers
            && old(u.store).containers[id].state != Running ==>
              (present <==> !originalRuns) && u.store == old(u.store).(containers := old(u.store).containers - {id})
    ensures u.faults == NoFaults && orphanRuns && !originalRuns && id in old(u.store).containers
            && (original.Some? ==> original.value in old(u.store).containers && original.value != id)
            && (forall i :: i in old(u.store).containers && old(u.store).containers[i].name == base ==>
                original == Some(i)) ==>
              present &&
              u.store == old(u.store).(containers := (old(u.store).containers - IdOf(original))
                                                     [id := old(u.store).containers[id].(name := base)])
    ensures u.faults == NoFaults && orphanRuns && original.None? && base in old(u.store).Names() ==>
              !present && u.store == old(u.store)
    ensures alive <==> u.past.deaths == old(u.past).deaths
    ensures alive ==> u.past.calls == OldCalls(old(u.past).calls, id, base, orphanRuns, originalRuns, original)
    ensures OldResolved(old(u.store), u.store, id, base, orphanRuns, originalRuns, original)
  {
    alive, present := true, false;
    if !orphanRuns && originalRuns {
      alive := DropOrphan(u, id);
    } else if orphanRuns && !originalRuns {
      alive, present := TakeBack(u, id, base, original);
    } else if !orphanRuns && !originalRuns {
      var _ := u.RemoveContainer(id, true, false);
      present := true;
    }
    if alive {
      var killed := u.Killed();
      alive := !killed;
    }
  }

  /** Stops and removes an orphan. */
  method DropOrphan(u: Updater, id: ContainerId) returns (alive: bool)
    requires u.store.Valid()
    modifies u`store, u`past
    ensures u.store.Valid() && (u.faults == NoFaults ==> alive)
    ensures alive <==> u.past.deaths == old(u.past).deaths
    ensures alive ==> u.past.calls == Then(Then(old(u.past).calls, Stopping(id)), Removing(id, false))
    ensures u.store.nextId == old(u.store).nextId && u.store.containers - {id} == old(u.store).containers - {id}
    ensures id in u.store.containers ==>
              id in old(u.store).containers && u.store.containers[id].name == old(u.store).containers[id].name
    ensures u.faults == NoFaults && id in old(u.store).containers && old(u.store).containers[id].state != Running ==>
              u.store == old(u.store).(containers := old(u.store).containers - {id})
  {
    ghost var s := u.store;
    var _ := u.Stop(id);
    assert u.store.containers - {id} == s.containers - {id};
    var killed := u.Killed();
    if killed { return false; }
    var _ := u.RemoveContainer(id, false, false);
    alive := true;
  }

  /** Removes the original that does not run, and gives the orphan its name back. */
  method TakeBack(u: Updater, id: ContainerId, base: Name, original: Option<ContainerId>)
    returns (alive: bool, present: bool)
    requires u.store.Valid()
    modifies u`store, u`past
    ensures u.store.Valid() && (u.faults == NoFaults ==> alive)
    ensures alive <==> u.past.deaths == old(u.past).deaths
    ensures alive ==> u.past.calls == OldCalls(old(u.past).calls, id, base, true, false, original)
    ensures u.store.nextId == old(u.store).nextId
    ensures u.store.containers - ({id} + IdOf(original)) == old(u.store).containers - ({id} + IdOf(original))
    ensures original.Some? && original.value != id && original.value in u.store.containers ==>
              original.value in old(u.store).containers
              && u.store.containers[original.value] == old(u.store).containers[original.value]
    ensures id in old(u.store).containers && original != Some(id) ==> KeptOrRenamed(old(u.store), u.store, id, base)
    ensures u.faults == NoFaults && id in old(u.store).containers
            && (original.Some? ==> original.value in old(u.store).containers && original.value != id)
            && (forall i :: i in old(u.store).containers && old(u.store).containers[i].name == base ==>
                original == Some(i)) ==>
              present && u.store == old(u.store).(containers := (old(u.store).containers - IdOf(original))
                                                                [id := old(u.store).containers[id].(name := base)])
    ensures u.faults == NoFaults && original.None? && base in old(u.store).Names() ==>
              !present && u.store == old(u.store)
  {
    present := false;
    if original.Some? {
      var _ := u.RemoveContainer(original.value, true, false);
      var killed := u.Killed();
      if killed { return false, false; }
    }
    var err := u.RenameContainer(id, base);
    alive, present := true, !err;
  }

  function IdOf(original: Option<ContainerId>): set<ContainerId> {
    if original.Some? then {original.value} else {}
  }

  /**
   * Whatever failed, and wherever it was cut off: a stopped orphan is at most removed; a running one is kept,
   * renamed or not.
   */
  ghost predicate OldResolved(s: Store, t: Store, id: ContainerId, base: Name, orphanRuns: bool, originalRuns: bool,
                              original: Option<ContainerId>)
  {
    && t.nextId == s.nextId
    && (orphanRuns && originalRuns ==> t == s)
    && (!orphanRuns ==> t.containers - {id} == s.containers - {id})
    && (!orphanRuns && id in t.containers ==> id in s.containers && t.containers[id].name == s.containers[id].name)
    && (orphanRuns && !originalRuns ==>
          && t.containers - ({id} + IdOf(original)) == s.containers - ({id} + IdOf(original))
          && (original.Some? && original.value != id && original.value in t.containers ==>
                original.value in s.containers && t.containers[original.value] == s.containers[original.value])
          && (id in s.containers && original != Some(id) ==> KeptOrRenamed(s, t, id, base)))
  }

  lemma OldTurn(s: Store, done: set<Name>, existing: set<Name>, id: ContainerId)
    requires Repairable(s, {}) && id in s.containers && s.containers[id].name.Old?
    requires s.containers[id].name !in done && done <= s.Names() && NewsDone(s, done)
    ensures var c := s.containers[id];
            var t := After(s, done);
            var next := After(s, done + {c.name});
            && id in t.containers && t.containers[id] == c
            && (c.state == Running <==> c.name in s.RunningNames())
            && (forall i :: i in Originals(s, id) ==> i in t.containers && t.containers[i] == s.containers[i])
            && (c.state == Running && c.name.of in s.RunningNames() ==> next == t)
            && (c.state != Running ==> next == t.(containers := t.containers - {id}))
            && (c.state == Running && GoesToNew(s, c.name.of) ==> next == t && c.name.of in t.Names())
            && (c.state == Running && c.name.of !in s.RunningNames() && !GoesToNew(s, c.name.of) ==>
                  && (forall i :: i in t.containers && t.containers[i].name == c.name.of ==> i in Originals(s, id))
                  && next == t.(containers := (t.containers - Originals(s, id))[id := c.(name := c.name.of)]))
  {
    NamedIn(s, id);
    RunningNameOf(s, id);
    RepairOld(s, done, id);
    if FateOf(s, s.containers[id]).TakeName? { BaseIsFree(s, {}, done, id); }
    if GoesToNew(s, s.containers[id].name.of) { NewTook(s, done, s.containers[id].name.of); }
  }

  /** The first loop is over: all `-ww-new` containers have had their turn. */
  ghost predicate NewsDone(s: Store, done: set<Name>) {
    forall name :: name in s.Names() && name.New? ==> name in done
  }

  lemma NewTook(s: Store, done: set<Name>, base: Name)
    requires s.Valid() && NewsDone(s, done) && GoesToNew(s, base)
    ensures base in After(s, done).Names()
  {
    var i :| i in s.containers && s.containers[i].name == New(base);
    assert Outcome(s, done, s.containers[i]) == Some(s.containers[i].(name := base));
    NamedIn(After(s, done), i);
  }

  /** When a `-ww-old` orphan is looked at, its service counts as present if it, or a `-ww-new` of it, was there. */
  lemma OldBase(s: Store, done: set<Name>, existing: set<Name>, name: Name)
    requires Repairable(s, {}) && name in s.Names() && name.Old? && name !in done && done <= s.Names()
    requires existing == s.Names() + Bases(done) && NewsDone(s, done)
    ensures existing + {name.of} == s.Names() + Bases(done + {name})
    ensures name.of in s.Names() || GoesToNew(s, name.of) ==> existing == s.Names() + Bases(done + {name})
  {
    assert Bases(done + {name}) == Bases(done) + {name.of};
    if GoesToNew(s, name.of) {
      assert New(name.of) in done && BaseOf(New(name.of)) in Bases(done);
    }
  }

  method TurnOld(u: Updater, s: Store, name: Name, id: ContainerId, original: Option<ContainerId>, running: set<Name>,
                 existing: set<Name>, ghost done: set<Name>)
    returns (alive: bool, existing': set<Name>)
    requires u.store.Valid() && s.Valid() && name.Old? && id in s.containers && s.containers[id].name == name
    requires running == s.RunningNames() && done <= s.Names()
    requires original.Some? <==> name.of in s.Names()
    requires original.Some? ==> original.value in s.containers && s.containers[original.value].name == name.of
    requires name !in done && NewsDone(s, done)
    requires u.faults == NoFaults && Repairable(s, {}) ==> Progress(s, u.store, done, existing)
    requires Repairable(s, {}) ==> Along(s, u.store, done, existing)
    modifies u`store, u`past
    ensures u.store.Valid() && (u.faults == NoFaults ==> alive)
    ensures alive <==> u.past.deaths == old(u.past).deaths
    ensures u.faults == NoFaults && Repairable(s, {}) ==> Progress(s, u.store, done + {name}, existing')
    ensures Repairable(s, {}) ==> Along(s, u.store, done + {name}, existing')
  {
    ghost var t := u.store;
    if Repairable(s, {}) && Progress(s, u.store, done, existing) {
      OldTurn(s, done, existing, id);
      NamedIn(s, id);
      OldBase(s, done, existing, name);
      assert Originals(s, id) == IdOf(original);
    }
    var target := if name.of in existing then original else None;
    var present;
    alive, present := ResolveOld(u, id, name.of, name in running, name.of in running, target);
    existing' := if present then existing + {name.of} else existing;
    if Repairable(s, {}) { OldTurnAlong(s, t, u.store, done, existing, existing', id, target); }
  }

  /** Second loop: the `-ww-old` containers, by the same listing. */
  method HandleOld(u: Updater, s: Store, existing: set<Name>, ghost handled: set<Name>)
    returns (alive: bool, existing': set<Name>, ghost done: set<Name>)
    requires u.store.Valid() && s.Valid()
    requires handled <= s.Names() && forall name :: name in handled ==> name.New?
    requires forall name :: name in s.Names() ==> (name in handled <==> name.New?)
    requires u.faults == NoFaults && Repairable(s, {}) ==> Progress(s, u.store, handled, existing)
    requires Repairable(s, {}) ==> Along(s, u.store, handled, existing)
    modifies u`store, u`past
    ensures u.store.Valid() && (u.faults == NoFaults ==> alive)
    ensures u.faults == NoFaults && Repairable(s, {}) ==>
              u.store == After(s, s.Names())
              && forall name: Name :: name.Service? ==> (name in existing' <==> Marked(s, name))
    ensures alive <==> u.past.deaths == old(u.past).deaths
    ensures alive ==> OldsSoFar(s, done, {})
    ensures Repairable(s, {}) ==> Along(s, u.store, done, existing')
  {
    var nameToId, running := NameToId(s), s.RunningNames();
    var todo := nameToId.Keys;
    alive, existing', done := true, existing, handled;
    while todo != {}
      invariant u.store.Valid() && OldsSoFar(s, done, todo)
      invariant u.faults == NoFaults && Repairable(s, {}) ==> Progress(s, u.store, done, existing')
      invariant Repairable(s, {}) ==> Along(s, u.store, done, existing')
      invariant alive && u.past.deaths == old(u.past).deaths
      decreases todo
    {
      var name :| name in todo;
      NextOld(s, done, todo, name);
      todo := todo - {name};
      if name.Old? {
        var original := if name.of in nameToId then Some(nameToId[name.of]) else None;
        alive, existing' := TurnOld(u, s, name, nameToId[name], original, running, existing', done);
        done := done + {name};
        if !alive { return; }
      }
    }
    OldsHandled(s, done);
  }

  /** The orphans whose turn has come: all of the first loop, and of the second those not in `todo`. */
  ghost predicate OldsSoFar(s: Store, done: set<Name>, todo: set<Name>) {
    && todo <= s.Names() && done <= s.Names()
    && (forall name :: name in s.Names() ==> (name in done <==> name.New? || (name.Old? && name !in todo)))
    && (forall name :: name in done ==> !name.Service?)
  }

  lemma NextOld(s: Store, done: set<Name>, todo: set<Name>, name: Name)
    requires OldsSoFar(s, done, todo) && name in todo
    ensures name in s.Names() && (name.Old? ==> name !in done)
    ensures OldsSoFar(s, if name.Old? then done + {name} else done, todo - {name})
  {}

  lemma OldsHandled(s: Store, done: set<Name>)
    requires OldsSoFar(s, done, {})
    ensures After(s, done) == After(s, s.Names())
    ensures forall name: Name :: name.Service? ==> (name in s.Names() + Bases(done) <==> Marked(s, name))
  {
    AllHandled(s, done);
    forall name: Name | name.Service? ensures name in s.Names() + Bases(done) <==> Marked(s, name) {
      if name in Bases(done) {
        var orphan :| orphan in done && BaseOf(orphan) == name;
        assert orphan in {New(name), Old(name)};
      }
      assert New(name) in s.Names() ==> BaseOf(New(name)) in Bases(done);
      assert Old(name) in s.Names() ==> BaseOf(Old(name)) in Bases(done);
    }
  }

  /** Only services of which there was a trace are taken for present, whatever failed. */
  lemma UnmarkedAreMissing(s: Store, t: Store, done: set<Name>, existing: set<Name>)
    requires Along(s, t, done, existing) && OldsSoFar(s, done, {})
    ensures forall name: Name :: name.Service? && !Marked(s, name) ==> name !in existing
  {
    forall name: Name | name.Service? && name in existing ensures Marked(s, name) {
      if name !in s.Names() {
        var orphan :| orphan in done && BaseOf(orphan) == name;
        assert orphan in {New(name), Old(name)};
      }
    }
  }

  // ---------------------------------------------------------------- third loop: the snapshots

  /** The snapshots whose names are in `seen` have been dealt with. */
  ghost predicate PartlyRecovered(s: Store, snapshots: set<Snapshot>, t: Store, seen: set<Name>) {
    var kept := Repaired(s, s.Names());
    && t.nextId >= s.nextId
    && (forall id :: id in kept ==> id in t.containers && t.containers[id] == kept[id])
    && (forall id :: id in t.containers && id !in kept ==>
          id >= s.nextId && t.containers[id].name in seen
          && exists snap ::
            snap in snapshots && Missing(s, snapshots, snap.name) && t.containers[id] == Recreated(snap))
    && (forall name :: name in seen && Missing(s, snapshots, name) ==> name in t.Names())
  }

  lemma NameIsFree(s: Store, snapshots: set<Snapshot>, t: Store, seen: set<Name>, name: Name)
    requires Repairable(s, snapshots) && PartlyRecovered(s, snapshots, t, seen)
    requires name.Service? && name !in seen && !Marked(s, name)
    ensures name !in t.Names()
  {
    forall id | id in t.containers ensures t.containers[id].name != name {
      if id in Repaired(s, s.Names()) {
        KeptName(s, snapshots, id);
        NamedIn(s, id);
      }
    }
  }

  lemma AddRecovered(s: Store, snapshots: set<Snapshot>, t: Store, seen: set<Name>, snap: Snapshot, u: Store)
    requires s.Valid() && t.Valid() && PartlyRecovered(s, snapshots, t, seen)
    requires snap in snapshots && Missing(s, snapshots, snap.name)
    requires u.nextId == t.nextId + 1 && u.containers == t.containers[t.nextId := Recreated(snap)]
    ensures PartlyRecovered(s, snapshots, u, seen + {snap.name})
  {
    var kept := Repaired(s, s.Names());
    assert t.nextId !in kept;
    NamedIn(u, t.nextId);
    forall name | name in seen && Missing(s, snapshots, name) ensures name in u.Names() {
      var id :| id in t.containers && t.containers[id].name == name;
      assert id < t.nextId && u.containers[id] == t.containers[id];
      NamedIn(u, id);
    }
  }

  /** What comes is a copy of a snapshot, whether or not it could be started. */
  ghost predicate AddsCopies(s: Store, snapshots: set<Snapshot>, t: Store) {
    forall id :: id in t.containers && id !in s.containers ==>
      exists snap :: snap in snapshots && CopyOf(t.containers[id], snap)
  }

  /** It was asked to create the service from one of its snapshots: from the exact image, if its digest is known. */
  ghost predicate TriedToCopy(name: Name, snapshots: set<Snapshot>, creations: set<Request>) {
    exists snap :: snap in snapshots && snap.name == name
      && Creating(name, if snap.imageDigest != "" then snap.imageDigest else snap.imageRef) in creations
  }

  method RecreateMissing(u: Updater, s: Store, existing: set<Name>)
    requires u.store.Valid() && s.Valid()
    requires u.faults == NoFaults && Repairable(s, {}) ==>
               u.store == After(s, s.Names())
               && forall name: Name :: name.Service? ==> (name in existing <==> Marked(s, name))
    requires Repairable(s, u.snapshots.Values) ==> Keeps(s, u.store)
    modifies u`store, u`past
    ensures u.store.Valid()
    ensures u.faults == NoFaults && Repairable(s, u.snapshots.Values) ==> Recovers(s, u.snapshots.Values, u.store)
    ensures Repairable(s, u.snapshots.Values) ==> Keeps(s, u.store)
    ensures AddsCopies(old(u.store), u.snapshots.Values, u.store)
    ensures u.past.deaths == old(u.past).deaths ==>
              forall snap :: snap in u.snapshots.Values && snap.name !in existing ==>
                TriedToCopy(snap.name, u.snapshots.Values, Creations(u.past.calls))
  {
    ghost var snaps, before := u.snapshots.Values, u.store;
    ghost var good := u.faults == NoFaults && Repairable(s, snaps);
    var todo := u.snapshots.Keys;
    var seen: set<Name> := {};
    while todo != {}
      invariant u.store.Valid() && todo <= u.snapshots.Keys
      invariant forall key :: key in u.snapshots && key !in todo ==> u.snapshots[key].name in seen
      invariant good ==> PartlyRecovered(s, snaps, u.store, seen)
      invariant Repairable(s, snaps) ==> Keeps(s, u.store)
      invariant AddsCopies(before, snaps, u.store) && u.past.deaths == old(u.past).deaths
      invariant forall name :: name in seen && name !in existing ==> TriedToCopy(name, snaps, Creations(u.past.calls))
      decreases todo
    {
      var key :| key in todo;
      todo := todo - {key};
      var snap := u.snapshots[key];
      assert snap in snaps;
      if snap.name !in seen {
        ghost var t := u.store;
        var alive := RecreateOne(u, s, snap, existing, seen);
        if Repairable(s, snaps) { AddingKeeps(s, t, u.store, snap.name); }
        if !alive { return; }
        assert snap.name !in existing ==> TriedToCopy(snap.name, u.snapshots.Values, Creations(u.past.calls));
        seen := seen + {snap.name};
      }
    }
    if good {
      forall name | Missing(s, snaps, name) ensures name in u.store.Names() {
        var snap :| snap in snaps && snap.name == name;
        var key :| key in u.snapshots && u.snapshots[key] == snap;
      }
    }
  }

  method RecreateOne(u: Updater, s: Store, snap: Snapshot, existing: set<Name>, ghost seen: set<Name>)
      returns (alive: bool)
    requires u.store.Valid() && s.Valid() && snap.name !in seen && snap in u.snapshots.Values
    requires u.faults == NoFaults && Repairable(s, u.snapshots.Values) ==>
               && PartlyRecovered(s, u.snapshots.Values, u.store, seen)
               && forall name: Name :: name.Service? ==> (name in existing <==> Marked(s, name))
    modifies u`store, u`past
    ensures u.store.Valid() && Only(old(u.store), u.store, {}, {snap.name})
    ensures forall id :: id in u.store.containers && id !in old(u.store).containers ==>
              CopyOf(u.store.containers[id], snap)
    ensures u.faults == NoFaults ==> alive
    ensures alive <==> u.past.deaths == old(u.past).deaths
    ensures Creations(u.past.calls) == Creations(old(u.past).calls) + if snap.name in existing then {}
              else {Creating(snap.name, if snap.imageDigest != "" then snap.imageDigest else snap.imageRef)}
    ensures u.faults == NoFaults && Repairable(s, u.snapshots.Values) ==>
              PartlyRecovered(s, u.snapshots.Values, u.store, seen + {snap.name})
  {
    alive := true;
    ghost var snaps, t := u.snapshots.Values, u.store;
    if snap.name !in existing {
      var r := u.Recreate(snap, RecoveryRef(snap), snap.name);
      alive := !r.Died?;
      if u.faults == NoFaults && Repairable(s, snaps) {
        NameIsFree(s, snaps, t, seen, snap.name);
        AddRecovered(s, snaps, t, seen, snap, u.store);
      }
    }
  }

  /**
   The whole pass. Without faults it does what the closed form says; failing or cut off anywhere, it
   leaves a store that can be repaired, in which every service that was known and not stranded still is.
   */
  method RecoverOrphans(u: Updater)
    requires u.store.Valid()
    modifies u`store, u`past
    ensures u.store.Valid()
    ensures u.faults == NoFaults && Repairable(old(u.store), u.snapshots.Values) ==>
              Recovers(old(u.store), u.snapshots.Values, u.store)
              && AddsCopies(old(u.store), u.snapshots.Values, u.store)
    ensures Repairable(old(u.store), u.snapshots.Values) ==>
              Repairable(u.store, u.snapshots.Values) && StaysKnown(old(u.store), u.store, u.snapshots.Values)
    ensures Repairable(old(u.store), u.snapshots.Values) && u.past.deaths == old(u.past).deaths
            && u.past.calls != Then(old(u.past).calls, Listing) ==>
              forall snap :: snap in u.snapshots.Values && !Marked(old(u.store), snap.name) ==>
                TriedToCopy(snap.name, u.snapshots.Values, Creations(u.past.calls))
  {
    var s := u.store;
    ghost var snaps := u.snapshots.Values;
    if Repairable(s, snaps) { KeepsItself(s, snaps); }
    var err, _ := u.Call(Listing, true);
    if err { return; }
    var alive, existing, handled := HandleNew(u, s);
    if Repairable(s, snaps) { AlongKeeps(s, u.store, handled, existing, snaps); }
    if !alive { return; }
    ghost var done;
    alive, existing, done := HandleOld(u, s, existing, handled);
    if Repairable(s, snaps) { AlongKeeps(s, u.store, done, existing, snaps); }
    if !alive { return; }
    if Repairable(s, snaps) { UnmarkedAreMissing(s, u.store, done, existing); }
    RecreateMissing(u, s, existing);
    if Repairable(s, snaps) { KeepsIsEnough(s, u.store, snaps); }
    if u.faults == NoFaults && Repairable(s, snaps) { CopiesOnly(s, snaps, u.store); }
  }

  // ---------------------------------------------------------------- crash, restart, recover

  datatype Operation =
    | Update(fatal: bool)
    | BlueGreen(fatal: bool, portsClash: bool, verdicts: seq<Verdict>)
    | SelfReplace
    | Rollback

  lemma HaltedStaysRepairable(s: Store, snapshots: set<Snapshot>, id: ContainerId)
    requires Repairable(s, snapshots) && id in s.containers
    ensures Repairable(Halt(s, id), snapshots)
  {
    assert Halt(s, id).Names() <= s.Names();
  }

  /** What an operation on container `id` starts from: a store that can be repaired, leftovers included. */
  ghost predicate MayRun(u: Updater, id: ContainerId, op: Operation)
    reads u
  {
    && Repairable(u.store, u.saved.Values) && id in u.store.containers && u.store.containers[id].name.Service?
    && (op.SelfReplace? ==> u.store.IsRunning(id))
    && (op.Rollback? && ById(id) in u.snapshots ==> u.snapshots[ById(id)].name == u.store.containers[id].name)
  }

  /** Any procedure, cut off anywhere by a crash or run to its end under any failures. */
  method RunOperation(u: Updater, id: ContainerId, imageRef: string, op: Operation)
    requires u.Valid() && MayRun(u, id, op)
    modifies u
    ensures u.Valid()
    ensures Repairable(u.store, u.saved.Values) && Known(u.store, u.saved.Values, old(u.store).containers[id].name)
    ensures Stranded(u.store, old(u.store).containers[id].name) ==>
              op.SelfReplace? || Old(old(u.store).containers[id].name) in old(u.store).Names()
  {
    match op {
      case Update(fatal) => var _ := u.UpdateContainer(id, imageRef, fatal);
      case BlueGreen(fatal, portsClash, verdicts) =>
        var _, _, _, _ := u.BlueGreenUpdate(id, imageRef, fatal, portsClash, verdicts);
      case Rollback => RunRollback(u, id);
      case SelfReplace => RunSelfUpdate(u, id, imageRef);
    }
  }

  method RunRollback(u: Updater, id: ContainerId)
    requires u.Valid() && MayRun(u, id, Rollback)
    modifies u
    ensures u.Valid()
    ensures Repairable(u.store, u.saved.Values) && Known(u.store, u.saved.Values, old(u.store).containers[id].name)
    ensures Stranded(u.store, old(u.store).containers[id].name) ==>
              Old(old(u.store).containers[id].name) in old(u.store).Names()
  {
    ghost var s := u.store;
    var _ := u.RollbackContainer(id);
    if ById(id) !in u.snapshots { UntouchedIsSafe(s, u.saved, u.saved, id); }
  }

  method RunSelfUpdate(u: Updater, id: ContainerId, imageRef: string)
    requires u.Valid() && MayRun(u, id, SelfReplace)
    modifies u
    ensures u.Valid()
    ensures Repairable(u.store, u.saved.Values) && Known(u.store, u.saved.Values, old(u.store).containers[id].name)
  {
    var r, _ := u.SelfUpdate(id, imageRef);
    if r.Crashed? {
      // a crash of the agent is the end of its container's process
      assert u.saved[id] in u.saved.Values;
      if id in u.store.containers { HaltedStaysRepairable(u.store, u.saved.Values, id); }
      u.Settle(id);
    }
  }

  /**
   After a crash at any point, a restart and a pass whose calls succeed bring the service back and
   leave no `-ww-new` container, and a second pass leaves nothing to do. Stranded can only be the
   agent's own container, when it stopped between giving its name away and starting its successor,
   or a service that had a `-ww-old` leftover before.
   */
  method CrashThenRecover(u: Updater, id: ContainerId, imageRef: string, op: Operation)
    returns (crashed: Store, recovered: Store)
    requires u.Valid() && MayRun(u, id, op)
    modifies u
    ensures old(u.store).containers[id].name in recovered.Names() <==>
            !Stranded(crashed, old(u.store).containers[id].name)
    ensures Stranded(crashed, old(u.store).containers[id].name) ==>
              op.SelfReplace? || Old(old(u.store).containers[id].name) in old(u.store).Names()
    ensures forall name :: name in recovered.Names() ==> !name.New?
    ensures AddsCopies(crashed, u.saved.Values, recovered)
    ensures DoneAtOnce(crashed, u.saved.Values) ==> u.store.containers == recovered.containers
    ensures Settled(u.store, u.saved.Values)
  {
    ghost var name := u.store.containers[id].name;
    RunOperation(u, id, imageRef, op);
    crashed := u.store;
    recovered := RecoverTwice(u);
    ServiceIsBack(crashed, u.saved.Values, recovered, name);
    NoNewRemains(crashed, u.saved.Values, recovered);
    CopiesOnly(crashed, u.saved.Values, recovered);
  }

  lemma CopiesOnly(s: Store, snapshots: set<Snapshot>, t: Store)
    requires Recovers(s, snapshots, t)
    ensures AddsCopies(s, snapshots, t)
  {
    forall id | id in t.containers && id !in s.containers
      ensures exists snap :: snap in snapshots && CopyOf(t.containers[id], snap)
    {
      AddedAreCopies(s, snapshots, t, id);
    }
  }

  /** One pass is enough: no stranded service has a snapshot, and no name is contested. */
  ghost predicate DoneAtOnce(s: Store, snapshots: set<Snapshot>) {
    && (forall snap :: snap in snapshots ==> !Stranded(s, snap.name))
    && (forall base :: !Contested(s, base))
  }

  /** A restart, and two passes without faults. */
  method RecoverTwice(u: Updater) returns (recovered: Store)
    requires u.Valid() && Repairable(u.store, u.saved.Values)
    modifies u
    ensures u.saved == old(u.saved) && recovered.Valid() && Recovers(old(u.store), u.saved.Values, recovered)
    ensures DoneAtOnce(old(u.store), u.saved.Values) ==> u.store.containers == recovered.containers
    ensures Settled(u.store, u.saved.Values)
  {
    ghost var s := u.store;
    u.Restart();
    u.faults := NoFaults;
    RecoverOrphans(u);
    recovered := u.store;
    StaysInOrder(s, u.saved.Values, recovered);
    RecoverOrphans(u);
    SecondPass(s, u.saved.Values, recovered, u.store);
  }

  lemma SecondPass(s: Store, snapshots: set<Snapshot>, t: Store, u: Store)
    requires Repairable(s, snapshots) && Recovers(s, snapshots, t) && t.Valid()
    requires Recovers(t, snapshots, u) && u.Valid()
    ensures Settled(u, snapshots)
    ensures DoneAtOnce(s, snapshots) ==> u.containers == t.containers
  {
    TwoPassesSettle(s, snapshots, t, u);
    PassSettles(s, snapshots, t);
    if Settled(t, snapshots) { SettledStays(t, snapshots, u); }
  }

  /**
   However many passes fail or are cut off, a later one without faults brings back every service
   that was known and not stranded at first.
   */
  method RecoverAtLast(u: Updater, failing: seq<Faults>)
    requires u.store.Valid() && Repairable(u.store, u.saved.Values)
    modifies u
    ensures u.saved == old(u.saved) && u.store.Valid()
    ensures forall base: Name :: base.Service? && !Stranded(old(u.store), base) ==>
              Known(old(u.store), u.saved.Values, base) ==> base in u.store.Names()
    ensures forall name :: name in u.store.Names() ==> !name.New?
  {
    ghost var s, snaps := u.store, u.saved.Values;
    for i := 0 to |failing|
      invariant u.store.Valid() && u.saved == old(u.saved)
      invariant Repairable(u.store, snaps) && StaysKnown(s, u.store, snaps)
    {
      u.Restart();
      u.faults := failing[i];
      RecoverOrphans(u);
    }
    ghost var t := u.store;
    u.Restart();
    u.faults := NoFaults;
    RecoverOrphans(u);
    NoNewRemains(t, snaps, u.store);
    forall base: Name | base.Service? && Known(s, snaps, base) && !Stranded(s, base) ensures base in u.store.Names() {
      ServiceIsBack(t, snaps, u.store, base);
    }
  }
}
