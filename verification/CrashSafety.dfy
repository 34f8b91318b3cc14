/**
 How a store may change during an update, and what of it suffices for a later recovery.
 */
module CrashSafety {
  import opened Docker
  import opened Recovery

  predicate IsSnapshotOf(snap: Snapshot, c: Container) {
    snap.name == c.name && snap.imageRef == c.image && snap.config == c.config
  }

  /** From `s` to `t` nothing changed but the containers in `ids` and new ones; these bear names in `names`. */
  ghost predicate Only(s: Store, t: Store, ids: set<ContainerId>, names: set<Name>) {
    && s.nextId <= t.nextId
    && (forall i :: i in s.containers && i !in ids ==> i in t.containers && t.containers[i] == s.containers[i])
    && (forall i :: i in t.containers && (i !in s.containers || i in ids) ==>
          (i in ids || i >= s.nextId) && t.containers[i].name in names)
  }

  lemma OnlyThen(s: Store, t: Store, u: Store, ids: set<ContainerId>, names: set<Name>,
                 more: set<ContainerId>, moreNames: set<Name>)
    requires s.Valid() && t.Valid() && Only(s, t, ids, names) && Only(t, u, more, moreNames)
    requires forall i :: i in more ==> i in ids || i >= s.nextId
    ensures Only(s, u, ids, names + moreNames)
  {
    forall i | i in s.containers && i !in ids ensures i in u.containers && u.containers[i] == s.containers[i] {
      assert i < s.nextId && i !in more;
    }
  }

  lemma OnlyWiden(s: Store, t: Store, ids: set<ContainerId>, names: set<Name>, ids': set<ContainerId>,
      names': set<Name>)
    requires Only(s, t, ids, names) && ids <= ids' && names <= names'
    requires forall i :: i in ids' && i !in ids && i in t.containers ==> t.containers[i].name in names'
    ensures Only(s, t, ids', names')
  {}

  /** Bringing a container up beside another and then switching over to it. */
  lemma OnlyBothNames(s: Store, t: Store, u: Store, id: ContainerId, newId: ContainerId, name: Name)
    requires s.Valid() && t.Valid() && id in s.containers && newId in t.containers && newId >= s.nextId
    requires s.containers[id].name == name && t.containers[newId].name == New(name)
    requires Only(s, t, {}, {New(name)}) && Only(t, u, {id, newId}, {name, New(name)})
    ensures Only(s, u, {id, newId}, {name, New(name)})
  {
    var names := {name, New(name)};
    OnlyWiden(s, t, {}, {New(name)}, {id, newId}, names);
    OnlyThen(s, t, u, {id, newId}, names, {id, newId}, names);
    assert names + names == names;
  }

  /** `t` is `s`, or the daemon accepted one more container, which may have gone again. */
  ghost predicate LeftOver(s: Store, t: Store, name: Name, image: string, config: Config) {
    || t == s
    || (&& t.nextId == s.nextId + 1
        && CanCreate(s, name, image)
        && (|| t.containers == s.containers
            || (&& s.nextId in t.containers
                && t.containers[s.nextId] == Container(name, image, t.containers[s.nextId].state, config)
                && t.containers == s.containers[s.nextId := t.containers[s.nextId]])))
  }

  /** What is left over may be stopped, started or removed, and is still no more than left over. */
  lemma LeftOverSteps(s: Store, t: Store, name: Name, image: string, config: Config)
    requires s.Valid() && t.nextId == s.nextId + 1 && LeftOver(s, t, name, image, config)
    ensures s.nextId in t.containers ==> LeftOver(s, Halt(t, s.nextId), name, image, config)
    ensures s.nextId in t.containers ==> LeftOver(s, Start(t, s.nextId), name, image, config)
    ensures LeftOver(s, Remove(t, s.nextId), name, image, config)
  {
    assert s.nextId !in s.containers;
    assert s.containers - {s.nextId} == s.containers;
    if s.nextId in t.containers {
      assert t.containers - {s.nextId} == s.containers;
    }
  }

  lemma LeftOverIsOnly(s: Store, t: Store, name: Name, image: string, config: Config)
    requires s.Valid() && LeftOver(s, t, name, image, config)
    ensures Only(s, t, {}, {name})
  {}

  /** The names that the given containers bear. */
  function NamesOf(s: Store, ids: set<ContainerId>): set<Name> {
    set id | id in ids && id in s.containers :: s.containers[id].name
  }

  /** Taking a container down is nobody else's business. */
  lemma GoneOnly(s: Store, t: Store, id: ContainerId)
    requires s.Valid() && t.nextId == s.nextId && t.containers - {id} == s.containers - {id}
    requires id in t.containers ==>
             id in s.containers && t.containers[id] == s.containers[id].(state := t.containers[id].state)
    ensures Only(s, t, {id}, NamesOf(s, {id}))
    ensures id !in s.containers ==> t.containers == s.containers
  {
    forall i | i != id ensures (i in s.containers <==> i in t.containers)
        && (i in s.containers ==> t.containers[i] == s.containers[i]) {
      assert i in s.containers <==> i in s.containers - {id};
      assert i in t.containers <==> i in t.containers - {id};
      if i in s.containers { assert (t.containers - {id})[i] == (s.containers - {id})[i]; }
    }
  }

  lemma HaltedOnly(s: Store, id: ContainerId)
    ensures (s.containers - {id}) - {id} == s.containers - {id}
    ensures id in s.containers ==> Halt(s, id).containers - {id} == s.containers - {id}
    ensures id in s.containers ==> (Halt(s, id).containers - {id}) - {id} == s.containers - {id}
    ensures id !in s.containers ==> s.containers - {id} == s.containers
  {}

  /** A container made beside others, which may have stopped. */
  lemma HaltedBeside(s: Store, t: Store, id: ContainerId, name: Name)
    requires s.Valid() && t.Valid() && id == s.nextId && t.nextId == id + 1 && id in t.containers
    requires t.containers[id].name == name && t.containers == s.containers[id := t.containers[id]]
    ensures t.containers - {id} == s.containers && Halt(t, id).containers - {id} == s.containers
    ensures Only(s, t, {}, {name}) && Only(s, Halt(t, id), {}, {name})
  {
    assert id !in s.containers;
    assert Halt(t, id).containers - {id} == t.containers - {id};
  }

  /** A container stopped, and then removed or started again. */
  lemma TakenDownOnly(s: Store, id: ContainerId, name: Name)
    requires s.Valid() && id in s.containers && s.containers[id].name == name
    ensures Only(s, Halt(s, id), {id}, {name}) && Only(s, Remove(Halt(s, id), id), {id}, {name})
    ensures id in Halt(s, id).containers ==>
              Only(s, Start(Halt(s, id), id), {id}, {name})
              && Start(Halt(s, id), id).containers[id] == s.containers[id].(state := Running)
  {}

  ghost predicate GainedContainer(s: Store, t: Store, c: Container) {
    exists id :: id in t.containers && id >= s.nextId && t.containers[id] == c
  }

  /**
   A pass of RecoverOrphans brings the service back from here, unless it is stranded by a leftover of
   a self-update that `s`, in which the update began, held already.
   */
  ghost predicate Safe(s: Store, t: Store, saved: map<ContainerId, Snapshot>, name: Name) {
    Repairable(t, saved.Values) && Known(t, saved.Values, name) && (Stranded(t, name) ==> Old(name) in s.Names())
  }

  /** What an update of container `id` starts from. */
  ghost predicate Ready(s: Store, saved: map<ContainerId, Snapshot>, id: ContainerId) {
    Repairable(s, saved.Values) && id in s.containers && s.containers[id].name.Service?
  }

  /** At most a snapshot of the container was saved. */
  ghost predicate SavedAtMost(s: Store, saved: map<ContainerId, Snapshot>, saved': map<ContainerId, Snapshot>,
      id: ContainerId) {
    || saved' == saved
    || (id in s.containers && id in saved' && IsSnapshotOf(saved'[id], s.containers[id])
        && saved' == saved[id := saved'[id]])
  }

  /** Saving a snapshot does no harm. */
  lemma UntouchedIsSafe(s: Store, saved: map<ContainerId, Snapshot>, saved': map<ContainerId, Snapshot>,
                        id: ContainerId)
    requires Ready(s, saved, id) && SavedAtMost(s, saved, saved', id)
    ensures Safe(s, s, saved', s.containers[id].name)
  {
    NamedIn(s, id);
    if saved' != saved { SavedValues(saved, id, saved'[id]); }
  }

  /** A service replaced in place is safe once a snapshot of it is saved. */
  lemma InPlaceIsSafe(s: Store, saved: map<ContainerId, Snapshot>, t: Store, saved': map<ContainerId, Snapshot>,
                      id: ContainerId)
    requires Ready(s, saved, id) && t.Valid() && Only(s, t, {id}, {s.containers[id].name})
    requires id in saved' && saved'[id].name == s.containers[id].name && saved'[id].imageRef != ""
    requires saved' == saved[id := saved'[id]]
    ensures Safe(s, t, saved', s.containers[id].name)
  {
    var name := s.containers[id].name;
    SavedValues(saved, id, saved'[id]);
    StaysRepairable(s, saved, t, saved', {id}, {name}, name);
    OnlyNames(s, t, {id}, {name});
  }

  lemma OnlyNames(s: Store, t: Store, ids: set<ContainerId>, names: set<Name>)
    requires Only(s, t, ids, names)
    ensures t.Names() <= s.Names() + names
  {}

  lemma SavedValues(saved: map<ContainerId, Snapshot>, id: ContainerId, snap: Snapshot)
    ensures snap in saved[id := snap].Values && saved[id := snap].Values <= saved.Values + {snap}
  {
    assert saved[id := snap][id] == snap;
  }

  /** An update keeps the store repairable, whatever orphans it introduces. */
  lemma StaysRepairable(s: Store, saved: map<ContainerId, Snapshot>, t: Store, saved': map<ContainerId, Snapshot>,
                        ids: set<ContainerId>, names: set<Name>, name: Name)
    requires Repairable(s, saved.Values) && name.Service? && t.Valid() && Only(s, t, ids, names)
    requires names <= {name, New(name), Old(name)}
    requires forall snap :: snap in saved'.Values ==> snap in saved.Values || (snap.name == name && snap.imageRef != "")
    ensures Repairable(t, saved'.Values)
  {
    OnlyNames(s, t, ids, names);
  }

  lemma NameFreed(s: Store, m: Store, id: ContainerId, name: Name)
    requires s.Valid() && id in s.containers && Only(s, m, {id}, {name}) && name !in m.Names()
    ensures id !in m.containers && id < m.nextId
  {
    if id in m.containers { NamedIn(m, id); }
  }

  lemma NameOfTheGone(s: Store, m: Store, id: ContainerId, name: Name)
    requires s.Valid() && id in s.containers && s.containers[id].name == name && id !in m.containers && m.Valid()
    requires Only(s, m, {id}, {name}) && m.nextId == s.nextId
    ensures name !in m.Names()
  {
    assert NamesOf(s, {id}) == {name};
    NameOfGone(s, m, id);
  }

  lemma OnlyBearerGone(s: Store, m: Store, id: ContainerId, name: Name)
    requires m.containers == s.containers - {id} && Bearers(s, name) <= {id}
    ensures name !in m.Names() && id !in m.containers
  {
    forall i | i in m.containers ensures m.containers[i].name != name {
      assert i in Bearers(s, name) <==> s.containers[i].name == name;
    }
  }

  /** Nobody bears the name that a container has given away. */
  lemma NameGivenAway(s: Store, id: ContainerId, name: Name)
    requires s.Valid() && id in s.containers && s.containers[id].name == name
    ensures CanRename(s, id, Old(name)) ==> name !in Rename(s, id, Old(name)).Names()
  {
    SuffixDiffers(name);
  }

  /** The name of a container that is gone is free. */
  lemma NameOfGone(s: Store, m: Store, id: ContainerId)
    requires s.Valid() && id in s.containers && id !in m.containers && Only(s, m, {id}, NamesOf(s, {id}))
    requires m.nextId == s.nextId && m.Valid()
    ensures s.containers[id].name !in m.Names()
  {
    forall i | i in m.containers ensures m.containers[i].name != s.containers[id].name {
      assert i in s.containers;
    }
  }

  function Bearers(s: Store, name: Name): set<ContainerId> {
    set id | id in s.containers && s.containers[id].name == name
  }

  /** While nothing but `-ww-new` containers of its service came or went, a container is safe. */
  lemma BesideIsSafe(s: Store, saved: map<ContainerId, Snapshot>, t: Store, ids: set<ContainerId>, id: ContainerId)
    requires Ready(s, saved, id) && t.Valid() && id !in ids && Only(s, t, ids, {New(s.containers[id].name)})
    ensures Safe(s, t, saved, s.containers[id].name) && Ready(t, saved, id)
  {
    var name := s.containers[id].name;
    StaysRepairable(s, saved, t, saved, ids, {New(name)}, name);
    OnlyNames(s, t, ids, {New(name)});
    NamedIn(t, id);
  }

  /** Once its snapshot is saved, a service is safe whatever becomes of its containers. */
  lemma SavedIsSafe(s: Store, saved: map<ContainerId, Snapshot>, t: Store, saved': map<ContainerId, Snapshot>,
                    ids: set<ContainerId>, id: ContainerId)
    requires Ready(s, saved, id) && t.Valid() && id in saved' && IsSnapshotOf(saved'[id], s.containers[id])
    requires saved' == saved[id := saved'[id]]
    requires Only(s, t, ids, {s.containers[id].name, New(s.containers[id].name)})
    ensures Safe(s, t, saved', s.containers[id].name)
  {
    var name := s.containers[id].name;
    SavedValues(saved, id, saved'[id]);
    StaysRepairable(s, saved, t, saved', ids, {name, New(name)}, name);
    OnlyNames(s, t, ids, {name, New(name)});
  }

  /**
   * A self-update so far: only the agent's container may bear the `-ww-old` name, and its name is all it may
   * have changed.
   */
  ghost predicate SelfOnly(s: Store, t: Store, id: ContainerId, name: Name) {
    && Only(s, t, {id}, {name, Old(name)})
    && (id in t.containers ==>
        id in s.containers && t.containers[id] == s.containers[id].(name := t.containers[id].name))
    && Bearers(t, Old(name)) <= {id}
  }

  /** Containers made on the way come and go. */
  lemma SelfBeside(s: Store, t: Store, u: Store, id: ContainerId, name: Name, ids: set<ContainerId>)
    requires s.Valid() && t.Valid() && u.Valid() && id in s.containers
    requires SelfOnly(s, t, id, name) && Only(t, u, ids, {name}) && forall i :: i in ids ==> i >= s.nextId
    ensures SelfOnly(s, u, id, name)
            && (id in t.containers ==> id in u.containers && u.containers[id] == t.containers[id])
  {
    OnlyThen(s, t, u, {id}, {name, Old(name)}, ids, {name});
    assert {name, Old(name)} + {name} == {name, Old(name)};
    SuffixDiffers(name);
    assert id < s.nextId && id !in ids;
    assert id in t.containers || id !in u.containers;
    assert Bearers(u, Old(name)) <= Bearers(t, Old(name));
  }

  lemma SelfRenamed(s: Store, t: Store, id: ContainerId, name: Name, to: Name)
    requires s.Valid() && t.Valid() && id in s.containers && SelfOnly(s, t, id, name) && to in {name, Old(name)}
    requires CanRename(t, id, to)
    ensures SelfOnly(s, Rename(t, id, to), id, name)
  {}

  lemma SelfMoves(s: Store, id: ContainerId, name: Name)
    requires s.Valid() && id in s.containers && s.containers[id].name == name && Old(name) !in s.Names()
    ensures SelfOnly(s, s, id, name) && SelfOnly(s, Rename(s, id, Old(name)), id, name)
  {}

  lemma SelfGone(s: Store, t: Store, id: ContainerId, name: Name)
    requires s.Valid() && id in s.containers && SelfOnly(s, t, id, name)
    ensures SelfOnly(s, Remove(t, id), id, name)
  {}

  /** A self-update is safe at every point, for its container runs under one name or the other until the end. */
  lemma SelfIsSafe(s: Store, saved: map<ContainerId, Snapshot>, t: Store, saved': map<ContainerId, Snapshot>,
      id: ContainerId)
    requires Ready(s, saved, id) && s.IsRunning(id)
    requires t.Valid() && SelfOnly(s, t, id, s.containers[id].name)
    requires (t == s && saved' == saved)
             || (id in saved' && IsSnapshotOf(saved'[id], s.containers[id]) && saved' == saved[id := saved'[id]])
    ensures Safe(s, t, saved', s.containers[id].name)
  {
    var name := s.containers[id].name;
    if saved' != saved { SavedValues(saved, id, saved'[id]); }
    StaysRepairable(s, saved, t, saved', {id}, {name, Old(name)}, name);
    NamedIn(s, id);
    if Old(name) in t.Names() {
      var i :| i in t.containers && t.containers[i].name == Old(name);
      assert i in Bearers(t, Old(name));
      NamedIn(t, id);
    }
    if id in saved' { assert saved'[id] in saved'.Values; }
  }
}
