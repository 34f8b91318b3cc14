/**
 The part of a Docker daemon that the updater works on: containers under fresh identifiers,
 with unique names. The functions say what a call does when the daemon carries it out.
 */
module Docker {
  type ContainerId = nat

  /**
   A container name, read from its end: `New(n)` is `n` followed by "-ww-new", `Old(n)` is `n`
   followed by "-ww-old", and a `Service` name ends in neither.
   */
  datatype Name = Service(base: string) | New(of: Name) | Old(of: Name)

  /** A suffix makes a name longer, hence different. */
  lemma {:induction false} SuffixDiffers(n: Name)
    ensures Old(n) != n && New(n) != n
  {
    if !n.Service? { SuffixDiffers(n.of); }
  }

  datatype RunState = Created | Running | Exited

  /** What of a container's configuration decides how many calls are made and what a stop does. */
  datatype Config = Config(extraNetworks: nat, autoRemove: bool)

  datatype Container = Container(name: Name, image: string, state: RunState, config: Config)

  datatype Store = Store(containers: map<ContainerId, Container>, nextId: ContainerId) {
    ghost predicate Valid() {
      && (forall id :: id in containers ==> id < nextId && containers[id].image != "")
      && (forall i, j :: i in containers && j in containers && containers[i].name == containers[j].name ==> i == j)
    }

    function Names(): set<Name> {
      set id | id in containers :: containers[id].name
    }

    function RunningNames(): set<Name> {
      set id | id in containers && containers[id].state == Running :: containers[id].name
    }

    predicate IsRunning(id: ContainerId) {
      id in containers && containers[id].state == Running
    }
  }

  predicate CanCreate(s: Store, name: Name, image: string) {
    name !in s.Names() && image != ""
  }

  function Create(s: Store, name: Name, image: string, config: Config): (t: Store)
    requires CanCreate(s, name, image)
    ensures s.Valid() ==> t.Valid()
  {
    Store(s.containers[s.nextId := Container(name, image, Created, config)], s.nextId + 1)
  }

  function Start(s: Store, id: ContainerId): (t: Store)
    requires id in s.containers
    ensures s.Valid() ==> t.Valid()
  {
    s.(containers := s.containers[id := s.containers[id].(state := Running)])
  }

  /** A container that stops, by itself or on request: one that removes itself on exit is gone. */
  function Halt(s: Store, id: ContainerId): (t: Store)
    requires id in s.containers
    ensures s.Valid() ==> t.Valid()
  {
    var c := s.containers[id];
    if c.state != Running then s
    else if c.config.autoRemove then s.(containers := s.containers - {id})
    else s.(containers := s.containers[id := c.(state := Exited)])
  }

  lemma HaltedIs(s: Store, id: ContainerId)
    requires id in s.containers
    ensures id !in Halt(s, id).containers <==> s.containers[id].state == Running && s.containers[id].config.autoRemove
    ensures id in Halt(s, id).containers && s.containers[id].state == Running ==>
              Halt(s, id).containers[id] == s.containers[id].(state := Exited)
    ensures s.containers[id].state != Running ==> Halt(s, id) == s
    ensures Halt(s, id).containers - {id} == s.containers - {id}
  {}

  /** Only a forced removal takes a running container. */
  predicate CanRemove(s: Store, id: ContainerId, force: bool) {
    id in s.containers && (force || s.containers[id].state != Running)
  }

  function Remove(s: Store, id: ContainerId): (t: Store)
    ensures s.Valid() ==> t.Valid()
  {
    s.(containers := s.containers - {id})
  }

  predicate CanRename(s: Store, id: ContainerId, name: Name) {
    id in s.containers && name !in s.Names()
  }

  function Rename(s: Store, id: ContainerId, name: Name): (t: Store)
    requires CanRename(s, id, name)
    ensures s.Valid() ==> t.Valid()
  {
    s.(containers := s.containers[id := s.containers[id].(name := name)])
  }

  /** What the updater remembers of a container before it changes anything. */
  datatype Snapshot = Snapshot(name: Name, imageRef: string, imageDigest: string, config: Config)
}
