/**
 The updater's procedures as a run of Docker calls, any of which may fail, and any two of
 which may have a crash between them. A procedure that crashes returns `Crashed` at that
 point, so a postcondition that does not exclude `Crashed` holds after every single step.
 */
module Updates {
  import opened CrashSafety
  import opened Docker
  import opened Options
  import opened Recovery

  /** What can go wrong: nothing, calls that fail and do nothing, or also calls whose success is never reported. */
  datatype Faults = NoFaults | Failures | LostReplies

  datatype Key = ById(id: ContainerId) | ByName(name: Name)

  datatype Stage = Inspect | Signature | Pull | RenameSelf | StopOld | RemoveOld | CreateNew | Health | NoSnapshot

  /** `restored`: the calls that undo a failed attempt, if any were made, were reported successful. */
  datatype Result = Crashed | Failed(stage: Stage, restored: bool) | Updated(id: ContainerId)

  datatype Recreation = Died | NotCreated | Started(id: ContainerId)

  datatype RemoveReply = Removed | NonFatal | Fatal

  /** What the health check of a running container reports. */
  datatype Verdict = NoCheck | Pending | Healthy | Unhealthy

  /** What one look at a container shows. */
  datatype Sight = NoAnswer | NotUp | Over | Up(verdict: Verdict)

  ghost predicate Good(sight: Sight) {
    sight == Up(NoCheck) || sight == Up(Healthy)
  }

  ghost predicate Bad(sight: Sight) {
    sight == Over || sight == Up(Unhealthy)
  }

  // What a run has done so far

  /** What is asked of the daemon, of the signature verifier and of the disk. */
  datatype Request =
    | Listing | Inspecting(id: ContainerId) | Resolving(name: Name)
    | Verifying(image: string) | Pulling(image: string) | Saving(id: ContainerId)
    | Stopping(id: ContainerId) | Removing(id: ContainerId, force: bool) | Renaming(id: ContainerId, to: Name)
    | Creating(name: Name, image: string) | Connecting(id: ContainerId) | Starting(id: ContainerId)

  /** All requests so far. */
  datatype Calls = Nothing | Then(before: Calls, request: Request)

  /**
   The requests, how many of them failed that could have been carried out, how many processes ended,
   and how often the agent died.
   */
  datatype Past = Past(calls: Calls, failures: nat, endings: nat, deaths: nat)

  function Asked(past: Past, request: Request, failed: bool): Past {
    past.(calls := Then(past.calls, request), failures := past.failures + if failed then 1 else 0)
  }

  /** Between the two nothing went wrong. */
  predicate Smooth(past: Past, now: Past) {
    now.failures == past.failures && now.endings == past.endings && now.deaths == past.deaths
  }

  /** What was last asked to be created. */
  function LastCreated(calls: Calls): Option<Request> {
    match calls
    case Nothing => None
    case Then(before, request) => if request.Creating? then Some(request) else LastCreated(before)
  }

  /** All that was asked to be created. */
  function Creations(calls: Calls): set<Request> {
    match calls
    case Nothing => {}
    case Then(before, request) => Creations(before) + if request.Creating? then {request} else {}
  }

  function Connected(calls: Calls, id: ContainerId, networks: nat): Calls {
    if networks == 0 then calls else Then(Connected(calls, id, networks - 1), Connecting(id))
  }

  /** A container created, connected to its further networks and started. */
  function Made(calls: Calls, name: Name, image: string, id: ContainerId, networks: nat): Calls {
    Then(Connected(Then(calls, Creating(name, image)), id, networks), Starting(id))
  }

  lemma {:induction false} ConnectedCreatesNothing(calls: Calls, id: ContainerId, networks: nat)
    ensures LastCreated(Connected(calls, id, networks)) == LastCreated(calls)
    ensures Creations(Connected(calls, id, networks)) == Creations(calls)
  {
    if networks > 0 { ConnectedCreatesNothing(calls, id, networks - 1); }
  }

  lemma LastMade(calls: Calls, name: Name, image: string, id: ContainerId, networks: nat)
    ensures LastCreated(Made(calls, name, image, id, networks)) == Some(Creating(name, image))
  {
    ConnectedCreatesNothing(Then(calls, Creating(name, image)), id, networks);
  }

  /** What the outcome of a creation tells of errors and deaths. */
  predicate Tried(r: Recreation, past: Past, now: Past) {
    && now.endings == past.endings && now.deaths == past.deaths + (if r.Died? then 1 else 0)
    && now.failures >= past.failures
  }

  /** What taking a container down tells of failures and deaths. */
  predicate TookDown(r: Option<Result>, fatal: bool, faults: Faults, past: Past, now: Past) {
    && now.endings == past.endings && now.deaths == past.deaths + (if r == Some(Crashed) then 1 else 0)
    && now.failures >= past.failures + (if r.Some? && r.value.Failed? then 1 else 0)
    && (r == Some(Failed(RemoveOld, false)) && faults != LostReplies ==> now.failures >= past.failures + 2)
    && (fatal && r.None? ==> now.failures == past.failures)
    && (!fatal && r.Some? && r.value.Failed? ==> r.value.stage == StopOld)
  }

  /**
   No attempt fails without a cause: each failure has its own, and of the compensation after a failed
   creation too, unless the old container is still there and bears the name.
   */
  predicate Accounted(r: Result, image: string, digest: string, fatal: bool, faults: Faults, stillThere: bool,
      past: Past,
                      now: Past)
  {
    && now.endings == past.endings && now.deaths == past.deaths + (if r.Crashed? then 1 else 0)
    && now.failures >= past.failures
    && (r.Failed? && image != "" ==> now.failures > past.failures)
    && (r == Failed(RemoveOld, false) && faults != LostReplies ==> now.failures >= past.failures + 2)
    && (!fatal ==> !(r.Failed? && r.stage == RemoveOld))
    && (r.Failed? && r.stage == CreateNew && fatal ==> !stillThere)
    && (r == Failed(CreateNew, false) && faults != LostReplies && !stillThere && digest != "" ==>
          now.failures >= past.failures + if image != "" then 2 else 1)
  }

  function FetchCalls(calls: Calls, id: ContainerId, current: string, image: string): Calls {
    Then(Then(Then(Then(calls, Inspecting(id)), Inspecting(id)), Verifying(current)), Pulling(image))
  }

  /** The requests of an update that goes well: nothing is stopped before the image is there and the snapshot saved. */
  function UpdateCalls(calls: Calls, id: ContainerId, snap: Snapshot, image: string, newId: ContainerId): Calls {
    ReplaceCalls(Then(Then(FetchCalls(calls, id, snap.imageRef, image), Inspecting(id)), Saving(id)),
                 id, snap, image, newId)
  }

  function ReplaceCalls(calls: Calls, id: ContainerId, snap: Snapshot, image: string, newId: ContainerId): Calls {
    Made(Then(Then(calls, Stopping(id)), Removing(id, false)), snap.name, image, newId, snap.config.extraNetworks)
  }

  /** Of a self-update: out of the way, the new container started and looked at, and only then the own one removed. */
  function MoveCalls(calls: Calls, id: ContainerId, snap: Snapshot, image: string, newId: ContainerId): Calls {
    var moved := Then(calls, Renaming(id, Old(snap.name)));
    Then(Then(Made(moved, snap.name, image, newId, snap.config.extraNetworks), Inspecting(newId)), Removing(id, true))
  }

  function SelfCalls(calls: Calls, id: ContainerId, snap: Snapshot, image: string, newId: ContainerId): Calls {
    MoveCalls(Then(Then(Then(calls, Inspecting(id)), Saving(id)), Pulling(image)), id, snap, image, newId)
  }

  /** From store `s` and files `disk` to `t` and `files`: what an update may have done, by its result. */
  ghost predicate UpdateOutcome(s: Store, disk: map<ContainerId, Snapshot>, t: Store, files: map<ContainerId, Snapshot>,
                                r: Result, id: ContainerId, image: string, faults: Faults)
  {
    && (id !in s.containers ==> t == s && files == disk && r == Failed(Inspect, true))
    && (id in s.containers ==> Only(s, t, {id}, {s.containers[id].name}))
    && (t != s ==> id in s.containers && id in files && IsSnapshotOf(files[id], s.containers[id]))
    && SavedAtMost(s, disk, files, id)
    && (r.Failed? && r.stage in {Inspect, Signature, Pull} ==> t == s && files == disk)
    && (r.Failed? && r.stage in {Inspect, Signature, Pull, StopOld} ==> r.restored)
    && (r.Failed? && r.stage == StopOld && faults != LostReplies ==> t == s)
    && (r == Failed(RemoveOld, true) ==>
          id in s.containers && id in t.containers && t.containers[id] == s.containers[id].(state := Running))
    && (r.Failed? && r.stage == CreateNew ==> id in s.containers && id in files)
    && (r == Failed(CreateNew, true) ==>
          GainedContainer(s, t, Container(files[id].name, files[id].imageDigest, Running, files[id].config)))
    && (r.Updated? ==>
          && id in s.containers && id !in t.containers && r.id >= s.nextId && r.id in t.containers
          && t.containers[r.id] == s.containers[id].(image := image, state := Running))
    && (r.Failed? ==> r.stage in {Inspect, Signature, Pull, StopOld, RemoveOld, CreateNew})
  }

  /** What the requests, failures and deaths of an update tell, given its result. */
  ghost predicate Answered(s: Store, t: Store, files: map<ContainerId, Snapshot>, r: Result, id: ContainerId,
                           image: string, fatal: bool, faults: Faults, past: Past, now: Past)
    requires id in s.containers
  {
    var digest := if id in files then files[id].imageDigest else "";
    && Accounted(r, image, digest, fatal, faults, id in t.containers, past, now)
    && (r.Failed? && r.stage == CreateNew ==>
          LastCreated(now.calls) == Some(Creating(s.containers[id].name, digest)))
    && (r.Updated? ==> id in files && now.calls == UpdateCalls(past.calls, id, files[id], image, r.id))
  }

  /**
   If at most one call failed, the service runs, unless the removal of its container failed with an
   error that is not taken for serious.
   */
  lemma OneFailureIsSurvived(s: Store, disk: map<ContainerId, Snapshot>, t: Store, files: map<ContainerId, Snapshot>,
                             r: Result, id: ContainerId, image: string, fatal: bool, faults: Faults, past: Past,
                             now: Past)
    requires s.Valid() && s.IsRunning(id) && UpdateOutcome(s, disk, t, files, r, id, image, faults)
    requires Answered(s, t, files, r, id, image, fatal, faults, past, now)
    requires faults != LostReplies && !r.Crashed? && now.failures <= past.failures + 1 && image != ""
    requires id in files ==> files[id].imageDigest != ""
    ensures s.containers[id].name in t.RunningNames() || (!fatal && r == Failed(CreateNew, false) && id in t.containers)
  {
    NamedIn(s, id);
    if r.Updated? { NamedIn(t, r.id); }
    if r == Failed(RemoveOld, true) { NamedIn(t, id); }
    if r == Failed(CreateNew, true) {
      var back := Container(files[id].name, files[id].imageDigest, Running, files[id].config);
      var i :| i in t.containers && i >= s.nextId && t.containers[i] == back;
      NamedIn(t, i);
      assert t != s;
    }
  }

  /** The looks decide, unless the agent dies: healthy, unhealthy or ended, or undecided until the time is up. */
  ghost predicate Judged(r: Result, sights: seq<Sight>, verdicts: seq<Verdict>) {
    && (r.Updated? ==> sights != [] && Good(sights[|sights| - 1]))
    && (r.Failed? && r.stage == Health ==>
          (|sights| == |verdicts| && (sights != [] ==> !Good(sights[|sights| - 1])))
          || (sights != [] && Bad(sights[|sights| - 1])))
    && (sights != [] && Good(sights[|sights| - 1]) ==> r.Updated? || r.Crashed?)
    && (sights != [] && Bad(sights[|sights| - 1]) ==> r == Failed(Health, true) || r.Crashed?)
  }

  /** Looks at a container that runs all the time come to the verdict of its health check. */
  lemma DecidedByVerdicts(sights: seq<Sight>, verdicts: seq<Verdict>)
    requires Watched(sights, verdicts) && AllUp(sights)
    requires |sights| == |verdicts| || (sights != [] && (Good(sights[|sights| - 1]) || Bad(sights[|sights| - 1])))
    ensures HealthyInTime(verdicts) <==> sights != [] && Good(sights[|sights| - 1])
  {
    forall i | 0 <= i < |sights| - 1 ensures verdicts[i] == Pending {
      assert sights[i].Up? && !Good(sights[i]) && !Bad(sights[i]);
    }
    if sights != [] && Good(sights[|sights| - 1]) {
      assert verdicts[|sights| - 1] in {NoCheck, Healthy};
    }
  }

  /** Only the temporary container came or went. */
  ghost predicate FellBackTo(s: Store, m: Store, id: ContainerId) {
    && id in s.containers && m.Valid() && id in m.containers && m.containers[id] == s.containers[id]
    && exists temporary: set<ContainerId> :: id !in temporary && Only(s, m, temporary, {New(s.containers[id].name)})
  }

  lemma ClearedIsSafe(s: Store, saved: map<ContainerId, Snapshot>, m: Store, id: ContainerId)
    requires Ready(s, saved, id) && FellBackTo(s, m, id)
    ensures Ready(m, saved, id) && (Old(s.containers[id].name) in m.Names() ==> Old(s.containers[id].name) in s.Names())
  {
    var name := s.containers[id].name;
    var temporary :| id !in temporary && Only(s, m, temporary, {New(name)});
    BesideIsSafe(s, saved, m, temporary, id);
    OnlyNames(s, m, temporary, {New(name)});
  }

  /** Some look finds it without a health check or healthy, and all looks before find the check pending. */
  ghost predicate HealthyInTime(verdicts: seq<Verdict>) {
    exists i :: 0 <= i < |verdicts| && verdicts[i] in {NoCheck, Healthy}
                && forall k :: 0 <= k < i ==> verdicts[k] == Pending
  }

  ghost predicate Undecided(sights: seq<Sight>) {
    forall i :: 0 <= i < |sights| ==> !Good(sights[i]) && !Bad(sights[i])
  }

  ghost predicate AllUp(sights: seq<Sight>) {
    forall i :: 0 <= i < |sights| ==> sights[i].Up?
  }

  lemma WatchedMore(sights: seq<Sight>, verdicts: seq<Verdict>, sight: Sight)
    requires Watched(sights, verdicts) && Undecided(sights) && |sights| < |verdicts|
    requires sight.Up? ==> sight.verdict == verdicts[|sights|]
    ensures Watched(sights + [sight], verdicts)
    ensures !Good(sight) && !Bad(sight) ==> Undecided(sights + [sight])
    ensures AllUp(sights) && sight.Up? ==> AllUp(sights + [sight])
  {}

  /** Looks at a container: each but the last undecided, and a running one with its verdict of that time. */
  ghost predicate Watched(sights: seq<Sight>, verdicts: seq<Verdict>) {
    && |sights| <= |verdicts|
    && (forall i :: 0 <= i < |sights| && sights[i].Up? ==> sights[i].verdict == verdicts[i])
    && (forall i :: 0 <= i < |sights| - 1 ==> !Good(sights[i]) && !Bad(sights[i]))
  }

  class Updater {
    var store: Store
    var faults: Faults
    var saved: map<ContainerId, Snapshot>  // the snapshot files
    var snapshots: map<Key, Snapshot>      // the snapshots in memory
    ghost var past: Past                   // what has been done so far

    ghost predicate Valid()
      reads this
    {
      && store.Valid()
      && forall key :: key in snapshots && key.ById? ==> key.id in saved && saved[key.id] == snapshots[key]
    }

    constructor (s: Store, disk: map<ContainerId, Snapshot>)
      requires s.Valid()
      ensures Valid() && store == s && saved == disk && faults == NoFaults
      ensures snapshots.Values == saved.Values
    {
      store, faults, saved, snapshots := s, NoFaults, disk, Loaded(disk);
    }

    /** The process dies and starts again: memory is lost, files and containers are not. */
    method Restart()
      requires store.Valid()
      modifies this`snapshots
      ensures Valid() && snapshots.Values == saved.Values
    {
      snapshots := Loaded(saved);
    }

    // -------------------------------------------------------------- single calls

    /** Whether a call reports an error, and whether it took effect. */
    method Call(request: Request, legal: bool) returns (err: bool, effect: bool)
      modifies this`past
      ensures past == Asked(old(past), request, legal && err)
      ensures !legal ==> err && !effect
      ensures legal && !err ==> effect
      ensures err && effect ==> faults == LostReplies
      ensures legal && faults == NoFaults ==> !err
    {
      if !legal {
        err, effect := true, false;
      } else {
        match faults
        case NoFaults => err, effect := false, true;
        case Failures => err := *; effect := !err;
        case LostReplies =>
          err := *;
          effect := *;
          effect := effect || !err;
      }
      past := Asked(past, request, legal && err);
    }

    method Killed() returns (killed: bool)
      modifies this`past
      ensures past == old(past).(deaths := old(past).deaths + if killed then 1 else 0)
      ensures faults == NoFaults ==> !killed
    {
      killed := *;
      killed := killed && faults != NoFaults;
      past := past.(deaths := past.deaths + if killed then 1 else 0);
    }

    method Stop(id: ContainerId) returns (err: bool)
      requires store.Valid()
      modifies this`store, this`past
      ensures store.Valid() && past == Asked(old(past), Stopping(id), err && id in old(store).containers)
      ensures !err ==> id in old(store).containers && store == Halt(old(store), id)
      ensures err ==> (store == old(store) ||
                (faults == LostReplies && id in old(store).containers && store == Halt(old(store), id)))
      ensures err ==> faults != NoFaults || id !in old(store).containers
    {
      var effect;
      err, effect := Call(Stopping(id), id in store.containers);
      if effect { store := Halt(store, id); }
    }

    /** `fatal` is whether the error, should it fail, is one that an update takes for serious. */
    method RemoveContainer(id: ContainerId, force: bool, fatal: bool) returns (reply: RemoveReply)
      requires store.Valid()
      modifies this`store, this`past
      ensures store.Valid()
      ensures past == Asked(old(past), Removing(id, force), !reply.Removed? && CanRemove(old(store), id, force))
      ensures reply.Removed? ==> CanRemove(old(store), id, force) && store == Remove(old(store), id)
      ensures !reply.Removed? ==> (store == old(store) ||
                (faults == LostReplies && CanRemove(old(store), id, force) && store == Remove(old(store), id)))
      ensures !reply.Removed? ==> faults != NoFaults || !CanRemove(old(store), id, force)
      ensures reply.Fatal? ==> CanRemove(old(store), id, force) && fatal
      ensures reply.NonFatal? && fatal ==> !CanRemove(old(store), id, force)
    {
      var err, effect := Call(Removing(id, force), CanRemove(store, id, force));
      reply := if !err then Removed else if fatal && CanRemove(store, id, force) then Fatal else NonFatal;
      if effect { store := Remove(store, id); }
    }

    method CreateContainer(name: Name, image: string, config: Config) returns (id: Option<ContainerId>)
      requires store.Valid()
      modifies this`store, this`past
      ensures store.Valid()
      ensures past == Asked(old(past), Creating(name, image), id.None? && CanCreate(old(store), name, image))
      ensures id.Some? ==> CanCreate(old(store), name, image) && id.value == old(store).nextId
                           && store == Create(old(store), name, image, config)
      ensures id.None? ==> (store == old(store) ||
                (faults == LostReplies && CanCreate(old(store), name, image)
                    && store == Create(old(store), name, image, config)))
      ensures id.None? ==> faults != NoFaults || !CanCreate(old(store), name, image)
    {
      var err, effect := Call(Creating(name, image), CanCreate(store, name, image));
      id := if err then None else Some(store.nextId);
      if effect { store := Create(store, name, image, config); }
    }

    method StartContainer(id: ContainerId) returns (err: bool)
      requires store.Valid()
      modifies this`store, this`past
      ensures store.Valid() && past == Asked(old(past), Starting(id), err && id in old(store).containers)
      ensures !err ==> id in old(store).containers && store == Start(old(store), id)
      ensures err ==> (store == old(store) ||
                (faults == LostReplies && id in old(store).containers && store == Start(old(store), id)))
      ensures err ==> faults != NoFaults || id !in old(store).containers
    {
      var effect;
      err, effect := Call(Starting(id), id in store.containers);
      if effect { store := Start(store, id); }
    }

    method RenameContainer(id: ContainerId, name: Name) returns (err: bool)
      requires store.Valid()
      modifies this`store, this`past
      ensures store.Valid()
      ensures past == Asked(old(past), Renaming(id, name), err && CanRename(old(store), id, name))
      ensures !err ==> CanRename(old(store), id, name) && store == Rename(old(store), id, name)
      ensures err ==> (store == old(store) ||
                (faults == LostReplies && CanRename(old(store), id, name) && store == Rename(old(store), id, name)))
      ensures err ==> faults != NoFaults || !CanRename(old(store), id, name)
    {
      var effect;
      err, effect := Call(Renaming(id, name), CanRename(store, id, name));
      if effect { store := Rename(store, id, name); }
    }

    /** The digest is whatever the image store reports, if anything. */
    method InspectContainer(id: ContainerId) returns (snap: Option<Snapshot>)
      modifies this`past
      ensures past == Asked(old(past), Inspecting(id), snap.None? && id in store.containers)
      ensures snap.Some? ==> id in store.containers && IsSnapshotOf(snap.value, store.containers[id])
      ensures snap.None? ==> faults != NoFaults || id !in store.containers
    {
      var err, _ := Call(Inspecting(id), id in store.containers);
      if err { return None; }
      var c := store.containers[id];
      var digest: string := *;
      return Some(Snapshot(c.name, c.image, digest, c.config));
    }

    /** A container's process may end by itself; what ran before is then stopped, or gone. */
    method Settle(id: ContainerId)
      requires store.Valid()
      modifies this`store, this`past
      ensures store.Valid()
      ensures (store == old(store) && past == old(past))
              || (id in old(store).containers && store == Halt(old(store), id)
                  && past == old(past).(endings := old(past).endings + 1))
    {
      var ends: bool := *;
      if ends && id in store.containers {
        store := Halt(store, id);
        past := past.(endings := past.endings + 1);
      }
    }

    method SaveSnapshot(id: ContainerId, snap: Snapshot)
      requires Valid()
      modifies this`saved, this`snapshots, this`past
      ensures Valid() && past == Asked(old(past), Saving(id), false)
      ensures saved == old(saved)[id := snap]
      ensures snapshots == old(snapshots)[ById(id) := snap][ByName(snap.name) := snap]
    {
      snapshots := snapshots[ById(id) := snap][ByName(snap.name) := snap];
      saved := saved[id := snap];
      past := Asked(past, Saving(id), false);
    }

    // -------------------------------------------------------------- compound steps

    /** Create, connect the further networks, start; a container that cannot be finished is removed again. */
    method Recreate(snap: Snapshot, image: string, name: Name) returns (r: Recreation)
      requires store.Valid()
      modifies this`store, this`past
      ensures store.Valid()
      ensures r.Started? ==> CanCreate(old(store), name, image) && r.id == old(store).nextId
      ensures r.Started? ==> store.nextId == r.id + 1
      ensures r.Started? ==>
              store.containers == old(store).containers[r.id := Container(name, image, Running, snap.config)]
      ensures r.Started? ==>
              past == old(past).(calls := Made(old(past).calls, name, image, r.id, snap.config.extraNetworks))
      ensures !r.Started? ==> LeftOver(old(store), store, name, image, snap.config)
      ensures Tried(r, old(past), past) && (r.NotCreated? ==> LastCreated(past.calls) == Some(Creating(name, image)))
      ensures Creations(past.calls) == Creations(old(past).calls) + {Creating(name, image)}
      ensures r.NotCreated? && past.failures == old(past).failures ==> !CanCreate(old(store), name, image)
      ensures r.NotCreated? && past.failures <= old(past).failures + 1 && faults != LostReplies ==>
                store.containers == old(store).containers
      ensures Only(old(store), store, {}, {name})
      ensures faults == NoFaults ==> (r.Started? <==> CanCreate(old(store), name, image)) && !r.Died?
      ensures faults == NoFaults && !r.Started? ==> store == old(store)
    {
      ghost var s := store;
      var id := CreateContainer(name, image, snap.config);
      if id.None? {
        LeftOverIsOnly(s, store, name, image, snap.config);
        return NotCreated;
      }
      var killed := Killed();
      if killed {
        LeftOverIsOnly(s, store, name, image, snap.config);
        return Died;
      }
      r := Finish(snap, image, name, id.value, s);
      LeftOverIsOnly(s, store, name, image, snap.config);
    }

    /** Connect what was created to the further networks, and start it. */
    method Finish(snap: Snapshot, image: string, name: Name, id: ContainerId, ghost before: Store)
      returns (r: Recreation)
      requires before.Valid() && CanCreate(before, name, image) && id == before.nextId
      requires store == Create(before, name, image, snap.config)
      modifies this`store, this`past
      ensures store.Valid() && LeftOver(before, store, name, image, snap.config)
      ensures r.Started? ==> r.id == id && store.nextId == id + 1
      ensures r.Started? ==> store.containers == before.containers[id := Container(name, image, Running, snap.config)]
      ensures r.Started? ==>
              past == old(past).(calls := Then(Connected(old(past).calls, id, snap.config.extraNetworks), Starting(id)))
      ensures Tried(r, old(past), past) && Creations(past.calls) == Creations(old(past).calls)
      ensures r.NotCreated? ==> LastCreated(past.calls) == LastCreated(old(past).calls)
      ensures r.NotCreated? ==> past.failures > old(past).failures
      ensures r.NotCreated? && past.failures == old(past).failures + 1 && faults != LostReplies ==>
                store.containers == before.containers
      ensures faults == NoFaults ==> r.Started?
    {
      ghost var made := store;
      for i := 0 to snap.config.extraNetworks
        invariant store == made && past == old(past).(calls := Connected(old(past).calls, id, i))
      {
        ConnectedCreatesNothing(old(past).calls, id, i);
        var err, _ := Call(Connecting(id), true);
        if err {
          var killed := Discard(snap, image, name, id, before);
          return if killed then Died else NotCreated;
        }
        var killed := Killed();
        if killed { return Died; }
      }
      ConnectedCreatesNothing(old(past).calls, id, snap.config.extraNetworks);
      r := StartMade(snap, image, name, id, before);
    }

    method StartMade(snap: Snapshot, image: string, name: Name, id: ContainerId, ghost before: Store)
      returns (r: Recreation)
      requires before.Valid() && CanCreate(before, name, image) && id == before.nextId
      requires store == Create(before, name, image, snap.config)
      modifies this`store, this`past
      ensures store.Valid() && LeftOver(before, store, name, image, snap.config)
      ensures r.Started? ==> r.id == id && store.nextId == id + 1
      ensures r.Started? ==> store.containers == before.containers[id := Container(name, image, Running, snap.config)]
      ensures r.Started? ==> past == Asked(old(past), Starting(id), false)
      ensures Tried(r, old(past), past) && Creations(past.calls) == Creations(old(past).calls)
      ensures r.NotCreated? ==> past.calls == Then(Then(old(past).calls, Starting(id)), Removing(id, true))
      ensures r.NotCreated? ==> past.failures > old(past).failures
      ensures r.NotCreated? && past.failures == old(past).failures + 1 && faults != LostReplies ==>
                store.containers == before.containers
      ensures faults == NoFaults ==> r.Started?
    {
      LeftOverSteps(before, store, name, image, snap.config);
      var err := StartContainer(id);
      if err {
        LeftOverSteps(before, store, name, image, snap.config);
        assert store.containers - {id} == before.containers;
        var _ := RemoveContainer(id, true, false);
        return NotCreated;
      }
      var killed := Killed();
      if killed { return Died; }
      return Started(id);
    }

    /** Stop and remove what could not be connected. */
    method Discard(snap: Snapshot, image: string, name: Name, id: ContainerId, ghost before: Store)
      returns (killed: bool)
      requires store.Valid() && before.Valid() && CanCreate(before, name, image) && id == before.nextId
      requires store == Create(before, name, image, snap.config)
      modifies this`store, this`past
      ensures store.Valid() && LeftOver(before, store, name, image, snap.config)
      ensures past.failures >= old(past).failures && past.endings == old(past).endings
      ensures past.deaths == old(past).deaths + if killed then 1 else 0
      ensures LastCreated(past.calls) == LastCreated(old(past).calls)
      ensures Creations(past.calls) == Creations(old(past).calls)
      ensures !killed ==> past.calls == Then(Then(old(past).calls, Stopping(id)), Removing(id, false))
      ensures !killed && past.failures == old(past).failures ==> store.containers == before.containers
      ensures faults == NoFaults ==> !killed
    {
      LeftOverSteps(before, store, name, image, snap.config);
      assert Halt(store, id) == store;
      var _ := Stop(id);
      killed := Killed();
      if !killed {
        assert store.containers - {id} == before.containers;
        var _ := RemoveContainer(id, false, false);
      }
    }

    /** Stop and remove, whatever the calls report. */
    method StopAndRemove(id: ContainerId) returns (killed: bool)
      requires store.Valid()
      modifies this`store, this`past
      ensures store.Valid() && store.nextId == old(store).nextId
      ensures Only(old(store), store, {id}, NamesOf(old(store), {id}))
      ensures past.deaths == old(past).deaths + if killed then 1 else 0
      ensures past.failures >= old(past).failures && past.endings == old(past).endings
      ensures !killed ==> past.calls == Then(Then(old(past).calls, Stopping(id)), Removing(id, false))
      ensures !killed && past.failures == old(past).failures ==> store.containers == old(store).containers - {id}
      ensures faults == NoFaults ==> !killed && id !in store.containers
    {
      ghost var s := store;
      HaltedOnly(s, id);
      var _ := Stop(id);
      killed := Killed();
      if !killed {
        var _ := RemoveContainer(id, false, false);
        killed := Killed();
      }
      GoneOnly(s, store, id);
    }

    /**
     Looks again and again, until the container is seen running and healthy, or running without a
     health check, or unhealthy, or ended, or the time is up: `verdicts` is what its health check
     reports at each look, should it be running then, and `sights` what the looks show.
     */
    method WaitForHealthy(id: ContainerId, verdicts: seq<Verdict>) returns (healthy: bool, ghost sights: seq<Sight>)
      requires store.Valid()
      modifies this`store, this`past
      ensures store.Valid()
      ensures store == old(store) || (id in old(store).containers && store == Halt(old(store), id))
      ensures healthy ==> store.IsRunning(id)
      ensures Watched(sights, verdicts) && (healthy <==> sights != [] && Good(sights[|sights| - 1]))
      ensures !healthy ==> |sights| == |verdicts| || (sights != [] && Bad(sights[|sights| - 1]))
      ensures past.failures >= old(past).failures && past.endings >= old(past).endings
              && past.deaths == old(past).deaths
      ensures old(store).IsRunning(id) && Smooth(old(past), past) ==> store == old(store) && AllUp(sights)
    {
      sights := [];
      for i := 0 to |verdicts|
        invariant store.Valid() && |sights| == i
        invariant store == old(store) || (id in old(store).containers && store == Halt(old(store), id))
        invariant Watched(sights, verdicts) && Undecided(sights)
        invariant past.failures >= old(past).failures && past.endings >= old(past).endings
        invariant past.deaths == old(past).deaths
        invariant old(store).IsRunning(id) && Smooth(old(past), past) ==> store == old(store) && AllUp(sights)
      {
        var sight := Look(id, verdicts[i]);
        WatchedMore(sights, verdicts, sight);
        sights := sights + [sight];
        match sight {
          case Over => return false, sights;
          case Up(NoCheck) => return true, sights;
          case Up(Healthy) => return true, sights;
          case Up(Unhealthy) => return false, sights;
          case _ =>
        }
      }
      return false, sights;
    }

    /** One look, some time after the one before. */
    method Look(id: ContainerId, verdict: Verdict) returns (sight: Sight)
      requires store.Valid()
      modifies this`store, this`past
      ensures store.Valid()
      ensures store == old(store) || (id in old(store).containers && store == Halt(old(store), id))
      ensures past.failures == old(past).failures + if sight.NoAnswer? && id in store.containers then 1 else 0
      ensures !sight.NoAnswer? ==> id in store.containers
      ensures sight.Over? ==> store.containers[id].state == Exited
      ensures sight.NotUp? ==> store.containers[id].state == Created
      ensures sight.Up? ==> store.IsRunning(id) && sight.verdict == verdict
      ensures past.endings >= old(past).endings && past.deaths == old(past).deaths
      ensures past.endings == old(past).endings ==> store == old(store)
      ensures past.calls == Then(old(past).calls, Inspecting(id))
    {
      Settle(id);
      var snap := InspectContainer(id);
      if snap.None? { return NoAnswer; }
      match store.containers[id].state
      case Exited => return Over;
      case Created => return NotUp;
      case Running => return Up(verdict);
    }

    // -------------------------------------------------------------- the procedures

    /** Stop and remove; a removal that fails for good is answered by starting the container again. */
    method TakeDown(id: ContainerId, name: Name, fatal: bool) returns (r: Option<Result>)
      requires store.Valid() && id in store.containers && store.containers[id].name == name
      modifies this`store, this`past
      ensures store.Valid() && Only(old(store), store, {id}, {name})
      ensures store.nextId == old(store).nextId
      ensures r.Some? ==> !r.value.Updated?
      ensures r.Some? && r.value.Failed? ==> r.value.stage in {StopOld, RemoveOld}
      ensures r.Some? && r.value.Failed? && r.value.stage == StopOld ==>
                r.value.restored && (faults != LostReplies ==> store == old(store))
      ensures r == Some(Failed(RemoveOld, true)) ==>
                id in store.containers && store.containers[id] == old(store).containers[id].(state := Running)
      ensures TookDown(r, fatal, faults, old(past), past)
      ensures r.None? && past.failures == old(past).failures ==> id !in store.containers
      ensures r.None? ==> past.calls == Then(Then(old(past).calls, Stopping(id)), Removing(id, false))
      ensures faults == NoFaults ==> r.None? && id !in store.containers
    {
      var err := Stop(id);
      if err { return Some(Failed(StopOld, true)); }
      var killed := Killed();
      if killed { return Some(Crashed); }
      r := RemoveStopped(id, name, fatal, old(store));
    }

    /** Remove what was stopped, and start it again if that fails for good. */
    method RemoveStopped(id: ContainerId, name: Name, fatal: bool, ghost before: Store) returns (r: Option<Result>)
      requires before.Valid() && id in before.containers && before.containers[id].name == name
      requires store == Halt(before, id) && store.Valid()
      modifies this`store, this`past
      ensures store.Valid() && Only(before, store, {id}, {name}) && store.nextId == before.nextId
      ensures r.Some? ==> r.value == Crashed || (r.value.Failed? && r.value.stage == RemoveOld)
      ensures r == Some(Failed(RemoveOld, true)) ==>
                id in store.containers && store.containers[id] == before.containers[id].(state := Running)
      ensures TookDown(r, fatal, faults, old(past), past)
      ensures r.None? && past.failures == old(past).failures ==> id !in store.containers
      ensures r.None? ==> past.calls == Then(old(past).calls, Removing(id, false))
      ensures faults == NoFaults ==> r.None? && id !in store.containers
    {
      TakenDownOnly(before, id, name);
      var reply := RemoveContainer(id, false, fatal);
      if reply.Fatal? {
        var startErr := StartContainer(id);
        return Some(Failed(RemoveOld, !startErr));
      }
      var killed := Killed();
      return if killed then Some(Crashed) else None;
    }

    /**
     Take down, create, start; when the new container cannot be created, the old image is
     started again. `UpdateContainer` runs this under the lock.
     */
    method Replace(id: ContainerId, snap: Snapshot, imageRef: string, fatal: bool) returns (r: Result)
      requires store.Valid() && id in store.containers && IsSnapshotOf(snap, store.containers[id])
      modifies this`store, this`past
      ensures store.Valid() && Only(old(store), store, {id}, {snap.name})
      ensures r.Updated? ==> r.id >= old(store).nextId && id !in store.containers
      ensures r.Updated? ==> r.id in store.containers
                             && store.containers[r.id] == Container(snap.name, imageRef, Running, snap.config)
      ensures r.Failed? ==> r.stage in {StopOld, RemoveOld, CreateNew}
      ensures r.Failed? && r.stage == StopOld ==> r.restored && (faults != LostReplies ==> store == old(store))
      ensures r == Failed(RemoveOld, true) ==>
                id in store.containers && store.containers[id] == old(store).containers[id].(state := Running)
      ensures r == Failed(CreateNew, true) ==>
                GainedContainer(old(store), store, Container(snap.name, snap.imageDigest, Running, snap.config))
      ensures Accounted(r, imageRef, snap.imageDigest, fatal, faults, id in store.containers, old(past), past)
      ensures r.Failed? && r.stage == CreateNew ==>
                LastCreated(past.calls) == Some(Creating(snap.name, snap.imageDigest))
      ensures r.Updated? ==> past.calls == ReplaceCalls(old(past).calls, id, snap, imageRef, r.id)
    {
      ghost var s, p := store, past;
      var early := TakeDown(id, snap.name, fatal);
      if early.Some? { return early.value; }
      ghost var m := store;
      var created := Recreate(snap, imageRef, snap.name);
      OnlyThen(s, m, store, {id}, {snap.name}, {}, {snap.name});
      if created.Started? {
        NameFreed(s, m, id, snap.name);
        return Updated(created.id);
      }
      if created.Died? { return Crashed; }
      r := Compensate(id, snap, imageRef, fatal, s, m, p);
    }

    /** Start the old image again after the new container could not be created. */
    method Compensate(id: ContainerId, snap: Snapshot, imageRef: string, fatal: bool, ghost s: Store, ghost m: Store,
                      ghost p: Past)
      returns (r: Result)
      requires store.Valid() && s.Valid() && m.Valid() && Only(s, store, {id}, {snap.name})
      requires id in s.containers && s.containers[id].name == snap.name && Only(s, m, {id}, {snap.name})
      requires m.nextId == s.nextId && (past.failures == p.failures ==> id !in m.containers)
      requires (fatal ==> id !in m.containers) && (id !in m.containers ==> id !in store.containers)
      requires past.deaths == p.deaths && past.endings == p.endings && past.failures >= p.failures
      requires past.failures == p.failures ==> !CanCreate(m, snap.name, imageRef)
      requires past.failures <= p.failures + 1 && faults != LostReplies ==> store.containers == m.containers
      modifies this`store, this`past
      ensures store.Valid() && Only(s, store, {id}, {snap.name})
      ensures r.Crashed? || (r.Failed? && r.stage == CreateNew)
      ensures r == Failed(CreateNew, true) ==>
                GainedContainer(s, store, Container(snap.name, snap.imageDigest, Running, snap.config))
      ensures Accounted(r, imageRef, snap.imageDigest, fatal, faults, id in store.containers, p, past)
      ensures r.Failed? ==> LastCreated(past.calls) == Some(Creating(snap.name, snap.imageDigest))
    {
      ghost var t, before := store, past;
      if id !in m.containers { NameOfTheGone(s, m, id, snap.name); }
      var back := Recreate(snap, snap.imageDigest, snap.name);
      OnlyThen(s, t, store, {id}, {snap.name}, {}, {snap.name});
      if back.Died? { return Crashed; }
      if back.Started? {
        assert store.containers[back.id] == Container(snap.name, snap.imageDigest, Running, snap.config);
        LastMade(before.calls, snap.name, snap.imageDigest, back.id, snap.config.extraNetworks);
        return Failed(CreateNew, true);
      }
      return Failed(CreateNew, false);
    }

    /** Inspect, verify, pull. */
    method Fetch(id: ContainerId, imageRef: string) returns (failed: Option<Result>, snap: Snapshot)
      modifies this`past
      ensures failed.Some? ==> failed.value.Failed? && failed.value.restored
                               && failed.value.stage in {Inspect, Signature, Pull}
      ensures failed.Some? && id in store.containers ==> past.failures > old(past).failures
      ensures id !in store.containers ==> failed == Some(Failed(Inspect, true))
      ensures failed.None? ==> id in store.containers && IsSnapshotOf(snap, store.containers[id])
                               && past == old(past).(calls := FetchCalls(old(past).calls, id, snap.imageRef, imageRef))
      ensures past.failures >= old(past).failures
      ensures past.endings == old(past).endings && past.deaths == old(past).deaths
    {
      snap := Snapshot(Service(""), "", "", Config(0, false));
      var pre := InspectContainer(id);
      if pre.None? { return Some(Failed(Inspect, true)), snap; }
      var found := InspectContainer(id);
      if found.None? { return Some(Failed(Inspect, true)), snap; }
      snap := found.value;
      var refused, _ := Call(Verifying(snap.imageRef), true);
      if refused { return Some(Failed(Signature, true)), snap; }
      var err, _ := Call(Pulling(imageRef), true);
      if err { return Some(Failed(Pull, true)), snap; }
      return None, snap;
    }

    /** An update: it succeeds if no call fails, and the service runs even if one does. */
    method UpdateContainer(id: ContainerId, imageRef: string, fatal: bool) returns (r: Result)
      requires Valid()
      modifies this`store, this`saved, this`snapshots, this`past
      ensures Valid()
      ensures UpdateOutcome(old(store), old(saved), store, saved, r, id, imageRef, faults)
      ensures id in old(store).containers ==>
                Answered(old(store), store, saved, r, id, imageRef, fatal, faults, old(past), past)
      ensures id in old(store).containers && !r.Crashed? && imageRef != "" && past.failures == old(past).failures ==>
                r.Updated?
      ensures old(store).IsRunning(id) && !r.Crashed? && imageRef != "" && past.failures <= old(past).failures + 1
              && faults != LostReplies && (id in saved ==> saved[id].imageDigest != "") ==>
                || old(store).containers[id].name in store.RunningNames()
                || (!fatal && r == Failed(CreateNew, false) && id in store.containers)
      ensures Ready(old(store), old(saved), id) ==> Safe(old(store), store, saved, old(store).containers[id].name)
    {
      ghost var s, disk, p := store, saved, past;
      r := Attempt(id, imageRef, fatal);
      if s.IsRunning(id) && !r.Crashed? && imageRef != "" && past.failures <= p.failures + 1
         && faults != LostReplies && (id in saved ==> saved[id].imageDigest != "") {
        OneFailureIsSurvived(s, disk, store, saved, r, id, imageRef, fatal, faults, p, past);
      }
    }

    /** Inspect, verify, pull, inspect again, save the snapshot, replace. */
    method Attempt(id: ContainerId, imageRef: string, fatal: bool) returns (r: Result)
      requires Valid()
      modifies this`store, this`saved, this`snapshots, this`past
      ensures Valid()
      ensures UpdateOutcome(old(store), old(saved), store, saved, r, id, imageRef, faults)
      ensures id in old(store).containers ==>
                Answered(old(store), store, saved, r, id, imageRef, fatal, faults, old(past), past)
      ensures Ready(old(store), old(saved), id) ==> Safe(old(store), store, saved, old(store).containers[id].name)
    {
      if Ready(store, saved, id) { UntouchedIsSafe(store, saved, saved, id); }
      var failed, _ := Fetch(id, imageRef);
      if failed.Some? { return failed.value; }
      var snap := InspectContainer(id);
      if snap.None? { return Failed(Inspect, true); }
      r := SaveAndReplace(id, snap.value, imageRef, fatal);
    }

    /** From here on the snapshot can be recovered from. */
    method SaveAndReplace(id: ContainerId, snap: Snapshot, imageRef: string, fatal: bool) returns (r: Result)
      requires Valid() && id in store.containers && IsSnapshotOf(snap, store.containers[id])
      modifies this`store, this`saved, this`snapshots, this`past
      ensures Valid() && saved == old(saved)[id := snap]
      ensures UpdateOutcome(old(store), old(saved), store, saved, r, id, imageRef, faults)
      ensures Accounted(r, imageRef, snap.imageDigest, fatal, faults, id in store.containers, old(past), past)
      ensures r.Failed? ==> r.stage in {StopOld, RemoveOld, CreateNew}
      ensures r.Failed? && r.stage == CreateNew ==>
                LastCreated(past.calls) == Some(Creating(snap.name, snap.imageDigest))
      ensures r.Updated? ==> past.calls == ReplaceCalls(Then(old(past).calls, Saving(id)), id, snap, imageRef, r.id)
      ensures Ready(old(store), old(saved), id) ==> Safe(old(store), store, saved, snap.name)
    {
      ghost var s, disk := store, saved;
      if Ready(s, disk, id) { UntouchedIsSafe(s, disk, disk[id := snap], id); }
      SaveSnapshot(id, snap);
      var killed := Killed();
      if killed { return Crashed; }
      r := Replace(id, snap, imageRef, fatal);
      if Ready(s, disk, id) { InPlaceIsSafe(s, disk, store, saved, id); }
    }

    method RecreateFrom(snap: Snapshot) returns (r: Result)
      requires store.Valid()
      modifies this`store, this`past
      ensures store.Valid() && Only(old(store), store, {}, {snap.name})
      ensures r.Updated? ==> r.id in store.containers && r.id >= old(store).nextId
      ensures r.Updated? ==> store.containers[r.id] == Container(snap.name, snap.imageRef, Running, snap.config)
      ensures r.Updated? ==>
                past.calls == Made(old(past).calls, snap.name, snap.imageRef, r.id, snap.config.extraNetworks)
      ensures r.Failed? ==> r == Failed(CreateNew, false)
      ensures r.Failed? ==> LastCreated(past.calls) == Some(Creating(snap.name, snap.imageRef))
      ensures r.Failed? && past.failures == old(past).failures ==> !CanCreate(old(store), snap.name, snap.imageRef)
      ensures past.deaths == old(past).deaths + if r.Crashed? then 1 else 0
      ensures past.failures >= old(past).failures && past.endings == old(past).endings
    {
      var created := Recreate(snap, snap.imageRef, snap.name);
      match created
      case Started(newId) => r := Updated(newId);
      case Died => r := Crashed;
      case NotCreated => r := Failed(CreateNew, false);
    }

    /** Stop and remove, whatever comes of it, then recreate from the snapshot of that container. */
    method RollbackContainer(id: ContainerId) returns (r: Result)
      requires Valid()
      modifies this`store, this`past
      ensures Valid()
      ensures ById(id) !in snapshots ==> r == Failed(NoSnapshot, true) && store == old(store) && past == old(past)
      ensures ById(id) in snapshots ==>
                Only(old(store), store, {id}, NamesOf(old(store), {id}) + {snapshots[ById(id)].name})
      ensures r.Updated? ==> ById(id) in snapshots && r.id in store.containers && r.id >= old(store).nextId
      ensures r.Updated? ==> var snap := snapshots[ById(id)];
                store.containers[r.id] == Container(snap.name, snap.imageRef, Running, snap.config)
      ensures r.Updated? ==> var snap := snapshots[ById(id)];
                past.calls == Made(Then(Then(old(past).calls, Stopping(id)), Removing(id, false)),
                                   snap.name, snap.imageRef, r.id, snap.config.extraNetworks)
      ensures ById(id) in snapshots && r.Failed? ==> var snap := snapshots[ById(id)];
                r.stage == CreateNew && LastCreated(past.calls) == Some(Creating(snap.name, snap.imageRef))
      ensures ById(id) in snapshots && Smooth(old(past), past) && snapshots[ById(id)].imageRef != ""
              && Bearers(old(store), snapshots[ById(id)].name) <= {id} ==>
                r.Updated?
      ensures past.deaths == old(past).deaths + if r.Crashed? then 1 else 0
      ensures Ready(old(store), saved, id) && ById(id) in snapshots
              && old(store).containers[id].name == snapshots[ById(id)].name
              ==> Safe(old(store), store, saved, old(store).containers[id].name)
    {
      if ById(id) !in snapshots { return Failed(NoSnapshot, true); }
      var snap := snapshots[ById(id)];
      ghost var s := store;
      r := ReplaceFrom(id, snap);
      if Ready(s, saved, id) && s.containers[id].name == snap.name {
        assert saved[id] == snap && snap in saved.Values && saved == saved[id := snap];
        InPlaceIsSafe(s, saved, store, saved, id);
      }
    }

    method ReplaceFrom(id: ContainerId, snap: Snapshot) returns (r: Result)
      requires store.Valid()
      modifies this`store, this`past
      ensures store.Valid() && Only(old(store), store, {id}, NamesOf(old(store), {id}) + {snap.name})
      ensures r.Updated? ==> r.id in store.containers && r.id >= old(store).nextId
      ensures r.Updated? ==> store.containers[r.id] == Container(snap.name, snap.imageRef, Running, snap.config)
      ensures r.Updated? ==>
                past.calls == Made(Then(Then(old(past).calls, Stopping(id)), Removing(id, false)),
                                   snap.name, snap.imageRef, r.id, snap.config.extraNetworks)
      ensures r.Failed? ==> r.stage == CreateNew && LastCreated(past.calls) == Some(Creating(snap.name, snap.imageRef))
      ensures r.Failed? && Smooth(old(past), past) ==>
                snap.imageRef == "" || !(Bearers(old(store), snap.name) <= {id})
      ensures past.deaths == old(past).deaths + if r.Crashed? then 1 else 0
      ensures past.failures >= old(past).failures && past.endings == old(past).endings
    {
      ghost var s := store;
      var killed := StopAndRemove(id);
      ghost var m := store;
      if killed { return Crashed; }
      if m.containers == s.containers - {id} && Bearers(s, snap.name) <= {id} { OnlyBearerGone(s, m, id, snap.name); }
      r := RecreateFrom(snap);
      OnlyThen(s, m, store, {id}, NamesOf(s, {id}), {}, {snap.name});
    }

    /** Whether a container of that name is found; a failed call counts as not found. */
    method ResolveName(name: Name) returns (found: bool)
      modifies this`past
      ensures past == Asked(old(past), Resolving(name), !found && name in store.Names())
      ensures found ==> name in store.Names()
      ensures !found ==> faults != NoFaults || name !in store.Names()
    {
      var err, _ := Call(Resolving(name), name in store.Names());
      found := !err;
    }

    method RemoveByName(name: Name)
      requires store.Valid()
      modifies this`store, this`past
      ensures store.Valid() && Only(old(store), store, Bearers(old(store), name), {name})
      ensures past.failures == old(past).failures ==> name !in store.Names()
      ensures past.failures >= old(past).failures
      ensures past.endings == old(past).endings && past.deaths == old(past).deaths
    {
      if name in store.Names() {
        var id :| id in store.containers && store.containers[id].name == name;
        var _ := RemoveContainer(id, true, false);
      }
    }

    /**
     Create the new container under its temporary name and wait for it; one that fails is taken down
     again. `portsClash` is what the error says if it cannot be created.
     */
    method BringUp(snap: Snapshot, imageRef: string, portsClash: bool, verdicts: seq<Verdict>)
      returns (r: Result, conflict: bool, ghost sights: seq<Sight>)
      requires store.Valid()
      modifies this`store, this`past
      ensures store.Valid() && Only(old(store), store, {}, {New(snap.name)})
      ensures r.Updated? ==> r.id == old(store).nextId && store.IsRunning(r.id)
      ensures r.Updated? ==> store.containers[r.id] == Container(New(snap.name), imageRef, Running, snap.config)
      ensures r.Failed? ==> r.stage in {CreateNew, Health}
      ensures r.Failed? ==> r.restored
      ensures conflict <==> r.Failed? && r.stage == CreateNew && portsClash
      ensures Watched(sights, verdicts)
      ensures Judged(r, sights, verdicts)
      ensures r.Failed? && r.stage == CreateNew ==>
                sights == [] && (past.failures > old(past).failures || !CanCreate(old(store), New(snap.name), imageRef))
      ensures r.Failed? && r.stage == Health && past.failures == old(past).failures ==>
                store.containers == old(store).containers
      ensures Smooth(old(past), past) && !(r.Failed? && r.stage == CreateNew) ==>
                (r.Updated? <==> HealthyInTime(verdicts))
      ensures past.deaths == old(past).deaths + if r.Crashed? then 1 else 0
      ensures past.failures >= old(past).failures && past.endings >= old(past).endings
    {
      conflict, sights := false, [];
      ghost var s := store;
      var created := Recreate(snap, imageRef, New(snap.name));
      if created.Died? { r := Crashed; return; }
      if created.NotCreated? {
        r, conflict := Failed(CreateNew, true), portsClash;
        return;
      }
      r, sights := Await(New(snap.name), created.id, verdicts, s);
    }

    /** Wait for the new container; if it does not come up, stop and remove it. */
    method Await(name: Name, id: ContainerId, verdicts: seq<Verdict>, ghost s: Store)
      returns (r: Result, ghost sights: seq<Sight>)
      requires s.Valid() && store.Valid() && id == s.nextId && store.nextId == id + 1 && store.IsRunning(id)
      requires store.containers[id].name == name && store.containers == s.containers[id := store.containers[id]]
      requires Only(s, store, {}, {name})
      modifies this`store, this`past
      ensures store.Valid() && Only(s, store, {}, {name})
      ensures r.Updated? ==> r.id == id && store == old(store)
      ensures r.Failed? ==> r == Failed(Health, true)
      ensures Watched(sights, verdicts) && Judged(r, sights, verdicts)
      ensures r.Failed? && past.failures == old(past).failures ==> store.containers == s.containers
      ensures Smooth(old(past), past) ==> (r.Updated? <==> HealthyInTime(verdicts))
      ensures past.deaths == old(past).deaths + if r.Crashed? then 1 else 0
      ensures past.failures >= old(past).failures && past.endings >= old(past).endings
    {
      ghost var t := store;
      var healthy;
      healthy, sights := WaitForHealthy(id, verdicts);
      if Smooth(old(past), past) { DecidedByVerdicts(sights, verdicts); }
      HaltedBeside(s, t, id, name);
      var killed := Killed();
      if killed { return Crashed, sights; }
      if healthy { return Updated(id), sights; }
      r := GiveUp(name, id, s);
    }

    /** Stop and remove a container that does not come up. */
    method GiveUp(name: Name, id: ContainerId, ghost s: Store) returns (r: Result)
      requires s.Valid() && store.Valid() && id >= s.nextId && Only(s, store, {}, {name})
      requires store.containers - {id} == s.containers && (id in store.containers ==> store.containers[id].name == name)
      modifies this`store, this`past
      ensures store.Valid() && Only(s, store, {}, {name})
      ensures r == Crashed || r == Failed(Health, true)
      ensures r.Failed? && past.failures == old(past).failures ==> store.containers == s.containers
      ensures past.deaths == old(past).deaths + if r.Crashed? then 1 else 0
      ensures past.failures >= old(past).failures && past.endings == old(past).endings
    {
      ghost var t := store;
      var killed := StopAndRemove(id);
      OnlyThen(s, t, store, {}, {name}, {id}, NamesOf(t, {id}));
      r := if killed then Crashed else Failed(Health, true);
    }

    /** Give the new container its final name, unless somebody has it. */
    method TakeName(newId: ContainerId, name: Name)
      requires store.Valid() && store.IsRunning(newId) && store.containers[newId].name == New(name)
      modifies this`store, this`past
      ensures store.Valid() && Only(old(store), store, {newId}, {name, New(name)})
      ensures newId in store.containers
              && store.containers[newId] == old(store).containers[newId].(name := store.containers[newId].name)
      ensures name in old(store).Names() ==> store == old(store)
      ensures past.failures == old(past).failures && name !in old(store).Names() ==>
                store.containers[newId].name == name
      ensures faults == NoFaults && name !in old(store).Names() ==> store.containers[newId].name == name
      ensures past.failures >= old(past).failures
      ensures past.endings == old(past).endings && past.deaths == old(past).deaths
    {
      var taken := ResolveName(name);
      if !taken {
        var _ := RenameContainer(newId, name);
      }
    }

    /** Stop and remove the old container and give its name to the new one, unless somebody else has it. */
    method SwitchOver(id: ContainerId, newId: ContainerId, name: Name) returns (r: Result)
      requires store.Valid() && id in store.containers && store.containers[id].name == name
      requires store.IsRunning(newId) && newId != id && store.containers[newId].name == New(name)
      modifies this`store, this`past
      ensures store.Valid() && Only(old(store), store, {id, newId}, {name, New(name)})
      ensures newId in store.containers
              && store.containers[newId] == old(store).containers[newId].(name := store.containers[newId].name)
      ensures r.Crashed? || r == Updated(newId)
      ensures r.Updated? && past.failures == old(past).failures ==>
                id !in store.containers && store.containers[newId].name == name
      ensures faults == NoFaults ==> id !in store.containers && store.containers[newId].name == name
      ensures past.deaths == old(past).deaths + if r.Crashed? then 1 else 0
      ensures past.failures >= old(past).failures && past.endings == old(past).endings
    {
      ghost var s := store;
      var killed := StopAndRemove(id);
      ghost var m := store;
      assert m.containers[newId] == s.containers[newId];
      assert NamesOf(s, {id}) == {name};
      OnlyWiden(s, m, {id}, {name}, {id, newId}, {name, New(name)});
      if killed { return Crashed; }
      if id !in m.containers { NameOfGone(s, m, id); }
      TakeName(newId, name);
      OnlyThen(s, m, store, {id, newId}, {name, New(name)}, {newId}, {name, New(name)});
      assert {name, New(name)} + {name, New(name)} == {name, New(name)};
      assert id !in m.containers ==> id !in store.containers;
      return Updated(newId);
    }

    /**
     Start the new container beside the old one, wait for it to be healthy, then switch over.
     `sights` are the looks at the new container, `seen` is that container once it has been seen
     running and healthy; `fellBack` tells of a port conflict, which leaves the update to
     `UpdateContainer`.
     */
    method BlueGreenUpdate(id: ContainerId, imageRef: string, fatal: bool, portsClash: bool, verdicts: seq<Verdict>)
      returns (r: Result, seen: Option<ContainerId>, fellBack: bool, ghost sights: seq<Sight>)
      requires Valid()
      modifies this`store, this`saved, this`snapshots, this`past
      ensures Valid()
      ensures id !in old(store).containers ==>
                store == old(store) && saved == old(saved) && r == Failed(Inspect, true) && !fellBack
      ensures !fellBack && old(store).IsRunning(id) ==>
                store.IsRunning(id) || (seen.Some? && store.IsRunning(seen.value))
      ensures !fellBack && r.Failed? && id in old(store).containers ==>
                id in store.containers && store.containers[id] == old(store).containers[id]
      ensures seen.Some? ==>
              id in old(store).containers && seen.value >= old(store).nextId && seen.value in store.containers
      ensures seen.Some? ==> id in saved && IsSnapshotOf(saved[id], old(store).containers[id])
      ensures seen.Some? ==> var n := old(store).containers[id].name;
                var c := store.containers[seen.value];
                c == old(store).containers[id].(name := c.name, image := imageRef, state := Running)
                    && c.name in {n, New(n)}
      ensures seen.Some? <==> sights != [] && Good(sights[|sights| - 1]) && !(r.Crashed? && seen.None?)
      ensures !fellBack && r.Updated? ==> seen == Some(r.id)
      ensures Watched(sights, verdicts)
      ensures sights != [] && sights[|sights| - 1] in {Up(Unhealthy), Over} ==> r == Failed(Health, true) || r.Crashed?
      ensures seen.Some? ==>
              sights[|sights| - 1] in {Up(NoCheck), Up(Healthy)} && (r.Crashed? || r == Updated(seen.value))
      ensures !fellBack && id in old(store).containers && Smooth(old(past), past) && imageRef != ""
              && New(old(store).containers[id].name) !in old(store).Names() ==>
                (r.Updated? <==> HealthyInTime(verdicts))
      ensures !fellBack && r.Updated? && past.failures == old(past).failures ==>
                id !in store.containers && store.containers[r.id].name == old(store).containers[id].name
      ensures fellBack ==> portsClash && id in old(store).containers && sights == []
      ensures !fellBack && r.Failed? && r.stage == CreateNew ==> !portsClash
      ensures fellBack ==>
                exists m: Store, p: Past ::
                  FellBackTo(old(store), m, id) && UpdateOutcome(m, old(saved), store, saved, r, id, imageRef, faults)
                  && Answered(m, store, saved, r, id, imageRef, fatal, faults, p, past)
      ensures past.deaths == old(past).deaths + if r.Crashed? then 1 else 0
      ensures Ready(old(store), old(saved), id) ==> Safe(old(store), store, saved, old(store).containers[id].name)
    {
      ghost var s, disk := store, saved;
      seen, fellBack, sights := None, false, [];
      if Ready(s, disk, id) { UntouchedIsSafe(s, disk, disk, id); }
      var failed, snap := Fetch(id, imageRef);
      if failed.Some? { r := failed.value; return; }
      r, fellBack, sights := BringUp(snap, imageRef, portsClash, verdicts);
      if fellBack {
        r := FallBack(id, imageRef, fatal, snap.name, s);
        return;
      }
      ghost var t := store;
      if Ready(s, disk, id) { BesideIsSafe(s, disk, t, {}, id); }
      if !r.Updated? { return; }
      seen := Some(r.id);
      r := Complete(id, snap, r.id, s);
    }

    /** Save the snapshot, then switch over. */
    method Complete(id: ContainerId, snap: Snapshot, newId: ContainerId, ghost s: Store) returns (r: Result)
      requires Valid() && s.Valid() && id in s.containers && IsSnapshotOf(snap, s.containers[id])
      requires Only(s, store, {}, {New(snap.name)}) && newId >= s.nextId
      requires store.IsRunning(newId) && store.containers[newId].name == New(snap.name)
      modifies this`store, this`saved, this`snapshots, this`past
      ensures Valid() && saved == old(saved)[id := snap]
      ensures newId in store.containers
              && store.containers[newId] == old(store).containers[newId].(name := store.containers[newId].name)
              && store.containers[newId].name in {snap.name, New(snap.name)}
      ensures r.Crashed? || r == Updated(newId)
      ensures r.Updated? && past.failures == old(past).failures ==>
                id !in store.containers && store.containers[newId].name == snap.name
      ensures past.deaths == old(past).deaths + if r.Crashed? then 1 else 0
      ensures past.failures >= old(past).failures && past.endings == old(past).endings
      ensures Ready(s, old(saved), id) ==> Safe(s, store, saved, snap.name)
    {
      ghost var t := store;
      SaveSnapshot(id, snap);
      r := SwitchOver(id, newId, snap.name);
      OnlyBothNames(s, t, store, id, newId, snap.name);
      if Ready(s, old(saved), id) {
        SavedIsSafe(s, old(saved), store, saved, {id, newId}, id);
      }
    }

    /** After a port conflict: clear the temporary container away and update stop-first. */
    method FallBack(id: ContainerId, imageRef: string, fatal: bool, name: Name, ghost s: Store) returns (r: Result)
      requires Valid() && s.Valid() && id in s.containers && s.containers[id].name == name
      requires Only(s, store, {}, {New(name)})
      modifies this`store, this`saved, this`snapshots, this`past
      ensures Valid()
      ensures exists m: Store, p: Past ::
                FellBackTo(s, m, id) && (p.failures == old(past).failures ==> New(name) !in m.Names())
                && UpdateOutcome(m, old(saved), store, saved, r, id, imageRef, faults)
                && Answered(m, store, saved, r, id, imageRef, fatal, faults, p, past)
      ensures past.deaths == old(past).deaths + if r.Crashed? then 1 else 0
      ensures Ready(s, old(saved), id) ==> Safe(s, store, saved, name)
    {
      ghost var disk := saved;
      ClearAway(id, name, s);
      ghost var m, p := store, past;
      if Ready(s, disk, id) { ClearedIsSafe(s, disk, m, id); }
      r := UpdateContainer(id, imageRef, fatal);
      assert FellBackTo(s, m, id) && (p.failures == old(past).failures ==> New(name) !in m.Names())
             && UpdateOutcome(m, disk, store, saved, r, id, imageRef, faults);
    }

    /** Remove the temporary container, if there is one. */
    method ClearAway(id: ContainerId, name: Name, ghost s: Store)
      requires store.Valid() && s.Valid() && id in s.containers && s.containers[id].name == name
      requires Only(s, store, {}, {New(name)})
      modifies this`store, this`past
      ensures store.Valid() && FellBackTo(s, store, id)
      ensures past.failures == old(past).failures ==> New(name) !in store.Names()
      ensures past.deaths == old(past).deaths
    {
      ghost var t := store;
      RemoveByName(New(name));
      SuffixDiffers(name);
      OnlyWiden(s, t, {}, {New(name)}, Bearers(t, New(name)), {New(name)});
      OnlyThen(s, t, store, Bearers(t, New(name)), {New(name)}, Bearers(t, New(name)), {New(name)});
      assert {New(name)} + {New(name)} == {New(name)};
    }

    /** Give the agent's container its name back. */
    method RenameBack(id: ContainerId, name: Name, ghost s: Store) returns (restored: bool)
      requires store.Valid() && s.Valid() && id in s.containers && s.containers[id].name == name
      requires SelfOnly(s, store, id, name) && id in store.containers
      modifies this`store, this`past
      ensures store.Valid() && SelfOnly(s, store, id, name) && id in store.containers
      ensures restored ==> store.containers[id] == s.containers[id]
      ensures past.calls == Then(old(past).calls, Renaming(id, name)) && past.failures >= old(past).failures
      ensures past.endings == old(past).endings && past.deaths == old(past).deaths
    {
      ghost var t := store;
      if CanRename(t, id, name) { SelfRenamed(s, t, id, name, name); }
      var err := RenameContainer(id, name);
      restored := !err;
    }

    /** See, after a while, whether a container still runs; if not, or if that cannot be told, remove it. */
    method LookAt(id: ContainerId) returns (running: bool)
      requires store.Valid() && store.IsRunning(id)
      modifies this`store, this`past
      ensures store.Valid() && store.nextId == old(store).nextId
      ensures Only(old(store), store, {id}, NamesOf(old(store), {id}))
      ensures running ==> store == old(store) && past == Asked(old(past), Inspecting(id), false)
      ensures !running ==> past.calls == Then(Then(old(past).calls, Inspecting(id)), Removing(id, true))
      ensures !running ==> past.failures > old(past).failures || past.endings > old(past).endings
      ensures past.failures >= old(past).failures && past.deaths == old(past).deaths
      ensures past.endings >= old(past).endings
    {
      ghost var s := store;
      Settle(id);
      var info := InspectContainer(id);
      if info.None? || store.containers[id].state != Running {
        var _ := RemoveContainer(id, true, false);
        assert store.containers - {id} == s.containers - {id};
        GoneOnly(s, store, id);
        return false;
      }
      return true;
    }

    /** Start the replacement under the freed name and look at it once; whatever fails is undone. */
    method StartReplacement(id: ContainerId, snap: Snapshot, imageRef: string, ghost s: Store) returns (r: Result)
      requires store.Valid() && s.Valid() && id in s.containers && IsSnapshotOf(snap, s.containers[id])
      requires SelfOnly(s, store, id, snap.name) && id in store.containers && store.nextId >= s.nextId
      modifies this`store, this`past
      ensures store.Valid() && SelfOnly(s, store, id, snap.name) && id in store.containers
      ensures r.Updated? ==> r.id in store.containers && r.id >= s.nextId
                             && store.containers[r.id] == Container(snap.name, imageRef, Running, snap.config)
      ensures r.Failed? ==> r.stage in {CreateNew, Health} && (r.restored ==> store.containers[id] == s.containers[id])
      ensures r.Failed? ==> past.calls.Then? && past.calls.request == Renaming(id, snap.name)
      ensures r.Failed? && Smooth(old(past), past) ==> !CanCreate(old(store), snap.name, imageRef)
      ensures r.Updated? ==>
                past.calls == Then(Made(old(past).calls, snap.name, imageRef, r.id, snap.config.extraNetworks),
                                   Inspecting(r.id))
      ensures past.deaths == old(past).deaths + if r.Crashed? then 1 else 0
      ensures past.failures >= old(past).failures && past.endings >= old(past).endings
    {
      ghost var t := store;
      var created := Recreate(snap, imageRef, snap.name);
      SelfBeside(s, t, store, id, snap.name, {});
      if created.Died? { return Crashed; }
      if created.NotCreated? {
        var restored := RenameBack(id, snap.name, s);
        return Failed(CreateNew, restored);
      }
      r := Confirm(id, snap, created.id, s);
    }

    /** Look at the replacement, and undo it if it does not run. */
    method Confirm(id: ContainerId, snap: Snapshot, newId: ContainerId, ghost s: Store) returns (r: Result)
      requires store.Valid() && s.Valid() && id in s.containers && IsSnapshotOf(snap, s.containers[id])
      requires SelfOnly(s, store, id, snap.name) && id in store.containers
      requires newId >= s.nextId && store.IsRunning(newId) && store.containers[newId].name == snap.name
      modifies this`store, this`past
      ensures store.Valid() && SelfOnly(s, store, id, snap.name) && id in store.containers
      ensures r.Updated? ==> r.id == newId && store == old(store)
      ensures r.Failed? ==> r.stage == Health && (r.restored ==> store.containers[id] == s.containers[id])
      ensures r.Failed? ==> past.calls.Then? && past.calls.request == Renaming(id, snap.name)
      ensures r.Failed? ==> !Smooth(old(past), past)
      ensures r.Updated? ==> past.calls == Then(old(past).calls, Inspecting(newId))
      ensures past.deaths == old(past).deaths + if r.Crashed? then 1 else 0
      ensures past.failures >= old(past).failures && past.endings >= old(past).endings
    {
      ghost var t := store;
      var running := LookAt(newId);
      assert NamesOf(t, {newId}) == {snap.name};
      SelfBeside(s, t, store, id, snap.name, {newId});
      if running { return Updated(newId); }
      var killed := Killed();
      if killed { return Crashed; }
      var restored := RenameBack(id, snap.name, s);
      return Failed(Health, restored);
    }

    /** Move out of the way, start the replacement, and when it runs remove the agent's container. */
    method MoveAndReplace(id: ContainerId, snap: Snapshot, imageRef: string)
        returns (r: Result, seen: Option<ContainerId>)
      requires store.Valid() && id in store.containers && IsSnapshotOf(snap, store.containers[id])
      modifies this`store, this`past
      ensures store.Valid()
      ensures Old(snap.name) !in old(store).Names() ==> SelfOnly(old(store), store, id, snap.name)
      ensures Old(snap.name) in old(store).Names() ==> store == old(store)
      ensures seen.None? ==> id in store.containers
                             && store.containers[id] == old(store).containers[id].(name := store.containers[id].name)
      ensures seen.Some? ==>
              r == Updated(seen.value) && seen.value in store.containers && seen.value >= old(store).nextId
                             && store.containers[seen.value] == Container(snap.name, imageRef, Running, snap.config)
      ensures r.Failed? ==> seen.None? && r.stage in {RenameSelf, CreateNew, Health}
      ensures r.Failed? && r.stage == RenameSelf ==> r.restored
      ensures r.Failed? && r.restored && (r.stage == RenameSelf ==> faults != LostReplies) ==>
                store.containers[id] == old(store).containers[id]
      ensures r.Updated? ==> seen == Some(r.id)
      ensures r.Updated? && past.failures == old(past).failures ==> id !in store.containers
      ensures r.Updated? ==> past.calls == MoveCalls(old(past).calls, id, snap, imageRef, r.id)
      ensures r.Failed? && r.stage != RenameSelf ==> past.calls.Then? && past.calls.request == Renaming(id, snap.name)
      ensures r.Failed? && Smooth(old(past), past) ==> Old(snap.name) in old(store).Names() || imageRef == ""
      ensures past.deaths == old(past).deaths + if r.Crashed? then 1 else 0
    {
      ghost var s := store;
      seen := None;
      if Old(snap.name) !in s.Names() { SelfMoves(s, id, snap.name); }
      var err := RenameContainer(id, Old(snap.name));
      if err { r := Failed(RenameSelf, true); return; }
      var killed := Killed();
      if killed { r := Crashed; return; }
      NameGivenAway(s, id, snap.name);
      r := StartReplacement(id, snap, imageRef, s);
      if r.Updated? {
        seen := Some(r.id);
        SelfGone(s, store, id, snap.name);
        var _ := RemoveContainer(id, true, false);
      }
    }

    /**
     The agent replaces its own container: it moves out of the way under a `-ww-old` name,
     starts the new container under the freed name, sees it running, and removes itself.
     */
    method SelfUpdate(id: ContainerId, imageRef: string) returns (r: Result, seen: Option<ContainerId>)
      requires Valid()
      modifies this`store, this`saved, this`snapshots, this`past
      ensures Valid()
      ensures id !in old(store).containers ==> store == old(store) && saved == old(saved) && r == Failed(Inspect, true)
      ensures r.Failed? && r.stage in {Inspect, Pull} ==> store == old(store)
      ensures r.Failed? && r.stage in {Inspect, Pull, RenameSelf} ==> r.restored
      ensures r.Failed? ==> r.stage in {Inspect, Pull, RenameSelf, CreateNew, Health}
      ensures r.Failed? && id in old(store).containers && Smooth(old(past), past) ==>
                Old(old(store).containers[id].name) in old(store).Names() || imageRef == ""
      ensures r.Failed? && r.stage in {CreateNew, Health} ==>
                past.calls.Then? && past.calls.request == Renaming(id, old(store).containers[id].name)
      ensures r.Updated? ==> id in saved && past.calls == SelfCalls(old(past).calls, id, saved[id], imageRef, r.id)
      ensures past.deaths == old(past).deaths + if r.Crashed? then 1 else 0
      ensures store != old(store) ==> id in saved && IsSnapshotOf(saved[id], old(store).containers[id])
      ensures old(store).IsRunning(id) ==> store.IsRunning(id) || (seen.Some? && store.IsRunning(seen.value))
      ensures seen.Some? ==>
              id in old(store).containers && seen.value >= old(store).nextId && seen.value in store.containers
      ensures seen.Some? ==>
              store.containers[seen.value] == old(store).containers[id].(image := imageRef, state := Running)
      ensures id in old(store).containers && r.Failed? ==> id in store.containers && seen.None?
      ensures id in old(store).containers && r.Failed? && r.restored
              && (r.stage == RenameSelf ==> faults != LostReplies) ==>
                store.containers[id] == old(store).containers[id]
      ensures r.Crashed? ==>
              id in old(store).containers && id in saved && IsSnapshotOf(saved[id], old(store).containers[id])
      ensures r.Updated? ==> seen == Some(r.id)
      ensures r.Updated? && past.failures == old(past).failures ==> id !in store.containers
      ensures SavedAtMost(old(store), old(saved), saved, id)
      ensures id in old(store).containers && Old(old(store).containers[id].name) in old(store).Names() ==>
              store == old(store)
      ensures Ready(old(store), old(saved), id) && old(store).IsRunning(id) ==>
                Safe(old(store), store, saved, old(store).containers[id].name)
    {
      ghost var s, disk := store, saved;
      seen := None;
      if Ready(s, disk, id) { UntouchedIsSafe(s, disk, disk, id); }
      var found := InspectContainer(id);
      if found.None? { r := Failed(Inspect, true); return; }
      var snap := found.value;
      SaveSnapshot(id, snap);
      if Ready(s, disk, id) { UntouchedIsSafe(s, disk, saved, id); }
      var err, _ := Call(Pulling(imageRef), true);
      if err { r := Failed(Pull, true); return; }
      r, seen := MoveAndReplace(id, snap, imageRef);
      if Ready(s, disk, id) && s.IsRunning(id) && Old(snap.name) !in s.Names() {
        SelfIsSafe(s, disk, store, saved, id);
      }
    }
  }

  /** The snapshots in memory after a start: one for every file. */
  function Loaded(disk: map<ContainerId, Snapshot>): (loaded: map<Key, Snapshot>)
    ensures loaded.Values == disk.Values
    ensures forall key :: key in loaded ==> key.ById? && key.id in disk && loaded[key] == disk[key.id]
  {
    var loaded := map id | id in disk :: ById(id) := disk[id];
    assert forall id :: id in disk ==> loaded[ById(id)] == disk[id];
    loaded
  }
}
