/**
 Any number of `UpdateContainer` calls resolved to the same container, each of their Docker
 calls one step that may be refused or whose reply may be lost, while the rest of the host
 goes on. The lock of the container's name is atomic here; `ContainerLocks` shows that the
 lock the updater uses behaves so.
 */
module UpdateRace {
  import opened Docker
  import opened Options

  /** What the calls are about: the container as first found, the new image, and the digest to go back to. */
  datatype Job = Job(target: ContainerId, c: Container, image: string, previous: string)

  datatype Reply = Done | Refused | Lost  // Lost: carried out, reported as an error

  /** Where a call stands. From `Second` on it is past the pull, and holds the lock until it ends. */
  datatype Stage =
    | Begin                          // inspected; about to take the lock
    | First                          // holds the lock; inspects and verifies
    | Pulling                        // lock released
    | Second                         // holds the lock again; inspects again
    | Stopping
    | Removing
    | Creating(back: bool)           // back: the old image, after the new one failed
    | Starting(back: bool, id: ContainerId)
    | Clearing(back: bool, id: ContainerId)
    | Restarting                     // the removal failed for good
    | Ended(success: bool)

  datatype State = State(store: Store, lock: Option<nat>, calls: seq<Stage>)

  datatype Step = Move(c: nat, reply: Reply, fatal: bool) | Elsewhere(store: Store)

  predicate Holds(stage: Stage) {
    !stage.Begin? && !stage.Pulling? && !stage.Ended?
  }

  /** The destructive part: between the second inspection and the end. */
  predicate Destructive(stage: Stage) {
    Holds(stage) && !stage.First? && !stage.Second?
  }

  /**
   What the rest of the host may do, rollbacks and blue-green updates of the same container included:
   anything but rename the container. Identifiers are not reused.
   */
  ghost predicate Tolerated(s: Store, t: Store, target: ContainerId) {
    && t.Valid() && s.nextId <= t.nextId
    && (target in t.containers && target < s.nextId ==>
          target in s.containers && t.containers[target].name == s.containers[target].name)
  }

  /** The calls that the other procedures are made of, on this container or on others. */
  lemma OthersAreTolerated(s: Store, target: ContainerId, id: ContainerId, name: Name, image: string, config: Config)
    requires s.Valid()
    ensures id in s.containers ==> Tolerated(s, Halt(s, id), target) && Tolerated(s, Start(s, id), target)
    ensures Tolerated(s, Remove(s, id), target)
    ensures CanCreate(s, name, image) ==> Tolerated(s, Create(s, name, image, config), target)
    ensures CanRename(s, id, name) ==> (Tolerated(s, Rename(s, id, name), target) <==>
                                          id != target || target >= s.nextId || name == s.containers[target].name)
  {}

  /** The store and the stage after a call's next step. `fatal` is a pull or a removal that failed for good. */
  function Advance(s: Store, stage: Stage, reply: Reply, fatal: bool, job: Job): (Store, Stage) {
    var target, applied, answered := job.target, reply != Refused, reply == Done;
    match stage
    case Begin => (s, First)
    case First => (s, if target in s.containers && answered then Pulling else Ended(false))
    case Pulling => (s, if fatal then Ended(false) else Second)
    case Second => (s, if target in s.containers && answered then Stopping else Ended(false))
    case Stopping =>
      if target !in s.containers then (s, Ended(false))
      else (if applied then Halt(s, target) else s, if answered then Removing else Ended(false))
    case Removing =>
      var can := CanRemove(s, target, false);
      (if can && applied then Remove(s, target) else s,
       if (can && answered) || !fatal || target !in s.containers then Creating(false) else Restarting)
    case Restarting =>
      (if applied && target in s.containers then Start(s, target) else s, Ended(false))
    case Creating(back) =>
      var image := if back then job.previous else job.image;
      if !CanCreate(s, job.c.name, image) then (s, if back then Ended(false) else Creating(true))
      else (if applied then Create(s, job.c.name, image, job.c.config) else s,
            if answered then Starting(back, s.nextId) else if back then Ended(false) else Creating(true))
    case Starting(back, id) =>
      if id !in s.containers then (s, Clearing(back, id))
      else (if applied then Start(s, id) else s, if answered then Ended(!back) else Clearing(back, id))
    case Clearing(back, id) =>
      (if applied then Remove(s, id) else s, if back then Ended(false) else Creating(true))
    case Ended(_) => (s, stage)
  }

  ghost predicate Enabled(s: State, step: Step, job: Job) {
    match step
    case Move(i, _, fatal) => i < |s.calls| && !s.calls[i].Ended?
                              && (s.calls[i].Begin? || (s.calls[i].Pulling? && !fatal) ==> s.lock.None?)
    case Elsewhere(t) => Tolerated(s.store, t, job.target)
  }

  function Apply(s: State, step: Step, job: Job): State
    requires step.Move? ==> step.c < |s.calls|
  {
    match step
    case Elsewhere(t) => s.(store := t)
    case Move(i, reply, fatal) =>
      var (t, next) := Advance(s.store, s.calls[i], reply, fatal, job);
      State(t, if Holds(next) then Some(i) else if Holds(s.calls[i]) then None else s.lock, s.calls[i := next])
  }

  ghost predicate Starts(s: State, job: Job) {
    && s.store.Valid() && s.lock.None? && (forall i :: 0 <= i < |s.calls| ==> s.calls[i] == Begin)
    && job.target in s.store.containers && s.store.containers[job.target] == job.c
  }

  /** Where a run leads, if each of its steps is possible in its turn. */
  ghost function Run(s: State, steps: seq<Step>, job: Job): Option<State> {
    if steps == [] then Some(s)
    else
      var last := steps[|steps| - 1];
      match Run(s, steps[..|steps| - 1], job)
      case None => None
      case Some(t) => if Enabled(t, last, job) then Some(Apply(t, last, job)) else None
  }

  ghost predicate Inv(s: State, job: Job) {
    && s.store.Valid() && job.target < s.store.nextId
    && (job.target in s.store.containers ==> s.store.containers[job.target].name == job.c.name)
    && (forall i :: 0 <= i < |s.calls| ==> (Holds(s.calls[i]) <==> s.lock == Some(i)))
    && (forall i :: 0 <= i < |s.calls| && (s.calls[i].Starting? || s.calls[i].Clearing?) ==>
          job.target !in s.store.containers && job.target < s.calls[i].id)
    && (forall i :: 0 <= i < |s.calls| && s.calls[i] == Ended(true) ==>
          job.target !in s.store.containers
          && forall j :: 0 <= j < |s.calls| && j != i ==> !Destructive(s.calls[j]) && s.calls[j] != Ended(true))
  }

  lemma TargetGone(s: Store, job: Job, image: string)
    requires CanCreate(s, job.c.name, image)
    requires job.target in s.containers ==> s.containers[job.target].name == job.c.name
    ensures job.target !in s.containers
  {}

  lemma MoveKeepsInv(s: State, step: Step, job: Job)
    requires Inv(s, job) && Enabled(s, step, job) && step.Move?
    ensures Inv(Apply(s, step, job), job)
  {
    var t, i := Apply(s, step, job), step.c;
    if s.calls[i].Creating? {
      var image := if s.calls[i].back then job.previous else job.image;
      if CanCreate(s.store, job.c.name, image) { TargetGone(s.store, job, image); }
    }
  }

  lemma OthersKeepInv(s: State, store: Store, job: Job)
    requires Inv(s, job) && Tolerated(s.store, store, job.target)
    ensures Inv(s.(store := store), job)
  {}

  lemma {:induction false} RunInv(s: State, steps: seq<Step>, job: Job, t: State)
    requires Starts(s, job) && Run(s, steps, job) == Some(t)
    ensures Inv(t, job) && |t.calls| == |s.calls|
  {
    if steps != [] {
      var prev := Run(s, steps[..|steps| - 1], job).value;
      RunInv(s, steps[..|steps| - 1], job, prev);
      var last := steps[|steps| - 1];
      if last.Move? { MoveKeepsInv(prev, last, job); } else { OthersKeepInv(prev, last.store, job); }
    }
  }

  /** At most one of the calls reports success, and container names stay unique throughout. */
  lemma AtMostOneSuccess(s: State, steps: seq<Step>, job: Job, t: State, i: nat, j: nat)
    requires Starts(s, job) && Run(s, steps, job) == Some(t)
    requires i < |t.calls| && j < |t.calls| && t.calls[i] == Ended(true) && t.calls[j] == Ended(true)
    ensures i == j && t.store.Valid() && job.target !in t.store.containers
    ensures forall k :: 0 <= k < |t.calls| ==> !Destructive(t.calls[k])
  {
    RunInv(s, steps, job, t);
  }

  // ---------------------------------------------------------------- what becomes of a single call

  /** Success is a new container that was started, and nothing else. */
  lemma OnlyAStartSucceeds(s: Store, stage: Stage, reply: Reply, fatal: bool, job: Job)
    requires !stage.Ended?
    ensures var (t, next) := Advance(s, stage, reply, fatal, job);
            next == Ended(true) <==>
            stage.Starting? && !stage.back && stage.id in s.containers && reply == Done
    ensures var (t, next) := Advance(s, stage, reply, fatal, job);
            next == Ended(true) ==> t.IsRunning(stage.id)
  {}

  /** A call that does not find the container, or cannot stop it, ends and has created nothing. */
  lemma UnfoundEndsIt(s: Store, stage: Stage, reply: Reply, fatal: bool, job: Job)
    requires stage in {First, Second, Stopping} && (job.target !in s.containers || reply != Done)
    ensures var (t, next) := Advance(s, stage, reply, fatal, job);
            next == Ended(false) && t.nextId == s.nextId && t.containers.Keys <= s.containers.Keys
    ensures job.target !in s.containers ==> Advance(s, stage, reply, fatal, job).0 == s
  {}

  /** The removal is not forced, and only one that failed for good is answered by a restart. */
  lemma RemovalIsUnforced(s: Store, reply: Reply, fatal: bool, job: Job)
    ensures var (t, next) := Advance(s, Removing, reply, fatal, job);
            && (s.IsRunning(job.target) ==> t == s)
            && (next == Restarting <==>
                job.target in s.containers && fatal && (s.IsRunning(job.target) || reply != Done))
            && (next != Restarting ==> next == Creating(false))
  {}

  /** A creation or a start that fails leads to the old image, once. */
  lemma TriedTwice(s: Store, stage: Stage, reply: Reply, fatal: bool, job: Job)
    requires stage.Creating? || stage.Starting? || stage.Clearing?
    requires reply != Done
    ensures var (t, next) := Advance(s, stage, reply, fatal, job);
            if stage.Starting? then next == Clearing(stage.back, stage.id)
            else if stage.back then next == Ended(false)
            else next == Creating(true)
    ensures stage.Creating? && (job.c.name in s.Names() || (if stage.back then job.previous else job.image) == "") ==>
              Advance(s, stage, Done, fatal, job) == (s, if stage.back then Ended(false) else Creating(true))
  {}

  /** Just while it waits, pulls or has ended a call is without the lock. */
  lemma LockIsHeld(s: State, job: Job, i: nat)
    requires Inv(s, job) && i < |s.calls|
    ensures s.lock != Some(i) <==> s.calls[i] in {Begin, Pulling, Ended(false), Ended(true)}
  {}

  /** So many steps of a call that nobody disturbs and none of whose requests fails. */
  function Undisturbed(s: Store, stage: Stage, steps: nat, job: Job): (Store, Stage)
    decreases steps
  {
    if steps == 0 then (s, stage)
    else
      var (t, next) := Advance(s, stage, Done, false, job);
      Undisturbed(t, next, steps - 1, job)
  }

  lemma {:induction false} UndisturbedThen(s: Store, stage: Stage, m: nat, n: nat, job: Job)
    ensures Undisturbed(s, stage, m + n, job) ==
            var (t, next) := Undisturbed(s, stage, m, job); Undisturbed(t, next, n, job)
    decreases m
  {
    if m > 0 {
      var (t, next) := Advance(s, stage, Done, false, job);
      UndisturbedThen(t, next, m - 1, n, job);
    }
  }

  /** With the container as found, and `t` with it gone and one of this image in its place. */
  ghost predicate Replaced(s: Store, t: Store, job: Job, image: string) {
    t.containers == (s.containers - {job.target})[s.nextId := Container(job.c.name, image, Running, job.c.config)]
  }

  ghost predicate Found(s: Store, job: Job) {
    s.Valid() && job.target in s.containers && s.containers[job.target] == job.c
  }

  /** Two steps take the container down. */
  lemma DownInTwo(s: Store, job: Job)
    requires Found(s, job)
    ensures Undisturbed(s, Stopping, 2, job) == (s.(containers := s.containers - {job.target}), Creating(false))
  {
    UndisturbedThen(s, Stopping, 1, 1, job);
    var t := Halt(s, job.target);
    assert Undisturbed(s, Stopping, 1, job) == (t, Removing) by {
      assert Undisturbed(t, Removing, 0, job) == (t, Removing);
    }
    assert t.containers - {job.target} == s.containers - {job.target};
    var (u, next) := Advance(t, Removing, Done, false, job);
    assert next == Creating(false) && u == s.(containers := s.containers - {job.target});
    assert Undisturbed(u, next, 0, job) == (u, next);
  }

  /** And two bring one up in its place: the new one, or, after that failed, the old image. */
  lemma UpInTwo(s: Store, job: Job, back: bool)
    requires Found(s, job) && (if back then job.previous else job.image) != ""
    ensures var (t, stage) := Undisturbed(s.(containers := s.containers - {job.target}), Creating(back), 2, job);
            stage == Ended(!back) && Replaced(s, t, job, if back then job.previous else job.image)
  {
    var image := if back then job.previous else job.image;
    var gone := s.(containers := s.containers - {job.target});
    assert job.c.name !in gone.Names();
    var t := Create(gone, job.c.name, image, job.c.config);
    var u := Start(t, s.nextId);
    assert Advance(gone, Creating(back), Done, false, job) == (t, Starting(back, s.nextId));
    assert Advance(t, Starting(back, s.nextId), Done, false, job) == (u, Ended(!back));
    assert Undisturbed(u, Ended(!back), 0, job) == (u, Ended(!back));
    assert Undisturbed(t, Starting(back, s.nextId), 1, job) == (u, Ended(!back));
  }

  /** When nothing goes wrong the call succeeds, and the new image runs under the name. */
  lemma UndisturbedSucceeds(s: Store, job: Job)
    requires Found(s, job) && job.image != ""
    ensures var (t, stage) := Undisturbed(s, Begin, 8, job); stage == Ended(true) && Replaced(s, t, job, job.image)
  {
    assert Undisturbed(s, Stopping, 0, job) == (s, Stopping);
    assert Undisturbed(s, Second, 1, job) == (s, Stopping);
    assert Undisturbed(s, Pulling, 2, job) == (s, Stopping);
    assert Undisturbed(s, First, 3, job) == (s, Stopping);
    assert Undisturbed(s, Begin, 4, job) == (s, Stopping);
    UndisturbedThen(s, Begin, 4, 4, job);
    UndisturbedThen(s, Stopping, 2, 2, job);
    DownInTwo(s, job);
    UpInTwo(s, job, false);
  }

  /** When the new container is refused and nothing else goes wrong, the old image runs again, and the call fails. */
  lemma RefusedIsUndone(s: Store, job: Job)
    requires Found(s, job) && job.image != "" && job.previous != ""
    ensures
      var gone := s.(containers := s.containers - {job.target});
      var (t, next) := Advance(gone, Creating(false), Refused, false, job);
      var (u, stage) := Undisturbed(t, next, 2, job);
      stage == Ended(false) && Replaced(s, u, job, job.previous)
  {
    var gone := s.(containers := s.containers - {job.target});
    assert job.c.name !in gone.Names();
    UpInTwo(s, job, true);
  }

  /** When it cannot be started it is cleared away first. */
  lemma UnstartableIsUndone(s: Store, job: Job)
    requires s.Valid() && CanCreate(s, job.c.name, job.image)
    ensures
      var (t, next) := Advance(Create(s, job.c.name, job.image, job.c.config), Starting(false, s.nextId),
                               Refused, false, job);
      var (u, stage) := Undisturbed(t, next, 1, job);
      u.containers == s.containers && stage == Creating(true)
  {
    var made := Create(s, job.c.name, job.image, job.c.config);
    assert made.containers - {s.nextId} == s.containers;
    var (u, stage) := Advance(made, Clearing(false, s.nextId), Done, false, job);
    assert Undisturbed(u, stage, 0, job) == (u, stage);
  }

  /** A removal that fails for good ends with the container running again. */
  lemma UnremovableRunsAgain(s: Store, job: Job)
    requires Found(s, job) && !job.c.config.autoRemove && job.c.state == Running
    ensures
      var (t, next) := Advance(Halt(s, job.target), Removing, Refused, true, job);
      var (u, stage) := Undisturbed(t, next, 1, job);
      stage == Ended(false) && u == s
  {
    var t := Halt(s, job.target);
    var u := Start(t, job.target);
    assert u.containers == s.containers;
    assert Undisturbed(u, Ended(false), 0, job) == (u, Ended(false));
  }
}
