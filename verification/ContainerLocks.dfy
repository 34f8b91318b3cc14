/**
 The per-container locks of the updater and the sweeper that collects idle ones.

 A caller of `lockContainer` fetches or creates the entry of its key while it holds the
 map mutex, blocks on the mutex of the entry, and then checks under the map mutex that the
 entry is still the one in the map; if not it lets go and starts again. The sweeper holds
 the map mutex for a whole sweep, and deletes every entry whose mutex it can take without
 waiting. Any number of callers interleave with the sweeper, one mutex operation at a time.
 */
module ContainerLocks {
  import opened Options

  type Name = string
  type Entry = nat  // an index into State.made

  datatype Actor = Caller(index: nat) | Sweeper

  datatype Stage =
    | Idle        // not inside lockContainer, holding nothing
    | Fetch       // about to lock the map
    | Fetching    // holds the map; looks the entry up or creates it
    | Waiting     // blocked on the mutex of the entry
    | Validate    // holds the entry; about to lock the map again
    | Validating  // holds the entry and the map
    | Retry       // validation failed; about to unlock the entry
    | Held        // lockContainer has returned

  /** One caller. The last three fields are history: they steer no step. */
  datatype Call = Call(name: Name, stage: Stage, entry: Entry,
                       attempts: nat, failedOn: set<Entry>, deletedBefore: set<Entry>)

  datatype Sweep =
    | Off
    | Scanning(todo: set<Name>)
    | Caught(todo: set<Name>, name: Name, entry: Entry)   // TryLock succeeded
    | Dropped(todo: set<Name>, name: Name, entry: Entry)  // marked and removed from the map

  /** `made[e]` is the key that entry `e` was created for. */
  datatype State = State(locks: map<Name, Entry>, made: seq<Name>, deleted: set<Entry>,
                         owner: map<Entry, Actor>, mapMu: Option<Actor>,
                         calls: seq<Call>, sweep: Sweep)

  datatype Step =
    | Begin(c: nat, name: Name)
    | LockMap(c: nat)
    | GetOrCreate(c: nat)
    | LockEntry(c: nat)
    | Check(c: nat)
    | LetGo(c: nat)
    | Unlock(c: nat)
    | SweepBegin
    | SweepSkip(name: Name)
    | SweepCatch(name: Name)
    | SweepDrop
    | SweepRelease
    | SweepEnd

  function Initial(callers: nat): State {
    State(map[], [], {}, map[], None, seq(callers, _ => Call("", Idle, 0, 0, {}, {})), Off)
  }

  predicate At(s: State, c: nat, stage: Stage) {
    c < |s.calls| && s.calls[c].stage == stage
  }

  predicate Enabled(s: State, step: Step) {
    match step
    case Begin(c, _) => At(s, c, Idle)
    case LockMap(c) => (At(s, c, Fetch) || At(s, c, Validate)) && s.mapMu.None?
    case GetOrCreate(c) => At(s, c, Fetching)
    case LockEntry(c) => At(s, c, Waiting) && s.calls[c].entry !in s.owner
    case Check(c) => At(s, c, Validating)
    case LetGo(c) => At(s, c, Retry)
    case Unlock(c) => At(s, c, Held)
    case SweepBegin => s.sweep.Off? && s.mapMu.None?
    case SweepSkip(n) => s.sweep.Scanning? && n in s.sweep.todo && n in s.locks
    case SweepCatch(n) => s.sweep.Scanning? && n in s.sweep.todo && n in s.locks && s.locks[n] !in s.owner
    case SweepDrop => s.sweep.Caught?
    case SweepRelease => s.sweep.Dropped?
    case SweepEnd => s.sweep.Scanning? && s.sweep.todo == {}
  }

  function Apply(s: State, step: Step): State
    requires Enabled(s, step)
  {
    match step
    case Begin(c, n) =>
      s.(calls := s.calls[c := Call(n, Fetch, 0, 0, {}, s.deleted)])
    case LockMap(c) =>
      var next := if s.calls[c].stage == Fetch then Fetching else Validating;
      s.(mapMu := Some(Caller(c)), calls := s.calls[c := s.calls[c].(stage := next)])
    case GetOrCreate(c) =>
      var call := s.calls[c];
      var known := call.name in s.locks;
      var e := if known then s.locks[call.name] else |s.made|;
      s.(locks := s.locks[call.name := e],
         made := if known then s.made else s.made + [call.name],
         mapMu := None,
         calls := s.calls[c := call.(stage := Waiting, entry := e, attempts := call.attempts + 1)])
    case LockEntry(c) =>
      s.(owner := s.owner[s.calls[c].entry := Caller(c)],
         calls := s.calls[c := s.calls[c].(stage := Validate)])
    case Check(c) =>
      var call := s.calls[c];
      var valid := call.name in s.locks && s.locks[call.name] == call.entry && call.entry !in s.deleted;
      s.(mapMu := None,
         calls := s.calls[c := if valid then call.(stage := Held)
                               else call.(stage := Retry, failedOn := call.failedOn + {call.entry})])
    case LetGo(c) =>
      s.(owner := s.owner - {s.calls[c].entry}, calls := s.calls[c := s.calls[c].(stage := Fetch)])
    case Unlock(c) =>
      s.(owner := s.owner - {s.calls[c].entry}, calls := s.calls[c := s.calls[c].(stage := Idle)])
    case SweepBegin =>
      s.(mapMu := Some(Sweeper), sweep := Scanning(s.locks.Keys))
    case SweepSkip(n) =>
      s.(sweep := Scanning(s.sweep.todo - {n}))
    case SweepCatch(n) =>
      s.(owner := s.owner[s.locks[n] := Sweeper], sweep := Caught(s.sweep.todo - {n}, n, s.locks[n]))
    case SweepDrop =>
      s.(deleted := s.deleted + {s.sweep.entry}, locks := s.locks - {s.sweep.name},
         sweep := Dropped(s.sweep.todo, s.sweep.name, s.sweep.entry))
    case SweepRelease =>
      s.(owner := s.owner - {s.sweep.entry}, sweep := Scanning(s.sweep.todo))
    case SweepEnd =>
      s.(mapMu := None, sweep := Off)
  }

  /** The state that a sequence of steps leads to, if every step is enabled in its turn. */
  function Run(callers: nat, steps: seq<Step>): Option<State> {
    if steps == [] then Some(Initial(callers))
    else
      var last := steps[|steps| - 1];
      match Run(callers, steps[..|steps| - 1])
      case None => None
      case Some(s) => if Enabled(s, last) then Some(Apply(s, last)) else None
  }

  // ---------------------------------------------------------------- the invariant

  predicate OwnsEntry(stage: Stage) { stage in {Validate, Validating, Retry, Held} }
  predicate OnEntry(stage: Stage) { stage == Waiting || OwnsEntry(stage) }
  predicate OwnsMap(stage: Stage) { stage in {Fetching, Validating} }

  /** The map holds exactly the entries made and not yet deleted, under the key they were made for. */
  ghost predicate MapInv(s: State) {
    && (forall n :: n in s.locks ==> s.locks[n] < |s.made| && s.made[s.locks[n]] == n && s.locks[n] !in s.deleted)
    && (forall e: nat :: e < |s.made| && e !in s.deleted ==> s.made[e] in s.locks && s.locks[s.made[e]] == e)
    && (forall e :: e in s.deleted ==> e < |s.made|)
  }

  /** The map mutex is held exactly by the actor whose stage says so. */
  ghost predicate MapMutexInv(s: State) {
    && (s.mapMu.Some? && s.mapMu.value.Caller? ==>
          s.mapMu.value.index < |s.calls| && OwnsMap(s.calls[s.mapMu.value.index].stage))
    && (forall c: nat :: c < |s.calls| && OwnsMap(s.calls[c].stage) ==> s.mapMu == Some(Caller(c)))
    && (s.mapMu == Some(Sweeper) <==> !s.sweep.Off?)
  }

  /** The mutex of an entry is held exactly by the actor whose stage says so. */
  ghost predicate EntryMutexInv(s: State) {
    && (forall e :: e in s.owner && s.owner[e].Caller? ==>
          s.owner[e].index < |s.calls| && OwnsEntry(s.calls[s.owner[e].index].stage)
          && s.calls[s.owner[e].index].entry == e)
    && (forall c: nat :: c < |s.calls| && OwnsEntry(s.calls[c].stage) ==>
          s.calls[c].entry in s.owner && s.owner[s.calls[c].entry] == Caller(c))
    && (forall e :: e in s.owner && s.owner[e].Sweeper? ==>
          (s.sweep.Caught? || s.sweep.Dropped?) && s.sweep.entry == e)
    && (s.sweep.Caught? || s.sweep.Dropped? ==>
          s.sweep.entry in s.owner && s.owner[s.sweep.entry] == Sweeper)
  }

  /**
   * While it scans, the sweeper has keys of the map ahead of it, and an entry it caught is in the map until
   * dropped.
   */
  ghost predicate SweepInv(s: State) {
    && (!s.sweep.Off? ==> s.sweep.todo <= s.locks.Keys)
    && (s.sweep.Caught? ==>
        s.sweep.name in s.locks && s.locks[s.sweep.name] == s.sweep.entry && s.sweep.name !in s.sweep.todo)
  }

  /**
   * What one call may rely on: its entry was made for its key, and each failure met another entry deleted
   * meanwhile.
   */
  ghost predicate CallInv(s: State, call: Call) {
    && (OnEntry(call.stage) ==>
          call.entry < |s.made| && s.made[call.entry] == call.name && call.entry !in call.deletedBefore)
    && (call.stage == Held ==> call.entry !in s.deleted)
    && (OnEntry(call.stage) && call.stage != Retry ==> call.entry !in call.failedOn)
    && (call.stage == Retry ==> call.entry in call.failedOn)
    && call.deletedBefore <= s.deleted
    && call.failedOn <= DeletedDuring(s, call)
    && call.attempts == |call.failedOn| + (if OnEntry(call.stage) && call.stage != Retry then 1
                                           else if call.stage == Idle && call.attempts > 0 then 1 else 0)
  }

  /** The entries of the caller's key that the sweeper deleted since the call began. */
  function DeletedDuring(s: State, call: Call): set<Entry> {
    set e | e in s.deleted && e !in call.deletedBefore && e < |s.made| && s.made[e] == call.name
  }

  ghost predicate Inv(s: State) {
    && MapInv(s) && MapMutexInv(s) && EntryMutexInv(s) && SweepInv(s)
    && forall c: nat :: c < |s.calls| ==> CallInv(s, s.calls[c])
  }

  lemma InitialInv(callers: nat)
    ensures Inv(Initial(callers))
  {}

  lemma StepKeepsMap(s: State, step: Step)
    requires MapInv(s) && SweepInv(s) && MapMutexInv(s) && Enabled(s, step)
    ensures MapInv(Apply(s, step))
  {}

  lemma StepKeepsSweep(s: State, step: Step)
    requires SweepInv(s) && MapMutexInv(s) && Enabled(s, step)
    ensures SweepInv(Apply(s, step))
  {}

  lemma StepKeepsMapMutex(s: State, step: Step)
    requires MapMutexInv(s) && Enabled(s, step)
    ensures MapMutexInv(Apply(s, step))
  {}

  predicate OfSweeper(step: Step) {
    step.SweepBegin? || step.SweepSkip? || step.SweepCatch? || step.SweepDrop? || step.SweepRelease? || step.SweepEnd?
  }

  lemma SweeperKeepsEntryMutexes(s: State, step: Step)
    requires EntryMutexInv(s) && Enabled(s, step) && OfSweeper(step)
    ensures EntryMutexInv(Apply(s, step))
  {}

  lemma LockKeepsEntryMutexes(s: State, c: nat)
    requires EntryMutexInv(s) && Enabled(s, LockEntry(c))
    ensures EntryMutexInv(Apply(s, LockEntry(c)))
  {
    var t := Apply(s, LockEntry(c));
    assert t.calls[c].entry == s.calls[c].entry;
    assert forall d: nat :: d < |s.calls| && d != c ==> t.calls[d] == s.calls[d];
  }

  lemma ReleaseKeepsEntryMutexes(s: State, step: Step)
    requires EntryMutexInv(s) && Enabled(s, step) && (step.LetGo? || step.Unlock?)
    ensures EntryMutexInv(Apply(s, step))
  {
    var t, c := Apply(s, step), step.c;
    assert forall d: nat :: d < |s.calls| && d != c ==> t.calls[d] == s.calls[d];
  }

  lemma CallerKeepsEntryMutexes(s: State, step: Step)
    requires EntryMutexInv(s) && Enabled(s, step) && !OfSweeper(step)
    ensures EntryMutexInv(Apply(s, step))
  {
    if step.LockEntry? {
      LockKeepsEntryMutexes(s, step.c);
    } else if step.LetGo? || step.Unlock? {
      ReleaseKeepsEntryMutexes(s, step);
    } else {
      var t, c := Apply(s, step), step.c;
      assert t.owner == s.owner && t.sweep == s.sweep;
      assert forall d: nat :: d < |s.calls| && d != c ==> t.calls[d] == s.calls[d];
    }
  }

  /** What a step leaves alone. */
  lemma StepFrame(s: State, step: Step)
    requires Enabled(s, step)
    ensures s.made <= Apply(s, step).made && s.deleted <= Apply(s, step).deleted
    ensures OfSweeper(step) ==> Apply(s, step).calls == s.calls && Apply(s, step).made == s.made
    ensures !OfSweeper(step) ==> step.c < |s.calls| && Apply(s, step).deleted == s.deleted
                                 && Apply(s, step).calls == s.calls[step.c := Apply(s, step).calls[step.c]]
  {}

  lemma OtherCallKept(s: State, step: Step, c: nat)
    requires Inv(s) && Enabled(s, step) && c < |s.calls| && (OfSweeper(step) || step.c != c)
    ensures CallInv(Apply(s, step), Apply(s, step).calls[c])
  {
    var t, call := Apply(s, step), s.calls[c];
    StepFrame(s, step);
    assert t.calls[c] == call && CallInv(s, call);
    assert DeletedDuring(s, call) <= DeletedDuring(t, call);
    if call.stage == Held && step.SweepDrop? {
      assert s.owner[call.entry] == Caller(c);
    } else if call.stage == Held {
      assert t.deleted == s.deleted;
    }
  }

  lemma OwnCallKept(s: State, step: Step)
    requires Inv(s) && Enabled(s, step) && !OfSweeper(step)
    ensures CallInv(Apply(s, step), Apply(s, step).calls[step.c])
  {
    var t, c := Apply(s, step), step.c;
    StepFrame(s, step);
    assert CallInv(s, s.calls[c]);
    if !step.Begin? {
      assert DeletedDuring(s, s.calls[c]) <= DeletedDuring(t, t.calls[c]);
    }
  }

  lemma StepKeepsInv(s: State, step: Step)
    requires Inv(s) && Enabled(s, step)
    ensures Inv(Apply(s, step))
  {
    StepKeepsMap(s, step);
    StepKeepsSweep(s, step);
    StepKeepsMapMutex(s, step);
    if OfSweeper(step) { SweeperKeepsEntryMutexes(s, step); } else { CallerKeepsEntryMutexes(s, step); }
    forall c: nat | c < |s.calls| ensures CallInv(Apply(s, step), Apply(s, step).calls[c]) {
      if OfSweeper(step) || step.c != c { OtherCallKept(s, step, c); } else { OwnCallKept(s, step); }
    }
  }

  lemma {:induction false} RunInv(callers: nat, steps: seq<Step>, s: State)
    requires Run(callers, steps) == Some(s)
    ensures Inv(s)
  {
    if steps == [] {
      InitialInv(callers);
    } else {
      var prev := Run(callers, steps[..|steps| - 1]).value;
      RunInv(callers, steps[..|steps| - 1], prev);
      StepKeepsInv(prev, steps[|steps| - 1]);
    }
  }

  // ---------------------------------------------------------------- what the protocol is for

  /** Two callers never hold the lock of the same key. */
  lemma MutualExclusion(callers: nat, steps: seq<Step>, s: State, c: nat, d: nat)
    requires Run(callers, steps) == Some(s)
    requires At(s, c, Held) && At(s, d, Held) && s.calls[c].name == s.calls[d].name
    ensures c == d
  {
    RunInv(callers, steps, s);
    assert CallInv(s, s.calls[c]) && CallInv(s, s.calls[d]);
    assert s.owner[s.calls[c].entry] == Caller(c);
    assert s.owner[s.calls[d].entry] == Caller(d);
  }

  /** A call that has made k attempts has seen k - 1 distinct entries of its key deleted since it began. */
  lemma AttemptsPaidByDeletions(callers: nat, steps: seq<Step>, s: State, c: nat)
    requires Run(callers, steps) == Some(s) && c < |s.calls|
    ensures s.calls[c].attempts <= |DeletedDuring(s, s.calls[c])| + 1
    ensures s.calls[c].failedOn <= DeletedDuring(s, s.calls[c])
  {
    RunInv(callers, steps, s);
    assert CallInv(s, s.calls[c]);
    SubsetSize(s.calls[c].failedOn, DeletedDuring(s, s.calls[c]));
  }

  lemma {:induction false} SubsetSize<T>(a: set<T>, b: set<T>)
    requires a <= b
    ensures |a| <= |b|
  {
    if a != {} {
      var x :| x in a;
      SubsetSize(a - {x}, b - {x});
    }
  }

  /** A step of somebody already inside lockContainer or inside a sweep. */
  predicate Internal(step: Step) {
    !step.Begin? && !step.Unlock? && !step.SweepBegin?
  }

  /** A sweep under way can always go on: it never waits. */
  lemma SweeperCanMove(s: State) returns (step: Step)
    requires Inv(s) && !s.sweep.Off?
    ensures Enabled(s, step) && Internal(step)
  {
    match s.sweep
    case Caught(_, _, _) => step := SweepDrop;
    case Dropped(_, _, _) => step := SweepRelease;
    case Scanning(todo) =>
      if todo == {} {
        step := SweepEnd;
      } else {
        var n :| n in todo;
        step := if s.locks[n] in s.owner then SweepSkip(n) else SweepCatch(n);
      }
  }

  /** A caller at any other stage than these three can go on, once the map mutex is free or its own. */
  lemma CallerCanMove(s: State, c: nat) returns (step: Step)
    requires c < |s.calls| && s.calls[c].stage !in {Idle, Held, Waiting}
    requires s.mapMu.None? || OwnsMap(s.calls[c].stage)
    ensures Enabled(s, step) && Internal(step)
  {
    match s.calls[c].stage
    case Fetching => step := GetOrCreate(c);
    case Validating => step := Check(c);
    case Retry => step := LetGo(c);
    case _ => step := LockMap(c);
  }

  /** Whoever holds the map mutex can go on. */
  lemma MapHolderCanMove(s: State) returns (step: Step)
    requires Inv(s) && s.mapMu.Some?
    ensures Enabled(s, step) && Internal(step)
  {
    match s.mapMu.value
    case Sweeper => step := SweeperCanMove(s);
    case Caller(c) => step := CallerCanMove(s, c);
  }

  /** Whoever waits for an entry waits for a caller that has the same key, unless somebody can move. */
  lemma WaitsForHolder(s: State, c: nat) returns (d: nat)
    requires Inv(s) && At(s, c, Waiting) && s.calls[c].entry in s.owner
    requires s.mapMu.None? && s.sweep.Off?
    requires forall i: nat :: i < |s.calls| ==> s.calls[i].stage in {Idle, Held, Waiting}
    ensures At(s, d, Held) && d != c && s.calls[d].name == s.calls[c].name
  {
    d := s.owner[s.calls[c].entry].index;
    assert CallInv(s, s.calls[c]) && CallInv(s, s.calls[d]);
  }

  /**
   No deadlock: when nobody inside the protocol can move, the map mutex is free, no sweep is
   under way, and whoever is still inside waits for a caller that has the same key locked.
   */
  lemma NoDeadlock(callers: nat, steps: seq<Step>, s: State)
    requires Run(callers, steps) == Some(s)
    requires forall step :: Enabled(s, step) ==> !Internal(step)
    ensures s.mapMu.None? && s.sweep.Off?
    ensures forall c: nat :: c < |s.calls| ==> s.calls[c].stage in {Idle, Held, Waiting}
    ensures forall c: nat :: At(s, c, Waiting) ==>
              exists d: nat :: At(s, d, Held) && d != c && s.calls[d].name == s.calls[c].name
  {
    RunInv(callers, steps, s);
    if s.mapMu.Some? {
      var step := MapHolderCanMove(s);
    }
    forall c: nat | c < |s.calls| ensures s.calls[c].stage in {Idle, Held, Waiting} {
      if s.calls[c].stage !in {Idle, Held, Waiting} {
        var step := CallerCanMove(s, c);
      }
    }
    forall c: nat | At(s, c, Waiting)
      ensures exists d: nat :: At(s, d, Held) && d != c && s.calls[d].name == s.calls[c].name
    {
      assert !Enabled(s, LockEntry(c));
      var d := WaitsForHolder(s, c);
    }
  }

  // ---------------------------------------------------------------- progress

  /** A caller that has locked an entry gets it if and only if nobody deleted the entry meanwhile. */
  lemma GotUnlessDeleted(s: State, c: nat)
    requires Inv(s) && Enabled(s, Check(c))
    ensures Apply(s, Check(c)).calls[c].stage == if s.calls[c].entry in s.deleted then Retry else Held
  {
    assert CallInv(s, s.calls[c]);
  }

  /** Entering when nobody has the map: the entry of the name is found, or made. */
  lemma Enters(s: State, c: nat, name: Name)
    requires Inv(s) && At(s, c, Idle) && s.mapMu.None?
    ensures
      var t := Apply(Apply(Apply(s, Begin(c, name)), LockMap(c)), GetOrCreate(c));
      && name in t.locks && (name in s.locks ==> t.locks[name] == s.locks[name])
      && (name !in s.locks ==> t.locks[name] == |s.made|)
      && t.calls == s.calls[c := Call(name, Waiting, t.locks[name], 1, {}, s.deleted)]
      && t.mapMu.None? && t.owner == s.owner && t.deleted == s.deleted && t.sweep == s.sweep
  {}

  /** And then, if nobody has the entry, its lock is taken. */
  lemma Takes(s: State, c: nat)
    requires At(s, c, Waiting) && s.mapMu.None? && s.calls[c].entry !in s.owner
    requires s.calls[c].name in s.locks && s.locks[s.calls[c].name] == s.calls[c].entry
    requires s.calls[c].entry !in s.deleted
    ensures
      var t := Apply(Apply(Apply(s, LockEntry(c)), LockMap(c)), Check(c));
      && t.calls == s.calls[c := s.calls[c].(stage := Held)]
      && t.mapMu.None? && t.owner == s.owner[s.calls[c].entry := Caller(c)] && t.sweep == s.sweep
  {}

  /** A free lock is taken in one attempt, be the entry in the map or not. */
  lemma FreeIsTaken(s: State, c: nat, name: Name)
    requires Inv(s) && At(s, c, Idle) && s.mapMu.None?
    requires name in s.locks ==> s.locks[name] !in s.owner
    ensures
      var t := Apply(Apply(Apply(s, Begin(c, name)), LockMap(c)), GetOrCreate(c));
      && At(t, c, Waiting) && t.mapMu.None? && t.calls[c].entry !in t.owner
      && var u := Apply(Apply(Apply(t, LockEntry(c)), LockMap(c)), Check(c));
         Holders(u) == Holders(s)[c := name] && u.calls[c].attempts == 1
  {
    Enters(s, c, name);
    var t := Apply(Apply(Apply(s, Begin(c, name)), LockMap(c)), GetOrCreate(c));
    if |s.made| in s.owner { OwnedAreMade(s, |s.made|); }
    assert t.locks[name] !in t.deleted;
    Takes(t, c);
    var u := Apply(Apply(Apply(t, LockEntry(c)), LockMap(c)), Check(c));
    assert u.calls == s.calls[c := Call(name, Held, t.locks[name], 1, {}, s.deleted)];
    HoldsMore(s, u, c, u.calls[c]);
  }

  lemma HoldsMore(s: State, t: State, c: nat, call: Call)
    requires At(s, c, Idle) && call.stage == Held && t.calls == s.calls[c := call]
    ensures Holders(t) == Holders(s)[c := call.name]
  {}

  /** Only entries that exist are locked. */
  lemma OwnedAreMade(s: State, e: Entry)
    requires Inv(s) && s.mapMu.None? && e in s.owner
    ensures e < |s.made|
  {
    assert CallInv(s, s.calls[s.owner[e].index]);
  }

  /** How many steps the sweeper has left at most, of a sweep under way. */
  function StepsLeft(sweep: Sweep): nat {
    match sweep
    case Off => 0
    case Scanning(todo) => 3 * |todo| + 1
    case Caught(todo, _, _) => 3 * |todo| + 3
    case Dropped(todo, _, _) => 3 * |todo| + 2
  }

  /** A sweep ends: each of its steps leaves fewer, and callers do not lengthen it. */
  lemma SweepEnds(s: State, step: Step)
    requires Enabled(s, step) && !step.SweepBegin?
    ensures OfSweeper(step) ==> StepsLeft(Apply(s, step).sweep) < StepsLeft(s.sweep)
    ensures !OfSweeper(step) ==> Apply(s, step).sweep == s.sweep
  {}

  // ---------------------------------------------------------------- refinement of an atomic lock

  /** Which caller holds which key: all that a user of the lock can see. */
  function Holders(s: State): map<nat, Name> {
    map c: nat | c < |s.calls| && s.calls[c].stage == Held :: s.calls[c].name
  }

  /** One step of a lock without entries, map or sweeper. */
  ghost predicate AtomicStep(h: map<nat, Name>, h': map<nat, Name>) {
    || h' == h
    || (exists c: nat, n :: c !in h && n !in h.Values && h' == h[c := n])
    || (exists c: nat :: c in h && h' == h - {c})
  }

  /** A call that is about to hold a name is the only one. */
  lemma NameIsFree(s: State, c: nat)
    requires Inv(s) && Enabled(s, Check(c)) && Apply(s, Check(c)).calls[c].stage == Held
    ensures forall d: nat :: d < |s.calls| && s.calls[d].stage == Held ==> s.calls[d].name != s.calls[c].name
  {
    assert CallInv(s, s.calls[c]);
    forall d: nat | d < |s.calls| && s.calls[d].stage == Held
      ensures s.calls[d].name != s.calls[c].name
    {
      assert CallInv(s, s.calls[d]);
    }
  }

  lemma AcquireStep(s: State, c: nat)
    requires Inv(s) && Enabled(s, Check(c)) && Apply(s, Check(c)).calls[c].stage == Held
    ensures c !in Holders(s) && s.calls[c].name !in Holders(s).Values
    ensures Holders(Apply(s, Check(c))) == Holders(s)[c := s.calls[c].name]
  {
    NameIsFree(s, c);
    var t := Apply(s, Check(c));
    assert |t.calls| == |s.calls| && t.calls[c].name == s.calls[c].name;
    assert forall d: nat :: d < |s.calls| && d != c ==> t.calls[d] == s.calls[d];
  }

  lemma SilentStep(s: State, step: Step)
    requires Enabled(s, step) && !step.Unlock?
    requires step.Check? ==> Apply(s, step).calls[step.c].stage != Held
    ensures Holders(Apply(s, step)) == Holders(s)
  {
    StepFrame(s, step);
    if !OfSweeper(step) {
      var t, c := Apply(s, step), step.c;
      assert s.calls[c].stage != Held && t.calls[c].stage != Held;
      assert forall d: nat :: d < |s.calls| && d != c ==> t.calls[d] == s.calls[d];
    }
  }

  lemma ReleaseStep(s: State, c: nat)
    requires Enabled(s, Unlock(c))
    ensures c in Holders(s) && Holders(Apply(s, Unlock(c))) == Holders(s) - {c}
  {
    StepFrame(s, Unlock(c));
  }

  /**
   Every step of the protocol is, for its users, nothing, the acquisition of a free key, or a
   release; and a caller loses its key only by unlocking it.
   */
  lemma RefinesAtomicLock(callers: nat, steps: seq<Step>, s: State, step: Step)
    requires Run(callers, steps) == Some(s) && Enabled(s, step)
    ensures AtomicStep(Holders(s), Holders(Apply(s, step)))
    ensures Holders(Apply(s, step)).Keys >= Holders(s).Keys - (if step.Unlock? then {step.c} else {})
    ensures step.Unlock? ==> step.c !in Holders(Apply(s, step))
  {
    RunInv(callers, steps, s);
    if step.Unlock? {
      ReleaseStep(s, step.c);
    } else if step.Check? && Apply(s, step).calls[step.c].stage == Held {
      AcquireStep(s, step.c);
    } else {
      SilentStep(s, step);
    }
  }
}
