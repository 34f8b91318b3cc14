/** What the agent does, and in what order, with the batches it is sent. */
module AgentOrder {
  import opened Options
  import opened Sorting

  datatype WireBatch = WireBatch(containerIds: seq<string>, waitForHealthy: bool, healthTimeout: int)

  datatype Action = Update(id: string) | SelfUpdate(id: string) | Stop(id: string) | Start(id: string)
                  | Wait(seconds: int) | Pause | AwaitHealthy(id: string, seconds: int)

  /** All containers, batch after batch. */
  function AllIds(batches: seq<WireBatch>): seq<string> {
    if batches == [] then [] else AllIds(batches[..|batches| - 1]) + batches[|batches| - 1].containerIds
  }

  /** All containers, the last batch first. */
  function AllIdsBackwards(batches: seq<WireBatch>): seq<string> {
    if batches == [] then [] else AllIdsBackwards(batches[1..]) + batches[0].containerIds
  }

  function Updated(log: seq<Action>): seq<string> {
    if log == [] then []
    else Updated(log[..|log| - 1]) + (match log[|log| - 1] case Update(id) => [id] case _ => [])
  }

  function NotSelf(self: Option<string>): string -> bool {
    (id: string) => self != Some(id)
  }

  lemma {:induction false} AllIdsConcat(a: seq<WireBatch>, b: WireBatch)
    ensures AllIds(a + [b]) == AllIds(a) + b.containerIds
  {
    assert (a + [b])[..|a|] == a;
  }

  lemma AllIdsUpTo(batches: seq<WireBatch>, k: nat)
    requires 0 < k <= |batches|
    ensures AllIds(batches[..k]) == AllIds(batches[..k - 1]) + batches[k - 1].containerIds
  {
    assert batches[..k] == batches[..k - 1] + [batches[k - 1]];
    AllIdsConcat(batches[..k - 1], batches[k - 1]);
  }

  lemma UpdatedMore(log: seq<Action>, action: Action)
    ensures Updated(log + [action]) == Updated(log) + (match action case Update(id) => [id] case _ => [])
  {
    assert (log + [action])[..|log|] == log;
  }

  lemma FilterMore(s: seq<string>, x: string, p: string -> bool)
    ensures Filter(s + [x], p) == Filter(s, p) + (if p(x) then [x] else [])
  {
    FilterConcat(s, [x], p);
    assert Filter([x], p) == if p(x) then [x] else [];
  }

  /** The last of the identifiers that is one of the agent's own. */
  function LastOwn(ids: seq<string>, own: set<string>): Option<string> {
    if ids == [] then None
    else if ids[|ids| - 1] in own then Some(ids[|ids| - 1])
    else LastOwn(ids[..|ids| - 1], own)
  }

  lemma LastOwnMore(ids: seq<string>, x: string, own: set<string>)
    ensures LastOwn(ids + [x], own) == if x in own then Some(x) else LastOwn(ids, own)
  {
    assert (ids + [x])[..|ids|] == ids;
  }

  lemma {:induction false} LastOwnIsOwn(ids: seq<string>, own: set<string>)
    ensures LastOwn(ids, own).Some? ==> LastOwn(ids, own).value in own && LastOwn(ids, own).value in ids
    ensures LastOwn(ids, own).None? ==> forall id :: id in ids ==> id !in own
  {
    if ids != [] {
      LastOwnIsOwn(ids[..|ids| - 1], own);
      assert ids == ids[..|ids| - 1] + [ids[|ids| - 1]];
    }
  }

  /** The agent's own container, if it is in a batch: the last one listed, should there be several. */
  method FindSelf(batches: seq<WireBatch>, own: set<string>) returns (self: Option<string>)
    ensures self == LastOwn(AllIds(batches), own)
  {
    self := None;
    for i := 0 to |batches|
      invariant self == LastOwn(AllIds(batches[..i]), own)
    {
      assert batches[..i + 1] == batches[..i] + [batches[i]];
      AllIdsConcat(batches[..i], batches[i]);
      self := FindSelfInBatch(AllIds(batches[..i]), batches[i].containerIds, own, self);
    }
    assert batches[..|batches|] == batches;
  }

  method FindSelfInBatch(ghost before: seq<string>, ids: seq<string>, own: set<string>, found: Option<string>)
    returns (self: Option<string>)
    requires found == LastOwn(before, own)
    ensures self == LastOwn(before + ids, own)
  {
    self := found;
    assert before + ids[..0] == before;
    for j := 0 to |ids|
      invariant self == LastOwn(before + ids[..j], own)
    {
      assert before + ids[..j + 1] == (before + ids[..j]) + [ids[j]];
      LastOwnMore(before + ids[..j], ids[j], own);
      if ids[j] in own { self := Some(ids[j]); }
    }
    assert ids[..|ids|] == ids;
  }

  /** The updates of one batch. */
  function Updates(ids: seq<string>, self: Option<string>): seq<Action> {
    if ids == [] then []
    else if self == Some(ids[|ids| - 1]) then Updates(ids[..|ids| - 1], self)
    else Updates(ids[..|ids| - 1], self) + [Update(ids[|ids| - 1])]
  }

  /** What is done up to batch `k`: its updates, and, unless it is the last, the wait it asks for. */
  function UpTo(batches: seq<WireBatch>, self: Option<string>, k: nat): seq<Action>
    requires k <= |batches|
  {
    if k == 0 then []
    else UpTo(batches, self, k - 1) + Updates(batches[k - 1].containerIds, self) + WaitAfter(batches, k - 1)
  }

  predicate WaitsAfter(batches: seq<WireBatch>, i: nat)
    requires i < |batches|
  {
    batches[i].waitForHealthy && i < |batches| - 1
  }

  function TimeoutOf(batch: WireBatch, fallback: int): int {
    if batch.healthTimeout <= 0 then fallback else batch.healthTimeout
  }

  function WaitAfter(batches: seq<WireBatch>, i: nat): seq<Action>
    requires i < |batches|
  {
    if WaitsAfter(batches, i) then [Wait(TimeoutOf(batches[i], 30))] else []
  }

  /** After every batch but the last there is a wait if it asks for one, for 30 seconds if it does not say how long. */
  lemma WaitIsAsAsked(batches: seq<WireBatch>, i: nat)
    requires i < |batches|
    ensures !batches[i].waitForHealthy || i == |batches| - 1 ==> WaitAfter(batches, i) == []
    ensures batches[i].waitForHealthy && i < |batches| - 1 ==>
              WaitAfter(batches, i) ==
              [Wait(if batches[i].healthTimeout > 0 then batches[i].healthTimeout else 30)]
  {}

  /**
   UPDATE_SEQUENTIAL: batch after batch, whether or not updates succeed, and the agent's own container
   last of all. Only the deadline ends it early, in the first wait that is not over before: `deadline` is
   the batch from which on no wait is.
   */
  method UpdateSequential(batches: seq<WireBatch>, own: set<string>, deadline: nat)
    returns (log: seq<Action>, self: Option<string>, complete: bool)
    ensures self == LastOwn(AllIds(batches), own)
    ensures complete <==> forall i :: deadline <= i < |batches| ==> !WaitsAfter(batches, i)
    ensures complete ==> log == UpTo(batches, self, |batches|) + LastOfAll(self)
    ensures !complete ==>
              exists i :: deadline <= i < |batches| && WaitsAfter(batches, i)
                          && (forall k :: deadline <= k < i ==> !WaitsAfter(batches, k))
                          && log == UpTo(batches, self, i) + Updates(batches[i].containerIds, self)
  {
    log := [];
    self := FindSelf(batches, own);
    for i := 0 to |batches|
      invariant log == UpTo(batches, self, i)
      invariant forall k :: deadline <= k < i ==> !WaitsAfter(batches, k)
    {
      log := UpdateBatch(log, batches[i].containerIds, self);
      if WaitsAfter(batches, i) {
        if i >= deadline {
          return log, self, false;
        }
        log := log + [Wait(TimeoutOf(batches[i], 30))];
      }
    }
    if self.Some? {
      log := log + [SelfUpdate(self.value)];
    }
    complete := true;
  }

  method UpdateBatch(log: seq<Action>, ids: seq<string>, self: Option<string>) returns (log': seq<Action>)
    ensures log' == log + Updates(ids, self)
  {
    log' := log;
    for j := 0 to |ids|
      invariant log' == log + Updates(ids[..j], self)
    {
      assert ids[..j + 1][..j] == ids[..j];
      if self != Some(ids[j]) {
        log' := log' + [Update(ids[j])];
      }
    }
    assert ids[..|ids|] == ids;
  }

  lemma {:induction false} UpdatedConcat(a: seq<Action>, b: seq<Action>)
    ensures Updated(a + b) == Updated(a) + Updated(b)
    decreases |b|
  {
    if b == [] {
      assert a + b == a;
    } else {
      var n := |b| - 1;
      assert (a + b)[..|a + b| - 1] == a + b[..n];
      UpdatedConcat(a, b[..n]);
    }
  }

  lemma {:induction false} UpdatedInBatch(ids: seq<string>, self: Option<string>)
    ensures Updated(Updates(ids, self)) == Filter(ids, NotSelf(self))
  {
    if ids != [] {
      var front, x := ids[..|ids| - 1], ids[|ids| - 1];
      UpdatedInBatch(front, self);
      assert ids == front + [x];
      FilterMore(front, x, NotSelf(self));
      assert Filter(front, NotSelf(self)) + [] == Filter(front, NotSelf(self));
      if self != Some(x) {
        UpdatedMore(Updates(front, self), Update(x));
      }
    }
  }

  /** All containers but the agent's own are updated, in the order of the batches. */
  lemma {:induction false} UpdatedUpTo(batches: seq<WireBatch>, self: Option<string>, k: nat)
    requires k <= |batches|
    ensures Updated(UpTo(batches, self, k)) == Filter(AllIds(batches[..k]), NotSelf(self))
  {
    if k == 0 {
      assert batches[..0] == [];
    } else {
      UpdatedUpTo(batches, self, k - 1);
      UpdatedByBatch(UpTo(batches, self, k - 1), batches[k - 1].containerIds, self);
      WaitUpdatesNothing(UpTo(batches, self, k - 1) + Updates(batches[k - 1].containerIds, self), batches, k - 1);
      AllIdsUpTo(batches, k);
      FilterConcat(AllIds(batches[..k - 1]), batches[k - 1].containerIds, NotSelf(self));
    }
  }

  lemma UpdatedByBatch(log: seq<Action>, ids: seq<string>, self: Option<string>)
    ensures Updated(log + Updates(ids, self)) == Updated(log) + Filter(ids, NotSelf(self))
  {
    UpdatedInBatch(ids, self);
    UpdatedConcat(log, Updates(ids, self));
  }

  lemma WaitUpdatesNothing(log: seq<Action>, batches: seq<WireBatch>, i: nat)
    requires i < |batches|
    ensures Updated(log + WaitAfter(batches, i)) == Updated(log)
  {
    if WaitsAfter(batches, i) {
      UpdatedMore(log, Wait(TimeoutOf(batches[i], 30)));
    } else {
      assert log + [] == log;
    }
  }

  /** Containers other than the agent's own are updated in the order of the batches. */
  lemma SequentialKeepsOrder(batches: seq<WireBatch>, self: Option<string>, d: string, c: string)
    requires Precedes(AllIds(batches), d, c) && self != Some(d) && self != Some(c)
    ensures Precedes(Filter(AllIds(batches), NotSelf(self)), d, c)
  {
    FilterKeepsOrder(AllIds(batches), NotSelf(self), d, c);
  }

  lemma {:induction false} AllIdsSplit(batches: seq<WireBatch>, k: nat)
    requires k <= |batches|
    ensures AllIds(batches[..k]) <= AllIds(batches)
    decreases |batches| - k
  {
    if k == |batches| {
      assert batches[..k] == batches;
    } else {
      AllIdsSplit(batches, k + 1);
      AllIdsUpTo(batches, k + 1);
    }
  }

  /** A run cut short in the wait after batch `i` has updated a front part of what all batches list. */
  lemma UpdatedWhenCut(batches: seq<WireBatch>, self: Option<string>, i: nat)
    requires i < |batches|
    ensures Updated(UpTo(batches, self, i) + Updates(batches[i].containerIds, self))
         <= Filter(AllIds(batches), NotSelf(self))
  {
    UpdatedUpTo(batches, self, i);
    UpdatedByBatch(UpTo(batches, self, i), batches[i].containerIds, self);
    AllIdsUpTo(batches, i + 1);
    FilterConcat(AllIds(batches[..i]), batches[i].containerIds, NotSelf(self));
    AllIdsSplit(batches, i + 1);
    FilterOfFront(AllIds(batches[..i + 1]), AllIds(batches), NotSelf(self));
  }

  lemma FilterOfFront(front: seq<string>, s: seq<string>, p: string -> bool)
    requires front <= s
    ensures Filter(front, p) <= Filter(s, p)
  {
    assert s == front + s[|front|..];
    FilterConcat(front, s[|front|..], p);
  }

  /** A complete run has updated all of it, and ends with the agent itself. */
  lemma UpdatedInAll(batches: seq<WireBatch>, self: Option<string>)
    ensures Updated(UpTo(batches, self, |batches|) + LastOfAll(self)) == Filter(AllIds(batches), NotSelf(self))
  {
    UpdatedUpTo(batches, self, |batches|);
    assert batches[..|batches|] == batches;
    SelfIsNoUpdate(UpTo(batches, self, |batches|), self);
  }

  function LastOfAll(self: Option<string>): seq<Action> {
    if self.Some? then [SelfUpdate(self.value)] else []
  }

  lemma SelfIsNoUpdate(log: seq<Action>, self: Option<string>)
    ensures Updated(log + LastOfAll(self)) == Updated(log)
  {
    if self.Some? {
      UpdatedMore(log, SelfUpdate(self.value));
    } else {
      assert log + [] == log;
    }
  }

  // ---------------------------------------------------------------- UPDATE

  function NotOwn(own: set<string>): string -> bool {
    (id: string) => id !in own
  }

  /** UPDATE: all but the agent's own containers, whether or not updates succeed, and then the agent itself. */
  method UpdateAll(ids: seq<string>, own: set<string>) returns (log: seq<Action>, self: Option<string>)
    ensures self == LastOwn(ids, own)
    ensures log == Updates(Filter(ids, NotOwn(own)), None) + LastOfAll(self)
  {
    var normal: seq<string>;
    normal, self := SetOwnAside(ids, own);
    log := UpdateBatch([], normal, None);
    assert log == Updates(normal, None);
    if self.Some? {
      log := log + [SelfUpdate(self.value)];
    }
  }

  method SetOwnAside(ids: seq<string>, own: set<string>) returns (normal: seq<string>, self: Option<string>)
    ensures normal == Filter(ids, NotOwn(own)) && self == LastOwn(ids, own)
  {
    normal, self := [], None;
    for j := 0 to |ids|
      invariant normal == Filter(ids[..j], NotOwn(own)) && self == LastOwn(ids[..j], own)
    {
      assert ids[..j + 1] == ids[..j] + [ids[j]];
      FilterMore(ids[..j], ids[j], NotOwn(own));
      LastOwnMore(ids[..j], ids[j], own);
      if ids[j] in own { self := Some(ids[j]); } else { normal := normal + [ids[j]]; }
    }
    assert ids[..|ids|] == ids;
  }

  lemma UpdatedByUpdateAll(ids: seq<string>, own: set<string>)
    ensures Updated(Updates(Filter(ids, NotOwn(own)), None) + LastOfAll(LastOwn(ids, own))) == Filter(ids, NotOwn(own))
  {
    var normal := Filter(ids, NotOwn(own));
    SelfIsNoUpdate(Updates(normal, None), LastOwn(ids, own));
    UpdatedInBatch(normal, None);
    FilterAll(normal, NotSelf(None));
  }

  lemma {:induction false} FilterAll(s: seq<string>, p: string -> bool)
    requires forall x :: x in s ==> p(x)
    ensures Filter(s, p) == s
  {
    if s != [] { FilterAll(s[1..], p); }
  }

  // ---------------------------------------------------------------- RESTART_UNHEALTHY

  function Stops(ids: seq<string>): seq<Action> {
    seq(|ids|, i requires 0 <= i < |ids| => Stop(ids[i]))
  }

  function Starts(ids: seq<string>): seq<Action> {
    seq(|ids|, i requires 0 <= i < |ids| => Start(ids[i]))
  }

  function Awaits(ids: seq<string>, seconds: int): seq<Action> {
    seq(|ids|, i requires 0 <= i < |ids| => AwaitHealthy(ids[i], seconds))
  }

  /** The starts up to batch `k`, each batch followed, unless it is the last, by the waits it asks for. */
  function StartsUpTo(batches: seq<WireBatch>, k: nat): seq<Action>
    requires k <= |batches|
  {
    if k == 0 then []
    else StartsUpTo(batches, k - 1) + Starts(batches[k - 1].containerIds) + HealthAfter(batches, k - 1)
  }

  function HealthAfter(batches: seq<WireBatch>, i: nat): seq<Action>
    requires i < |batches|
  {
    if WaitsAfter(batches, i) then Awaits(batches[i].containerIds, TimeoutOf(batches[i], 120)) else []
  }

  /** In a restart each container of such a batch is waited for, by default for 120 seconds. */
  lemma HealthIsAwaited(batches: seq<WireBatch>, i: nat)
    requires i < |batches|
    ensures !batches[i].waitForHealthy || i == |batches| - 1 ==> HealthAfter(batches, i) == []
    ensures batches[i].waitForHealthy && i < |batches| - 1 ==>
              var seconds := if batches[i].healthTimeout > 0 then batches[i].healthTimeout else 120;
              && |HealthAfter(batches, i)| == |batches[i].containerIds|
              && forall j :: 0 <= j < |HealthAfter(batches, i)| ==>
                   HealthAfter(batches, i)[j] == AwaitHealthy(batches[i].containerIds[j], seconds)
  {}

  /** Everything stopped, the last batch first; a pause; everything started, the first batch first. */
  function Restarted(batches: seq<WireBatch>): seq<Action> {
    Stops(AllIdsBackwards(batches)) + [Pause] + StartsUpTo(batches, |batches|)
  }

  /** RESTART_UNHEALTHY. Failures, and containers that do not become healthy, are passed over. */
  method RestartUnhealthy(batches: seq<WireBatch>) returns (log: seq<Action>)
    ensures log == Restarted(batches)
  {
    log := StopBackwards(batches);
    log := StartForwards(batches, log + [Pause]);
  }

  method StartForwards(batches: seq<WireBatch>, log: seq<Action>) returns (log': seq<Action>)
    ensures log' == log + StartsUpTo(batches, |batches|)
  {
    log' := log;
    for k := 0 to |batches|
      invariant log' == log + StartsUpTo(batches, k)
    {
      ghost var ids := batches[k].containerIds;
      Regroup(log, StartsUpTo(batches, k), Starts(ids), HealthAfter(batches, k));
      log' := StartAndAwait(batches, k, log');
    }
  }

  lemma Regroup(log: seq<Action>, before: seq<Action>, starts: seq<Action>, waits: seq<Action>)
    ensures log + (before + starts + waits) == log + before + starts + waits
  {}

  /** One batch started, and waited for if it asks for it. */
  method StartAndAwait(batches: seq<WireBatch>, k: nat, log: seq<Action>) returns (log': seq<Action>)
    requires k < |batches|
    ensures log' == log + Starts(batches[k].containerIds) + HealthAfter(batches, k)
  {
    log' := StartBatch(log, batches[k].containerIds);
    if WaitsAfter(batches, k) {
      log' := AwaitBatch(log', batches[k].containerIds, TimeoutOf(batches[k], 120));
    }
  }

  method StopBackwards(batches: seq<WireBatch>) returns (log: seq<Action>)
    ensures log == Stops(AllIdsBackwards(batches))
  {
    log := [];
    var i := |batches|;
    assert batches[|batches|..] == [];
    while i > 0
      invariant 0 <= i <= |batches|
      invariant log == Stops(AllIdsBackwards(batches[i..]))
    {
      i := i - 1;
      assert batches[i..][1..] == batches[i + 1..];
      var ids := batches[i].containerIds;
      for j := 0 to |ids|
        invariant log == Stops(AllIdsBackwards(batches[i + 1..]) + ids[..j])
      {
        log := log + [Stop(ids[j])];
      }
      assert ids[..|ids|] == ids;
    }
  }

  method StartBatch(log: seq<Action>, ids: seq<string>) returns (log': seq<Action>)
    ensures log' == log + Starts(ids)
  {
    log' := log;
    for j := 0 to |ids|
      invariant log' == log + Starts(ids[..j])
    {
      log' := log' + [Start(ids[j])];
    }
    assert ids[..|ids|] == ids;
  }

  method AwaitBatch(log: seq<Action>, ids: seq<string>, seconds: int) returns (log': seq<Action>)
    ensures log' == log + Awaits(ids, seconds)
  {
    log' := log;
    for j := 0 to |ids|
      invariant log' == log + Awaits(ids[..j], seconds)
    {
      log' := log' + [AwaitHealthy(ids[j], seconds)];
    }
    assert ids[..|ids|] == ids;
  }

  /** What is started, in order. */
  function Started(log: seq<Action>): seq<string> {
    if log == [] then []
    else Started(log[..|log| - 1]) + (match log[|log| - 1] case Start(id) => [id] case _ => [])
  }

  lemma {:induction false} StartedConcat(a: seq<Action>, b: seq<Action>)
    ensures Started(a + b) == Started(a) + Started(b)
    decreases |b|
  {
    if b == [] {
      assert a + b == a;
    } else {
      var n := |b| - 1;
      assert (a + b)[..|a + b| - 1] == a + b[..n];
      StartedConcat(a, b[..n]);
    }
  }

  lemma {:induction false} StartedByStarts(ids: seq<string>)
    ensures Started(Starts(ids)) == ids
  {
    if ids != [] {
      var n := |ids| - 1;
      StartedByStarts(ids[..n]);
      assert Starts(ids)[..n] == Starts(ids[..n]) && ids == ids[..n] + [ids[n]];
    }
  }

  lemma {:induction false} NothingStarted(log: seq<Action>)
    requires forall i :: 0 <= i < |log| ==> !log[i].Start?
    ensures Started(log) == []
  {
    if log != [] {
      NothingStarted(log[..|log| - 1]);
    }
  }

  /** Each container is started once, in the order of the batches. */
  lemma {:induction false} StartedInOrder(batches: seq<WireBatch>, k: nat)
    requires k <= |batches|
    ensures Started(StartsUpTo(batches, k)) == AllIds(batches[..k])
  {
    if k > 0 {
      var before, here := StartsUpTo(batches, k - 1), Starts(batches[k - 1].containerIds);
      StartedInOrder(batches, k - 1);
      StartedByStarts(batches[k - 1].containerIds);
      NothingStarted(HealthAfter(batches, k - 1));
      StartedConcat(before, here);
      StartedConcat(before + here, HealthAfter(batches, k - 1));
      AllIdsUpTo(batches, k);
    }
  }

  /** What is stopped before anything else is done, in order. */
  function Stopped(log: seq<Action>): seq<string> {
    if log == [] || !log[0].Stop? then [] else [log[0].id] + Stopped(log[1..])
  }

  lemma {:induction false} StoppedByStops(ids: seq<string>, rest: seq<Action>)
    requires rest == [] || !rest[0].Stop?
    ensures Stopped(Stops(ids) + rest) == ids
  {
    if ids == [] {
      assert Stops(ids) + rest == rest;
    } else {
      StoppedByStops(ids[1..], rest);
      assert (Stops(ids) + rest)[1..] == Stops(ids[1..]) + rest && ids == [ids[0]] + ids[1..];
    }
  }

  /** Over the whole run everything listed is stopped first, and then it, and nothing else, is started. */
  lemma RestartsAll(batches: seq<WireBatch>)
    ensures Stopped(Restarted(batches)) == AllIdsBackwards(batches)
    ensures Started(Restarted(batches)) == AllIds(batches)
  {
    var stops, starts := Stops(AllIdsBackwards(batches)), StartsUpTo(batches, |batches|);
    AfterPause(stops, starts);
    StoppedByStops(AllIdsBackwards(batches), [Pause] + starts);
    NothingStarted(stops + [Pause]);
    StartedConcat(stops + [Pause], starts);
    StartedInOrder(batches, |batches|);
    assert batches[..|batches|] == batches;
  }

  lemma AfterPause(stops: seq<Action>, starts: seq<Action>)
    ensures stops + [Pause] + starts == stops + ([Pause] + starts)
  {}

  /** Whatever is started is stopped first, each container as often as it is listed. */
  lemma {:induction false} SameContainers(batches: seq<WireBatch>)
    ensures multiset(AllIdsBackwards(batches)) == multiset(AllIds(batches))
  {
    if batches != [] {
      SameContainers(batches[1..]);
      FirstBatch(batches);
    }
  }

  lemma {:induction false} FirstBatch(batches: seq<WireBatch>)
    requires batches != []
    ensures AllIds(batches) == batches[0].containerIds + AllIds(batches[1..])
  {
    var n := |batches| - 1;
    var first, last, middle := batches[0].containerIds, batches[n].containerIds, AllIds(batches[..n]);
    if n == 0 {
      assert middle == [] && AllIds(batches[1..]) == [];
    } else {
      FirstBatch(batches[..n]);
      var rest := batches[1..];
      assert batches[..n][1..] == rest[..n - 1] && rest[n - 1] == batches[n];
      assert AllIds(rest) == AllIds(rest[..n - 1]) + last;
      assert first + (AllIds(rest[..n - 1]) + last) == (first + AllIds(rest[..n - 1])) + last;
    }
  }

  /** The batch that lists a container, if no container is listed twice. */
  ghost predicate InBatch(batches: seq<WireBatch>, i: nat, id: string) {
    i < |batches| && id in batches[i].containerIds
  }

  lemma {:induction false} InSomeBatch(batches: seq<WireBatch>, i: nat, id: string)
    requires InBatch(batches, i, id)
    ensures id in AllIds(batches)
  {
    FirstBatch(batches);
    if i > 0 { InSomeBatch(batches[1..], i - 1, id); }
  }

  /** A container of a later batch is stopped before, and started after, one of an earlier batch. */
  lemma {:induction false} AcrossBatches(batches: seq<WireBatch>, i: nat, j: nat, d: string, c: string)
    requires i < j && InBatch(batches, i, d) && InBatch(batches, j, c)
    ensures Precedes(AllIdsBackwards(batches), c, d) && Precedes(AllIds(batches), d, c)
  {
    FirstBatch(batches);
    var rest := batches[1..];
    if i > 0 {
      AcrossBatches(rest, i - 1, j - 1, d, c);
    } else {
      InSomeBatch(rest, j - 1, c);
      SameContainers(rest);
      assert c in multiset(AllIds(rest)) && c in multiset(AllIdsBackwards(rest));
    }
    PrecedesInConcat(AllIdsBackwards(rest), batches[0].containerIds, c, d);
    PrecedesInConcat(batches[0].containerIds, AllIds(rest), d, c);
  }

  /** Within a batch both go in the order listed, so a dependency is stopped under its running dependent. */
  lemma {:induction false} WithinBatch(batches: seq<WireBatch>, i: nat, d: string, c: string)
    requires i < |batches| && Precedes(batches[i].containerIds, d, c)
    ensures Precedes(AllIdsBackwards(batches), d, c) && Precedes(AllIds(batches), d, c)
  {
    FirstBatch(batches);
    var rest := batches[1..];
    if i > 0 { WithinBatch(rest, i - 1, d, c); }
    PrecedesInConcat(AllIdsBackwards(rest), batches[0].containerIds, d, c);
    PrecedesInConcat(batches[0].containerIds, AllIds(rest), d, c);
  }

  /** Of two containers of a batch, one is listed first. */
  lemma EitherWay(ids: seq<string>, d: string, c: string)
    requires d in ids && c in ids && d != c
    ensures Precedes(ids, d, c) || Precedes(ids, c, d)
  {
    var k :| 0 <= k < |ids| && ids[k] == d;
    var l :| 0 <= l < |ids| && ids[l] == c;
  }

  /**
   Wherever a dependency `d` and its dependent `c` are listed: `c` is stopped first exactly if it is in
   a later batch, or listed first in the same one; and `d` is started first exactly if `c` is in a
   later batch, or listed later in the same one.
   */
  lemma StopsDependentFirst(batches: seq<WireBatch>, i: nat, j: nat, d: string, c: string)
    requires Distinct(AllIds(batches)) && d != c
    requires InBatch(batches, i, d) && InBatch(batches, j, c)
    ensures Precedes(AllIdsBackwards(batches), c, d) <==> i < j || (i == j && Precedes(batches[i].containerIds, c, d))
    ensures Precedes(AllIds(batches), d, c) <==> i < j || (i == j && Precedes(batches[i].containerIds, d, c))
  {
    SameContainers(batches);
    DistinctFromMultiset(AllIds(batches), AllIdsBackwards(batches));
    if i < j {
      AcrossBatches(batches, i, j, d, c);
    } else if j < i {
      AcrossBatches(batches, j, i, c, d);
      PrecedesIsStrict(AllIdsBackwards(batches), d, c);
      PrecedesIsStrict(AllIds(batches), c, d);
    } else {
      InOneBatch(batches, i, d, c);
      InOneBatch(batches, i, c, d);
    }
  }

  lemma InOneBatch(batches: seq<WireBatch>, i: nat, d: string, c: string)
    requires Distinct(AllIds(batches)) && Distinct(AllIdsBackwards(batches)) && d != c
    requires InBatch(batches, i, d) && InBatch(batches, i, c)
    ensures Precedes(AllIdsBackwards(batches), d, c) <==> Precedes(batches[i].containerIds, d, c)
    ensures Precedes(AllIds(batches), d, c) <==> Precedes(batches[i].containerIds, d, c)
  {
    EitherWay(batches[i].containerIds, d, c);
    if Precedes(batches[i].containerIds, d, c) {
      WithinBatch(batches, i, d, c);
    } else {
      WithinBatch(batches, i, c, d);
      PrecedesIsStrict(AllIdsBackwards(batches), c, d);
      PrecedesIsStrict(AllIds(batches), c, d);
    }
  }
}
