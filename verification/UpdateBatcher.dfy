/**
 Results of container updates, gathered from all agents and sent as one notification: half a
 minute after the last result, five minutes after the first at the latest.
 */
module UpdateBatcher {
  import opened Options

  const WINDOW_MS := 30000
  const MAX_WAIT_MS := 5 * 60000

  datatype Result = Result(agent: string, name: string, image: Option<string>, success: bool,
                           error: Option<string>, durationMs: int)

  datatype Success = Success(name: string, image: string, durationMs: int)

  datatype Failure = Failure(name: string, error: string)

  datatype AgentData = AgentData(successes: seq<Success>, failures: seq<Failure>)

  datatype Group<T> = Group(agent: string, containers: seq<T>)

  datatype Event = UpdateSuccess(succeeded: seq<Group<Success>>) | UpdateFailed(failed: seq<Group<Failure>>)

  type TimerId = nat

  /** `order` lists the keys of the map `data` as they were inserted. */
  datatype Batch = Batch(order: seq<string>, data: map<string, AgentData>, timer: TimerId, maxTimer: TimerId)

  // What a list of results, or of events, says about one agent

  function AsSuccess(r: Result): Success {
    Success(r.name, r.image.GetOr(""), r.durationMs)
  }

  function AsFailure(r: Result): Failure {
    Failure(r.name, r.error.GetOr("unknown"))
  }

  function SuccessesOf(log: seq<Result>, agent: string): seq<Success> {
    if log == [] then []
    else
      var r := log[|log| - 1];
      SuccessesOf(log[..|log| - 1], agent) + (if r.agent == agent && r.success then [AsSuccess(r)] else [])
  }

  function FailuresOf(log: seq<Result>, agent: string): seq<Failure> {
    if log == [] then []
    else
      var r := log[|log| - 1];
      FailuresOf(log[..|log| - 1], agent) + (if r.agent == agent && !r.success then [AsFailure(r)] else [])
  }

  /** What is told of a success or a failure is what was reported, a missing image or error aside. */
  lemma {:induction false} ToldAsReported(log: seq<Result>, agent: string)
    ensures forall s :: s in SuccessesOf(log, agent) ==>
              exists r :: r in log && r.agent == agent && r.success && s.name == r.name && s.durationMs == r.durationMs
                          && (r.image == Some(s.image) || (r.image == None && s.image == ""))
    ensures forall f :: f in FailuresOf(log, agent) ==>
              exists r :: r in log && r.agent == agent && !r.success && f.name == r.name
                          && (r.error == Some(f.error) || (r.error == None && f.error == "unknown"))
  {
    if log != [] {
      var n := |log| - 1;
      ToldAsReported(log[..n], agent);
      assert log == log[..n] + [log[n]] && log[n] in log;
    }
  }

  function Listed<T>(groups: seq<Group<T>>, agent: string): seq<T> {
    if groups == [] then []
    else
      var g := groups[|groups| - 1];
      Listed(groups[..|groups| - 1], agent) + (if g.agent == agent then g.containers else [])
  }

  /** All successes told about an agent, over all events. */
  function ToldSuccesses(sent: seq<Event>, agent: string): seq<Success> {
    if sent == [] then []
    else
      var e := sent[|sent| - 1];
      ToldSuccesses(sent[..|sent| - 1], agent) + (if e.UpdateSuccess? then Listed(e.succeeded, agent) else [])
  }

  function ToldFailures(sent: seq<Event>, agent: string): seq<Failure> {
    if sent == [] then []
    else
      var e := sent[|sent| - 1];
      ToldFailures(sent[..|sent| - 1], agent) + (if e.UpdateFailed? then Listed(e.failed, agent) else [])
  }

  // What a batch holds: the agents in the order they first reported, and what each reported

  ghost predicate Distinct(order: seq<string>) {
    order == [] || (Distinct(order[..|order| - 1]) && order[|order| - 1] !in order[..|order| - 1])
  }

  function OrderOf(log: seq<Result>): seq<string> {
    if log == [] then []
    else
      var order := OrderOf(log[..|log| - 1]);
      var agent := log[|log| - 1].agent;
      if agent in order then order else order + [agent]
  }

  function DataOf(log: seq<Result>): map<string, AgentData> {
    if log == [] then map[] else Updated(DataOf(log[..|log| - 1]), log[|log| - 1])
  }

  function Updated(data: map<string, AgentData>, r: Result): map<string, AgentData> {
    var agentData := if r.agent in data then data[r.agent] else AgentData([], []);
    data[r.agent := if r.success then agentData.(successes := agentData.successes + [AsSuccess(r)])
                    else agentData.(failures := agentData.failures + [AsFailure(r)])]
  }

  lemma {:induction false} OrderListsAgents(log: seq<Result>)
    ensures Distinct(OrderOf(log))
    ensures forall agent :: agent in OrderOf(log) <==> agent in DataOf(log)
  {
    if log != [] {
      OrderListsAgents(log[..|log| - 1]);
    }
  }

  lemma RecordedMore(log: seq<Result>, r: Result)
    ensures DataOf(log + [r]) == Updated(DataOf(log), r)
    ensures OrderOf(log + [r]) == if r.agent in DataOf(log) then OrderOf(log) else OrderOf(log) + [r.agent]
  {
    assert (log + [r])[..|log|] == log;
    OrderListsAgents(log);
  }

  lemma {:induction false} DataHolds(log: seq<Result>, agent: string)
    ensures SuccessesOf(log, agent) == if agent in DataOf(log) then DataOf(log)[agent].successes else []
    ensures FailuresOf(log, agent) == if agent in DataOf(log) then DataOf(log)[agent].failures else []
  {
    if log != [] {
      DataHolds(log[..|log| - 1], agent);
    }
  }

  function SuccessGroups(order: seq<string>, data: map<string, AgentData>): seq<Group<Success>>
    requires forall agent :: agent in order ==> agent in data
  {
    if order == [] then []
    else
      var agent := order[|order| - 1];
      SuccessGroups(order[..|order| - 1], data) +
      (if |data[agent].successes| > 0 then [Group(agent, data[agent].successes)] else [])
  }

  function FailureGroups(order: seq<string>, data: map<string, AgentData>): seq<Group<Failure>>
    requires forall agent :: agent in order ==> agent in data
  {
    if order == [] then []
    else
      var agent := order[|order| - 1];
      FailureGroups(order[..|order| - 1], data) +
      (if |data[agent].failures| > 0 then [Group(agent, data[agent].failures)] else [])
  }

  function Events(successes: seq<Group<Success>>, failures: seq<Group<Failure>>): seq<Event> {
    (if |successes| > 0 then [UpdateSuccess(successes)] else []) +
    (if |failures| > 0 then [UpdateFailed(failures)] else [])
  }

  lemma ListedMore<T>(groups: seq<Group<T>>, g: Group<T>, agent: string)
    ensures Listed(groups + [g], agent) == Listed(groups, agent) + (if g.agent == agent then g.containers else [])
  {
    assert (groups + [g])[..|groups|] == groups;
  }

  lemma {:induction false} SuccessGroupsList(order: seq<string>, data: map<string, AgentData>, agent: string)
    requires Distinct(order)
    requires forall a :: a in order ==> a in data
    ensures agent in order ==> Listed(SuccessGroups(order, data), agent) == data[agent].successes
    ensures agent !in order ==> Listed(SuccessGroups(order, data), agent) == []
  {
    if order != [] {
      var n := |order| - 1;
      var front := SuccessGroups(order[..n], data);
      SuccessGroupsList(order[..n], data, agent);
      var last := data[order[n]].successes;
      assert order == order[..n] + [order[n]];
      if |last| > 0 {
        ListedMore(front, Group(order[n], last), agent);
      } else {
        assert SuccessGroups(order, data) == front && last == [];
      }
    }
  }

  lemma {:induction false} FailureGroupsList(order: seq<string>, data: map<string, AgentData>, agent: string)
    requires Distinct(order)
    requires forall a :: a in order ==> a in data
    ensures agent in order ==> Listed(FailureGroups(order, data), agent) == data[agent].failures
    ensures agent !in order ==> Listed(FailureGroups(order, data), agent) == []
  {
    if order != [] {
      var n := |order| - 1;
      var front := FailureGroups(order[..n], data);
      FailureGroupsList(order[..n], data, agent);
      var last := data[order[n]].failures;
      assert order == order[..n] + [order[n]];
      if |last| > 0 {
        ListedMore(front, Group(order[n], last), agent);
      } else {
        assert FailureGroups(order, data) == front && last == [];
      }
    }
  }

  lemma ToldMore(sent: seq<Event>, successes: seq<Group<Success>>, failures: seq<Group<Failure>>, agent: string)
    ensures ToldSuccesses(sent + Events(successes, failures), agent) ==
              ToldSuccesses(sent, agent) + Listed(successes, agent)
    ensures ToldFailures(sent + Events(successes, failures), agent) ==
              ToldFailures(sent, agent) + Listed(failures, agent)
  {
    var first := if |successes| > 0 then [UpdateSuccess(successes)] else [];
    var second := if |failures| > 0 then [UpdateFailed(failures)] else [];
    var middle := sent + first;
    assert |first| > 0 ==> middle[..|sent|] == sent;
    assert |first| == 0 ==> middle == sent;
    assert sent + Events(successes, failures) == middle + second;
    assert |second| > 0 ==> (middle + second)[..|middle|] == middle;
    assert |second| == 0 ==> middle + second == middle;
  }

  lemma {:induction false} SuccessesOfConcat(a: seq<Result>, b: seq<Result>, agent: string)
    ensures SuccessesOf(a + b, agent) == SuccessesOf(a, agent) + SuccessesOf(b, agent)
    decreases |b|
  {
    if b == [] {
      assert a + b == a;
    } else {
      var n := |b| - 1;
      assert (a + b)[..|a + b| - 1] == a + b[..n];
      SuccessesOfConcat(a, b[..n], agent);
    }
  }

  lemma {:induction false} FailuresOfConcat(a: seq<Result>, b: seq<Result>, agent: string)
    ensures FailuresOf(a + b, agent) == FailuresOf(a, agent) + FailuresOf(b, agent)
    decreases |b|
  {
    if b == [] {
      assert a + b == a;
    } else {
      var n := |b| - 1;
      assert (a + b)[..|a + b| - 1] == a + b[..n];
      FailuresOfConcat(a, b[..n], agent);
    }
  }

  // Whole runs

  function BatchEvents(batch: seq<Result>): seq<Event> {
    OrderListsAgents(batch);
    Events(SuccessGroups(OrderOf(batch), DataOf(batch)), FailureGroups(OrderOf(batch), DataOf(batch)))
  }

  function AllEvents(batches: seq<seq<Result>>): seq<Event> {
    if batches == [] then []
    else AllEvents(batches[..|batches| - 1]) + BatchEvents(batches[|batches| - 1])
  }

  function Flatten(batches: seq<seq<Result>>): seq<Result> {
    if batches == [] then [] else Flatten(batches[..|batches| - 1]) + batches[|batches| - 1]
  }

  lemma BatchMore(batches: seq<seq<Result>>, batch: seq<Result>)
    ensures AllEvents(batches + [batch]) == AllEvents(batches) + BatchEvents(batch)
    ensures Flatten(batches + [batch]) == Flatten(batches) + batch
  {
    assert (batches + [batch])[..|batches|] == batches;
  }

  /** For each agent, the events tell every success and every failure added, in order and once. */
  lemma {:induction false} EverythingIsTold(batches: seq<seq<Result>>, agent: string)
    ensures ToldSuccesses(AllEvents(batches), agent) == SuccessesOf(Flatten(batches), agent)
    ensures ToldFailures(AllEvents(batches), agent) == FailuresOf(Flatten(batches), agent)
  {
    if batches != [] {
      var n := |batches| - 1;
      var batch := batches[n];
      EverythingIsTold(batches[..n], agent);
      OrderListsAgents(batch);
      var order, data := OrderOf(batch), DataOf(batch);
      ToldMore(AllEvents(batches[..n]), SuccessGroups(order, data), FailureGroups(order, data), agent);
      SuccessGroupsList(order, data, agent);
      FailureGroupsList(order, data, agent);
      DataHolds(batch, agent);
      SuccessesOfConcat(Flatten(batches[..n]), batch, agent);
      FailuresOfConcat(Flatten(batches[..n]), batch, agent);
    }
  }

  /** Exactly these two timers are armed: one for the last result, one for the first. */
  ghost predicate Fits(timer: TimerId, maxTimer: TimerId, armed: map<TimerId, int>, nextTimer: TimerId,
                       openedAt: int, lastAt: int)
  {
    && timer != maxTimer && timer < nextTimer && maxTimer < nextTimer
    && armed.Keys == {timer, maxTimer}
    && armed[timer] == lastAt + 30_000 && armed[maxTimer] == openedAt + 300_000
  }

  class UpdateBatcher {
    var pending: Option<Batch>
    var armed: map<TimerId, int>    // the timers that have not fired, and when each is due
    var nextTimer: TimerId
    var now: int
    var sent: seq<Event>
    ghost var closed: seq<seq<Result>>  // the results of each batch sent
    ghost var waiting: seq<Result>      // the results of the pending batch
    ghost var openedAt: int
    ghost var lastAt: int

    /** The timers are exactly those of the pending batch, so none can outlive its batch. */
    ghost predicate TimersFit()
      reads this
    {
      match pending
      case None => armed == map[] && waiting == []
      case Some(b) =>
        && Fits(b.timer, b.maxTimer, armed, nextTimer, openedAt, lastAt)
        && openedAt <= lastAt <= now <= lastAt + 30_000 && now <= openedAt + 300_000
        && waiting != []
    }

    ghost predicate Valid()
      reads this
    {
      && TimersFit()
      && sent == AllEvents(closed)
      && (pending.Some? ==> pending.value.order == OrderOf(waiting) && pending.value.data == DataOf(waiting))
    }

    constructor (now: int)
      ensures Valid() && pending == None && closed == [] && this.now == now
    {
      pending, armed, nextTimer, sent, closed, waiting := None, map[], 0, [], [], [];
      this.now, openedAt, lastAt := now, now, now;
    }

    /** All results ever added. */
    ghost function Added(): seq<Result>
      reads this
    {
      Flatten(closed) + waiting
    }

    method SetTimeout(delay: nat) returns (id: TimerId)
      modifies this`armed, this`nextTimer
      ensures id == old(nextTimer) && nextTimer == id + 1
      ensures armed == old(armed)[id := now + delay]
    {
      id := nextTimer;
      armed := armed[id := now + delay];
      nextTimer := nextTimer + 1;
    }

    method ClearTimeout(id: TimerId)
      modifies this`armed
      ensures armed == old(armed) - {id}
    {
      armed := armed - {id};
    }

    /** Sends all that waits, agents in the order they first reported, and leaves no timer behind. */
    method FlushUpdateBatch()
      requires pending.Some?
      requires armed.Keys <= {pending.value.timer, pending.value.maxTimer}
      requires sent == AllEvents(closed)
      requires pending.value.order == OrderOf(waiting) && pending.value.data == DataOf(waiting)
      modifies this`pending, this`armed, this`sent, this`closed, this`waiting
      ensures Valid() && pending == None
      ensures closed == old(closed) + [old(waiting)] && Added() == old(Added())
    {
      var batch := pending.value;
      ClearTimeout(batch.timer);
      ClearTimeout(batch.maxTimer);
      assert armed == map[];
      pending := None;
      OrderListsAgents(waiting);
      var successes, failures := GroupByOutcome(batch.order, batch.data);
      Dispatch(successes, failures);
      BatchMore(closed, waiting);
      closed, waiting := closed + [waiting], [];
    }

    method Dispatch(successes: seq<Group<Success>>, failures: seq<Group<Failure>>)
      modifies this`sent
      ensures sent == old(sent) + Events(successes, failures)
    {
      if |successes| > 0 {
        sent := sent + [UpdateSuccess(successes)];
      }
      if |failures| > 0 {
        sent := sent + [UpdateFailed(failures)];
      }
    }

    /** A result joins the pending batch, or opens one. */
    method AddUpdateResult(r: Result)
      requires Valid()
      modifies this
      ensures Valid() && pending.Some? && now == old(now) && sent == old(sent)
      ensures closed == old(closed) && waiting == old(waiting) + [r]
      ensures lastAt == now && openedAt == if old(pending).None? then now else old(openedAt)
    {
      OpenOrExtend();
      NoteResult(r);
    }

    method NoteResult(r: Result)
      requires pending.Some? && pending.value.order == OrderOf(waiting) && pending.value.data == DataOf(waiting)
      modifies this`pending, this`waiting
      ensures waiting == old(waiting) + [r]
      ensures pending.Some? && pending.value == Batch(OrderOf(waiting), DataOf(waiting),
                                                      old(pending).value.timer, old(pending).value.maxTimer)
    {
      var batch := pending.value;
      var order, data := Record(batch.order, batch.data, r);
      RecordedMore(waiting, r);
      pending := Some(batch.(order := order, data := data));
      waiting := waiting + [r];
    }

    /** Opens a batch with both its timers, or starts the sliding timer of the pending one anew. */
    method OpenOrExtend()
      requires Valid()
      modifies this`pending, this`armed, this`nextTimer, this`openedAt, this`lastAt
      ensures pending.Some? && lastAt == now && openedAt == if old(pending).None? then now else old(openedAt)
      ensures pending.value.order == OrderOf(waiting) && pending.value.data == DataOf(waiting)
      ensures Fits(pending.value.timer, pending.value.maxTimer, armed, nextTimer, openedAt, lastAt)
    {
      if pending.None? {
        var maxTimer := SetTimeout(MAX_WAIT_MS);
        var timer := SetTimeout(WINDOW_MS);
        pending := Some(Batch([], map[], timer, maxTimer));
        openedAt := now;
      } else {
        var batch := pending.value;
        ClearTimeout(batch.timer);
        var timer := SetTimeout(WINDOW_MS);
        pending := Some(batch.(timer := timer));
      }
      lastAt := now;
    }

    /** A due timer fires, whichever it is: all that waits is sent, within five minutes of the first result. */
    method Fire(id: TimerId)
      requires Valid() && id in armed && armed[id] <= now
      modifies this
      ensures Valid() && pending == None && now == old(now)
      ensures closed == old(closed) + [old(waiting)] && Added() == old(Added())
      ensures now <= old(openedAt) + 300_000
    {
      armed := armed - {id};
      FlushUpdateBatch();
    }

    /** Time passes, up to when the next timer is due. */
    method Advance(until: int)
      requires Valid() && now <= until
      requires forall id :: id in armed ==> until <= armed[id]
      modifies this`now
      ensures Valid() && now == until
    {
      now := until;
      if pending.Some? {
        assert pending.value.timer in armed && pending.value.maxTimer in armed;
      }
    }

    /** On shutdown, what waits is sent. */
    method ClearPendingTimers()
      requires Valid()
      modifies this
      ensures Valid() && pending == None && now == old(now)
      ensures closed == (if old(pending).Some? then old(closed) + [old(waiting)] else old(closed))
      ensures Added() == old(Added())
    {
      if pending.Some? {
        var batch := pending.value;
        ClearTimeout(batch.timer);
        ClearTimeout(batch.maxTimer);
        FlushUpdateBatch();
      }
    }
  }

  /** Notes a result under its agent, which is entered first if it is not there. */
  method Record(order: seq<string>, data: map<string, AgentData>, r: Result)
      returns (newOrder: seq<string>, newData: map<string, AgentData>)
    ensures newOrder == if r.agent in data then order else order + [r.agent]
    ensures newData == Updated(data, r)
  {
    newOrder, newData := order, data;
    if r.agent !in data {
      newOrder, newData := order + [r.agent], data[r.agent := AgentData([], [])];
    }
    var agentData := newData[r.agent];
    if r.success {
      agentData := agentData.(successes := agentData.successes + [AsSuccess(r)]);
    } else {
      agentData := agentData.(failures := agentData.failures + [AsFailure(r)]);
    }
    newData := newData[r.agent := agentData];
  }

  /** The loop over a batch: agents with successes on one side, agents with failures on the other. */
  method GroupByOutcome(order: seq<string>, data: map<string, AgentData>)
      returns (successes: seq<Group<Success>>, failures: seq<Group<Failure>>)
    requires forall agent :: agent in order ==> agent in data
    ensures successes == SuccessGroups(order, data) && failures == FailureGroups(order, data)
  {
    successes, failures := [], [];
    for i := 0 to |order|
      invariant successes == SuccessGroups(order[..i], data)
      invariant failures == FailureGroups(order[..i], data)
    {
      assert order[..i + 1][..i] == order[..i];
      var agent := order[i];
      if |data[agent].successes| > 0 {
        successes := successes + [Group(agent, data[agent].successes)];
      }
      if |data[agent].failures| > 0 {
        failures := failures + [Group(agent, data[agent].failures)];
      }
    }
    assert order[..|order|] == order;
  }
}
