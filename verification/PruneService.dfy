/**
 Image pruning by the controller: single prunes and runs over all agents, interleaved wherever the
 code awaits. Each method of the class is what runs between two awaits.
 */
module PruneService {
  import opened Options

  type RequestId = nat

  type RunId = nat

  datatype Agent = Agent(id: string, name: string, online: bool)

  /** What settles a request: the agent's reply, or an error. */
  datatype Answer = Reply(images: int, containers: int, space: int, errors: nat) | Rejected

  datatype Status = Success | Partial | Failed | Skipped

  datatype Outcome = Outcome(agentId: string, agentName: string, status: Status,
                             images: int, containers: int, space: int)

  /** A prune on its way: what it waits for has not come (`answer` is None), or has but was not looked at yet. */
  datatype Exec = Exec(agent: Agent, run: Option<RunId>, answer: Option<Answer>)

  datatype Totals = Totals(agents: int, images: int, containers: int, space: int, failed: int, skipped: int)

  /** Where a run stands: at the agent after its results, awaiting its prune or given its outcome; or complete. */
  datatype Stage = Awaiting(request: RequestId) | Given(outcome: Outcome) | Complete

  datatype Run = Run(agents: seq<Agent>, online: set<string>, results: seq<Outcome>, totals: Totals, stage: Stage)

  datatype StartError = NotFound | NotOnline | AlreadyRunning

  function EmptyOutcome(agent: Agent, status: Status): Outcome {
    Outcome(agent.id, agent.name, status, 0, 0, 0)
  }

  function OutcomeOf(agent: Agent, answer: Answer): Outcome {
    match answer
    case Rejected => EmptyOutcome(agent, Failed)
    case Reply(images, containers, space, errors) =>
      var status := if errors == 0 then Success else if images + containers > 0 then Partial else Failed;
      Outcome(agent.id, agent.name, status, images, containers, space)
  }

  /** An outcome for the agent: a success without errors, a partial one if something was removed all the same. */
  ghost predicate Tells(o: Outcome, agent: Agent, answer: Answer) {
    && o.agentId == agent.id && o.agentName == agent.name
    && match answer
       case Rejected => o.status == Failed && o.images == o.containers == o.space == 0
       case Reply(images, containers, space, errors) =>
         && o.images == images && o.containers == containers && o.space == space
         && (o.status == Success <==> errors == 0)
         && (o.status == Partial <==> errors > 0 && images + containers > 0)
         && (o.status == Failed <==> errors > 0 && images + containers <= 0)
  }

  lemma OutcomeTells(agent: Agent, answer: Answer)
    ensures Tells(OutcomeOf(agent, answer), agent, answer) && OutcomeOf(agent, answer).status != Skipped
  {}

  // Totals

  function Plus(t: Totals, o: Outcome): Totals {
    t.(images := t.images + o.images, containers := t.containers + o.containers, space := t.space + o.space,
       failed := t.failed + (if o.status == Failed then 1 else 0),
       skipped := t.skipped + (if o.status == Skipped then 1 else 0))
  }

  function Sum(f: Outcome -> int, results: seq<Outcome>): int {
    if results == [] then 0 else Sum(f, results[..|results| - 1]) + f(results[|results| - 1])
  }

  function Images(): Outcome -> int { (o: Outcome) => o.images }

  function Containers(): Outcome -> int { (o: Outcome) => o.containers }

  function Space(): Outcome -> int { (o: Outcome) => o.space }

  function CountOf(status: Status): Outcome -> int { (o: Outcome) => if o.status == status then 1 else 0 }

  /** The totals are the sums over the results. */
  ghost predicate TotalsFit(t: Totals, results: seq<Outcome>) {
    && t.images == Sum(Images(), results)
    && t.containers == Sum(Containers(), results)
    && t.space == Sum(Space(), results)
    && t.failed == Sum(CountOf(Failed), results)
    && t.skipped == Sum(CountOf(Skipped), results)
  }

  lemma SumMore(f: Outcome -> int, results: seq<Outcome>, o: Outcome)
    ensures Sum(f, results + [o]) == Sum(f, results) + f(o)
  {
    assert (results + [o])[..|results|] == results;
  }

  lemma TotalsMore(t: Totals, results: seq<Outcome>, o: Outcome)
    requires TotalsFit(t, results)
    ensures TotalsFit(Plus(t, o), results + [o])
  {
    SumMore(Images(), results, o);
    SumMore(Containers(), results, o);
    SumMore(Space(), results, o);
    SumMore(CountOf(Failed), results, o);
    SumMore(CountOf(Skipped), results, o);
  }

  // Runs

  /** One outcome per agent, in order, skipped just when the agent was offline as the run began. */
  ghost predicate ResultsFit(run: Run) {
    && |run.results| <= |run.agents|
    && (forall i :: 0 <= i < |run.results| ==> OutcomeFits(run.results[i], run.agents[i], run.online))
    && TotalsFit(run.totals, run.results) && run.totals.agents == |run.agents|
  }

  ghost predicate OutcomeFits(o: Outcome, agent: Agent, online: set<string>) {
    o.agentId == agent.id && (o.status == Skipped <==> agent.id !in online)
  }

  ghost predicate RunFits(run: Run) {
    && ResultsFit(run)
    && match run.stage
       case Complete => |run.results| == |run.agents|
       case Given(o) => |run.results| < |run.agents| && OutcomeFits(o, run.agents[|run.results|], run.online)
       case Awaiting(_) => |run.results| < |run.agents| && run.agents[|run.results|].id in run.online
  }

  function Record(run: Run, o: Outcome): Run {
    run.(results := run.results + [o], totals := Plus(run.totals, o))
  }

  /** The loop of a run, up to the next agent it can prune or to its end. */
  method PassOver(run: Run, active: set<string>) returns (next: Run)
    requires ResultsFit(run)
    ensures ResultsFit(next) && next.agents == run.agents && next.online == run.online && next.stage == run.stage
    ensures run.results <= next.results
    ensures |next.results| < |next.agents| ==>
              next.agents[|next.results|].id in next.online && next.agents[|next.results|].id !in active
    ensures forall i :: |run.results| <= i < |next.results| ==>
                          next.results[i] ==
                          EmptyOutcome(run.agents[i], if run.agents[i].id in run.online then Failed else Skipped)
                          && (run.agents[i].id in run.online ==> run.agents[i].id in active)
  {
    next := run;
    while |next.results| < |next.agents|
      invariant ResultsFit(next) && next.agents == run.agents && next.online == run.online && next.stage == run.stage
      invariant run.results <= next.results
      invariant forall i :: |run.results| <= i < |next.results| ==>
                              next.results[i] ==
                              EmptyOutcome(run.agents[i], if run.agents[i].id in run.online then Failed else Skipped)
                              && (run.agents[i].id in run.online ==> run.agents[i].id in active)
      decreases |next.agents| - |next.results|
    {
      var agent := next.agents[|next.results|];
      var outcome: Outcome;
      if agent.id !in next.online {
        outcome := EmptyOutcome(agent, Skipped);
      } else if agent.id in active {
        outcome := EmptyOutcome(agent, Failed);
      } else {
        return;
      }
      TotalsMore(next.totals, next.results, outcome);
      next := Record(next, outcome);
    }
  }

  // What holds between any two steps

  /** The marks and legacy ids are exactly those of the prunes on their way. */
  ghost predicate ExecsFit(execs: map<RequestId, Exec>, active: set<string>, legacy: map<string, RequestId>)
  {
    && active == legacy.Keys
    && (forall agent :: agent in legacy ==> legacy[agent] in execs && execs[legacy[agent]].agent.id == agent)
    && (forall id :: id in execs ==> execs[id].agent.id in legacy && legacy[execs[id].agent.id] == id)
  }

  /** Every request made is either pending, with its timer, or was settled once; `settled` counts how often. */
  ghost predicate RequestsFit(pending: set<RequestId>, timers: set<RequestId>, settled: seq<nat>, made: nat) {
    && timers == pending && |settled| == made
    && (forall id :: id in pending ==> id < made)
    && (forall id :: 0 <= id < made ==> settled[id] == if id in pending then 0 else 1)
  }

  /** A prune waits for its answer just as long as its request is pending. */
  ghost predicate AnswersFit(execs: map<RequestId, Exec>, pending: set<RequestId>, made: nat) {
    forall id :: id in execs ==> id < made && (execs[id].answer.None? <==> id in pending)
  }

  ghost predicate RunsFit(runs: map<RunId, Run>, execs: map<RequestId, Exec>) {
    && (forall r :: r in runs ==> RunFits(runs[r]))
    && (forall r :: r in runs && runs[r].stage.Awaiting? ==> AwaitsOwn(r, runs[r], execs))
    && (forall id :: id in execs && execs[id].run.Some? ==>
                       execs[id].run.value in runs && runs[execs[id].run.value].stage == Awaiting(id))
  }

  ghost predicate AwaitsOwn(r: RunId, run: Run, execs: map<RequestId, Exec>)
    requires run.stage.Awaiting?
  {
    && run.stage.request in execs && execs[run.stage.request].run == Some(r)
    && |run.results| < |run.agents| && execs[run.stage.request].agent == run.agents[|run.results|]
  }

  /** No agent has two prunes on their way, and its legacy id names the one it has. */
  lemma OnePrunePerAgent(execs: map<RequestId, Exec>, active: set<string>, legacy: map<string, RequestId>,
                         a: RequestId, b: RequestId)
    requires ExecsFit(execs, active, legacy) && a in execs && b in execs && execs[a].agent.id == execs[b].agent.id
    ensures a == b && execs[a].agent.id in active && legacy[execs[a].agent.id] == a
  {
    assert legacy[execs[a].agent.id] == a;
    assert legacy[execs[b].agent.id] == b;
  }

  lemma SettleOne(pending: set<RequestId>, timers: set<RequestId>, settled: seq<nat>, made: nat, id: RequestId)
    requires RequestsFit(pending, timers, settled, made) && id in pending
    ensures RequestsFit(pending - {id}, timers - {id}, settled[id := settled[id] + 1], made)
  {}

  function Answered(execs: map<RequestId, Exec>, id: RequestId, answer: Answer): map<RequestId, Exec> {
    if id in execs then execs[id := execs[id].(answer := Some(answer))] else execs
  }

  function AllRejected(execs: map<RequestId, Exec>, ids: set<RequestId>): map<RequestId, Exec> {
    map id | id in execs :: if id in ids then execs[id].(answer := Some(Rejected)) else execs[id]
  }

  lemma OneMoreRejected(execs: map<RequestId, Exec>, ids: set<RequestId>, id: RequestId)
    ensures AllRejected(execs, ids + {id}) == Answered(AllRejected(execs, ids), id, Rejected)
  {}

  lemma AnswerKeepsExecs(execs: map<RequestId, Exec>, active: set<string>, legacy: map<string, RequestId>,
                         id: RequestId, answer: Answer)
    requires ExecsFit(execs, active, legacy)
    ensures ExecsFit(Answered(execs, id, answer), active, legacy)
  {}

  lemma AnswerKeepsRuns(runs: map<RunId, Run>, execs: map<RequestId, Exec>, id: RequestId, answer: Answer)
    requires RunsFit(runs, execs)
    ensures RunsFit(runs, Answered(execs, id, answer))
  {
    var after := Answered(execs, id, answer);
    forall r | r in runs && runs[r].stage.Awaiting? ensures AwaitsOwn(r, runs[r], after) {
      assert AwaitsOwn(r, runs[r], execs);
    }
  }

  lemma AnswerKeepsAnswers(execs: map<RequestId, Exec>, pending: set<RequestId>, made: nat, id: RequestId,
      answer: Answer)
    requires AnswersFit(execs, pending, made)
    ensures AnswersFit(Answered(execs, id, answer), pending - {id}, made)
  {}

  lemma AddedExecFits(execs: map<RequestId, Exec>, active: set<string>, legacy: map<string, RequestId>,
                      id: RequestId, exec: Exec)
    requires ExecsFit(execs, active, legacy) && exec.agent.id !in active && id !in execs
    ensures ExecsFit(execs[id := exec], active + {exec.agent.id}, legacy[exec.agent.id := id])
  {}

  lemma RemovedExecFits(execs: map<RequestId, Exec>, active: set<string>, legacy: map<string, RequestId>, id: RequestId)
    requires ExecsFit(execs, active, legacy) && id in execs
    ensures ExecsFit(execs - {id}, active - {execs[id].agent.id}, legacy - {execs[id].agent.id})
  {}

  /** A run may move on when it awaits nothing, or nothing but what is given up with it. */
  lemma RunMovesOn(runs: map<RunId, Run>, execs: map<RequestId, Exec>, r: RunId, next: Run)
    requires RunsFit(runs, execs) && RunFits(next) && !next.stage.Awaiting?
    requires r in runs ==> !runs[r].stage.Awaiting?
    ensures RunsFit(runs[r := next], execs)
  {}

  lemma RunAwaits(runs: map<RunId, Run>, execs: map<RequestId, Exec>, r: RunId, next: Run, id: RequestId, exec: Exec)
    requires RunsFit(runs, execs) && RunFits(next) && next.stage == Awaiting(id) && id !in execs
    requires r in runs ==> !runs[r].stage.Awaiting?
    requires exec.run == Some(r) && exec.agent == next.agents[|next.results|]
    ensures RunsFit(runs[r := next], execs[id := exec])
  {}

  lemma SinglePruneAdds(runs: map<RunId, Run>, execs: map<RequestId, Exec>, id: RequestId, exec: Exec)
    requires RunsFit(runs, execs) && id !in execs && exec.run == None
    ensures RunsFit(runs, execs[id := exec])
  {}

  lemma RunIsGiven(runs: map<RunId, Run>, execs: map<RequestId, Exec>, id: RequestId, outcome: Outcome)
    requires RunsFit(runs, execs) && id in execs
    requires outcome.agentId == execs[id].agent.id && outcome.status != Skipped
    ensures execs[id].run.None? ==> RunsFit(runs, execs - {id})
    ensures execs[id].run.Some? ==>
              var r := execs[id].run.value;
              r in runs && runs[r].stage == Awaiting(id)
                  && RunsFit(runs[r := runs[r].(stage := Given(outcome))], execs - {id})
  {}

  // At most one run under way

  /** No run but the one started last is under way. */
  ghost predicate Single(runs: map<RunId, Run>, run: Option<RunId>) {
    forall q :: q in runs && !runs[q].stage.Complete? ==> run == Some(q)
  }

  predicate Idle(runs: map<RunId, Run>, run: Option<RunId>)
    requires run.Some? ==> run.value in runs
  {
    run.Some? ==> runs[run.value].stage.Complete?
  }

  ghost predicate AllComplete(runs: map<RunId, Run>) {
    forall q :: q in runs ==> runs[q].stage.Complete?
  }

  /** With at most one run under way, looking at the last one is looking at all. */
  lemma IdleIffAllComplete(runs: map<RunId, Run>, run: Option<RunId>)
    requires (run.Some? ==> run.value in runs) && Single(runs, run)
    ensures Idle(runs, run) <==> AllComplete(runs)
  {}

  /** A new run is the only one under way if and only if all others were complete. */
  lemma NewRunIsSingle(runs: map<RunId, Run>, run: Option<RunId>, r: RunId, started: Run)
    requires r !in runs && (run.Some? ==> run.value in runs)
    ensures Single(runs[r := started], Some(r)) <==> AllComplete(runs)
    ensures Single(runs, run) ==> (Single(runs[r := started], Some(r)) <==> Idle(runs, run))
  {
    var after := runs[r := started];
    forall q | q in runs ensures q in after && after[q] == runs[q] && q != r {}
    if Single(runs, run) {
      IdleIffAllComplete(runs, run);
    }
  }

  /** A run that goes on takes nothing from that, as a complete run never starts again. */
  lemma GoingOnKeepsSingle(runs: map<RunId, Run>, run: Option<RunId>, r: RunId, next: Run)
    requires r in runs && !runs[r].stage.Complete?
    ensures Single(runs, run) ==> Single(runs[r := next], run)
  {}

  class PruneService {
    var connected: set<string>
    var active: set<string>
    var legacy: map<string, RequestId>
    var pending: set<RequestId>
    var timers: set<RequestId>
    var nextRequest: RequestId
    var execs: map<RequestId, Exec>
    var runs: map<RunId, Run>
    var nextRun: RunId
    var run: Option<RunId>           // the run started last
    ghost var settled: seq<nat>      // how often each request was settled

    ghost predicate Valid()
      reads this
    {
      && ExecsFit(execs, active, legacy)
      && RequestsFit(pending, timers, settled, nextRequest)
      && AnswersFit(execs, pending, nextRequest)
      && RunsFit(runs, execs)
      && (forall r :: r in runs ==> r < nextRun)
      && (run.Some? ==> run.value in runs)
    }

    constructor ()
      ensures Single(runs, run)
      ensures Valid() && execs == map[] && runs == map[] && run == None && pending == {} && connected == {}
              && active == {}
    {
      connected, active, legacy, pending, timers, nextRequest := {}, {}, map[], {}, {}, 0;
      execs, runs, nextRun, run, settled := map[], map[], 0, None, [];
    }

    /** Sends a request; if the agent is not there, or its connection not open, it is rejected at once. */
    method SendAndWait(agentId: string, open: bool) returns (id: RequestId, answer: Option<Answer>)
      requires RequestsFit(pending, timers, settled, nextRequest)
      modifies this`pending, this`timers, this`nextRequest, this`settled
      ensures RequestsFit(pending, timers, settled, nextRequest)
      ensures id == old(nextRequest) && nextRequest == id + 1
      ensures if agentId in connected && open then answer == None && pending == old(pending) + {id}
              else answer == Some(Rejected) && pending == old(pending)
    {
      id := nextRequest;
      nextRequest := nextRequest + 1;
      timers := timers + {id};
      pending := pending + {id};
      settled := settled + [0];
      answer := None;
      if agentId !in connected || !open {
        timers := timers - {id};
        pending := pending - {id};
        answer := Some(Rejected);
        settled := settled[id := settled[id] + 1];
      }
    }

    /** A pending request gets its answer; nothing else does. */
    method Settle(id: RequestId, answer: Answer)
      requires Valid() && id in pending
      modifies this`pending, this`timers, this`execs, this`settled
      ensures Valid() && pending == old(pending) - {id} && settled == old(settled)[id := 1]
      ensures execs == Answered(old(execs), id, answer)
    {
      SettleOne(pending, timers, settled, nextRequest, id);
      timers := timers - {id};
      pending := pending - {id};
      settled := settled[id := settled[id] + 1];
      AnswerKeepsExecs(execs, active, legacy, id, answer);
      AnswerKeepsRuns(runs, execs, id, answer);
      AnswerKeepsAnswers(execs, old(pending), nextRequest, id, answer);
      execs := Answered(execs, id, answer);
    }

    method ResolvePendingRequest(id: RequestId, answer: Answer)
      requires Valid()
      modifies this`pending, this`timers, this`execs, this`settled
      ensures Valid()
      ensures settled == if id in old(pending) then old(settled)[id := 1] else old(settled)
      ensures execs == if id in old(pending) then Answered(old(execs), id, answer) else old(execs)
    {
      if id in pending {
        Settle(id, answer);
      }
    }

    /** PRUNE_RESULT: an agent that gives no request id answers the prune it is at. */
    method PruneResult(agentId: string, requestId: Option<RequestId>, answer: Answer)
      requires Valid()
      modifies this`pending, this`timers, this`execs, this`settled
      ensures Valid()
      ensures requestId.None? && agentId in legacy && legacy[agentId] in old(pending) ==>
                legacy[agentId] in old(execs) && execs == Answered(old(execs), legacy[agentId], answer)
      ensures requestId.None? && agentId !in legacy ==> execs == old(execs) && settled == old(settled)
      ensures requestId.Some? && requestId.value in old(pending) ==>
                execs == Answered(old(execs), requestId.value, answer) && settled == old(settled)[requestId.value := 1]
      ensures requestId.Some? && requestId.value !in old(pending) ==> execs == old(execs) && settled == old(settled)
    {
      if requestId.Some? {
        ResolvePendingRequest(requestId.value, answer);
      } else if agentId in legacy {
        ResolvePendingRequest(legacy[agentId], answer);
      }
    }

    method TimeoutFires(id: RequestId)
      requires Valid() && id in timers
      modifies this`pending, this`timers, this`execs, this`settled
      ensures Valid() && id !in pending && settled == old(settled)[id := 1]
      ensures id in execs ==> execs[id].answer == Some(Rejected)
    {
      Settle(id, Rejected);
    }

    method Connect(agentId: string)
      requires Valid()
      modifies this`connected
      ensures Valid() && connected == old(connected) + {agentId}
    {
      connected := connected + {agentId};
    }

    /** When any agent disconnects, every pending request of every agent is rejected. */
    method Disconnect(agentId: string)
      requires Valid()
      modifies this`connected, this`pending, this`timers, this`execs, this`settled
      ensures Valid() && connected == old(connected) - {agentId} && pending == {}
      ensures execs == AllRejected(old(execs), old(pending))
    {
      connected := connected - {agentId};
      assert execs == AllRejected(execs, {});
      assert pending - pending == {};
      while pending != {}
        invariant Valid() && connected == old(connected) - {agentId} && pending <= old(pending)
        invariant execs == AllRejected(old(execs), old(pending) - pending)
        decreases pending
      {
        var id :| id in pending;
        OneMoreRejected(old(execs), old(pending) - pending, id);
        assert old(pending) - pending + {id} == old(pending) - (pending - {id});
        Settle(id, Rejected);
      }
      assert old(pending) - {} == old(pending);
    }

    /** Marks the agent busy and sends it the prune: from `active.add` to the await. */
    method Execute(agent: Agent, run: Option<RunId>, open: bool) returns (id: RequestId)
      requires ExecsFit(execs, active, legacy) && agent.id !in active
      requires RequestsFit(pending, timers, settled, nextRequest) && AnswersFit(execs, pending, nextRequest)
      modifies this`active, this`legacy, this`execs, this`pending, this`timers, this`nextRequest, this`settled
      ensures ExecsFit(execs, active, legacy)
      ensures RequestsFit(pending, timers, settled, nextRequest) && AnswersFit(execs, pending, nextRequest)
      ensures id == old(nextRequest) && id !in old(execs)
      ensures execs ==
              old(execs)[id := Exec(agent, run, if agent.id in connected && open then None else Some(Rejected))]
      ensures active == old(active) + {agent.id} && legacy == old(legacy)[agent.id := id]
    {
      var answer;
      id, answer := SendAndWait(agent.id, open);
      AddedExecFits(execs, active, legacy, id, Exec(agent, run, answer));
      active := active + {agent.id};
      legacy := legacy[agent.id := id];
      execs := execs[id := Exec(agent, run, answer)];
    }

    /** `startPrune`, once the agent was looked up. */
    method StartPrune(found: Option<Agent>, open: bool) returns (error: Option<StartError>)
      requires Valid()
      modifies this`active, this`legacy, this`execs, this`pending, this`timers, this`nextRequest, this`settled
      ensures Valid()
      ensures error.Some? ==> execs == old(execs) && active == old(active)
      ensures error == if found.None? then Some(NotFound)
                       else if !found.value.online || found.value.id !in connected then Some(NotOnline)
                       else if found.value.id in old(active) then Some(AlreadyRunning) else None
      ensures error.None? ==> active == old(active) + {found.value.id} && |execs| == |old(execs)| + 1
    {
      if found.None? {
        return Some(NotFound);
      }
      var agent := found.value;
      if !agent.online || agent.id !in connected {
        return Some(NotOnline);
      }
      if agent.id in active {
        return Some(AlreadyRunning);
      }
      error := None;
      var id := Execute(agent, None, open);
      SinglePruneAdds(runs, old(execs), id, execs[id]);
    }

    /** The first part of `startRun`: only here is a run under way looked for. */
    method MayStartRun() returns (error: Option<StartError>)
      requires Valid()
      ensures error == if Idle(runs, run) then None else Some(AlreadyRunning)
    {
      error := if run.Some? && !runs[run.value].stage.Complete? then Some(AlreadyRunning) else None;
    }

    /** The second part of `startRun`, after the agents were listed: starts a run, whatever happened meanwhile. */
    method StartRun(agents: seq<Agent>, open: bool) returns (r: RunId)
      requires Valid()
      modifies this
      ensures Valid() && connected == old(connected)
      ensures run == Some(r) && r == old(nextRun) && r !in old(runs)
      ensures r in runs && runs == old(runs)[r := runs[r]]
      ensures runs[r].agents == agents && runs[r].online == connected
      ensures forall i :: 0 <= i < |runs[r].results| && agents[i].id in connected ==> agents[i].id in old(active)
      ensures |runs[r].results| < |agents| ==>
                runs[r].stage.Awaiting? && active == old(active) + {agents[|runs[r].results|].id}
      ensures Single(runs, run) <==> AllComplete(old(runs))
      ensures old(Single(runs, run)) ==> (Single(runs, run) <==> old(Idle(runs, run)))
    {
      r := BeginRun(agents, open);
      NewRunIsSingle(old(runs), old(run), r, runs[r]);
    }

    method BeginRun(agents: seq<Agent>, open: bool) returns (r: RunId)
      requires Valid()
      modifies this
      ensures Valid() && connected == old(connected)
      ensures run == Some(r) && r == old(nextRun) && r !in old(runs)
      ensures r in runs && runs == old(runs)[r := runs[r]]
      ensures runs[r].agents == agents && runs[r].online == connected
      ensures forall i :: 0 <= i < |runs[r].results| && agents[i].id in connected ==> agents[i].id in old(active)
      ensures |runs[r].results| < |agents| ==>
                runs[r].stage.Awaiting? && active == old(active) + {agents[|runs[r].results|].id}
    {
      r := nextRun;
      nextRun := nextRun + 1;
      var summary := Run(agents, connected, [], Totals(|agents|, 0, 0, 0, 0, 0), Complete);
      run := Some(r);
      Proceed(r, summary, open);
    }

    /** A run goes on to its next prune, or completes. */
    method Proceed(r: RunId, summary: Run, open: bool)
      requires ExecsFit(execs, active, legacy) && RunsFit(runs, execs)
      requires RequestsFit(pending, timers, settled, nextRequest) && AnswersFit(execs, pending, nextRequest)
      requires ResultsFit(summary) && (r in runs ==> !runs[r].stage.Awaiting?)
      modifies this`active, this`legacy, this`execs, this`pending, this`timers, this`nextRequest, this`settled,
               this`runs
      ensures ExecsFit(execs, active, legacy) && RunsFit(runs, execs)
      ensures RequestsFit(pending, timers, settled, nextRequest) && AnswersFit(execs, pending, nextRequest)
      ensures r in runs && runs == old(runs)[r := runs[r]]
      ensures runs[r].agents == summary.agents && runs[r].online == summary.online && summary.results <= runs[r].results
      ensures forall i :: |summary.results| <= i < |runs[r].results| && summary.agents[i].id in summary.online ==>
                            summary.agents[i].id in old(active)
      ensures if |runs[r].results| < |summary.agents| then
                var agent := summary.agents[|runs[r].results|];
                runs[r].stage.Awaiting? && agent.id !in old(active) && active == old(active) + {agent.id}
              else runs[r].stage == Complete && active == old(active)
    {
      var next := PassOver(summary, active);
      if |next.results| < |next.agents| {
        var agent := next.agents[|next.results|];
        var id := Execute(agent, Some(r), open);
        RunAwaits(runs, old(execs), r, next.(stage := Awaiting(id)), id, execs[id]);
        runs := runs[r := next.(stage := Awaiting(id))];
      } else {
        RunMovesOn(runs, execs, r, next.(stage := Complete));
        runs := runs[r := next.(stage := Complete)];
      }
    }

    /** The rest of `execute`, once its request was settled: the marks are cleared and the outcome handed on. */
    method FinishExec(id: RequestId) returns (outcome: Outcome)
      requires Valid() && id in execs && execs[id].answer.Some?
      modifies this`active, this`legacy, this`execs, this`runs
      ensures Valid()
      ensures Tells(outcome, old(execs)[id].agent, old(execs)[id].answer.value)
      ensures execs == old(execs) - {id}
      ensures active == old(active) - {outcome.agentId} && legacy == old(legacy) - {outcome.agentId}
      ensures runs == match old(execs)[id].run
                      case None => old(runs)
                      case Some(r) => old(runs)[r := old(runs)[r].(stage := Given(outcome))]
      ensures old(Single(runs, run)) ==> Single(runs, run)
    {
      var exec := execs[id];
      outcome := OutcomeOf(exec.agent, exec.answer.value);
      OutcomeTells(exec.agent, exec.answer.value);
      RemovedExecFits(execs, active, legacy, id);
      RunIsGiven(runs, execs, id, outcome);
      legacy := legacy - {exec.agent.id};
      active := active - {exec.agent.id};
      execs := execs - {id};
      if exec.run.Some? {
        var r := exec.run.value;
        GoingOnKeepsSingle(runs, run, r, runs[r].(stage := Given(outcome)));
        runs := runs[r := runs[r].(stage := Given(outcome))];
      }
    }

    /** The run takes the outcome it was given, and goes on. */
    method ContinueRun(r: RunId, open: bool)
      requires Valid() && r in runs && runs[r].stage.Given?
      modifies this
      ensures Valid() && run == old(run)
      ensures r in runs && runs == old(runs)[r := runs[r]] && runs[r].agents == old(runs)[r].agents
      ensures old(runs)[r].results + [old(runs)[r].stage.outcome] <= runs[r].results
      ensures old(Single(runs, run)) ==> Single(runs, run)
    {
      var outcome := runs[r].stage.outcome;
      TotalsMore(runs[r].totals, runs[r].results, outcome);
      Proceed(r, Record(runs[r], outcome), open);
      GoingOnKeepsSingle(old(runs), run, r, runs[r]);
    }
  }

  /** Two calls of `startRun` that both look for a run before either starts one: both get theirs, at once. */
  method TwoRunsAtOnce(a: Agent, b: Agent) returns (service: PruneService, first: RunId, second: RunId)
    requires a.id != b.id
    ensures fresh(service) && first != second && first in service.runs && second in service.runs
    ensures service.runs[first].stage.Awaiting? && service.runs[second].stage.Awaiting?
  {
    service := new PruneService();
    service.Connect(a.id);
    service.Connect(b.id);
    var firstError := service.MayStartRun();
    var secondError := service.MayStartRun();
    assert firstError == None && secondError == None;
    first := service.StartRun([a], true);
    assert [a][0].id in service.connected;
    assert service.runs[first].stage.Awaiting? && service.active == {a.id};
    second := service.StartRun([b], true);
    assert [b][0].id in service.connected;
  }
}
