/**
 Updates found by checks, gathered from several agents and sent as one notification: when all
 expected agents have answered, or when a timer fires.
 */
module CheckBatcher {
  import opened Options
  import opened Dedup

  const WINDOW_MS := 90000
  const MAX_WAIT_MS := 30000

  datatype Container = Container(name: string, image: string)

  datatype Report = Report(agentName: string, containers: seq<Container>)

  type TimerId = nat

  datatype Batch = Batch(agents: seq<Report>, received: set<string>, expected: nat, timer: TimerId)

  /** What became of a batch that held something. */
  datatype Closed = Sent(agents: seq<Report>) | Discarded(agents: seq<Report>)

  function KeyOf(id: string, c: Container): string {
    id + ":" + c.name
  }

  function KeysOf(id: string, containers: seq<Container>): (keys: seq<string>)
    ensures |keys| == |containers|
    ensures forall i :: 0 <= i < |keys| ==> keys[i] == KeyOf(id, containers[i]) == id + ":" + containers[i].name
  {
    seq(|containers|, i requires 0 <= i < |containers| => KeyOf(id, containers[i]))
  }

  function Selected(containers: seq<Container>, admits: seq<bool>): seq<Container>
    requires |containers| == |admits|
  {
    if containers == [] then []
    else
      var n := |containers| - 1;
      Selected(containers[..n], admits[..n]) + (if admits[n] then [containers[n]] else [])
  }

  function NonEmpty(reports: seq<Report>): seq<Report> {
    if reports == [] then []
    else
      var n := |reports| - 1;
      NonEmpty(reports[..n]) + (if |reports[n].containers| > 0 then [reports[n]] else [])
  }

  ghost predicate AllFull(reports: seq<Report>) {
    forall i :: 0 <= i < |reports| ==> |reports[i].containers| > 0
  }

  lemma {:induction false} FullStays(reports: seq<Report>)
    requires AllFull(reports)
    ensures NonEmpty(reports) == reports
  {
    if reports != [] {
      var n := |reports| - 1;
      assert AllFull(reports[..n]);
      FullStays(reports[..n]);
      assert reports[..n] + [reports[n]] == reports;
    }
  }

  // Whole runs

  function ReportsOf(closed: seq<Closed>): seq<Report> {
    if closed == [] then [] else ReportsOf(closed[..|closed| - 1]) + closed[|closed| - 1].agents
  }

  function SentOf(closed: seq<Closed>): seq<seq<Report>> {
    if closed == [] then []
    else
      var c := closed[|closed| - 1];
      SentOf(closed[..|closed| - 1]) + (if c.Sent? then [c.agents] else [])
  }

  lemma ClosedMore(closed: seq<Closed>, c: Closed)
    ensures ReportsOf(closed + [c]) == ReportsOf(closed) + c.agents
    ensures SentOf(closed + [c]) == SentOf(closed) + (if c.Sent? then [c.agents] else [])
  {
    assert (closed + [c])[..|closed|] == closed;
  }

  /** The dedup keys of the containers in these reports, given each reporting agent's id. */
  function Labels(ids: seq<string>, reports: seq<Report>): seq<string>
    requires |ids| == |reports|
  {
    if reports == [] then []
    else
      var n := |reports| - 1;
      Labels(ids[..n], reports[..n]) + KeysOf(ids[n], reports[n].containers)
  }

  /** The names let through are those gathered, in order. */
  ghost predicate NotedAreGathered(history: seq<Call>, ids: seq<string>, reports: seq<Report>)
    requires |ids| == |reports|
  {
    KeyList(AdmittedBy(history)) == Labels(ids, reports)
  }

  lemma LabelsMore(ids: seq<string>, reports: seq<Report>, id: string, r: Report)
    requires |ids| == |reports|
    ensures Labels(ids + [id], reports + [r]) == Labels(ids, reports) + KeysOf(id, r.containers)
  {
    assert (ids + [id])[..|ids|] == ids && (reports + [r])[..|reports|] == reports;
  }

  lemma LabelsJoined(ids: seq<string>, reports: seq<Report>, id: string, agentName: string, found: seq<Container>)
    requires |ids| == |reports|
    ensures found == [] ==> reports + [] == reports && Labels(ids, reports) == Labels(ids, reports) + KeysOf(id, found)
    ensures found != [] ==>
              Labels(ids + [id], reports + [Report(agentName, found)]) == Labels(ids, reports) + KeysOf(id, found)
  {
    if found != [] {
      LabelsMore(ids, reports, id, Report(agentName, found));
    } else {
      assert KeysOf(id, found) == [];
    }
  }

  function KeyList(entries: seq<Entry>): seq<string> {
    if entries == [] then [] else KeyList(entries[..|entries| - 1]) + [entries[|entries| - 1].key]
  }

  lemma {:induction false} KeyListConcat(a: seq<Entry>, b: seq<Entry>)
    ensures KeyList(a + b) == KeyList(a) + KeyList(b)
    decreases |b|
  {
    if b == [] {
      assert a + b == a;
    } else {
      assert (a + b)[..|a + b| - 1] == a + b[..|b| - 1];
      KeyListConcat(a, b[..|b| - 1]);
    }
  }

  lemma KeysOfMore(id: string, containers: seq<Container>, c: Container)
    ensures KeysOf(id, containers + [c]) == KeysOf(id, containers) + [KeyOf(id, c)]
  {}

  /** The keys noted are those of the containers let through. */
  lemma {:induction false} NotedAreSelected(entries: seq<Entry>, id: string, containers: seq<Container>,
                                            admits: seq<bool>, now: int)
    requires |admits| == |containers|
    requires forall i :: 0 <= i < |admits| ==> admits[i] == IsNew(entries, KeysOf(id, containers), i)
    ensures KeyList(Additions(entries, KeysOf(id, containers), now)) == KeysOf(id, Selected(containers, admits))
  {
    if containers != [] {
      var n := |containers| - 1;
      var keys := KeysOf(id, containers);
      PrefixIsNew(entries, id, containers, n);
      NotedAreSelected(entries, id, containers[..n], admits[..n], now);
      KeysAfterNote(entries, keys[..n], now);
      assert admits[n] == IsNew(entries, keys, n);
      var before := Additions(entries, keys[..n], now);
      KeyListConcat(before, [Entry(keys[n], now)]);
      KeysOfMore(id, Selected(containers[..n], admits[..n]), containers[n]);
    }
  }

  lemma AfterPrune(history: seq<Call>, now: int)
    ensures MapAfter(history + [Prune(now)]) == Pruned(MapAfter(history), now)
    ensures AdmittedBy(history + [Prune(now)]) == AdmittedBy(history)
  {
    assert (history + [Prune(now)])[..|history|] == history;
  }

  lemma AfterNote(history: seq<Call>, keys: seq<string>, now: int)
    ensures AdmittedBy(history + [Note(keys, now)]) == AdmittedBy(history) + Additions(MapAfter(history), keys, now)
  {
    assert (history + [Note(keys, now)])[..|history|] == history;
  }

  lemma TimedMore(history: seq<Call>, call: Call)
    requires Timed(history, call.now)
    ensures Timed(history + [call], call.now)
  {
    assert (history + [call])[..|history|] == history;
  }

  /** Batches may have been sent in between, but none was dropped. */
  ghost predicate NoneDropped(before: seq<Closed>, after: seq<Closed>) {
    after == before || (|after| == |before| + 1 && after[..|before|] == before && after[|before|].Sent?)
  }

  /** A batch that nobody announced holds this report. */
  ghost predicate Awaits(pending: Option<Batch>, found: seq<Container>, agentName: string) {
    && pending.Some? && pending.value.expected == 0
    && pending.value.agents == AsReport(agentName, found)
  }

  /** The batch takes in what an agent reports and that it answered, and is sent as soon as enough have answered. */
  ghost predicate Taken(before: Batch, added: seq<Report>, agentId: Option<string>, after: Option<Batch>,
                        closed: seq<Closed>, closedThen: seq<Closed>)
  {
    var agents := before.agents + added;
    var received := before.received + match agentId { case None => {} case Some(id) => if id == "" then {} else {id} };
    if 0 < before.expected <= |received| then
      after == None && closedThen == closed + (if agents == [] then [] else [Sent(agents)])
    else
      && closedThen == closed
      && after.Some? && after.value == Batch(agents, received, before.expected, after.value.timer)
  }

  function BatchOrNew(pending: Option<Batch>): Batch {
    if pending.Some? then pending.value else Batch([], {}, 0, 0)
  }

  function Joined(b: Batch, added: seq<Report>, timer: TimerId): Batch {
    b.(agents := b.agents + added, timer := timer)
  }

  /** As the batch that is pending, or else a new one, takes the report in; an empty report opens none. */
  ghost predicate TakenByAny(before: Option<Batch>, empty: bool, added: seq<Report>, agentId: Option<string>,
                             after: Option<Batch>, closed: seq<Closed>, closedThen: seq<Closed>)
  {
    if before.None? && empty then after == None && closedThen == closed
    else
      Taken(BatchOrNew(before), added, agentId, after, closed, closedThen)
  }

  lemma TakenAfterJoining(b: Batch, added: seq<Report>, agentId: Option<string>, joined: Batch,
                          after: Option<Batch>, closed: seq<Closed>, closedThen: seq<Closed>)
    requires joined == Joined(b, added, joined.timer)
    requires Taken(joined, [], agentId, after, closed, closedThen)
    ensures Taken(b, added, agentId, after, closed, closedThen)
  {
    assert joined.agents + [] == joined.agents;
  }

  /** Nothing changes when no id is given, since the batch was not complete. */
  lemma NoAnswer(b: Batch, agentId: Option<string>, closed: seq<Closed>)
    requires agentId.None? || agentId.value == []
    requires b.expected > 0 ==> |b.received| < b.expected
    ensures Taken(b, [], agentId, Some(b), closed, closed)
  {
    assert b.agents + [] == b.agents;
    assert b.received + {} == b.received;
  }

  /** Nothing is dropped, and a batch that nobody announced waits on. */
  lemma TakenKeepsAll(before: Option<Batch>, added: seq<Report>, agentId: Option<string>,
                      after: Option<Batch>, closed: seq<Closed>, closedThen: seq<Closed>)
    requires TakenByAny(before, false, added, agentId, after, closed, closedThen)
    ensures NoneDropped(closed, closedThen)
    ensures before.None? ==>
              closedThen == closed && after.Some? && after.value.expected == 0 && after.value.agents == added
  {}

  function AsReport(agentName: string, found: seq<Container>): seq<Report> {
    if found == [] then [] else [Report(agentName, found)]
  }

  /** What was pending, if it held anything, is closed unsent. */
  function ClosedByExpecting(pending: Option<Batch>, closed: seq<Closed>): seq<Closed> {
    if pending.Some? && pending.value.agents != [] then closed + [Discarded(pending.value.agents)] else closed
  }

  lemma NothingMore(reports: seq<Report>, agents: seq<Report>)
    requires agents == []
    ensures reports + agents == reports
  {}


  class CheckBatcher {
    var pending: Option<Batch>
    var armed: map<TimerId, int>
    var nextTimer: TimerId
    var now: int
    var sent: seq<seq<Report>>
    const notified: NotifiedUpdates
    ghost var closed: seq<Closed>
    ghost var ids: seq<string>      // for each report ever gathered, under which id it was deduplicated
    ghost var openedAt: int
    ghost var lastAt: int           // when the batch was opened or last joined

    ghost predicate TimersFit()
      reads this
    {
      match pending
      case None => armed == map[]
      case Some(b) =>
        && armed.Keys == {b.timer} && b.timer < nextTimer
        && openedAt <= lastAt <= now <= armed[b.timer]
        && (b.expected > 0 ==> |b.received| < b.expected && armed[b.timer] == openedAt + 30_000)
        && armed[b.timer] <= lastAt + 90_000
        && AllFull(b.agents)
    }

    /** All reports gathered so far: of closed batches, then of the pending one. */
    ghost function Gathered(): seq<Report>
      reads this
    {
      ReportsOf(closed) + (if pending.Some? then pending.value.agents else [])
    }

    ghost predicate HistoryFits()
      reads this, notified
    {
      notified.Valid() && Timed(notified.history, now)
    }

    ghost predicate Valid()
      reads this, notified
    {
      && TimersFit() && HistoryFits()
      && sent == SentOf(closed)
      && |ids| == |Gathered()|
      && NotedAreGathered(notified.history, ids, Gathered())
    }

    constructor (now: int)
      ensures Valid() && fresh(notified) && notified.entries == [] && pending == None && closed == []
              && notified.history == [] && this.now == now
    {
      pending, armed, nextTimer, sent, closed, ids := None, map[], 0, [], [], [];
      this.now, openedAt, lastAt := now, now, now;
      notified := new NotifiedUpdates();
    }

    method SetTimeout(delay: nat) returns (id: TimerId)
      modifies this`armed, this`nextTimer
      ensures id == old(nextTimer) && nextTimer == id + 1
      ensures armed == old(armed)[id := now + delay]
    {
      id := nextTimer;
      armed := armed[id := now + delay];
      nextTimer := nextTimer + 1;
    }

    method ClearTimeout(id: TimerId)
      modifies this`armed
      ensures armed == old(armed) - {id}
    {
      armed := armed - {id};
    }

    /** Sends what the batch holds, if anything; its timer has fired or was cleared. */
    method FlushCheckBatch()
      requires armed == map[]
      requires pending.Some? ==> AllFull(pending.value.agents)
      requires sent == SentOf(closed)
      modifies this`pending, this`sent, this`closed
      ensures pending == None && sent == SentOf(closed)
      ensures closed == if old(pending).Some? && old(pending).value.agents != []
                        then old(closed) + [Sent(old(pending).value.agents)]
                        else old(closed)
      ensures Gathered() == old(Gathered())
    {
      if pending.None? || pending.value.agents == [] {
        pending := None;
        return;
      }
      var agents := NonEmpty(pending.value.agents);
      FullStays(pending.value.agents);
      ClosedMore(closed, Sent(agents));
      sent := sent + [agents];
      closed := closed + [Sent(agents)];
      pending := None;
    }

    method DropPending()
      requires pending.Some? && TimersFit() && sent == SentOf(closed)
      modifies this`pending, this`armed, this`closed
      ensures pending == None && armed == map[] && sent == SentOf(closed) && Gathered() == old(Gathered())
      ensures closed == if old(pending).value.agents != [] then old(closed) + [Discarded(old(pending).value.agents)]
                        else old(closed)
    {
      var agents := pending.value.agents;
      ClearTimeout(pending.value.timer);
      pending := None;
      if agents == [] {
        NothingMore(ReportsOf(closed), agents);
      } else {
        ClosedMore(closed, Discarded(agents));
        closed := closed + [Discarded(agents)];
        NothingMore(ReportsOf(closed), []);
      }
    }

    /** A check of `count` agents was started: what was pending is dropped, unsent. */
    method ExpectCheckResults(count: nat)
      requires Valid()
      modifies this
      ensures Valid() && now == old(now) && sent == old(sent) && Gathered() == old(Gathered())
      ensures closed == ClosedByExpecting(old(pending), old(closed))
      ensures pending.Some? && pending.value == Batch([], {}, count, pending.value.timer) && openedAt == now
    {
      ReplacePending(count);
    }

    method ReplacePending(count: nat)
      requires TimersFit() && sent == SentOf(closed)
      modifies this`pending, this`armed, this`nextTimer, this`openedAt, this`lastAt, this`closed
      ensures TimersFit() && sent == SentOf(closed) && Gathered() == old(Gathered())
      ensures closed == ClosedByExpecting(old(pending), old(closed))
      ensures pending.Some? && pending.value == Batch([], {}, count, pending.value.timer) && openedAt == now
    {
      if pending.Some? {
        DropPending();
      }
      OpenExpecting(count);
    }

    method OpenExpecting(count: nat)
      requires armed == map[] && pending == None
      modifies this`pending, this`armed, this`nextTimer, this`openedAt, this`lastAt
      ensures TimersFit() && Gathered() == old(Gathered()) && openedAt == now
      ensures pending.Some? && pending.value == Batch([], {}, count, pending.value.timer)
    {
      var timer := SetTimeout(MAX_WAIT_MS);
      pending := Some(Batch([], {}, count, timer));
      openedAt, lastAt := now, now;
    }

    method ForgetOldNames()
      requires HistoryFits()
      modifies notified
      ensures HistoryFits() && notified.history == old(notified.history) + [Prune(now)]
      ensures AdmittedBy(notified.history) == AdmittedBy(old(notified.history))
      ensures notified.entries == Pruned(old(notified.entries), now)
    {
      AfterPrune(notified.history, now);
      TimedMore(notified.history, Prune(now));
      notified.PruneNotified(now);
    }

    /** Notes the names not noted before, and lets those containers through. */
    method NoteNames(id: string, containers: seq<Container>) returns (found: seq<Container>)
      requires HistoryFits()
      modifies notified
      ensures HistoryFits() && notified.history == old(notified.history) + [Note(KeysOf(id, containers), now)]
      ensures KeyList(AdmittedBy(notified.history)) == KeyList(AdmittedBy(old(notified.history))) + KeysOf(id, found)
      ensures found == NewOnes(old(notified.entries), id, containers)
    {
      var keys := KeysOf(id, containers);
      AfterNote(notified.history, keys, now);
      KeyListConcat(AdmittedBy(notified.history), Additions(MapAfter(notified.history), keys, now));
      TimedMore(notified.history, Note(keys, now));
      var admits := notified.Admit(keys, now);
      NotedAreSelected(old(notified.entries), id, containers, admits, now);
      SelectedAreNew(old(notified.entries), id, containers, admits);
      found := Selected(containers, admits);
    }

    method Deduplicate(id: string, containers: seq<Container>) returns (found: seq<Container>)
      requires HistoryFits()
      modifies notified
      ensures HistoryFits()
      ensures KeyList(AdmittedBy(notified.history)) == KeyList(AdmittedBy(old(notified.history))) + KeysOf(id, found)
      ensures found == NewOnes(Pruned(old(notified.entries), now), id, containers)
    {
      ForgetOldNames();
      found := NoteNames(id, containers);
    }

    /** Opens a batch, or, unless a number of agents is expected, starts the pending one's timer anew. */
    method OpenOrExtend()
      requires TimersFit()
      modifies this`pending, this`armed, this`nextTimer, this`openedAt, this`lastAt
      ensures TimersFit() && pending.Some? && Gathered() == old(Gathered())
      ensures lastAt == now
      ensures old(pending).Some? ==>
              openedAt == old(openedAt) && pending == Some(old(pending).value.(timer := pending.value.timer))
      ensures old(pending).None? ==> openedAt == now && pending == Some(Batch([], {}, 0, pending.value.timer))
      ensures pending.value.expected == 0 ==> armed[pending.value.timer] == now + 90_000
    {
      if pending.None? {
        var timer := SetTimeout(WINDOW_MS);
        pending := Some(Batch([], {}, 0, timer));
        openedAt := now;
      } else if pending.value.expected == 0 {
        ClearTimeout(pending.value.timer);
        var timer := SetTimeout(WINDOW_MS);
        pending := Some(pending.value.(timer := timer));
      }
      lastAt := now;
    }

    /** Counts an agent as heard from; if it was the last one expected, the batch is sent at once. */
    method FlushIfComplete(agentId: Option<string>)
      requires pending.Some? && TimersFit() && sent == SentOf(closed)
      modifies this`pending, this`armed, this`sent, this`closed
      ensures TimersFit() && sent == SentOf(closed) && Gathered() == old(Gathered())
      ensures pending.Some? ==> armed == old(armed) && pending.value.timer == old(pending).value.timer
      ensures Taken(old(pending).value, [], agentId, pending, old(closed), closed)
    {
      var b := pending.value;
      HeardIs(b.received, agentId);
      assert b.agents + [] == b.agents;
      var received := Heard(b.received, agentId);
      pending := Some(b.(received := received));
      if b.expected > 0 && |received| >= b.expected {
        ClearTimeout(b.timer);
        assert armed == map[];
        FlushCheckBatch();
      }
    }

    method AddReport(r: Report)
      requires pending.Some? && TimersFit() && r.containers != []
      modifies this`pending
      ensures TimersFit() && pending == Some(old(pending).value.(agents := old(pending).value.agents + [r]))
      ensures Gathered() == old(Gathered()) + [r]
    {
      pending := Some(pending.value.(agents := pending.value.agents + [r]));
    }

    /** A due timer fires: what the batch holds is sent. */
    method Fire(id: TimerId)
      requires Valid() && id in armed && armed[id] <= now
      modifies this
      ensures Valid() && pending == None && now == old(now) && Gathered() == old(Gathered())
      ensures now <= old(lastAt) + 90_000 && (old(pending).value.expected > 0 ==> now == old(openedAt) + 30_000)
      ensures closed == if old(pending).value.agents != [] then old(closed) + [Sent(old(pending).value.agents)]
                        else old(closed)
    {
      armed := armed - {id};
      assert armed == map[];
      FlushCheckBatch();
    }

    /** On shutdown, what the batch holds is sent. */
    method ClearPendingTimers()
      requires Valid()
      modifies this
      ensures Valid() && pending == None && now == old(now) && Gathered() == old(Gathered())
      ensures NoneDropped(old(closed), closed)
    {
      if pending.Some? {
        CloseNow();
      }
    }

    method CloseNow()
      requires pending.Some? && TimersFit() && sent == SentOf(closed)
      modifies this`pending, this`armed, this`sent, this`closed
      ensures pending == None && TimersFit() && sent == SentOf(closed) && Gathered() == old(Gathered())
      ensures NoneDropped(old(closed), closed)
    {
      ClearTimeout(pending.value.timer);
      assert armed == map[];
      FlushCheckBatch();
    }

    /** Time passes, up to when the timer is due. */
    method Advance(until: int)
      requires Valid() && now <= until
      requires forall id :: id in armed ==> until <= armed[id]
      modifies this`now
      ensures Valid() && now == until
    {
      now := until;
    }

    /** The periodic pruning of the names notified about. */
    method PruneOnInterval()
      requires Valid()
      modifies notified
      ensures Valid() && notified.history == old(notified.history) + [Prune(now)]
    {
      ForgetOldNames();
    }

    /** The updates an agent's check found; none of them is lost here, and none is gathered twice. */
    method DispatchCheckResults(agentName: string, containers: seq<Container>, agentId: Option<string>)
      requires Valid()
      modifies this, notified
      ensures Valid() && now == old(now)
      ensures
        var found := NewOnes(Pruned(old(notified.entries), now), agentId.GetOr(agentName), containers);
        && Gathered() == old(Gathered()) + AsReport(agentName, found)
        && TakenByAny(old(pending), |containers| == 0, if |found| == 0 then [] else [Report(agentName, found)],
                      agentId, pending, old(closed), closed)
        && (old(pending).None? && containers != [] ==> closed == old(closed) && Awaits(pending, found, agentName))
      ensures NoneDropped(old(closed), closed)
    {
      if containers == [] {
        CountAnswer(agentId);
      } else {
        DispatchUpdates(agentName, containers, agentId);
      }
    }

    method DispatchUpdates(agentName: string, containers: seq<Container>, agentId: Option<string>)
      requires Valid()
      modifies this, notified
      ensures Valid() && now == old(now)
      ensures
        var found := NewOnes(Pruned(old(notified.entries), now), agentId.GetOr(agentName), containers);
        && Gathered() == old(Gathered()) + AsReport(agentName, found)
        && TakenByAny(old(pending), false, AsReport(agentName, found), agentId, pending, old(closed), closed)
        && (old(pending).None? ==> closed == old(closed) && Awaits(pending, found, agentName))
      ensures NoneDropped(old(closed), closed)
    {
      var found := Deduplicate(agentId.GetOr(agentName), containers);
      Gather(agentId.GetOr(agentName), agentName, found, agentId);
      TakenKeepsAll(old(pending), AsReport(agentName, found), agentId, pending, old(closed), closed);
    }

    /** An agent that found nothing still counts as heard from. */
    method CountAnswer(agentId: Option<string>)
      requires TimersFit() && sent == SentOf(closed)
      modifies this`pending, this`armed, this`sent, this`closed
      ensures TimersFit() && sent == SentOf(closed) && Gathered() == old(Gathered())
      ensures NoneDropped(old(closed), closed)
      ensures TakenByAny(old(pending), true, [], agentId, pending, old(closed), closed)
    {
      if pending.Some? && agentId.Some? && agentId.value != [] {
        FlushIfComplete(agentId);
      } else if pending.Some? {
        NoAnswer(pending.value, agentId, closed);
      }
    }

    /** What was found joins the batch, which is sent if that completes it. */
    method Gather(id: string, agentName: string, found: seq<Container>, agentId: Option<string>)
      requires TimersFit() && sent == SentOf(closed) && |ids| == |Gathered()|
      modifies this`pending, this`armed, this`nextTimer, this`openedAt, this`lastAt, this`sent, this`closed, this`ids
      ensures TimersFit() && sent == SentOf(closed) && |ids| == |Gathered()|
      ensures Labels(ids, Gathered()) == Labels(old(ids), old(Gathered())) + KeysOf(id, found)
      ensures Gathered() == old(Gathered()) + AsReport(agentName, found)
      ensures TakenByAny(old(pending), false, AsReport(agentName, found), agentId, pending, old(closed), closed)
    {
      JoinUnder(id, agentName, found);
      FlushJoined(BatchOrNew(old(pending)), AsReport(agentName, found), agentId);
    }

    /** As if what was added and the answer had been taken in together. */
    method FlushJoined(ghost before: Batch, ghost added: seq<Report>, agentId: Option<string>)
      requires pending.Some? && TimersFit() && sent == SentOf(closed)
      requires pending.value == Joined(before, added, pending.value.timer)
      modifies this`pending, this`armed, this`sent, this`closed
      ensures TimersFit() && sent == SentOf(closed) && Gathered() == old(Gathered())
      ensures Taken(before, added, agentId, pending, old(closed), closed)
    {
      FlushIfComplete(agentId);
      TakenAfterJoining(before, added, agentId, old(pending).value, pending, old(closed), closed);
    }

    method JoinUnder(id: string, agentName: string, found: seq<Container>)
      requires TimersFit() && |ids| == |Gathered()|
      modifies this`pending, this`armed, this`nextTimer, this`openedAt, this`lastAt, this`ids
      ensures TimersFit() && pending.Some? && |ids| == |Gathered()|
      ensures Labels(ids, Gathered()) == Labels(old(ids), old(Gathered())) + KeysOf(id, found)
      ensures Gathered() == old(Gathered()) + AsReport(agentName, found)
      ensures pending.value == Joined(BatchOrNew(old(pending)), AsReport(agentName, found), pending.value.timer)
    {
      ghost var before := Gathered();
      Join(agentName, found);
      LabelsJoined(ids, before, id, agentName, found);
      if found != [] {
        ids := ids + [id];
      }
    }

    method Join(agentName: string, found: seq<Container>)
      requires TimersFit()
      modifies this`pending, this`armed, this`nextTimer, this`openedAt, this`lastAt
      ensures TimersFit() && pending.Some?
      ensures Gathered() == old(Gathered()) + AsReport(agentName, found)
      ensures pending.value == Joined(BatchOrNew(old(pending)), AsReport(agentName, found), pending.value.timer)
    {
      OpenOrExtend();
      if found != [] {
        AddReport(Report(agentName, found));
      }
    }
  }

  /** The containers whose names are not in the map, each name once. */
  function NewOnes(entries: seq<Entry>, id: string, containers: seq<Container>): seq<Container> {
    if containers == [] then []
    else
      var n := |containers| - 1;
      NewOnes(entries, id, containers[..n]) +
      (if IsNew(entries, KeysOf(id, containers), n) then [containers[n]] else [])
  }

  /** A name in the map is not reported again, even if the batch it was gathered in was dropped unsent. */
  lemma {:induction false} NotedIsNotNew(entries: seq<Entry>, id: string, containers: seq<Container>, c: Container)
    requires KeyOf(id, c) in Keys(entries)
    ensures c !in NewOnes(entries, id, containers)
  {
    if containers != [] {
      NotedIsNotNew(entries, id, containers[..|containers| - 1], c);
    }
  }

  lemma {:induction false} SelectedAreNew(entries: seq<Entry>, id: string, containers: seq<Container>,
      admits: seq<bool>)
    requires |admits| == |containers|
    requires forall i :: 0 <= i < |admits| ==> admits[i] == IsNew(entries, KeysOf(id, containers), i)
    ensures Selected(containers, admits) == NewOnes(entries, id, containers)
  {
    if containers != [] {
      var n := |containers| - 1;
      PrefixIsNew(entries, id, containers, n);
      SelectedAreNew(entries, id, containers[..n], admits[..n]);
    }
  }

  lemma PrefixIsNew(entries: seq<Entry>, id: string, containers: seq<Container>, n: nat)
    requires n <= |containers|
    ensures KeysOf(id, containers)[..n] == KeysOf(id, containers[..n])
    ensures forall i :: 0 <= i < n ==>
                          IsNew(entries, KeysOf(id, containers[..n]), i) == IsNew(entries, KeysOf(id, containers), i)
  {
    var keys := KeysOf(id, containers);
    assert keys[..n] == KeysOf(id, containers[..n]);
    assert forall i :: 0 <= i < n ==> keys[..n][..i] == keys[..i];
  }

  /** The ids heard from; an agent that gives none, or an empty one, is not counted. */
  function Heard(received: set<string>, agentId: Option<string>): set<string> {
    if agentId.Some? && agentId.value != [] then received + {agentId.value} else received
  }

  lemma HeardIs(received: set<string>, agentId: Option<string>)
    ensures Heard(received, agentId) ==
            received + match agentId { case None => {} case Some(id) => if id == "" then {} else {id} }
  {
    assert received + {} == received;
  }

  /**
   An update is found, a check of all agents is announced before it was sent, and nobody answers: the
   update was gathered, and noted as notified, and nothing is sent.
   */
  method DroppedReport(agentName: string, c: Container, id: string, start: int) returns (batcher: CheckBatcher)
    ensures fresh(batcher) && fresh(batcher.notified)
    ensures batcher.Valid() && batcher.Gathered() == [Report(agentName, [c])]
    ensures batcher.sent == [] && batcher.pending == None && batcher.armed == map[]
  {
    batcher := ReportThenAnnounce(agentName, c, id, start);
    var timer := batcher.pending.value.timer;
    batcher.Advance(batcher.armed[timer]);
    batcher.Fire(timer);
    SentOfDropped(Report(agentName, [c]));
  }

  method ReportThenAnnounce(agentName: string, c: Container, id: string, start: int) returns (batcher: CheckBatcher)
    ensures fresh(batcher) && fresh(batcher.notified)
    ensures batcher.Valid() && batcher.Gathered() == [Report(agentName, [c])]
    ensures batcher.closed == [Discarded([Report(agentName, [c])])]
    ensures batcher.pending.Some? && batcher.pending.value.agents == []
  {
    batcher := new CheckBatcher(start);
    OneIsNew(id, c, start);
    batcher.DispatchCheckResults(agentName, [c], Some(id));
    batcher.ExpectCheckResults(1);
  }

  lemma OneIsNew(id: string, c: Container, now: int)
    ensures Pruned([], now) == [] && NewOnes([], id, [c]) == [c]
  {
    assert [c][..0] == [];
    assert IsNew([], KeysOf(id, [c]), 0);
  }

  lemma SentOfDropped(r: Report)
    ensures SentOf([Discarded([r])]) == []
  {
    assert [Discarded([r])][..0] == [];
  }
}
