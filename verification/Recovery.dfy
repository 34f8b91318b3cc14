/**
 What one pass of `RecoverOrphans` makes of the containers a crash left behind, written per
 container instead of per loop, and what follows for any store that such a pass starts from.
 */
module Recovery {
  import opened Docker
  import opened Options

  /** The service that an orphan's name belongs to. */
  function BaseOf(name: Name): Name {
    if name.Service? then name else name.of
  }

  // ---------------------------------------------------------------- the closed form of a pass

  datatype Fate = Keep | Drop | TakeName(name: Name)

  /** The name of a missing original is taken by its `-ww-new`, whose turn comes before that of a `-ww-old`. */
  predicate GoesToNew(s: Store, base: Name) {
    New(base) in s.Names() && base !in s.Names()
  }

  /** What the first two loops do to a container, judged by the listing the pass starts with. */
  function FateOf(s: Store, c: Container): Fate {
    var base := BaseOf(c.name);
    if c.name.New? then
      if base in s.Names() then Drop else TakeName(base)
    else if c.name.Old? then
      if c.state != Running then Drop
      else if base in s.RunningNames() || GoesToNew(s, base) then Keep
      else TakeName(base)
    else
      if c.state != Running && Old(c.name) in s.RunningNames() then Drop else Keep
  }

  /** The orphan whose turn in the loops decides about the container. */
  function Trigger(c: Container): Name {
    if c.name.Service? then Old(c.name) else c.name
  }

  /** What has become of a container once the orphans in `done` have had their turn. */
  function Outcome(s: Store, done: set<Name>, c: Container): Option<Container> {
    if Trigger(c) !in done then Some(c)
    else match FateOf(s, c)
      case Keep => Some(c)
      case Drop => None
      case TakeName(name) => Some(c.(name := name))
  }

  function Repaired(s: Store, done: set<Name>): map<ContainerId, Container> {
    map id | id in s.containers && Outcome(s, done, s.containers[id]).Some? ::
      Outcome(s, done, s.containers[id]).value
  }

  /** A lone stopped `-ww-old`: removed, yet its service is noted as present. */
  predicate Stranded(s: Store, base: Name) {
    Old(base) in s.Names() && Old(base) !in s.RunningNames() && base !in s.Names() && New(base) !in s.Names()
  }

  /** A running `-ww-old` whose name a stopped `-ww-new` takes. */
  predicate Contested(s: Store, base: Name) {
    Old(base) in s.RunningNames() && GoesToNew(s, base) && New(base) !in s.RunningNames()
  }

  /** The names the pass takes for present when it comes to the snapshots. */
  predicate Marked(s: Store, name: Name) {
    name in s.Names() || New(name) in s.Names() || Old(name) in s.Names()
  }

  predicate Missing(s: Store, snapshots: set<Snapshot>, name: Name) {
    (exists snap :: snap in snapshots && snap.name == name) && !Marked(s, name)
  }

  /** The image a snapshot is recreated from: the exact digest if there is one. */
  function RecoveryRef(snap: Snapshot): string {
    if snap.imageDigest == "" then snap.imageRef else snap.imageDigest
  }

  function Recreated(snap: Snapshot): Container {
    Container(snap.name, RecoveryRef(snap), Running, snap.config)
  }

  /** `t` is what a pass whose calls succeed makes of `s`. The pass may pick any snapshot of a missing name. */
  ghost predicate Recovers(s: Store, snapshots: set<Snapshot>, t: Store) {
    var kept := Repaired(s, s.Names());
    && (forall id :: id in kept ==> id in t.containers && t.containers[id] == kept[id])
    && (forall id :: id in t.containers && id !in kept ==>
          id >= s.nextId && exists snap ::
            snap in snapshots && Missing(s, snapshots, snap.name) && t.containers[id] == Recreated(snap))
    && (forall name :: Missing(s, snapshots, name) ==> name in t.Names())
  }

  /** What the repair relies on: no orphan of an orphan, and sane snapshots. */
  ghost predicate Repairable(s: Store, snapshots: set<Snapshot>) {
    && s.Valid()
    && (forall name :: name in s.Names() ==> BaseOf(name).Service?)
    && (forall snap :: snap in snapshots ==> snap.name.Service? && snap.imageRef != "")
  }

  /** Something is left of the service: its container, an orphan of it, or a snapshot. */
  predicate Known(s: Store, snapshots: set<Snapshot>, name: Name) {
    name.Service? && (Marked(s, name) || exists snap :: snap in snapshots && snap.name == name)
  }

  /** Nothing for a pass to do. */
  ghost predicate Settled(s: Store, snapshots: set<Snapshot>) {
    && (forall id :: id in s.containers ==> FateOf(s, s.containers[id]) == Keep)
    && (forall snap :: snap in snapshots ==> Marked(s, snap.name))
  }

  // ---------------------------------------------------------------- one orphan at a time

  lemma NamedIn(s: Store, id: ContainerId)
    requires id in s.containers
    ensures s.containers[id].name in s.Names()
    ensures s.containers[id].state == Running ==> s.containers[id].name in s.RunningNames()
  {}

  lemma RunningNameOf(s: Store, id: ContainerId)
    requires s.Valid() && id in s.containers
    ensures s.containers[id].name in s.RunningNames() <==> s.containers[id].state == Running
  {}

  lemma TriggeredBy(c: Container, name: Name)
    requires Trigger(c) == name
    ensures c.name == name || (name.Old? && c.name.Service? && c.name == BaseOf(name))
  {}

  /** An orphan's turn changes nothing but the containers it decides about. */
  lemma OthersUntouched(s: Store, done: set<Name>, name: Name, touched: set<ContainerId>)
    requires forall i :: i in s.containers && i !in touched ==> Trigger(s.containers[i]) != name
    ensures Repaired(s, done + {name}) - touched == Repaired(s, done) - touched
  {
    forall i | i in s.containers && i !in touched
      ensures Outcome(s, done + {name}, s.containers[i]) == Outcome(s, done, s.containers[i])
    {}
  }

  /** What the turn of orphan `id` leaves of container `i`. */
  lemma OutcomeOf(s: Store, done: set<Name>, name: Name, i: ContainerId)
    requires i in s.containers && Trigger(s.containers[i]) == name && name !in done
    ensures i in Repaired(s, done) && Repaired(s, done)[i] == s.containers[i]
    ensures var c := s.containers[i];
            var after := Repaired(s, done + {name});
            match FateOf(s, c)
            case Keep => i in after && after[i] == c
            case Drop => i !in after
            case TakeName(base) => i in after && after[i] == c.(name := base)
  {}

  /** Handling a `-ww-new` orphan changes that one container. */
  lemma RepairNew(s: Store, done: set<Name>, id: ContainerId)
    requires s.Valid() && id in s.containers && s.containers[id].name.New? && s.containers[id].name !in done
    ensures id in Repaired(s, done) && Repaired(s, done)[id] == s.containers[id]
    ensures var c := s.containers[id];
            var after := Repaired(s, done + {c.name});
            if BaseOf(c.name) in s.Names() then after == Repaired(s, done) - {id}
            else after == Repaired(s, done)[id := c.(name := BaseOf(c.name))]
  {
    var c := s.containers[id];
    forall i | i in s.containers && i != id ensures Trigger(s.containers[i]) != c.name {
      if Trigger(s.containers[i]) == c.name { TriggeredBy(s.containers[i], c.name); }
    }
    OthersUntouched(s, done, c.name, {id});
    OutcomeOf(s, done, c.name, id);
    SameOutside(Repaired(s, done), Repaired(s, done + {c.name}), {id});
  }

  /** An original is dropped exactly when its `-ww-old` takes the name back. */
  lemma OriginalFate(s: Store, id: ContainerId, i: ContainerId)
    requires s.Valid() && id in s.containers && s.containers[id].name.Old? && s.containers[id].name.of.Service?
    requires i in Originals(s, id)
    ensures FateOf(s, s.containers[i]) == if FateOf(s, s.containers[id]).TakeName? then Drop else Keep
  {
    RunningNameOf(s, id);
    RunningNameOf(s, i);
  }

  /** The turn of a `-ww-old` orphan touches it and its original only. */
  lemma RepairOldTouches(s: Store, done: set<Name>, id: ContainerId)
    requires s.Valid() && id in s.containers && s.containers[id].name.Old? && s.containers[id].name.of.Service?
    ensures Repaired(s, done + {s.containers[id].name}) - ({id} + Originals(s, id))
         == Repaired(s, done) - ({id} + Originals(s, id))
  {
    var name, touched := s.containers[id].name, {id} + Originals(s, id);
    forall i | i in s.containers && i !in touched ensures Trigger(s.containers[i]) != name {
      if Trigger(s.containers[i]) == name { TriggeredBy(s.containers[i], name); }
    }
    OthersUntouched(s, done, name, touched);
  }

  lemma OriginalOutcome(s: Store, done: set<Name>, id: ContainerId, i: ContainerId)
    requires s.Valid() && id in s.containers && s.containers[id].name.Old? && s.containers[id].name.of.Service?
    requires s.containers[id].name !in done && i in Originals(s, id)
    ensures i in Repaired(s, done) && Repaired(s, done)[i] == s.containers[i]
    ensures FateOf(s, s.containers[id]).TakeName? ==> i !in Repaired(s, done + {s.containers[id].name})
    ensures !FateOf(s, s.containers[id]).TakeName? ==>
              i in Repaired(s, done + {s.containers[id].name}) &&
              Repaired(s, done + {s.containers[id].name})[i] == s.containers[i]
  {
    OutcomeOf(s, done, s.containers[id].name, i);
    OriginalFate(s, id, i);
  }

  /** Handling a `-ww-old` orphan changes it and, when it takes its name back, the original. */
  lemma RepairOld(s: Store, done: set<Name>, id: ContainerId)
    requires s.Valid() && id in s.containers && s.containers[id].name.Old? && s.containers[id].name.of.Service?
    requires s.containers[id].name !in done
    ensures id in Repaired(s, done) && Repaired(s, done)[id] == s.containers[id]
    ensures forall i :: i in Originals(s, id) ==> i in Repaired(s, done) && Repaired(s, done)[i] == s.containers[i]
    ensures var c := s.containers[id];
            var after := Repaired(s, done + {c.name});
            match FateOf(s, c)
            case Keep => after == Repaired(s, done)
            case Drop => after == Repaired(s, done) - {id}
            case TakeName(base) => after == (Repaired(s, done) - Originals(s, id))[id := c.(name := base)]
  {
    var c := s.containers[id];
    RepairOldTouches(s, done, id);
    OutcomeOf(s, done, c.name, id);
    forall i | i in Originals(s, id)
      ensures i in Repaired(s, done) && Repaired(s, done)[i] == s.containers[i]
      ensures FateOf(s, c).TakeName? ==> i !in Repaired(s, done + {c.name})
      ensures !FateOf(s, c).TakeName? ==>
                i in Repaired(s, done + {c.name}) && Repaired(s, done + {c.name})[i] == s.containers[i]
    {
      OriginalOutcome(s, done, id, i);
    }
    AssembleOld(s, Repaired(s, done), Repaired(s, done + {c.name}), id);
  }

  lemma AssembleOld(s: Store, before: map<ContainerId, Container>, after: map<ContainerId, Container>, id: ContainerId)
    requires id in s.containers && s.containers[id].name.Old?
    requires after - ({id} + Originals(s, id)) == before - ({id} + Originals(s, id))
    requires id in before
    requires id in after && after[id] == before[id] ==>
               forall i :: i in Originals(s, id) ==> i in after && i in before && after[i] == before[i]
    requires id !in after ==> forall i :: i in Originals(s, id) ==> i in after && i in before && after[i] == before[i]
    requires id in after && after[id] != before[id] ==> forall i :: i in Originals(s, id) ==> i !in after
    ensures id !in after ==> after == before - {id}
    ensures id in after && after[id] == before[id] ==> after == before
    ensures id in after && after[id] != before[id] ==> after == (before - Originals(s, id))[id := after[id]]
  {
    SameOutside(before, after, {id} + Originals(s, id));
    assert id !in Originals(s, id);
  }

  lemma SameOutside(before: map<ContainerId, Container>, after: map<ContainerId, Container>, ids: set<ContainerId>)
    requires after - ids == before - ids
    ensures forall i :: i !in ids ==> (i in after <==> i in before) && (i in after ==> after[i] == before[i])
  {
    forall i | i !in ids ensures (i in after <==> i in before) && (i in after ==> after[i] == before[i]) {
      assert i in after <==> i in after - ids;
      assert i in before <==> i in before - ids;
      assert i in after ==> after[i] == (after - ids)[i];
    }
  }

  /** The container bearing the name that an orphan is an orphan of: none, or one. */
  function Originals(s: Store, id: ContainerId): set<ContainerId>
    requires id in s.containers
  {
    set i | i in s.containers && s.containers[i].name == BaseOf(s.containers[id].name)
  }

  /** A name that an orphan takes is borne, when its turn comes, by nobody but the original. */
  lemma BaseIsFree(s: Store, snapshots: set<Snapshot>, done: set<Name>, id: ContainerId)
    requires Repairable(s, snapshots) && id in s.containers && s.containers[id].name !in done
    requires FateOf(s, s.containers[id]).TakeName?
    ensures forall i :: i in Repaired(s, done) && Repaired(s, done)[i].name == BaseOf(s.containers[id].name) ==>
              i in Originals(s, id)
  {
    var base := BaseOf(s.containers[id].name);
    NamedIn(s, id);
    forall i | i in Repaired(s, done) && Repaired(s, done)[i].name == base ensures s.containers[i].name == base {
      var c := s.containers[i];
      NamedIn(s, i);
      assert Repaired(s, done)[i].name in {c.name, BaseOf(c.name)};
      assert c.name in {base, New(base), Old(base)};
    }
  }

  /** Once all orphans have had their turn, the pass over them is complete. */
  lemma AllHandled(s: Store, done: set<Name>)
    requires forall name :: name in s.Names() && !name.Service? ==> name in done
    requires done <= s.Names()
    ensures Repaired(s, done) == Repaired(s, s.Names())
  {
    forall id | id in s.containers
      ensures Outcome(s, done, s.containers[id]) == Outcome(s, s.Names(), s.containers[id])
    {}
  }

  // ---------------------------------------------------------------- what a pass achieves

  /** Where a container that the loops over the orphans leave got its name from. */
  lemma KeptName(s: Store, snapshots: set<Snapshot>, id: ContainerId)
    requires Repairable(s, snapshots) && id in Repaired(s, s.Names())
    ensures id in s.containers
    ensures var c := s.containers[id];
            var kept := Repaired(s, s.Names())[id];
            match kept.name
            case New(_) => false
            case Old(base) => kept == c && c.state == Running && (base in s.RunningNames() || GoesToNew(s, base))
            case Service(_) =>
              || (kept == c && FateOf(s, c) == Keep)
              || (kept == c.(name := kept.name) && c.name == New(kept.name) && kept.name !in s.Names())
              || (kept == c.(name := kept.name) && c.name == Old(kept.name) && c.state == Running
                  && kept.name !in s.RunningNames() && !GoesToNew(s, kept.name))
  {
    NamedIn(s, id);
    var c := s.containers[id];
    assert Outcome(s, s.Names(), c) == Some(Repaired(s, s.Names())[id]);
    if Trigger(c) !in s.Names() {
      assert c.name.Service? && Old(c.name) !in s.RunningNames();
    }
  }

  /** No half-finished blue-green container survives a pass. */
  lemma NoNewRemains(s: Store, snapshots: set<Snapshot>, t: Store)
    requires Repairable(s, snapshots) && Recovers(s, snapshots, t)
    ensures forall name :: name in t.Names() ==> !name.New?
  {
    forall id | id in t.containers ensures !t.containers[id].name.New? {
      if id in Repaired(s, s.Names()) { KeptName(s, snapshots, id); }
    }
  }

  /** A container named `base` after the pass is one of these. */
  lemma BearersOf(s: Store, snapshots: set<Snapshot>, t: Store, base: Name, id: ContainerId)
    requires Repairable(s, snapshots) && Recovers(s, snapshots, t) && base.Service?
    requires id in t.containers && t.containers[id].name == base
    ensures id in s.containers ==>
              t.containers[id].state == s.containers[id].state
              && s.containers[id].name in {base, New(base), Old(base)}
              && (s.containers[id].name == base ==> FateOf(s, s.containers[id]).Keep?)
              && (s.containers[id].name == New(base) ==> base !in s.Names())
              && (s.containers[id].name == Old(base) ==> s.containers[id].state == Running && !GoesToNew(s, base))
    ensures id !in s.containers ==> Missing(s, snapshots, base) && t.containers[id].state == Running
  {
    if id in Repaired(s, s.Names()) { KeptName(s, snapshots, id); }
  }

  /** What bears the name after a pass runs: the original, the `-ww-old`, the `-ww-new`, or a new one. */
  predicate WillRun(s: Store, snapshots: set<Snapshot>, base: Name) {
    || base in s.RunningNames()
    || (if GoesToNew(s, base) then New(base) in s.RunningNames() else Old(base) in s.RunningNames())
    || Missing(s, snapshots, base)
  }

  /** The container that bears `base` after the pass, when there is one. */
  lemma BearerFound(s: Store, snapshots: set<Snapshot>, t: Store, base: Name) returns (id: ContainerId)
    requires Repairable(s, snapshots) && Recovers(s, snapshots, t)
    requires Known(s, snapshots, base) && !Stranded(s, base)
    ensures id in t.containers && t.containers[id].name == base
    ensures WillRun(s, snapshots, base) ==> t.containers[id].state == Running
  {
    if Old(base) in s.RunningNames() && base !in s.RunningNames() && !GoesToNew(s, base) {
      id :| id in s.containers && s.containers[id].name == Old(base);
      RunningNameOf(s, id);
      LeftAfter(s, snapshots, t, id, s.containers[id].(name := base));
    } else if base in s.Names() {
      id :| id in s.containers && s.containers[id].name == base;
      RunningNameOf(s, id);
      LeftAfter(s, snapshots, t, id, s.containers[id]);
    } else if New(base) in s.Names() {
      id :| id in s.containers && s.containers[id].name == New(base);
      RunningNameOf(s, id);
      LeftAfter(s, snapshots, t, id, s.containers[id].(name := base));
    } else {
      assert Missing(s, snapshots, base);
      id :| id in t.containers && t.containers[id].name == base;
      BearersOf(s, snapshots, t, base, id);
    }
  }

  /** Of a stranded service the pass leaves nothing. */
  lemma StrandedIsGone(s: Store, snapshots: set<Snapshot>, t: Store, base: Name)
    requires Repairable(s, snapshots) && Recovers(s, snapshots, t) && Stranded(s, base) && base.Service?
    ensures !Marked(t, base)
  {
    forall id | id in t.containers ensures t.containers[id].name !in {base, New(base), Old(base)} {
      if id in Repaired(s, s.Names()) {
        KeptName(s, snapshots, id);
        RunningNameOf(s, id);
        NamedIn(s, id);
      }
    }
  }

  /** A service of which anything is left is back after a pass, except exactly the stranded ones. */
  lemma ServiceIsBack(s: Store, snapshots: set<Snapshot>, t: Store, base: Name)
    requires Repairable(s, snapshots) && Recovers(s, snapshots, t) && Known(s, snapshots, base)
    ensures base in t.Names() <==> !Stranded(s, base)
  {
    if !Stranded(s, base) {
      var id := BearerFound(s, snapshots, t, base);
    } else {
      StrandedIsGone(s, snapshots, t, base);
    }
  }

  /** When it is also running: a stopped original is kept in place of a running `-ww-new`. */
  lemma ServiceRuns(s: Store, snapshots: set<Snapshot>, t: Store, base: Name)
    requires Repairable(s, snapshots) && Recovers(s, snapshots, t) && t.Valid() && Known(s, snapshots, base)
    ensures base in t.RunningNames() <==> WillRun(s, snapshots, base)
  {
    ServiceIsBack(s, snapshots, t, base);
    if !Stranded(s, base) {
      var id := BearerFound(s, snapshots, t, base);
      RunningNameOf(t, id);
      BearersOf(s, snapshots, t, base, id);
      if id in s.containers { RunningNameOf(s, id); }
    }
  }

  /** After a pass nothing is left to do, unless a stranded service has a snapshot or a name was contested. */
  lemma PassSettles(s: Store, snapshots: set<Snapshot>, t: Store)
    requires Repairable(s, snapshots) && Recovers(s, snapshots, t) && t.Valid()
    ensures Settled(t, snapshots) <==>
            && (forall snap :: snap in snapshots ==> !Stranded(s, snap.name))
            && (forall base :: !Contested(s, base))
  {
    NoNewRemains(s, snapshots, t);
    if forall base :: !Contested(s, base) {
      forall id | id in t.containers ensures FateOf(t, t.containers[id]) == Keep {
        FatesAfter(s, snapshots, t, id);
      }
    } else {
      var base :| Contested(s, base);
      ContestGoesOn(s, snapshots, t, base);
    }
    forall snap | snap in snapshots ensures Marked(t, snap.name) <==> !Stranded(s, snap.name) {
      ServiceIsBack(s, snapshots, t, snap.name);
      if Stranded(s, snap.name) { StrandedIsGone(s, snapshots, t, snap.name); }
    }
  }

  lemma FatesAfter(s: Store, snapshots: set<Snapshot>, t: Store, id: ContainerId)
    requires Repairable(s, snapshots) && Recovers(s, snapshots, t) && t.Valid() && forall base :: !Contested(s, base)
    requires id in t.containers && !t.containers[id].name.New?
    ensures FateOf(t, t.containers[id]) == Keep
  {
    var c := t.containers[id];
    var base := BaseOf(c.name);
    if Old(base) in t.Names() {
      var o :| o in t.containers && t.containers[o].name == Old(base);
      OldThatStays(s, snapshots, t, o);
      if c.name == base { RunningNameOf(t, id); }
      if c.name == Old(base) { assert o == id; }
    }
  }

  /** What the loops over the orphans leave of a container is there after the pass. */
  lemma LeftAfter(s: Store, snapshots: set<Snapshot>, t: Store, i: ContainerId, c: Container)
    requires Recovers(s, snapshots, t) && i in s.containers && Outcome(s, s.Names(), s.containers[i]) == Some(c)
    ensures i in t.containers && t.containers[i] == c && c.name in t.Names()
    ensures c.state == Running ==> c.name in t.RunningNames()
  {
    assert i in Repaired(s, s.Names());
    NamedIn(t, i);
  }

  /** A `-ww-old` that a pass leaves runs beside a running bearer of its name, or it was contested. */
  lemma OldThatStays(s: Store, snapshots: set<Snapshot>, t: Store, o: ContainerId)
    requires Repairable(s, snapshots) && Recovers(s, snapshots, t) && t.Valid()
    requires o in t.containers && t.containers[o].name.Old?
    ensures t.containers[o].state == Running && BaseOf(t.containers[o].name) in t.Names()
    ensures BaseOf(t.containers[o].name) in t.RunningNames() || Contested(s, BaseOf(t.containers[o].name))
  {
    assert o in Repaired(s, s.Names());
    KeptName(s, snapshots, o);
    NamedIn(s, o);
    var base := BaseOf(t.containers[o].name);
    if base in s.RunningNames() {
      var i :| i in s.containers && s.containers[i].name == base && s.containers[i].state == Running;
      LeftAfter(s, snapshots, t, i, s.containers[i]);
    } else {
      NewTookName(s, snapshots, t, base);
    }
  }

  lemma NewTookName(s: Store, snapshots: set<Snapshot>, t: Store, base: Name)
    requires s.Valid() && Recovers(s, snapshots, t) && GoesToNew(s, base)
    ensures base in t.Names() && (New(base) in s.RunningNames() ==> base in t.RunningNames())
  {
    var i :| i in s.containers && s.containers[i].name == New(base);
    NamedIn(s, i);
    RunningNameOf(s, i);
    LeftAfter(s, snapshots, t, i, s.containers[i].(name := base));
  }

  /** The next pass gives the running container its name back. */
  lemma ContestGoesOn(s: Store, snapshots: set<Snapshot>, t: Store, base: Name)
    requires Repairable(s, snapshots) && Recovers(s, snapshots, t) && t.Valid() && Contested(s, base)
    ensures !Settled(t, snapshots)
  {
    var o :| o in s.containers && s.containers[o].name == Old(base) && s.containers[o].state == Running;
    var i :| i in s.containers && s.containers[i].name == New(base);
    NamedIn(s, o);
    RunningNameOf(s, i);
    LeftAfter(s, snapshots, t, o, s.containers[o]);
    LeftAfter(s, snapshots, t, i, s.containers[i].(name := base));
    RunningNameOf(t, i);
    assert FateOf(t, t.containers[o]) != Keep;
  }

  /** After two passes nothing is ever left to do. */
  lemma TwoPassesSettle(s: Store, snapshots: set<Snapshot>, t: Store, u: Store)
    requires Repairable(s, snapshots) && Recovers(s, snapshots, t) && t.Valid()
    requires Recovers(t, snapshots, u) && u.Valid()
    ensures Settled(u, snapshots)
  {
    NoNewRemains(s, snapshots, t);
    StaysInOrder(s, snapshots, t);
    forall base ensures !Stranded(t, base) {
      if Old(base) in t.Names() {
        var o :| o in t.containers && t.containers[o].name == Old(base);
        OldThatStays(s, snapshots, t, o);
        RunningNameOf(t, o);
      }
    }
    PassSettles(t, snapshots, u);
  }

  /** What a pass leaves can be repaired again. */
  lemma StaysInOrder(s: Store, snapshots: set<Snapshot>, t: Store)
    requires Repairable(s, snapshots) && Recovers(s, snapshots, t) && t.Valid()
    ensures Repairable(t, snapshots)
  {
    forall id | id in t.containers ensures BaseOf(t.containers[id].name).Service? {
      if id in Repaired(s, s.Names()) {
        KeptName(s, snapshots, id);
        NamedIn(s, id);
      }
    }
  }

  /** A pass over a settled store changes nothing. */
  lemma SettledStays(s: Store, snapshots: set<Snapshot>, t: Store)
    requires Settled(s, snapshots) && Recovers(s, snapshots, t)
    ensures t.containers == s.containers
  {
    assert Repaired(s, s.Names()) == s.containers;
  }

  /**
   The exception happens: of a lone stopped `-ww-old`, saved in a snapshot, the first pass leaves
   nothing, and only a second pass recreates the service.
   */
  lemma StoppedOrphanIsLost(base: string, image: string, config: Config, first: Store, second: Store)
    requires image != ""
    requires var s := Store(map[0 := Container(Old(Service(base)), image, Exited, config)], 1);
             var snapshots := {Snapshot(Service(base), image, "", config)};
             Recovers(s, snapshots, first) && Recovers(first, snapshots, second)
    ensures var s := Store(map[0 := Container(Old(Service(base)), image, Exited, config)], 1);
            var snapshots := {Snapshot(Service(base), image, "", config)};
            Repairable(s, snapshots) && Stranded(s, Service(base))
    ensures first.containers == map[]
    ensures Service(base) in second.Names()
  {
    var c := Container(Old(Service(base)), image, Exited, config);
    var s := Store(map[0 := c], 1);
    var snap := Snapshot(Service(base), image, "", config);
    assert s.containers[0] == c && c.name in s.Names() && s.Names() == {c.name};
    assert s.RunningNames() == {};
    assert FateOf(s, c) == Drop;
    assert Repaired(s, s.Names()) == map[];
    assert Marked(s, Service(base)) && !Missing(s, {snap}, snap.name);
    assert first.containers == map[];
    assert first.Names() == {};
    assert Missing(first, {snap}, snap.name);
  }

  /**
   And so it is that a service may not run after a repair: a stopped original is kept, and the running
   `-ww-new` that was to replace it goes.
   */
  lemma StoppedOriginalIsKept(base: string, image: string, newer: string, config: Config, t: Store)
    requires image != "" && newer != "" && t.Valid()
    requires Recovers(HalfwaySwitch(base, image, newer, config), {Snapshot(Service(base), image, "", config)}, t)
    ensures Service(base) in t.Names() && Service(base) !in t.RunningNames() && New(Service(base)) !in t.Names()
  {
    var s := HalfwaySwitch(base, image, newer, config);
    var snapshots := {Snapshot(Service(base), image, "", config)};
    HalfwayNames(base, image, newer, config);
    ServiceIsBack(s, snapshots, t, Service(base));
    ServiceRuns(s, snapshots, t, Service(base));
    NoNewRemains(s, snapshots, t);
  }

  lemma HalfwayNames(base: string, image: string, newer: string, config: Config)
    requires image != "" && newer != ""
    ensures
      var s, name := HalfwaySwitch(base, image, newer, config), Service(base);
      && s.Valid() && s.Names() == {name, New(name)} && s.RunningNames() == {New(name)}
      && Repairable(s, {Snapshot(name, image, "", config)})
  {
    var s := HalfwaySwitch(base, image, newer, config);
    NamedIn(s, 0);
    NamedIn(s, 1);
  }

  /** A blue-green update cut off between stopping the old container and removing it. */
  function HalfwaySwitch(base: string, image: string, newer: string, config: Config): Store {
    Store(map[0 := Container(Service(base), image, Exited, config),
              1 := Container(New(Service(base)), newer, Running, config)], 2)
  }

  /** A contested service is down after one pass, and runs after two. */
  lemma ContestTakesTwo(s: Store, snapshots: set<Snapshot>, t: Store, u: Store, base: Name)
    requires Repairable(s, snapshots) && Recovers(s, snapshots, t) && t.Valid()
    requires Recovers(t, snapshots, u) && u.Valid() && Contested(s, base) && base.Service?
    ensures base in t.Names() && base !in t.RunningNames() && base in u.RunningNames()
  {
    assert Marked(s, base) && !Stranded(s, base) && !Missing(s, snapshots, base);
    ServiceIsBack(s, snapshots, t, base);
    ServiceRuns(s, snapshots, t, base);
    NoNewRemains(s, snapshots, t);
    StaysInOrder(s, snapshots, t);
    var o :| o in s.containers && s.containers[o].name == Old(base) && s.containers[o].state == Running;
    LeftAfter(s, snapshots, t, o, s.containers[o]);
    assert Marked(t, base) && !GoesToNew(t, base);
    ServiceRuns(t, snapshots, u, base);
  }

  /** Such a store: a running `-ww-old`, and a `-ww-new` that has stopped. */
  lemma ContestHappens(base: string, image: string, newer: string, config: Config)
    requires image != "" && newer != ""
    ensures var s := Store(map[0 := Container(Old(Service(base)), image, Running, config),
                               1 := Container(New(Service(base)), newer, Exited, config)], 2);
            Repairable(s, {}) && Contested(s, Service(base))
  {
    var s := Store(map[0 := Container(Old(Service(base)), image, Running, config),
                       1 := Container(New(Service(base)), newer, Exited, config)], 2);
    NamedIn(s, 0);
    NamedIn(s, 1);
    assert s.Names() == {Old(Service(base)), New(Service(base))};
    assert s.RunningNames() == {Old(Service(base))};
  }

  /**
   * A copy of what a snapshot describes: of the exact image, if its digest is known, else of what its
   * reference names now.
   */
  ghost predicate CopyOf(c: Container, snap: Snapshot) {
    && c.name == snap.name && c.config == snap.config
    && (snap.imageDigest != "" ==> c.image == snap.imageDigest)
    && (snap.imageDigest == "" ==> c.image == snap.imageRef)
  }

  /** Every container that a pass adds is a running copy of one of the snapshots. */
  lemma AddedAreCopies(s: Store, snapshots: set<Snapshot>, t: Store, id: ContainerId)
    requires Recovers(s, snapshots, t) && id in t.containers && id !in s.containers
    ensures exists snap :: snap in snapshots && CopyOf(t.containers[id], snap) && t.containers[id].state == Running
  {
    var snap :| snap in snapshots && Missing(s, snapshots, snap.name) && t.containers[id] == Recreated(snap);
    assert CopyOf(t.containers[id], snap);
  }
}
