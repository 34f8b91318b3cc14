/**
 Which container updates were already notified about: a map in insertion order, with entries
 that expire and a cap on their number.
 */
module Dedup {
  const TTL_MS := 24 * 60 * 60 * 1000
  const MAX_ENTRIES := 10000

  datatype Entry = Entry(key: string, ts: int)

  /** The entries have pairwise different keys. */
  ghost predicate DistinctKeys(entries: seq<Entry>) {
    forall i, j :: 0 <= i < j < |entries| ==> entries[i].key != entries[j].key
  }

  ghost predicate Sorted(entries: seq<Entry>) {
    forall i, j :: 0 <= i < j < |entries| ==> entries[i].ts <= entries[j].ts
  }

  /** After entry `i`, at least MAX_ENTRIES other keys were admitted before its own could be again. */
  ghost predicate Crowded(log: seq<Entry>, i: nat) {
    i + MAX_ENTRIES < |log| && DistinctKeys(log[i..i + MAX_ENTRIES + 1])
  }

  /** No key is admitted twice within the time to live, unless that many others came in between. */
  ghost predicate Spaced(log: seq<Entry>) {
    forall i, j :: 0 <= i < j < |log| && log[i].key == log[j].key ==> log[j].ts - log[i].ts > TTL_MS || Crowded(log, i)
  }

  /** The map holds the latest of all admissions; of the others, each has expired or was crowded out. */
  ghost predicate Consistent(entries: seq<Entry>, clock: int, admitted: seq<Entry>, dropped: nat) {
    && dropped <= |admitted| && entries == admitted[dropped..]
    && DistinctKeys(entries) && Sorted(admitted)
    && (forall i :: 0 <= i < |admitted| ==> admitted[i].ts <= clock)
    && (forall i :: 0 <= i < dropped ==> clock - admitted[i].ts > TTL_MS || Crowded(admitted, i))
    && Spaced(admitted)
  }

  lemma CrowdedStays(log: seq<Entry>, more: seq<Entry>, i: nat)
    requires Crowded(log, i)
    ensures Crowded(log + more, i)
  {
    assert (log + more)[i..i + MAX_ENTRIES + 1] == log[i..i + MAX_ENTRIES + 1];
  }

  lemma LaterIsConsistent(entries: seq<Entry>, clock: int, admitted: seq<Entry>, dropped: nat, now: int)
    requires Consistent(entries, clock, admitted, dropped) && clock <= now
    ensures Consistent(entries, now, admitted, dropped)
  {}

  lemma FewerIsConsistent(entries: seq<Entry>, clock: int, admitted: seq<Entry>, dropped: nat, more: nat)
    requires Consistent(entries, clock, admitted, dropped) && more <= |entries|
    requires forall i :: dropped <= i < dropped + more ==> clock - admitted[i].ts > TTL_MS || Crowded(admitted, i)
    ensures Consistent(entries[more..], clock, admitted, dropped + more)
  {
    assert entries[more..] == admitted[dropped + more..];
  }

  lemma ExpiredCanGo(entries: seq<Entry>, clock: int, admitted: seq<Entry>, dropped: nat, now: int, k: nat)
    requires Consistent(entries, clock, admitted, dropped) && clock <= now && k <= |entries|
    requires forall j :: 0 <= j < k ==> now - entries[j].ts > TTL_MS
    ensures Consistent(entries[k..], now, admitted, dropped + k)
  {
    LaterIsConsistent(entries, clock, admitted, dropped, now);
    forall i | dropped <= i < dropped + k ensures now - admitted[i].ts > TTL_MS {
      assert admitted[i] == entries[i - dropped];
    }
    FewerIsConsistent(entries, now, admitted, dropped, k);
  }

  lemma OldestAreCrowded(entries: seq<Entry>, clock: int, admitted: seq<Entry>, dropped: nat, excess: nat)
    requires Consistent(entries, clock, admitted, dropped) && |entries| == MAX_ENTRIES + excess
    ensures forall i :: dropped <= i < dropped + excess ==> Crowded(admitted, i)
  {
    forall i | dropped <= i < dropped + excess ensures Crowded(admitted, i) {
      assert admitted[i..i + MAX_ENTRIES + 1] == entries[i - dropped..i - dropped + MAX_ENTRIES + 1];
    }
  }

  lemma OneMoreIsConsistent(entries: seq<Entry>, clock: int, admitted: seq<Entry>, dropped: nat, e: Entry)
    requires Consistent(entries, clock, admitted, dropped) && e.ts == clock
    requires forall i :: 0 <= i < |entries| ==> entries[i].key != e.key
    ensures Consistent(entries + [e], clock, admitted + [e], dropped)
  {
    var log := admitted + [e];
    assert log[dropped..] == entries + [e];
    forall i | 0 <= i < |admitted| && Crowded(admitted, i) ensures Crowded(log, i) {
      CrowdedStays(admitted, [e], i);
    }
    forall i | dropped <= i < |admitted| ensures admitted[i].key != e.key {
      assert entries[i - dropped] == admitted[i];
    }
  }

  lemma {:induction false} MoreIsConsistent(entries: seq<Entry>, clock: int, admitted: seq<Entry>, dropped: nat,
                                            added: seq<Entry>)
    requires Consistent(entries, clock, admitted, dropped) && DistinctKeys(entries + added)
    requires forall e :: e in added ==> e.ts == clock
    ensures Consistent(entries + added, clock, admitted + added, dropped)
    decreases |added|
  {
    if added == [] {
      assert entries + added == entries && admitted + added == admitted;
    } else {
      var n := |added| - 1;
      assert entries + added == (entries + added[..n]) + [added[n]]
             && admitted + added == (admitted + added[..n]) + [added[n]];
      FrontIsDistinct(entries + added[..n], added[n]);
      MoreIsConsistent(entries, clock, admitted, dropped, added[..n]);
      OneMoreIsConsistent(entries + added[..n], clock, admitted + added[..n], dropped, added[n]);
    }
  }

  lemma FrontIsDistinct(front: seq<Entry>, e: Entry)
    requires DistinctKeys(front + [e])
    ensures DistinctKeys(front)
    ensures forall i :: 0 <= i < |front| ==> front[i].key != e.key
  {
    var all := front + [e];
    assert forall i :: 0 <= i < |front| ==> all[i] == front[i];
    assert all[|front|] == e;
  }

  lemma CrowdKeysDiffer(log: seq<Entry>, i: nat, j: nat)
    requires Crowded(log, i) && i < j <= i + MAX_ENTRIES
    ensures log[i].key != log[j].key
  {
    var window := log[i..i + MAX_ENTRIES + 1];
    assert window[0] == log[i] && window[j - i] == log[j];
  }

  function Keys(entries: seq<Entry>): set<string> {
    set e | e in entries :: e.key
  }

  /** The entries that have not expired. */
  function Unexpired(entries: seq<Entry>, now: int): seq<Entry> {
    if entries == [] then []
    else
      var n := |entries| - 1;
      Unexpired(entries[..n], now) + (if now - entries[n].ts > TTL_MS then [] else [entries[n]])
  }

  function Pruned(entries: seq<Entry>, now: int): seq<Entry> {
    var live := Unexpired(entries, now);
    if |live| > MAX_ENTRIES then live[|live| - MAX_ENTRIES..] else live
  }

  /** Entries older than a day go, and of the others only those beyond ten thousand. */
  lemma PrunedAre(entries: seq<Entry>, now: int)
    ensures
      var left := Pruned(entries, now);
      && |left| <= 10_000
      && (forall e :: e in left ==> e in entries && now - e.ts <= 86_400_000)
      && (forall e :: e in entries && now - e.ts <= 86_400_000 ==> e in left || |left| == 10_000)
  {
    UnexpiredAre(entries, now);
  }

  lemma {:induction false} UnexpiredAre(entries: seq<Entry>, now: int)
    ensures forall e :: e in Unexpired(entries, now) <==> e in entries && now - e.ts <= 86_400_000
  {
    if entries != [] {
      UnexpiredAre(entries[..|entries| - 1], now);
    }
  }

  /** What noting `keys` adds to the map. */
  function Additions(entries: seq<Entry>, keys: seq<string>, now: int): seq<Entry> {
    if keys == [] then []
    else
      var n := |keys| - 1;
      var before := Additions(entries, keys[..n], now);
      if keys[n] in Keys(entries + before) then before else before + [Entry(keys[n], now)]
  }

  /** Name `i` is neither in the map nor among the names before it. */
  predicate IsNew(entries: seq<Entry>, keys: seq<string>, i: nat)
    requires i < |keys|
  {
    keys[i] !in Keys(entries) && keys[i] !in keys[..i]
  }

  datatype Call = Prune(now: int) | Note(keys: seq<string>, now: int)

  /** The calls' clock readings never go back, and the clock now shows `clock`. */
  ghost predicate Timed(history: seq<Call>, clock: int) {
    history == [] ||
    (history[|history| - 1].now <= clock && Timed(history[..|history| - 1], history[|history| - 1].now))
  }

  /** The map after a history of calls. */
  function MapAfter(history: seq<Call>): seq<Entry> {
    if history == [] then []
    else
      var n := |history| - 1;
      var entries := MapAfter(history[..n]);
      match history[n]
      case Prune(now) => Pruned(entries, now)
      case Note(keys, now) => entries + Additions(entries, keys, now)
  }

  /** Everything a history of calls let through, in order. */
  function AdmittedBy(history: seq<Call>): seq<Entry> {
    if history == [] then []
    else
      var n := |history| - 1;
      match history[n]
      case Prune(_) => AdmittedBy(history[..n])
      case Note(keys, now) => AdmittedBy(history[..n]) + Additions(MapAfter(history[..n]), keys, now)
  }

  /** In a map sorted by time, the expired entries come first. */
  lemma FirstLive(entries: seq<Entry>, now: int) returns (k: nat)
    requires Sorted(entries)
    ensures k <= |entries|
    ensures forall j :: 0 <= j < k ==> now - entries[j].ts > TTL_MS
    ensures forall j :: k <= j < |entries| ==> now - entries[j].ts <= TTL_MS
  {
    k := 0;
    while k < |entries| && now - entries[k].ts > TTL_MS
      invariant k <= |entries|
      invariant forall j :: 0 <= j < k ==> now - entries[j].ts > TTL_MS
    {
      k := k + 1;
    }
  }

  lemma {:induction false} UnexpiredIsSuffix(entries: seq<Entry>, now: int, k: nat)
    requires k <= |entries|
    requires forall j :: 0 <= j < k ==> now - entries[j].ts > TTL_MS
    requires forall j :: k <= j < |entries| ==> now - entries[j].ts <= TTL_MS
    ensures Unexpired(entries, now) == entries[k..]
  {
    if entries != [] {
      var n := |entries| - 1;
      if k > n {
        UnexpiredIsSuffix(entries[..n], now, n);
      } else {
        UnexpiredIsSuffix(entries[..n], now, k);
        assert entries[k..] == entries[..n][k..] + [entries[n]];
      }
    }
  }

  lemma {:induction false} KeysAfterNote(entries: seq<Entry>, keys: seq<string>, now: int)
    ensures Keys(entries + Additions(entries, keys, now)) == Keys(entries) + set key | key in keys
    ensures forall e :: e in Additions(entries, keys, now) ==> e.ts == now
  {
    if keys == [] {
      assert entries + [] == entries;
    } else {
      var n := |keys| - 1;
      var before := Additions(entries, keys[..n], now);
      KeysAfterNote(entries, keys[..n], now);
      assert keys == keys[..n] + [keys[n]];
      if keys[n] !in Keys(entries + before) {
        KeysMore(entries + before, Entry(keys[n], now));
        assert entries + before + [Entry(keys[n], now)] == entries + (before + [Entry(keys[n], now)]);
      }
    }
  }

  lemma KeysMore(entries: seq<Entry>, e: Entry)
    ensures Keys(entries + [e]) == Keys(entries) + {e.key}
  {
    assert forall x :: x in entries + [e] <==> x in entries || x == e;
  }

  lemma {:induction false} NoteKeepsDistinct(entries: seq<Entry>, keys: seq<string>, now: int)
    requires DistinctKeys(entries)
    ensures DistinctKeys(entries + Additions(entries, keys, now))
  {
    if keys == [] {
      assert entries + [] == entries;
    } else {
      var n := |keys| - 1;
      var before := Additions(entries, keys[..n], now);
      NoteKeepsDistinct(entries, keys[..n], now);
      if keys[n] !in Keys(entries + before) {
        assert forall j :: 0 <= j < |entries + before| ==> (entries + before)[j] in entries + before;
        assert entries + before + [Entry(keys[n], now)] == entries + (before + [Entry(keys[n], now)]);
      }
    }
  }

  lemma PruneIsConsistent(entries: seq<Entry>, clock: int, admitted: seq<Entry>, dropped: nat, now: int)
      returns (dropped': nat)
    requires Consistent(entries, clock, admitted, dropped) && clock <= now
    ensures Consistent(Pruned(entries, now), now, admitted, dropped')
  {
    SuffixIsSorted(admitted, dropped);
    var k := FirstLive(entries, now);
    UnexpiredIsSuffix(entries, now, k);
    ExpiredCanGo(entries, clock, admitted, dropped, now, k);
    dropped' := dropped + k;
    var live := Unexpired(entries, now);
    if |live| > MAX_ENTRIES {
      OldestAreCrowded(live, now, admitted, dropped', |live| - MAX_ENTRIES);
      FewerIsConsistent(live, now, admitted, dropped', |live| - MAX_ENTRIES);
      dropped' := dropped' + (|live| - MAX_ENTRIES);
    }
  }

  lemma SuffixIsSorted(admitted: seq<Entry>, dropped: nat)
    requires Sorted(admitted) && dropped <= |admitted|
    ensures Sorted(admitted[dropped..])
  {}

  /** Over every history, the map and what was admitted stay consistent. */
  lemma {:induction false} EveryHistoryIsConsistent(history: seq<Call>, clock: int) returns (dropped: nat)
    requires Timed(history, clock)
    ensures Consistent(MapAfter(history), clock, AdmittedBy(history), dropped)
    decreases |history|
  {
    dropped := 0;
    if history != [] {
      var n := |history| - 1;
      var front := history[..n];
      var now := history[n].now;
      dropped := EveryHistoryIsConsistent(front, now);
      match history[n]
      case Prune(_) =>
        dropped := PruneIsConsistent(MapAfter(front), now, AdmittedBy(front), dropped, now);
      case Note(keys, _) =>
        KeysAfterNote(MapAfter(front), keys, now);
        NoteKeepsDistinct(MapAfter(front), keys, now);
        MoreIsConsistent(MapAfter(front), now, AdmittedBy(front), dropped, Additions(MapAfter(front), keys, now));
      LaterIsConsistent(MapAfter(history), now, AdmittedBy(history), dropped, clock);
    }
  }

  /**
   Over every history: a key let through again is let through more than a day later, or after at
   least ten thousand other keys.
   */
  lemma AdmittedAgain(history: seq<Call>, clock: int, i: nat, j: nat)
    requires Timed(history, clock)
    requires i < j < |AdmittedBy(history)| && AdmittedBy(history)[i].key == AdmittedBy(history)[j].key
    ensures
      var log := AdmittedBy(history);
      || log[j].ts - log[i].ts > 86_400_000
      || (i + 10_000 < j && DistinctKeys(log[i..i + 10_001]))
  {
    var log := AdmittedBy(history);
    var dropped := EveryHistoryIsConsistent(history, clock);
    if Crowded(log, i) && j <= i + MAX_ENTRIES {
      CrowdKeysDiffer(log, i, j);
    }
  }

  /** The map always lists the latest admissions, oldest first, under different keys. */
  lemma MapIsSorted(history: seq<Call>, clock: int)
    requires Timed(history, clock)
    ensures Sorted(MapAfter(history)) && DistinctKeys(MapAfter(history))
    ensures exists dropped ::
              0 <= dropped <= |AdmittedBy(history)| && MapAfter(history) == AdmittedBy(history)[dropped..]
  {
    var dropped := EveryHistoryIsConsistent(history, clock);
    SuffixIsSorted(AdmittedBy(history), dropped);
  }

  class NotifiedUpdates {
    var entries: seq<Entry>           // the map, in insertion order
    ghost var history: seq<Call>

    ghost predicate Valid()
      reads this
    {
      entries == MapAfter(history)
    }

    constructor ()
      ensures Valid() && history == [] && entries == []
    {
      entries, history := [], [];
    }

    /** Deletes the expired entries; then, if there are still too many, the oldest. */
    method PruneNotified(now: int)
      requires Valid()
      modifies this
      ensures Valid() && history == old(history) + [Prune(now)]
      ensures |entries| <= 10_000
      ensures forall e :: e in entries ==> e in old(entries) && now - e.ts <= 86_400_000
      ensures forall e :: e in old(entries) && now - e.ts <= 86_400_000 ==> e in entries || |entries| == 10_000
    {
      var before := entries;
      entries := [];
      for i := 0 to |before|
        invariant entries == Unexpired(before[..i], now) && history == old(history)
      {
        assert before[..i + 1][..i] == before[..i];
        if now - before[i].ts <= TTL_MS {
          entries := entries + [before[i]];
        }
      }
      assert before[..|before|] == before;
      if |entries| > MAX_ENTRIES {
        var excess := |entries| - MAX_ENTRIES;
        ghost var live := entries;
        var removed := 0;
        while removed < excess
          invariant removed <= excess && entries == live[removed..] && history == old(history)
        {
          entries := entries[1..];
          removed := removed + 1;
        }
      }
      PrunedAre(before, now);
      history := history + [Prune(now)];
      assert history[..|history| - 1] == old(history);
    }

    /** Lets through the names not notified about, and notes them: the filter of `dispatchCheckResults`. */
    method Admit(keys: seq<string>, now: int) returns (admits: seq<bool>)
      requires Valid()
      modifies this
      ensures Valid() && history == old(history) + [Note(keys, now)]
      ensures |admits| == |keys|
      ensures forall i :: 0 <= i < |keys| ==> admits[i] == IsNew(old(entries), keys, i)
    {
      admits := [];
      var known := entries;
      for i := 0 to |keys|
        invariant |admits| == i && history == old(history)
        invariant entries == known + Additions(known, keys[..i], now)
        invariant forall j :: 0 <= j < i ==> admits[j] == IsNew(known, keys, j)
      {
        assert keys[..i + 1][..i] == keys[..i];
        KeysAfterNote(known, keys[..i], now);
        var isNew := keys[i] !in Keys(entries);
        assert isNew == IsNew(known, keys, i);
        if isNew {
          entries := entries + [Entry(keys[i], now)];
        }
        admits := admits + [isNew];
      }
      assert keys[..|keys|] == keys;
      history := history + [Note(keys, now)];
      assert history[..|history| - 1] == old(history);
    }
  }
}
