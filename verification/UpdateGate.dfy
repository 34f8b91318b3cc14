/**
 When the controller sends updates on its own: the rows it keeps about one agent's containers, and
 the age an update must have reached.
 */
module UpdateGate {
  import opened Options

  const HOUR_MS := 60 * 60 * 1000

  datatype Row = Row(id: string, dockerId: string, image: string, current: Option<string>, latest: Option<string>,
                     hasUpdate: bool, firstSeen: Option<int>,
                     labelPolicy: Option<string>, policy: Option<string>, isStateful: bool)

  /** What a heartbeat reports of a container. */
  datatype Info = Info(id: string, dockerId: string, image: string, current: Option<string>,
                       labelPolicy: Option<string>, isStateful: bool)

  /** What a check reports of a container; `failed` if there is a check error. */
  datatype Item = Item(containerId: string, current: string, latest: string, hasUpdate: bool, failed: bool)

  datatype Result = Result(containerId: string, success: bool, newDigest: string)

  /** What happened to a container, as far as the age of its update is concerned. */
  datatype Mark = Checked(id: string, at: int, hasUpdate: bool) | Updated(id: string) | Restored(id: string)

  // The rows

  predicate Matches(row: Row, containerId: string) {
    row.id == containerId || row.dockerId == containerId
  }

  /** No id names two rows. */
  ghost predicate Unambiguous(rows: seq<Row>) {
    forall i, j :: 0 <= i < j < |rows| ==> Apart(rows[i], rows[j])
  }

  predicate Apart(a: Row, b: Row) {
    !Matches(a, b.id) && !Matches(a, b.dockerId)
  }

  function Find(rows: seq<Row>, containerId: string): Option<Row> {
    if rows == [] then None
    else if Matches(rows[0], containerId) then Some(rows[0])
    else Find(rows[1..], containerId)
  }

  function SetDigests(rows: seq<Row>, item: Item): seq<Row> {
    seq(|rows|, i requires 0 <= i < |rows| =>
      if Matches(rows[i], item.containerId)
      then rows[i].(current := Some(item.current), latest := Some(item.latest), hasUpdate := item.hasUpdate)
      else rows[i])
  }

  function SetFirstSeen(rows: seq<Row>, containerId: string, stamp: Option<int>): seq<Row> {
    seq(|rows|, i requires 0 <= i < |rows| =>
      if Matches(rows[i], containerId) then rows[i].(firstSeen := stamp) else rows[i])
  }

  function SetResult(rows: seq<Row>, r: Result, isRollback: bool): seq<Row> {
    seq(|rows|, i requires 0 <= i < |rows| =>
      if Matches(rows[i], r.containerId) then RowAfterResult(rows[i], r.newDigest, isRollback) else rows[i])
  }

  function RowAfterResult(row: Row, newDigest: string, isRollback: bool): Row {
    if isRollback then
      row.(current := Some(newDigest), hasUpdate := row.latest.Some? && row.latest.value != newDigest)
    else
      row.(current := Some(newDigest), latest := Some(newDigest), hasUpdate := false)
  }

  function FindId(rows: seq<Row>, id: string): Option<Row> {
    if rows == [] then None else if rows[0].id == id then Some(rows[0]) else FindId(rows[1..], id)
  }

  /** A reported container keeps what only the controller knows of it. */
  function Merge(known: Option<Row>, info: Info): Row {
    if known.Some? then
      known.value.(id := info.id, dockerId := info.dockerId, image := info.image, current := info.current,
                   labelPolicy := info.labelPolicy, isStateful := info.isStateful)
    else
      Row(info.id, info.dockerId, info.image, info.current, None, false, None, info.labelPolicy, None, info.isStateful)
  }

  function Upsert(rows: seq<Row>, infos: seq<Info>): seq<Row> {
    seq(|infos|, i requires 0 <= i < |infos| => Merge(FindId(rows, infos[i].id), infos[i]))
  }

  /** A heartbeat keeps what only the controller knows of a container, and knows nothing of a new one. */
  lemma HeartbeatKeeps(rows: seq<Row>, infos: seq<Info>, i: nat)
    requires i < |infos|
    ensures
      var info, row := infos[i], Upsert(rows, infos)[i];
      && |Upsert(rows, infos)| == |infos|
      && row.id == info.id && row.dockerId == info.dockerId && row.image == info.image && row.current == info.current
      && row.labelPolicy == info.labelPolicy && row.isStateful == info.isStateful
      && match FindId(rows, info.id)
         case None => row.latest == None && !row.hasUpdate && row.firstSeen == None && row.policy == None
         case Some(known) =>
           && row.latest == known.latest && row.hasUpdate == known.hasUpdate
           && row.firstSeen == known.firstSeen && row.policy == known.policy
  {}

  // Checks: `pre` are the rows read before the loop over the items

  predicate WasUpdate(pre: seq<Row>, containerId: string) {
    Find(pre, containerId).Some? && Find(pre, containerId).value.hasUpdate
  }

  function AfterItem(pre: seq<Row>, rows: seq<Row>, item: Item, now: int): seq<Row> {
    if item.failed then rows
    else
      var checked := SetDigests(rows, item);
      var was := WasUpdate(pre, item.containerId);
      if item.hasUpdate && !was then SetFirstSeen(checked, item.containerId, Some(now))
      else if !item.hasUpdate && was then SetFirstSeen(checked, item.containerId, None)
      else checked
  }

  function AfterItems(pre: seq<Row>, items: seq<Item>, now: int): seq<Row> {
    if items == [] then pre
    else AfterItem(pre, AfterItems(pre, items[..|items| - 1], now), items[|items| - 1], now)
  }

  function ItemMarks(pre: seq<Row>, item: Item, now: int): seq<Mark> {
    if !item.failed && Find(pre, item.containerId).Some?
    then [Checked(Find(pre, item.containerId).value.id, now, item.hasUpdate)] else []
  }

  function CheckMarks(pre: seq<Row>, items: seq<Item>, now: int): seq<Mark> {
    if items == [] then []
    else CheckMarks(pre, items[..|items| - 1], now) + ItemMarks(pre, items[|items| - 1], now)
  }

  function AfterResults(rows: seq<Row>, results: seq<Result>, isRollback: bool): seq<Row> {
    if results == [] then rows
    else
      var r := results[|results| - 1];
      var before := AfterResults(rows, results[..|results| - 1], isRollback);
      if r.success && r.newDigest != [] then SetResult(before, r, isRollback) else before
  }

  /** A result that leaves a row without an update ends what its stamp stood for. */
  function ResultMark(row: Option<Row>, newDigest: string, isRollback: bool): seq<Mark> {
    if row.None? || RowAfterResult(row.value, newDigest, isRollback).hasUpdate then []
    else if isRollback then [Restored(row.value.id)]
    else [Updated(row.value.id)]
  }

  function ResultMarks(rows: seq<Row>, results: seq<Result>, isRollback: bool): seq<Mark> {
    if results == [] then []
    else
      var r := results[|results| - 1];
      var row := Find(AfterResults(rows, results[..|results| - 1], isRollback), r.containerId);
      ResultMarks(rows, results[..|results| - 1], isRollback) +
      (if r.success && r.newDigest != [] then ResultMark(row, r.newDigest, isRollback) else [])
  }

  // The gate

  predicate Eligible(rows: seq<Row>, item: Item, now: int, minAgeHours: int, levelAllows: (Option<Row>, Item) -> bool) {
    var row := Find(rows, item.containerId);
    && item.hasUpdate
    && (row.Some? ==> !HeldBack(row.value) && !row.value.isStateful)
    && (minAgeHours > 0 ==> row.Some? && OldEnough(row.value, now, minAgeHours))
    && levelAllows(row, item)
  }

  /** The label wins over the setting made in the user interface. */
  predicate HeldBack(row: Row) {
    var policy := if row.labelPolicy.Some? then row.labelPolicy else row.policy;
    policy == Some("manual") || policy == Some("notify")
  }

  predicate OldEnough(row: Row, now: int, minAgeHours: int) {
    row.firstSeen.Some? && now - row.firstSeen.value >= minAgeHours * HOUR_MS
  }

  function EligibleIds(rows: seq<Row>, items: seq<Item>, now: int, minAgeHours: int,
                       levelAllows: (Option<Row>, Item) -> bool): seq<string> {
    if items == [] then []
    else
      var item := items[|items| - 1];
      EligibleIds(rows, items[..|items| - 1], now, minAgeHours, levelAllows) +
      (if Eligible(rows, item, now, minAgeHours, levelAllows) then [item.containerId] else [])
  }

  /**
   Spelled out: what keeps an update from being sent is a label "manual" or "notify", or without a label
   such a setting; a stateful container; an age short of the minimum, or unknown; or the level.
   */
  ghost predicate MayGo(rows: seq<Row>, item: Item, now: int, minAgeHours: int,
                        levelAllows: (Option<Row>, Item) -> bool)
  {
    && item.hasUpdate && levelAllows(Find(rows, item.containerId), item)
    && (minAgeHours > 0 ==> exists row :: row in rows && item.containerId in {row.id, row.dockerId})
    && forall row :: row in rows && item.containerId in {row.id, row.dockerId} ==>
         && row.labelPolicy != Some("manual") && row.labelPolicy != Some("notify")
         && (row.labelPolicy == None ==> row.policy != Some("manual") && row.policy != Some("notify"))
         && !row.isStateful
         && (minAgeHours > 0 ==> row.firstSeen.Some? && now - row.firstSeen.value >= minAgeHours * 3_600_000)
  }

  ghost predicate AllThatMayGo(ids: seq<string>, rows: seq<Row>, items: seq<Item>, now: int, minAgeHours: int,
                               levelAllows: (Option<Row>, Item) -> bool)
  {
    forall id :: id in ids <==>
      exists item :: item in items && item.containerId == id && MayGo(rows, item, now, minAgeHours, levelAllows)
  }

  lemma EligibleIffMayGo(rows: seq<Row>, item: Item, now: int, minAgeHours: int,
                         levelAllows: (Option<Row>, Item) -> bool)
    requires Unambiguous(rows)
    ensures Eligible(rows, item, now, minAgeHours, levelAllows) <==> MayGo(rows, item, now, minAgeHours, levelAllows)
  {
    FindNone(rows, item.containerId);
    forall row | row in rows && Matches(row, item.containerId)
      ensures Find(rows, item.containerId) == Some(row)
    {
      var i :| 0 <= i < |rows| && rows[i] == row;
      FindMatches(rows, item.containerId, i);
    }
    if Find(rows, item.containerId).Some? {
      var i := FoundIsThere(rows, item.containerId);
      assert rows[i] in rows;
    }
  }

  /** What is sent is what may go. */
  lemma EligibleIdsMayGo(rows: seq<Row>, items: seq<Item>, now: int, minAgeHours: int,
                         levelAllows: (Option<Row>, Item) -> bool)
    requires Unambiguous(rows)
    ensures
      var ids := EligibleIds(rows, items, now, minAgeHours, levelAllows);
      && AllThatMayGo(ids, rows, items, now, minAgeHours, levelAllows)
      && (ids != [] <==> exists item :: item in items && MayGo(rows, item, now, minAgeHours, levelAllows))
  {
    var ids := EligibleIds(rows, items, now, minAgeHours, levelAllows);
    forall item ensures Eligible(rows, item, now, minAgeHours, levelAllows)
                        <==> MayGo(rows, item, now, minAgeHours, levelAllows)
    {
      EligibleIffMayGo(rows, item, now, minAgeHours, levelAllows);
    }
    forall id ensures id in ids <==>
      exists item :: item in items && item.containerId == id && MayGo(rows, item, now, minAgeHours, levelAllows)
    {
      EligibleIdsAre(rows, items, now, minAgeHours, levelAllows, id);
    }
    if ids != [] { assert ids[0] in ids; }
    if item :| item in items && MayGo(rows, item, now, minAgeHours, levelAllows) { assert item.containerId in ids; }
  }

  // What a first-seen stamp means

  /**
   A check at time `stamp` reported an update, and so did every check since; no success that named
   the row came since, and no rollback left the container without an update.
   */
  ghost predicate Earned(log: seq<Mark>, id: string, stamp: int) {
    exists i :: 0 <= i < |log| && EarnedFrom(log, i, id, stamp)
  }

  ghost predicate EarnedFrom(log: seq<Mark>, i: nat, id: string, stamp: int)
    requires i < |log|
  {
    && log[i] == Checked(id, stamp, true)
    && forall j :: i <= j < |log| && log[j].id == id ==> log[j].Checked? && log[j].hasUpdate
  }

  ghost predicate RowFits(row: Row, log: seq<Mark>) {
    row.hasUpdate && row.firstSeen.Some? ==> Earned(log, row.id, row.firstSeen.value)
  }

  ghost predicate RowsFit(rows: seq<Row>, log: seq<Mark>) {
    forall i :: 0 <= i < |rows| ==> RowFits(rows[i], log)
  }

  /** A stamp on a row without an update stands for nothing any more. */
  ghost predicate RowMeans(row: Row, log: seq<Mark>) {
    !row.hasUpdate && row.firstSeen.Some? ==> !Earned(log, row.id, row.firstSeen.value)
  }

  ghost predicate RowsMean(rows: seq<Row>, log: seq<Mark>) {
    forall i :: 0 <= i < |rows| ==> RowMeans(rows[i], log)
  }

  lemma EarnedStays(log: seq<Mark>, mark: Mark, id: string, stamp: int)
    requires Earned(log, id, stamp)
    requires mark.id == id ==> mark.Checked? && mark.hasUpdate
    ensures Earned(log + [mark], id, stamp)
  {
    var i :| 0 <= i < |log| && EarnedFrom(log, i, id, stamp);
    assert EarnedFrom(log + [mark], i, id, stamp);
  }

  lemma EarnedNow(log: seq<Mark>, id: string, stamp: int)
    ensures Earned(log + [Checked(id, stamp, true)], id, stamp)
  {
    assert EarnedFrom(log + [Checked(id, stamp, true)], |log|, id, stamp);
  }

  /** What is not earned is not earned by anything but a check at its own time. */
  lemma NotEarnedLater(log: seq<Mark>, mark: Mark, id: string, stamp: int)
    requires !Earned(log, id, stamp) && mark != Checked(id, stamp, true)
    ensures !Earned(log + [mark], id, stamp)
  {
    var more := log + [mark];
    forall i | 0 <= i < |more| ensures !EarnedFrom(more, i, id, stamp) {
      if i < |log| {
        assert !EarnedFrom(log, i, id, stamp);
        if log[i] == Checked(id, stamp, true) {
          var j :| i <= j < |log| && log[j].id == id && !(log[j].Checked? && log[j].hasUpdate);
          assert more[j] == log[j];
        }
      }
    }
  }

  /** A check without an update, a successful update and a rollback to the latest image end it. */
  lemma EndedBy(log: seq<Mark>, mark: Mark, stamp: int)
    requires !(mark.Checked? && mark.hasUpdate)
    ensures !Earned(log + [mark], mark.id, stamp)
  {
    var more := log + [mark];
    forall i | 0 <= i < |more| ensures !EarnedFrom(more, i, mark.id, stamp) {
      assert more[|log|] == mark;
    }
  }

  // Finding rows

  predicate SameIds(a: Row, b: Row) {
    a.id == b.id && a.dockerId == b.dockerId
  }

  lemma {:induction false} FindMatches(rows: seq<Row>, containerId: string, i: nat)
    requires Unambiguous(rows) && i < |rows| && Matches(rows[i], containerId)
    ensures Find(rows, containerId) == Some(rows[i])
  {
    if i > 0 {
      assert Apart(rows[0], rows[i]);
      FindMatches(rows[1..], containerId, i - 1);
    }
  }

  lemma {:induction false} FoundIsThere(rows: seq<Row>, containerId: string) returns (i: nat)
    requires Find(rows, containerId).Some?
    ensures i < |rows| && Find(rows, containerId) == Some(rows[i]) && Matches(rows[i], containerId)
  {
    if Matches(rows[0], containerId) {
      i := 0;
    } else {
      i := FoundIsThere(rows[1..], containerId);
      i := i + 1;
    }
  }

  lemma {:induction false} FoundIdIsThere(rows: seq<Row>, id: string)
    requires FindId(rows, id).Some?
    ensures FindId(rows, id).value in rows && FindId(rows, id).value.id == id
  {
    if rows[0].id != id {
      FoundIdIsThere(rows[1..], id);
    }
  }

  // Checks keep the meaning

  /** What one item makes of the row it matches; `was`: it had an update before the loop. */
  function RowAfter(was: bool, row: Row, item: Item, now: int): Row {
    var checked := row.(current := Some(item.current), latest := Some(item.latest), hasUpdate := item.hasUpdate);
    if item.hasUpdate && !was then checked.(firstSeen := Some(now))
    else if !item.hasUpdate && was then checked.(firstSeen := None)
    else checked
  }

  ghost predicate Aligned(pre: seq<Row>, rows: seq<Row>) {
    |pre| == |rows| && forall i :: 0 <= i < |rows| ==> SameIds(pre[i], rows[i])
  }

  lemma AfterItemAt(pre: seq<Row>, rows: seq<Row>, item: Item, now: int, i: nat)
    requires Unambiguous(pre) && Aligned(pre, rows) && i < |rows|
    ensures |AfterItem(pre, rows, item, now)| == |rows|
    ensures AfterItem(pre, rows, item, now)[i] ==
            if item.failed || !Matches(rows[i], item.containerId) then rows[i]
            else RowAfter(pre[i].hasUpdate, rows[i], item, now)
  {
    assert SameIds(pre[i], rows[i]);
    if Matches(rows[i], item.containerId) {
      FindMatches(pre, item.containerId, i);
    }
  }

  lemma {:induction false} AfterItemsAligned(pre: seq<Row>, items: seq<Item>, now: int)
    requires Unambiguous(pre)
    ensures Aligned(pre, AfterItems(pre, items, now))
  {
    if items != [] {
      var n := |items| - 1;
      AfterItemsAligned(pre, items[..n], now);
      var rows := AfterItems(pre, items[..n], now);
      forall i | 0 <= i < |rows| ensures SameIds(pre[i], AfterItems(pre, items, now)[i]) {
        assert SameIds(pre[i], rows[i]);
        AfterItemAt(pre, rows, items[n], now, i);
      }
    }
  }

  /** During the loop, a row that had an update and has none any more has no stamp. */
  ghost predicate MeansInLoop(was: bool, row: Row, log: seq<Mark>) {
    RowMeans(row, log) && (was && !row.hasUpdate ==> row.firstSeen == None)
  }

  lemma ItemKeepsMeaning(was: bool, row: Row, log: seq<Mark>, item: Item, now: int)
    requires MeansInLoop(was, row, log)
    ensures
      var after, more := RowAfter(was, row, item, now), log + [Checked(row.id, now, item.hasUpdate)];
      MeansInLoop(was, after, more) && (RowFits(row, log) ==> RowFits(after, more))
  {
    if item.hasUpdate {
      EarnedNow(log, row.id, now);
      if RowFits(row, log) && row.hasUpdate && row.firstSeen.Some? {
        EarnedStays(log, Checked(row.id, now, true), row.id, row.firstSeen.value);
      }
    } else if row.firstSeen.Some? {
      EndedBy(log, Checked(row.id, now, false), row.firstSeen.value);
    }
  }

  lemma OtherKeepsMeaning(row: Row, log: seq<Mark>, mark: Mark)
    requires mark.id != row.id
    ensures RowMeans(row, log) ==> RowMeans(row, log + [mark])
    ensures RowFits(row, log) ==> RowFits(row, log + [mark])
  {
    if row.firstSeen.Some? {
      if Earned(log, row.id, row.firstSeen.value) {
        EarnedStays(log, mark, row.id, row.firstSeen.value);
      } else {
        NotEarnedLater(log, mark, row.id, row.firstSeen.value);
      }
    }
  }

  lemma {:induction false} ChecksKeepFit(pre: seq<Row>, items: seq<Item>, now: int, log: seq<Mark>, i: nat)
    requires Unambiguous(pre) && i < |pre| && RowMeans(pre[i], log)
    ensures |AfterItems(pre, items, now)| == |pre|
    ensures
      var row, more := AfterItems(pre, items, now)[i], log + CheckMarks(pre, items, now);
      MeansInLoop(pre[i].hasUpdate, row, more) && (RowFits(pre[i], log) ==> RowFits(row, more))
  {
    AfterItemsAligned(pre, items, now);
    if items == [] {
      assert log + [] == log;
    } else {
      var n := |items| - 1;
      var item := items[n];
      ChecksKeepFit(pre, items[..n], now, log, i);
      AfterItemsAligned(pre, items[..n], now);
      var rows, before := AfterItems(pre, items[..n], now), log + CheckMarks(pre, items[..n], now);
      AfterItemAt(pre, rows, item, now, i);
      assert SameIds(pre[i], rows[i]);
      assert log + CheckMarks(pre, items, now) == before + ItemMarks(pre, item, now);
      if item.failed || Find(pre, item.containerId).None? {
        assert before + [] == before;
        if !item.failed && Matches(pre[i], item.containerId) {
          FindMatches(pre, item.containerId, i);
        }
      } else if Matches(rows[i], item.containerId) {
        FindMatches(pre, item.containerId, i);
        ItemKeepsMeaning(pre[i].hasUpdate, rows[i], before, item, now);
      } else {
        OtherIdFound(pre, item.containerId, i);
        OtherKeepsMeaning(rows[i], before, ItemMarks(pre, item, now)[0]);
      }
    }
  }

  /** A stamp that is not earned is not earned by the loop. */
  lemma {:induction false} UnearnedStays(pre: seq<Row>, items: seq<Item>, now: int, log: seq<Mark>, i: nat)
    requires Unambiguous(pre) && i < |pre| && pre[i].hasUpdate && pre[i].firstSeen.Some?
    requires pre[i].firstSeen.value != now && !Earned(log, pre[i].id, pre[i].firstSeen.value)
    ensures !Earned(log + CheckMarks(pre, items, now), pre[i].id, pre[i].firstSeen.value)
  {
    if items == [] {
      assert log + [] == log;
    } else {
      var n := |items| - 1;
      var item := items[n];
      UnearnedStays(pre, items[..n], now, log, i);
      var before := log + CheckMarks(pre, items[..n], now);
      assert log + CheckMarks(pre, items, now) == before + ItemMarks(pre, item, now);
      if ItemMarks(pre, item, now) == [] {
        assert before + [] == before;
      } else {
        NotEarnedLater(before, ItemMarks(pre, item, now)[0], pre[i].id, pre[i].firstSeen.value);
      }
    }
  }

  lemma OtherIdFound(rows: seq<Row>, containerId: string, i: nat)
    requires Unambiguous(rows) && i < |rows| && !Matches(rows[i], containerId) && Find(rows, containerId).Some?
    ensures Find(rows, containerId).value.id != rows[i].id
  {
    var j := FoundIsThere(rows, containerId);
    if j < i {
      assert Apart(rows[j], rows[i]);
    } else {
      assert Apart(rows[i], rows[j]);
    }
  }

  /** A row that first gets an update in this loop is stamped now, and keeps that stamp to the end of it. */
  lemma {:induction false} StampedNow(pre: seq<Row>, items: seq<Item>, now: int, k: nat, i: nat)
    requires Unambiguous(pre) && i < |pre| && k < |items|
    requires !pre[i].hasUpdate && items[k].hasUpdate && !items[k].failed && Matches(pre[i], items[k].containerId)
    ensures |AfterItems(pre, items, now)| == |pre| && AfterItems(pre, items, now)[i].firstSeen == Some(now)
  {
    AfterItemsAligned(pre, items, now);
    var n := |items| - 1;
    AfterItemsAligned(pre, items[..n], now);
    var rows := AfterItems(pre, items[..n], now);
    AfterItemAt(pre, rows, items[n], now, i);
    assert SameIds(pre[i], rows[i]);
    if k < n {
      StampedNow(pre, items[..n], now, k, i);
    }
  }

  /**
   What is sent under a minimum age: an update found at least that long ago, by a check since which
   every check has found it again and no success has named the row.
   */
  ghost predicate Ripe(rows: seq<Row>, log: seq<Mark>, containerId: string, now: int, minAgeHours: int) {
    var row := Find(rows, containerId);
    && row.Some? && row.value.hasUpdate && OldEnough(row.value, now, minAgeHours)
    && Earned(log, row.value.id, row.value.firstSeen.value)
  }

  /** What is sent under a minimum age is ripe, if and only if the stamp its row had before was earned. */
  lemma SentIsRipe(pre: seq<Row>, items: seq<Item>, now: int, minAgeHours: int,
                   levelAllows: (Option<Row>, Item) -> bool, log: seq<Mark>, k: nat)
    requires Unambiguous(pre) && RowsMean(pre, log) && minAgeHours > 0 && k < |items|
    requires !items[k].failed && Eligible(AfterItems(pre, items, now), items[k], now, minAgeHours, levelAllows)
    ensures Find(pre, items[k].containerId).Some?
    ensures Ripe(AfterItems(pre, items, now), log + CheckMarks(pre, items, now), items[k].containerId, now, minAgeHours)
            <==> RowFits(Find(pre, items[k].containerId).value, log)
  {
    var rows := AfterItems(pre, items, now);
    AfterItemsAligned(pre, items, now);
    var i := FoundIsThere(rows, items[k].containerId);
    assert SameIds(pre[i], rows[i]);
    FindMatches(pre, items[k].containerId, i);
    ChecksKeepFit(pre, items, now, log, i);
    if !pre[i].hasUpdate {
      StampedNow(pre, items, now, k, i);
      assert false;
    } else if !RowFits(pre[i], log) {
      StampWas(pre, items, now, i);
      UnearnedStays(pre, items, now, log, i);
    }
  }

  /** A row that had an update is not stamped anew in the loop. */
  lemma {:induction false} StampWas(pre: seq<Row>, items: seq<Item>, now: int, i: nat)
    requires Unambiguous(pre) && i < |pre| && pre[i].hasUpdate
    ensures |AfterItems(pre, items, now)| == |pre|
    ensures AfterItems(pre, items, now)[i].firstSeen in {None, pre[i].firstSeen}
  {
    AfterItemsAligned(pre, items, now);
    if items != [] {
      var n := |items| - 1;
      StampWas(pre, items[..n], now, i);
      AfterItemsAligned(pre, items[..n], now);
      AfterItemAt(pre, AfterItems(pre, items[..n], now), items[n], now, i);
    }
  }

  lemma {:induction false} EligibleIdsAre(rows: seq<Row>, items: seq<Item>, now: int, minAgeHours: int,
                                          levelAllows: (Option<Row>, Item) -> bool, id: string)
    ensures id in EligibleIds(rows, items, now, minAgeHours, levelAllows) <==>
            exists k :: 0 <= k < |items| && items[k].containerId == id
                        && Eligible(rows, items[k], now, minAgeHours, levelAllows)
  {
    if items != [] {
      var n := |items| - 1;
      EligibleIdsAre(rows, items[..n], now, minAgeHours, levelAllows, id);
      assert forall k :: 0 <= k < n ==> items[..n][k] == items[k];
    }
  }

  // Heartbeats keep the meaning

  predicate InfosApart(a: Info, b: Info) {
    a.id != b.id && a.id != b.dockerId && a.dockerId != b.id && a.dockerId != b.dockerId
  }

  /** Docker gives no id twice. */
  ghost predicate UniqueInfos(infos: seq<Info>) {
    forall i, j :: 0 <= i < j < |infos| ==> InfosApart(infos[i], infos[j])
  }

  lemma UpsertKeepsFit(rows: seq<Row>, infos: seq<Info>, log: seq<Mark>)
    requires UniqueInfos(infos)
    ensures Unambiguous(Upsert(rows, infos))
    ensures RowsFit(rows, log) ==> RowsFit(Upsert(rows, infos), log)
    ensures RowsMean(rows, log) ==> RowsMean(Upsert(rows, infos), log)
  {
    var merged := Upsert(rows, infos);
    forall i, j | 0 <= i < j < |merged| ensures Apart(merged[i], merged[j]) {
      assert InfosApart(infos[i], infos[j]);
    }
    forall i | 0 <= i < |merged|
      ensures RowsFit(rows, log) ==> RowFits(merged[i], log)
      ensures RowsMean(rows, log) ==> RowMeans(merged[i], log)
    {
      var known := FindId(rows, infos[i].id);
      if known.Some? {
        FoundIdIsThere(rows, infos[i].id);
        assert RowsFit(rows, log) ==> RowFits(known.value, log);
        assert RowsMean(rows, log) ==> RowMeans(known.value, log);
      }
    }
  }

  // Results keep the meaning, unless a rollback revives a stamp

  /** A rollback gives the row an update again, and the row still has the stamp of one that is over. */
  predicate Revives(row: Row, newDigest: string) {
    !row.hasUpdate && row.firstSeen.Some? && RowAfterResult(row, newDigest, true).hasUpdate
  }

  predicate AnyRevived(rows: seq<Row>, results: seq<Result>) {
    results != [] &&
    (var r := results[|results| - 1];
     var row := Find(AfterResults(rows, results[..|results| - 1], true), r.containerId);
     AnyRevived(rows, results[..|results| - 1])
     || (r.success && r.newDigest != [] && row.Some? && Revives(row.value, r.newDigest)))
  }

  lemma {:induction false} AfterResultsAligned(rows: seq<Row>, results: seq<Result>, isRollback: bool)
    ensures Aligned(rows, AfterResults(rows, results, isRollback))
  {
    if results != [] {
      AfterResultsAligned(rows, results[..|results| - 1], isRollback);
    }
  }

  lemma AlignedIsUnambiguous(pre: seq<Row>, rows: seq<Row>)
    requires Unambiguous(pre) && Aligned(pre, rows)
    ensures Unambiguous(rows)
  {
    forall i, j | 0 <= i < j < |rows| ensures Apart(rows[i], rows[j]) {
      assert SameIds(pre[i], rows[i]) && SameIds(pre[j], rows[j]) && Apart(pre[i], pre[j]);
    }
  }

  /** A successful rollback of a container breaks what its stamp means, if and only if it revives the stamp. */
  lemma RollbackBreaksIffRevives(row: Row, newDigest: string, log: seq<Mark>)
    requires RowMeans(row, log) && RowFits(row, log)
    ensures RowFits(RowAfterResult(row, newDigest, true), log + ResultMark(Some(row), newDigest, true))
            <==> !Revives(row, newDigest)
  {
    assert log + [] == log;
  }

  lemma ResultKeepsMeaning(row: Row, newDigest: string, isRollback: bool, log: seq<Mark>)
    requires RowMeans(row, log)
    ensures
      var after, more := RowAfterResult(row, newDigest, isRollback), log + ResultMark(Some(row), newDigest, isRollback);
      RowMeans(after, more) && (RowFits(row, log) && !(isRollback && Revives(row, newDigest)) ==> RowFits(after, more))
  {
    assert log + [] == log;
    if ResultMark(Some(row), newDigest, isRollback) != [] && row.firstSeen.Some? {
      EndedBy(log, ResultMark(Some(row), newDigest, isRollback)[0], row.firstSeen.value);
    }
  }

  lemma {:induction false} ResultsKeepFit(rows: seq<Row>, results: seq<Result>, isRollback: bool, log: seq<Mark>,
      i: nat)
    requires Unambiguous(rows) && i < |rows| && RowMeans(rows[i], log)
    ensures |AfterResults(rows, results, isRollback)| == |rows|
    ensures
      var row, more := AfterResults(rows, results, isRollback)[i], log + ResultMarks(rows, results, isRollback);
      RowMeans(row, more)
          && (RowFits(rows[i], log) && !(isRollback && AnyRevived(rows, results)) ==> RowFits(row, more))
  {
    AfterResultsAligned(rows, results, isRollback);
    if results == [] {
      assert log + [] == log;
    } else {
      var n := |results| - 1;
      var r := results[n];
      ResultsKeepFit(rows, results[..n], isRollback, log, i);
      AfterResultsAligned(rows, results[..n], isRollback);
      var now, before := AfterResults(rows, results[..n], isRollback), log
          + ResultMarks(rows, results[..n], isRollback);
      AlignedIsUnambiguous(rows, now);
      var marks := if r.success && r.newDigest != []
          then ResultMark(Find(now, r.containerId), r.newDigest, isRollback) else [];
      assert log + ResultMarks(rows, results, isRollback) == before + marks;
      assert before + [] == before;
      if r.success && r.newDigest != [] && Matches(now[i], r.containerId) {
        FindMatches(now, r.containerId, i);
        ResultKeepsMeaning(now[i], r.newDigest, isRollback, before);
      } else if marks != [] {
        OtherIdFound(now, r.containerId, i);
        OtherKeepsMeaning(now[i], before, marks[0]);
      }
    }
  }

  // The handlers

  class UpdateGate {
    var rows: seq<Row>
    var inFlight: bool           // an update was sent and its result has not come
    var sent: seq<seq<string>>
    ghost var log: seq<Mark>
    ghost var revived: bool      // some rollback has revived a stamp

    ghost predicate Valid()
      reads this
    {
      Unambiguous(rows) && RowsMean(rows, log) && (!revived ==> RowsFit(rows, log))
    }

    constructor ()
      ensures Valid() && rows == [] && sent == [] && log == [] && !revived && !inFlight
    {
      rows, inFlight, sent, log, revived := [], false, [], [], false;
    }

    /** HEARTBEAT: an empty report changes nothing. */
    method Heartbeat(infos: seq<Info>)
      requires Valid() && UniqueInfos(infos)
      modifies this`rows
      ensures Valid()
      ensures rows == if infos == [] then old(rows) else Upsert(old(rows), infos)
    {
      if |infos| > 0 {
        UpsertKeepsFit(rows, infos, log);
        rows := Upsert(rows, infos);
      }
    }

    /** The loop over the items of a check. */
    method RecordItems(items: seq<Item>, now: int)
      requires Valid()
      modifies this`rows, this`log
      ensures Valid() && rows == AfterItems(old(rows), items, now)
      ensures log == old(log) + CheckMarks(old(rows), items, now)
    {
      var pre := rows;
      for i := 0 to |items|
        invariant rows == AfterItems(pre, items[..i], now) && log == old(log)
      {
        assert items[..i + 1][..i] == items[..i];
        var item := items[i];
        if !item.failed {
          rows := SetDigests(rows, item);
          var was := WasUpdate(pre, item.containerId);
          if item.hasUpdate && !was {
            rows := SetFirstSeen(rows, item.containerId, Some(now));
          } else if !item.hasUpdate && was {
            rows := SetFirstSeen(rows, item.containerId, None);
          }
        }
      }
      assert items[..|items|] == items;
      ChecksKeepAll(pre, items, now, log);
      log := log + CheckMarks(pre, items, now);
    }

    method SelectEligible(items: seq<Item>, now: int, minAgeHours: int, levelAllows: (Option<Row>, Item) -> bool)
        returns (ids: seq<string>)
      ensures ids == EligibleIds(rows, items, now, minAgeHours, levelAllows)
    {
      ids := [];
      for i := 0 to |items|
        invariant ids == EligibleIds(rows, items[..i], now, minAgeHours, levelAllows)
      {
        assert items[..i + 1][..i] == items[..i];
        if Eligible(rows, items[i], now, minAgeHours, levelAllows) {
          ids := ids + [items[i].containerId];
        }
      }
      assert items[..|items|] == items;
    }

    /** CHECK_RESULT: at most one update command, for the eligible containers, unless one is in flight. */
    method CheckResult(items: seq<Item>, now: int, autoUpdate: bool, minAgeHours: int,
                       levelAllows: (Option<Row>, Item) -> bool)
      requires Valid()
      modifies this
      ensures Valid() && revived == old(revived)
      ensures rows == AfterItems(old(rows), items, now)
      ensures log == old(log) + CheckMarks(old(rows), items, now)
      ensures
        var ids := EligibleIds(rows, items, now, minAgeHours, levelAllows);
        if autoUpdate && !old(inFlight) && ids != [] then sent == old(sent) + [ids] && inFlight
        else sent == old(sent) && inFlight == old(inFlight)
      ensures |sent| > |old(sent)| <==>
              && autoUpdate && !old(inFlight)
              && exists item :: item in items && MayGo(rows, item, now, minAgeHours, levelAllows)
      ensures |sent| > |old(sent)| ==>
                AllThatMayGo(sent[|sent| - 1], rows, items, now, minAgeHours, levelAllows)
      ensures minAgeHours > 0 && (forall item :: item in items && item.failed ==> !item.hasUpdate) ==>
                forall id :: id in EligibleIds(rows, items, now, minAgeHours, levelAllows) ==>
                               (Ripe(rows, log, id, now, minAgeHours) <==> FitsBefore(old(rows), old(log), id))
      ensures !revived ==> RowsFit(rows, log) && forall id :: FitsBefore(old(rows), old(log), id)
    {
      RipenAll(rows, items, now, minAgeHours, levelAllows, log);
      if !revived {
        AllFitBefore(rows, log);
      }
      RecordItems(items, now);
      EligibleIdsMayGo(rows, items, now, minAgeHours, levelAllows);
      NoUpdateNoneEligible(rows, items, now, minAgeHours, levelAllows);
      var updatesAvailable := exists item :: item in items && item.hasUpdate;
      if autoUpdate && updatesAvailable {
        if inFlight {
          return;
        }
        inFlight := true;
        var ids := SelectEligible(items, now, minAgeHours, levelAllows);
        if ids == [] {
          inFlight := false;
          return;
        }
        sent := sent + [ids];
      }
    }

    /** UPDATE_RESULT, as far as the rows go. */
    method UpdateResult(results: seq<Result>, isRollback: bool)
      requires Valid()
      modifies this
      ensures Valid() && !inFlight && sent == old(sent)
      ensures rows == AfterResults(old(rows), results, isRollback)
      ensures log == old(log) + ResultMarks(old(rows), results, isRollback)
      ensures revived == (old(revived) || (isRollback && AnyRevived(old(rows), results)))
    {
      inFlight := false;
      var pre := rows;
      for i := 0 to |results|
        invariant rows == AfterResults(pre, results[..i], isRollback)
        invariant log == old(log) && revived == old(revived) && !inFlight && sent == old(sent)
      {
        assert results[..i + 1][..i] == results[..i];
        var r := results[i];
        if r.success && r.newDigest != [] {
          rows := SetResult(rows, r, isRollback);
        }
      }
      assert results[..|results|] == results;
      ResultsKeepAll(pre, results, isRollback, log);
      log := log + ResultMarks(pre, results, isRollback);
      revived := revived || (isRollback && AnyRevived(pre, results));
    }

    /** A new connection, a closed one and a manual update set or clear the flag. */
    method SetInFlight(flag: bool)
      requires Valid()
      modifies this`inFlight
      ensures Valid() && inFlight == flag
    {
      inFlight := flag;
    }
  }

  lemma ChecksKeepAll(pre: seq<Row>, items: seq<Item>, now: int, log: seq<Mark>)
    requires Unambiguous(pre) && RowsMean(pre, log)
    ensures Unambiguous(AfterItems(pre, items, now))
    ensures RowsMean(AfterItems(pre, items, now), log + CheckMarks(pre, items, now))
    ensures RowsFit(pre, log) ==> RowsFit(AfterItems(pre, items, now), log + CheckMarks(pre, items, now))
  {
    AfterItemsAligned(pre, items, now);
    AlignedIsUnambiguous(pre, AfterItems(pre, items, now));
    forall i | 0 <= i < |pre|
      ensures RowMeans(AfterItems(pre, items, now)[i], log + CheckMarks(pre, items, now))
      ensures RowFits(pre[i], log) ==> RowFits(AfterItems(pre, items, now)[i], log + CheckMarks(pre, items, now))
    {
      ChecksKeepFit(pre, items, now, log, i);
    }
  }

  lemma ResultsKeepAll(rows: seq<Row>, results: seq<Result>, isRollback: bool, log: seq<Mark>)
    requires Unambiguous(rows) && RowsMean(rows, log)
    ensures Unambiguous(AfterResults(rows, results, isRollback))
    ensures RowsMean(AfterResults(rows, results, isRollback), log + ResultMarks(rows, results, isRollback))
    ensures RowsFit(rows, log) && !(isRollback && AnyRevived(rows, results)) ==>
              RowsFit(AfterResults(rows, results, isRollback), log + ResultMarks(rows, results, isRollback))
  {
    var after, more := AfterResults(rows, results, isRollback), log + ResultMarks(rows, results, isRollback);
    AfterResultsAligned(rows, results, isRollback);
    AlignedIsUnambiguous(rows, after);
    forall i | 0 <= i < |rows|
      ensures RowMeans(after[i], more)
      ensures RowFits(rows[i], log) && !(isRollback && AnyRevived(rows, results)) ==> RowFits(after[i], more)
    {
      ResultsKeepFit(rows, results, isRollback, log, i);
    }
  }

  /** Over all rows: the result of a rollback leaves every stamp meaning what it did, if and only if it revives none. */
  lemma RollbackKeepsFitIff(rows: seq<Row>, r: Result, log: seq<Mark>)
    requires Unambiguous(rows) && RowsMean(rows, log) && RowsFit(rows, log)
    ensures RowsFit(AfterResults(rows, [r], true), log + ResultMarks(rows, [r], true)) <==> !AnyRevived(rows, [r])
  {
    ResultsKeepAll(rows, [r], true, log);
    OneRollback(rows, r);
    if AnyRevived(rows, [r]) {
      var i := FoundIsThere(rows, r.containerId);
      RollbackBreaksIffRevives(rows[i], r.newDigest, log);
      assert AfterResults(rows, [r], true)[i] == RowAfterResult(rows[i], r.newDigest, true);
    }
  }

  lemma {:induction false} FindNone(rows: seq<Row>, containerId: string)
    ensures Find(rows, containerId).None? <==> forall i :: 0 <= i < |rows| ==> !Matches(rows[i], containerId)
  {
    if rows != [] {
      FindNone(rows[1..], containerId);
      assert forall i :: 0 <= i < |rows| - 1 ==> rows[1..][i] == rows[i + 1];
    }
  }

  /**
   A success reported under an identifier that no row has yet, as that of a container just recreated,
   changes no row and ends no stamp.
   */
  lemma UnknownChangesNothing(rows: seq<Row>, r: Result, isRollback: bool)
    requires Find(rows, r.containerId).None?
    ensures AfterResults(rows, [r], isRollback) == rows && ResultMarks(rows, [r], isRollback) == []
  {
    assert [r][..|[r]| - 1] == [];
    assert AfterResults(rows, [], isRollback) == rows && ResultMarks(rows, [], isRollback) == [];
    FindNone(rows, r.containerId);
    assert SetResult(rows, r, isRollback) == rows;
  }

  lemma OneRollback(rows: seq<Row>, r: Result)
    ensures
      var ok, row := r.success && r.newDigest != [], Find(rows, r.containerId);
      && AfterResults(rows, [r], true) == (if ok then SetResult(rows, r, true) else rows)
      && ResultMarks(rows, [r], true) == (if ok then ResultMark(row, r.newDigest, true) else [])
      && (AnyRevived(rows, [r]) <==> ok && row.Some? && Revives(row.value, r.newDigest))
  {
    assert [r][..|[r]| - 1] == [];
    assert AfterResults(rows, [], true) == rows && ResultMarks(rows, [], true) == [] && !AnyRevived(rows, []);
  }

  /** The stamp of this container's row, if it has one, was earned. */
  ghost predicate FitsBefore(rows: seq<Row>, log: seq<Mark>, containerId: string) {
    Find(rows, containerId).Some? ==> RowFits(Find(rows, containerId).value, log)
  }

  lemma AllFitBefore(rows: seq<Row>, log: seq<Mark>)
    requires RowsFit(rows, log)
    ensures forall id :: FitsBefore(rows, log, id)
  {
    forall id ensures FitsBefore(rows, log, id) {
      if Find(rows, id).Some? {
        var i := FoundIsThere(rows, id);
      }
    }
  }

  lemma RipenAll(pre: seq<Row>, items: seq<Item>, now: int, minAgeHours: int,
                 levelAllows: (Option<Row>, Item) -> bool, log: seq<Mark>)
    requires Unambiguous(pre) && RowsMean(pre, log)
    ensures minAgeHours > 0 && (forall item :: item in items && item.failed ==> !item.hasUpdate) ==>
              forall id :: id in EligibleIds(AfterItems(pre, items, now), items, now, minAgeHours, levelAllows) ==>
                             (Ripe(AfterItems(pre, items, now), log + CheckMarks(pre, items, now), id, now, minAgeHours)
                              <==> FitsBefore(pre, log, id))
  {
    if minAgeHours > 0 && (forall item :: item in items && item.failed ==> !item.hasUpdate) {
      var rows := AfterItems(pre, items, now);
      forall id | id in EligibleIds(rows, items, now, minAgeHours, levelAllows)
        ensures Ripe(rows, log + CheckMarks(pre, items, now), id, now, minAgeHours) <==> FitsBefore(pre, log, id)
      {
        EligibleIdsAre(rows, items, now, minAgeHours, levelAllows, id);
        var k :| 0 <= k < |items| && items[k].containerId == id
                 && Eligible(rows, items[k], now, minAgeHours, levelAllows);
        SentIsRipe(pre, items, now, minAgeHours, levelAllows, log, k);
      }
    }
  }

  lemma NoUpdateNoneEligible(rows: seq<Row>, items: seq<Item>, now: int, minAgeHours: int,
                             levelAllows: (Option<Row>, Item) -> bool)
    ensures EligibleIds(rows, items, now, minAgeHours, levelAllows) != [] ==>
            exists item :: item in items && item.hasUpdate
  {
    var ids := EligibleIds(rows, items, now, minAgeHours, levelAllows);
    if ids != [] {
      EligibleIdsAre(rows, items, now, minAgeHours, levelAllows, ids[0]);
      assert ids[0] in ids;
      var k :| 0 <= k < |items| && Eligible(rows, items[k], now, minAgeHours, levelAllows);
      assert items[k] in items;
    }
  }

  // Where the obvious claim fails

  lemma OneRowAfterItem(pre: Row, row: Row, item: Item, now: int)
    requires SameIds(pre, row) && !item.failed && Matches(row, item.containerId)
    ensures AfterItems([pre], [item], now) == AfterItem([pre], [pre], item, now)
    ensures AfterItem([pre], [row], item, now) == [RowAfter(pre.hasUpdate, row, item, now)]
  {
    assert [item][..0] == [];
    assert Find([pre], item.containerId) == Some(pre);
  }

  lemma OneRowAfterResult(row: Row, r: Result, isRollback: bool)
    requires Matches(row, r.containerId) && r.success && r.newDigest != []
    ensures AfterResults([row], [r], isRollback) == [RowAfterResult(row, r.newDigest, isRollback)]
  {
    assert [r][..0] == [];
  }

  /**
   An update is found and installed, rolled back an hour later, and found again by the next check:
   it is sent at once, on the strength of a stamp from before the successful update.
   */
  lemma RollbackSkipsTheWait(row: Row, found: Item, before: string, t: int, levelAllows: (Option<Row>, Item) -> bool)
    requires !row.hasUpdate && !HeldBack(row) && !row.isStateful && found.containerId == row.id
    requires found.hasUpdate && !found.failed && found.latest != [] && before != [] && before != found.latest
    requires forall r, item :: levelAllows(r, item)
    ensures
      var update, rollback := Result(row.id, true, found.latest), Result(row.id, true, before);
      var checked := AfterItems([row], [found], t);
      var updated := AfterResults(checked, [update], false);
      var restored := AfterResults(updated, [rollback], true);
      var again := AfterItems(restored, [found], t + HOUR_MS);
      var log := [Checked(row.id, t, true), Updated(row.id), Checked(row.id, t + HOUR_MS, true)];
      && log == CheckMarks([row], [found], t) + ResultMarks(checked, [update], false)
                + ResultMarks(updated, [rollback], true) + CheckMarks(restored, [found], t + HOUR_MS)
      && AnyRevived(updated, [rollback])
      && Eligible(again, found, t + HOUR_MS, 1, levelAllows)
      && !Ripe(again, log, row.id, t + HOUR_MS, 1)
  {
    var update, rollback := Result(row.id, true, found.latest), Result(row.id, true, before);
    OneRowAfterItem(row, row, found, t);
    var checked := RowAfter(false, row, found, t);
    OneRowAfterResult(checked, update, false);
    var updated := RowAfterResult(checked, found.latest, false);
    OneRowAfterResult(updated, rollback, true);
    var restored := RowAfterResult(updated, before, true);
    OneRowAfterItem(restored, restored, found, t + HOUR_MS);
    var again := RowAfter(true, restored, found, t + HOUR_MS);
    assert [found][..0] == [] && [update][..0] == [] && [rollback][..0] == [];
    var log := [Checked(row.id, t, true), Updated(row.id), Checked(row.id, t + HOUR_MS, true)];
    assert again.firstSeen == Some(t) && Find([again], row.id) == Some(again);
    assert log[1] == Updated(row.id) && log[2] == Checked(row.id, t + HOUR_MS, true);
    assert !Earned(log, row.id, t);
  }
}
