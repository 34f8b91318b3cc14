/**
 How tags are ordered as versions, and which updates a level admits: the agent's rules, and the
 controller's port of them.
 */
module Versions {
  import opened Options
  import opened Ordering

  const MAX_INT := 0x7FFF_FFFF_FFFF_FFFF

  // Numbers in tags

  predicate IsDigit(c: char) {
    '0' <= c <= '9'
  }

  predicate AllDigits(s: string) {
    forall i :: 0 <= i < |s| ==> IsDigit(s[i])
  }

  function Value(s: string): nat
    requires AllDigits(s)
  {
    if s == [] then 0 else 10 * Value(s[..|s| - 1]) + (s[|s| - 1] as int - '0' as int)
  }

  function WithoutPlus(s: string): string {
    if s != [] && s[0] == '+' then s[1..] else s
  }

  /** Go's `strconv.Atoi`; a minus sign cannot occur, as it separates segments. */
  function Atoi(s: string): Option<int> {
    var digits := WithoutPlus(s);
    if digits != [] && AllDigits(digits) && Value(digits) <= MAX_INT then Some(Value(digits)) else None
  }

  function DigitsAtFront(s: string): (r: string)
    ensures AllDigits(r) && r <= s
  {
    if s == [] || !IsDigit(s[0]) then [] else [s[0]] + DigitsAtFront(s[1..])
  }

  /** JavaScript's `Number.parseInt` with base 10, on text without white space and minus signs. */
  function ParseInt(s: string): Option<int> {
    var digits := DigitsAtFront(WithoutPlus(s));
    if digits != [] then Some(Value(digits)) else None
  }

  predicate IsSeparator(c: char) {
    c == '.' || c == '-' || c == '_'
  }

  /** The pieces between separators, empty ones included. */
  function Split(s: string): (r: seq<string>)
    ensures |r| > 0
  {
    if s == [] then [[]]
    else
      var rest := Split(s[1..]);
      if IsSeparator(s[0]) then [[]] + rest else [[s[0]] + rest[0]] + rest[1..]
  }

  /** Each dot, hyphen and underscore separates, and nothing else does. */
  lemma {:induction false} SplitsAtEach(piece: string, separator: char, rest: string)
    requires forall i :: 0 <= i < |piece| ==> piece[i] !in ".-_"
    requires separator in ".-_"
    ensures Split(piece) == [piece]
    ensures Split(piece + [separator] + rest) == [piece] + Split(rest)
  {
    if piece == [] {
      assert (piece + [separator] + rest)[1..] == rest;
    } else {
      forall i | 0 <= i < |piece[1..]| ensures piece[1..][i] !in ".-_" {
        assert piece[1..][i] == piece[i + 1];
      }
      SplitsAtEach(piece[1..], separator, rest);
      assert (piece + [separator] + rest)[1..] == piece[1..] + [separator] + rest;
      assert piece[0] !in ".-_" && [piece[0]] + piece[1..] == piece;
    }
  }

  function NonEmpty(segments: seq<string>): seq<string> {
    if segments == [] then []
    else (if segments[0] == [] then [] else [segments[0]]) + NonEmpty(segments[1..])
  }

  function TrimPrefix(s: string, c: char): string {
    if s != [] && s[0] == c then s[1..] else s
  }

  /** The numbers in a tag, as the agent sees them: the segments that are numbers. */
  function Parts(tag: string): seq<int> {
    Numbers(NonEmpty(Split(TrimPrefix(TrimPrefix(tag, 'v'), 'V'))))
  }

  function Numbers(segments: seq<string>): seq<int> {
    if segments == [] then []
    else
      var n := Atoi(segments[|segments| - 1]);
      Numbers(segments[..|segments| - 1]) + (if n.Some? then [n.value] else [])
  }

  /** The numbers in a tag, as the controller sees them: what segments start with, up to one that starts with none. */
  function PortParts(tag: string): seq<int> {
    PortNumbers(Split(Stripped(tag)), [])
  }

  function Stripped(tag: string): string {
    if tag != [] && (tag[0] == 'v' || tag[0] == 'V') then tag[1..] else tag
  }

  function PortNumbers(segments: seq<string>, parts: seq<int>): seq<int> {
    if segments == [] then parts
    else
      match ParseInt(segments[0])
      case Some(n) => PortNumbers(segments[1..], parts + [n])
      case None => if parts != [] then parts else PortNumbers(segments[1..], parts)
  }

  method ExtractVersionParts(tag: string) returns (parts: seq<int>)
    ensures parts == Parts(tag)
  {
    var trimmed := TrimPrefix(tag, 'v');
    trimmed := TrimPrefix(trimmed, 'V');
    var segments := NonEmpty(Split(trimmed));
    parts := [];
    for i := 0 to |segments|
      invariant parts == Numbers(segments[..i])
    {
      assert segments[..i + 1][..i] == segments[..i];
      var n := Atoi(segments[i]);
      if n.Some? {
        parts := parts + [n.value];
      }
    }
    assert segments[..|segments|] == segments;
  }

  method PortExtractVersionParts(tag: string) returns (parts: seq<int>)
    ensures parts == PortParts(tag)
  {
    var segments := Split(Stripped(tag));
    parts := [];
    for i := 0 to |segments|
      invariant PortNumbers(segments, []) == PortNumbers(segments[i..], parts)
    {
      assert segments[i..][1..] == segments[i + 1..];
      var n := ParseInt(segments[i]);
      if n.Some? {
        parts := parts + [n.value];
      } else if |parts| > 0 {
        break;
      }
    }
  }

  // The order of tags

  function Head(parts: seq<int>): int {
    if parts == [] then 0 else parts[0]
  }

  function Tail(parts: seq<int>): seq<int> {
    if parts == [] then [] else parts[1..]
  }

  /** Part by part, a missing one counting as 0: positive if `a` is the newer. */
  function Compare(a: seq<int>, b: seq<int>): int
    decreases |a| + |b|
  {
    if a == [] && b == [] then 0
    else if Head(a) != Head(b) then (if Head(a) > Head(b) then 1 else -1)
    else Compare(Tail(a), Tail(b))
  }

  /** `a` is sorted before `b`. */
  predicate Newer(a: string, b: string) {
    Compare(Parts(a), Parts(b)) > 0 || (Compare(Parts(a), Parts(b)) == 0 && Less(b, a))
  }

  lemma {:induction false} CompareBothWays(a: seq<int>, b: seq<int>)
    ensures Compare(a, b) == -Compare(b, a)
    decreases |a| + |b|
  {
    if a != [] || b != [] {
      CompareBothWays(Tail(a), Tail(b));
    }
  }

  lemma {:induction false} CompareIsTransitive(a: seq<int>, b: seq<int>, c: seq<int>)
    requires Compare(a, b) >= 0 && Compare(b, c) >= 0
    ensures Compare(a, c) >= 0
    ensures Compare(a, c) == 0 <==> Compare(a, b) == 0 && Compare(b, c) == 0
    decreases |a| + |b| + |c|
  {
    if a != [] || b != [] || c != [] {
      CompareUnfolds(a, b);
      CompareUnfolds(b, c);
      CompareUnfolds(a, c);
      if Head(a) == Head(b) == Head(c) {
        CompareIsTransitive(Tail(a), Tail(b), Tail(c));
      }
    }
  }

  lemma CompareUnfolds(a: seq<int>, b: seq<int>)
    ensures Compare(a, b) == if Head(a) > Head(b) then 1 else if Head(a) < Head(b) then -1
            else Compare(Tail(a), Tail(b))
  {}

  /** Of two different tags exactly one is newer. */
  lemma NewerIsTotal(a: string, b: string)
    ensures a == b <==> !Newer(a, b) && !Newer(b, a)
    ensures !(Newer(a, b) && Newer(b, a))
  {
    CompareBothWays(Parts(a), Parts(b));
    LessIsTotal(a, b);
  }

  lemma NewerIsTransitive(a: string, b: string, c: string)
    requires Newer(a, b) && Newer(b, c)
    ensures Newer(a, c)
  {
    CompareIsTransitive(Parts(a), Parts(b), Parts(c));
    if Less(b, a) && Less(c, b) {
      LessIsTransitive(c, b, a);
    }
  }

  function Drop(parts: seq<int>, k: nat): seq<int> {
    if k < |parts| then parts[k..] else []
  }

  /** The comparison the tags are sorted by. */
  method IsNewer(a: string, b: string, aParts: seq<int>, bParts: seq<int>) returns (newer: bool)
    requires aParts == Parts(a) && bParts == Parts(b)
    ensures newer == Newer(a, b)
  {
    var c := CompareParts(aParts, bParts);
    if c != 0 {
      return c > 0;
    }
    return Less(b, a);
  }

  method CompareParts(a: seq<int>, b: seq<int>) returns (c: int)
    ensures c == Compare(a, b)
  {
    var maxLen := if |b| > |a| then |b| else |a|;
    for k := 0 to maxLen
      invariant Compare(a, b) == Compare(Drop(a, k), Drop(b, k))
    {
      var av := if k < |a| then a[k] else 0;
      var bv := if k < |b| then b[k] else 0;
      assert Tail(Drop(a, k)) == Drop(a, k + 1) && Tail(Drop(b, k)) == Drop(b, k + 1);
      if av != bv {
        return if av > bv then 1 else -1;
      }
    }
    return 0;
  }

  function ByVersion(): (string, string) -> bool {
    (a: string, b: string) => Newer(a, b)
  }

  lemma NewerIsOrder()
    ensures IsOrder(ByVersion())
  {
    forall a, b ensures ByVersion()(a, b) ==> !ByVersion()(b, a) {
      NewerIsTotal(a, b);
    }
    forall a, b, c | ByVersion()(a, c) ensures ByVersion()(a, b) || ByVersion()(b, c) {
      NewerIsTotal(a, b);
      if Newer(b, a) {
        NewerIsTransitive(b, a, c);
      }
    }
  }

  // The newest tag

  /** The newest of the tags: every other one is older. */
  ghost predicate IsLatest(latest: string, tags: seq<string>) {
    latest in tags && forall t :: t in tags ==> t == latest || Newer(latest, t)
  }

  /** It does not depend on the order of the tags, nor on how they are sorted. */
  lemma LatestIsUnique(a: string, tags: seq<string>, b: string, others: seq<string>)
    requires IsLatest(a, tags) && IsLatest(b, others) && forall t :: t in tags <==> t in others
    ensures a == b
  {
    NewerIsTotal(a, b);
  }

  method FindLatestSemver(tags: seq<string>) returns (latest: string)
    ensures if tags == [] then latest == [] else IsLatest(latest, tags)
  {
    if |tags| == 0 {
      return [];
    }
    var sorted := SortBy(tags, ByVersion());
    SortKeepsAll(tags, ByVersion());
    latest := sorted[0];
    FirstIsLatest(tags);
  }

  lemma FirstIsLatest(tags: seq<string>)
    requires tags != []
    ensures SortBy(tags, ByVersion()) != [] && IsLatest(SortBy(tags, ByVersion())[0], tags)
  {
    var sorted := SortBy(tags, ByVersion());
    SortKeepsAll(tags, ByVersion());
    NewerIsOrder();
    SortOrders(tags, ByVersion());
    SortedAre(tags, ByVersion(), sorted[0]);
    forall t | t in tags ensures t == sorted[0] || Newer(sorted[0], t) {
      SortedAre(tags, ByVersion(), t);
      if t != sorted[0] {
        assert t in sorted[1..];
        assert !ByVersion()(t, sorted[0]);
        NewerIsTotal(sorted[0], t);
      }
    }
  }

  // Levels

  /** The update levels by name; `Unset` is the empty one, `Other` any unknown one. */
  datatype Level = Patch | Minor | Major | All | Unset | Other

  function Part(parts: seq<int>, k: nat): int {
    if k < |parts| then parts[k] else 0
  }

  predicate Admits(cur: seq<int>, can: seq<int>, level: Level) {
    match level
    case Patch => Part(can, 0) == Part(cur, 0) && Part(can, 1) == Part(cur, 1) && Part(can, 2) > Part(cur, 2)
    case Minor =>
      Part(can, 0) == Part(cur, 0)
      && (Part(can, 1) > Part(cur, 1) || (Part(can, 1) == Part(cur, 1) && Part(can, 2) > Part(cur, 2)))
    case _ => Compare(can[..Least(|can|, 3)], cur[..Least(|cur|, 3)]) > 0
  }

  function Least(a: nat, b: nat): nat {
    if a <= b then a else b
  }

  predicate MatchesLevel(current: string, candidate: string, level: Level) {
    if Parts(current) == [] || Parts(candidate) == [] || level == Other then candidate != current
    else Admits(Parts(current), Parts(candidate), level)
  }

  predicate PortMatchesLevel(current: string, candidate: string, level: Level) {
    if PortParts(current) == [] || PortParts(candidate) == [] then candidate != current
    else Admits(PortParts(current), PortParts(candidate), level)
  }

  method Pad(parts: seq<int>) returns (padded: seq<int>)
    ensures |padded| >= 3 && forall k: nat :: Part(padded, k) == Part(parts, k)
  {
    padded := parts;
    while |padded| < 3
      invariant forall k: nat :: Part(padded, k) == Part(parts, k)
    {
      padded := padded + [0];
    }
  }

  lemma CompareThree(can: seq<int>, cur: seq<int>)
    ensures Compare(can[..Least(|can|, 3)], cur[..Least(|cur|, 3)]) > 0 <==>
            || Part(can, 0) > Part(cur, 0)
            || (Part(can, 0) == Part(cur, 0) && (Part(can, 1) > Part(cur, 1)
                || (Part(can, 1) == Part(cur, 1) && Part(can, 2) > Part(cur, 2))))
  {
    var a, b := can[..Least(|can|, 3)], cur[..Least(|cur|, 3)];
    CompareUnfolds(a, b);
    CompareUnfolds(Tail(a), Tail(b));
    CompareUnfolds(Tail(Tail(a)), Tail(Tail(b)));
    assert Tail(Tail(Tail(a))) == [] && Tail(Tail(Tail(b))) == [];
  }

  /** The level switch of both programs, on numbers; they differ in what they do at an unknown level. */
  method AdmitsPadded(cur: seq<int>, can: seq<int>, level: Level) returns (ok: bool)
    ensures ok == Admits(cur, can, level)
  {
    var c := Pad(cur);
    var d := Pad(can);
    assert Part(c, 0) == c[0] && Part(c, 1) == c[1] && Part(c, 2) == c[2];
    assert Part(d, 0) == d[0] && Part(d, 1) == d[1] && Part(d, 2) == d[2];
    CompareThree(can, cur);
    match level {
      case Patch =>
        return d[0] == c[0] && d[1] == c[1] && d[2] > c[2];
      case Minor =>
        if d[0] != c[0] {
          return false;
        }
        if d[1] > c[1] {
          return true;
        }
        return d[1] == c[1] && d[2] > c[2];
      case _ =>
        for i := 0 to 3
          invariant forall k :: 0 <= k < i ==> c[k] == d[k]
        {
          if d[i] > c[i] {
            return true;
          }
          if d[i] < c[i] {
            return false;
          }
        }
        return false;
    }
  }

  method SemverMatchesLevel(current: string, candidate: string, level: Level) returns (ok: bool)
    ensures ok == MatchesLevel(current, candidate, level)
  {
    var cur := ExtractVersionParts(current);
    var can := ExtractVersionParts(candidate);
    if |cur| == 0 || |can| == 0 || level == Other {
      return candidate != current;
    }
    ok := AdmitsPadded(cur, can, level);
  }

  method PortSemverMatchesLevel(current: string, candidate: string, level: Level) returns (ok: bool)
    ensures ok == PortMatchesLevel(current, candidate, level)
  {
    var cur := PortExtractVersionParts(current);
    var can := PortExtractVersionParts(candidate);
    if |cur| == 0 || |can| == 0 {
      return candidate != current;
    }
    ok := AdmitsPadded(cur, can, level);
  }

  /** What a patch update may be, a minor one may, and what a minor update may be, a major one may. */
  lemma LevelsNest(current: string, candidate: string)
    ensures MatchesLevel(current, candidate, Patch) ==> MatchesLevel(current, candidate, Minor)
    ensures MatchesLevel(current, candidate, Minor) ==> MatchesLevel(current, candidate, Major)
  {
    CompareThree(Parts(candidate), Parts(current));
  }

  /** At a known level, an admitted version is a later one. */
  lemma AdmittedIsNewer(current: string, candidate: string, level: Level)
    requires Parts(current) != [] && Parts(candidate) != [] && level != Other
    requires MatchesLevel(current, candidate, level)
    ensures Newer(candidate, current)
  {
    AdmittedRises(Parts(current), Parts(candidate), level);
    RiseDecides(Parts(current), Parts(candidate));
  }

  lemma AdmittedRises(cur: seq<int>, can: seq<int>, level: Level)
    requires level != Other && Admits(cur, can, level)
    ensures Admits(cur, can, Major)
  {
    CompareThree(can, cur);
  }

  /** A rise in the first three numbers settles the comparison of all. */
  lemma RiseDecides(cur: seq<int>, can: seq<int>)
    requires Admits(cur, can, Major)
    ensures Compare(can, cur) > 0
  {
    CompareThree(can, cur);
    CompareUnfolds(can, cur);
    CompareUnfolds(Tail(can), Tail(cur));
    CompareUnfolds(Tail(Tail(can)), Tail(Tail(cur)));
  }

  function Eligible(tags: seq<string>, current: string, level: Level): seq<string> {
    if tags == [] then []
    else
      var t := tags[|tags| - 1];
      Eligible(tags[..|tags| - 1], current, level) + (if MatchesLevel(current, t, level) then [t] else [])
  }

  lemma {:induction false} EligibleAre(tags: seq<string>, current: string, level: Level, t: string)
    ensures t in Eligible(tags, current, level) <==> t in tags && MatchesLevel(current, t, level)
  {
    if tags != [] {
      EligibleAre(tags[..|tags| - 1], current, level, t);
      assert tags == tags[..|tags| - 1] + [tags[|tags| - 1]];
    }
  }

  method FindLatestSemverAtLevel(tags: seq<string>, current: string, level: Level) returns (latest: string)
    ensures
      var candidates := if level == Unset then tags else Eligible(tags, current, level);
      if candidates == [] then latest == [] else IsLatest(latest, candidates)
  {
    if |tags| == 0 || level == Unset {
      latest := FindLatestSemver(tags);
      return;
    }
    var eligible := [];
    for i := 0 to |tags|
      invariant eligible == Eligible(tags[..i], current, level)
    {
      assert tags[..i + 1][..i] == tags[..i];
      var ok := SemverMatchesLevel(current, tags[i], level);
      if ok {
        eligible := eligible + [tags[i]];
      }
    }
    assert tags[..|tags|] == tags;
    latest := FindLatestSemver(eligible);
  }

  /** What is found at a known level is among the tags, newer than the current one, and newer than all else admitted. */
  lemma FoundIsNewer(tags: seq<string>, current: string, level: Level, latest: string)
    requires level != Other && level != Unset && Parts(current) != []
    requires IsLatest(latest, Eligible(tags, current, level)) && Parts(latest) != []
    ensures latest in tags && MatchesLevel(current, latest, level) && Newer(latest, current)
    ensures forall t :: t in tags && MatchesLevel(current, t, level) && t != latest ==> Newer(latest, t)
  {
    EligibleAre(tags, current, level, latest);
    AdmittedIsNewer(current, latest, level);
    forall t | t in tags && MatchesLevel(current, t, level) && t != latest ensures Newer(latest, t) {
      EligibleAre(tags, current, level, t);
    }
  }

  // Tags of numbers between dots

  function Dotted(segments: seq<string>): string
    requires |segments| > 0
  {
    if |segments| == 1 then segments[0] else segments[0] + ['.'] + Dotted(segments[1..])
  }

  ghost predicate AllNumbers(segments: seq<string>) {
    |segments| > 0 && forall i :: 0 <= i < |segments| ==> IsNumber(segments[i])
  }

  /** A number that fits 64 bits. */
  ghost predicate IsNumber(s: string) {
    s != [] && AllDigits(s) && Value(s) <= MAX_INT
  }

  /** Nothing, or a v in either case. */
  predicate IsPrefix(prefix: string) {
    prefix == [] || prefix == ['v'] || prefix == ['V']
  }

  function Values(segments: seq<string>): seq<int>
    requires AllNumbers(segments) || segments == []
  {
    if segments == [] then [] else Values(segments[..|segments| - 1]) + [Value(segments[|segments| - 1])]
  }

  lemma {:induction false} SplitDigits(digits: string, rest: string)
    requires AllDigits(digits)
    ensures Split(digits) == [digits]
    ensures Split(digits + ['.'] + rest) == [digits] + Split(rest)
  {
    if digits == [] {
      assert digits + ['.'] + rest == ['.'] + rest;
    } else {
      SplitDigits(digits[1..], rest);
      assert (digits + ['.'] + rest)[1..] == digits[1..] + ['.'] + rest;
      assert [digits[0]] + digits[1..] == digits;
    }
  }

  lemma {:induction false} SplitUndoesDotted(segments: seq<string>)
    requires AllNumbers(segments)
    ensures Split(Dotted(segments)) == segments
  {
    var first, rest := segments[0], segments[1..];
    assert IsNumber(first) && segments == [first] + rest;
    if |segments| == 1 {
      SplitDigits(first, []);
    } else {
      forall i | 0 <= i < |rest| ensures IsNumber(rest[i]) {
        assert rest[i] == segments[i + 1];
      }
      SplitUndoesDotted(rest);
      SplitDigits(first, Dotted(rest));
    }
  }

  lemma {:induction false} NumbersAreValues(segments: seq<string>)
    requires AllNumbers(segments)
    ensures Numbers(segments) == Values(segments)
  {
    var n := |segments| - 1;
    assert IsNumber(segments[n]);
    if n > 0 {
      NumbersAreValues(segments[..n]);
    }
  }

  lemma {:induction false} AllAtFront(s: string)
    requires AllDigits(s)
    ensures DigitsAtFront(s) == s
  {
    if s != [] {
      AllAtFront(s[1..]);
    }
  }

  /** Both programs read such a tag, with or without a leading v, as its numbers. */
  lemma BothReadNumbers(segments: seq<string>, prefix: string)
    requires AllNumbers(segments) && IsPrefix(prefix)
    ensures Parts(prefix + Dotted(segments)) == Values(segments) == PortParts(prefix + Dotted(segments))
  {
    PrefixIsStripped(segments, prefix);
    SplitUndoesDotted(segments);
    JustNumbers(prefix + Dotted(segments), segments);
  }

  lemma JustNumbers(tag: string, segments: seq<string>)
    requires OnePrefix(tag) && AllNumbers(segments) && Split(Stripped(tag)) == segments
    ensures Parts(tag) == Values(segments) == PortParts(tag)
  {
    assert segments == [] + segments + [];
    BothReadRow(tag, [], segments, []);
    NothingBehind(Values(segments));
  }

  lemma NothingBehind(numbers: seq<int>)
    ensures numbers + Numbers([]) == numbers
  {}

  lemma PrefixIsStripped(segments: seq<string>, prefix: string)
    requires AllNumbers(segments) && IsPrefix(prefix)
    ensures Stripped(prefix + Dotted(segments)) == Dotted(segments) && OnePrefix(prefix + Dotted(segments))
  {
    var tag, body := prefix + Dotted(segments), Dotted(segments);
    assert IsNumber(segments[0]);
    assert body[0] == segments[0][0] && IsDigit(body[0]);
    if prefix == [] {
      assert tag == body;
    } else {
      assert tag[1..] == body && tag[1] == body[0];
    }
  }

  /** On such tags, and at known levels, the port gives the agent's verdict. */
  lemma PortAgrees(v: string, current: seq<string>, w: string, candidate: seq<string>, level: Level)
    requires AllNumbers(current) && AllNumbers(candidate) && IsPrefix(v) && IsPrefix(w)
    requires level != Other
    ensures MatchesLevel(v + Dotted(current), w + Dotted(candidate), level) ==
            PortMatchesLevel(v + Dotted(current), w + Dotted(candidate), level)
  {
    BothReadNumbers(current, v);
    BothReadNumbers(candidate, w);
  }

  /**
   At an unknown level the agent admits any change, the port only a rise: they agree where the port reads
   nothing either, and on equal tags, and on rises.
   */
  lemma UnknownLevel(current: string, candidate: string)
    ensures
      MatchesLevel(current, candidate, Other) == PortMatchesLevel(current, candidate, Other) <==>
      || PortParts(current) == [] || PortParts(candidate) == []
      || candidate == current || Admits(PortParts(current), PortParts(candidate), Major)
  {
    if candidate == current {
      CompareThree(PortParts(current), PortParts(current));
    }
  }

  /** On tags of numbers between dots that leaves equal tags and rises. */
  lemma UnknownLevelOnNumbers(v: string, current: seq<string>, w: string, candidate: seq<string>)
    requires AllNumbers(current) && AllNumbers(candidate) && IsPrefix(v) && IsPrefix(w)
    ensures
      var a, b := v + Dotted(current), w + Dotted(candidate);
      MatchesLevel(a, b, Other) == PortMatchesLevel(a, b, Other) <==>
      b == a || Admits(Values(current), Values(candidate), Major)
  {
    BothReadNumbers(current, v);
    BothReadNumbers(candidate, w);
    UnknownLevel(v + Dotted(current), w + Dotted(candidate));
  }

  /** A number followed by a letter, as in "16a", is no number to the agent, but is one to the port. */
  lemma SuffixedNumber(digits: string, letter: char)
    requires IsNumber(digits) && ('a' <= letter <= 'z')
    ensures Parts(digits + [letter]) == [] && PortParts(digits + [letter]) == [Value(digits)]
  {
    var tag := digits + [letter];
    assert IsDigit(tag[0]);
    NoSeparator(tag);
    assert Split(TrimPrefix(TrimPrefix(tag, 'v'), 'V')) == [tag];
    assert [tag][..0] == [] && [tag][1..] == [];
    assert NonEmpty([tag]) == [tag] + NonEmpty([tag][1..]);
    assert !IsDigit(tag[|tag| - 1]) && WithoutPlus(tag) == tag;
    assert Atoi(tag) == None;
    assert Numbers([tag]) == Numbers([tag][..0]) + [];
    DigitsStop(digits, letter);
    assert ParseInt(tag) == Some(Value(digits));
    assert PortNumbers([tag], []) == PortNumbers([], [Value(digits)]);
  }

  lemma {:induction false} NoSeparator(s: string)
    requires forall i :: 0 <= i < |s| ==> !IsSeparator(s[i])
    ensures Split(s) == [s]
  {
    if s != [] {
      NoSeparator(s[1..]);
      assert [s[0]] + s[1..] == s;
    }
  }

  lemma {:induction false} DigitsStop(digits: string, letter: char)
    requires AllDigits(digits) && !IsDigit(letter)
    ensures DigitsAtFront(digits + [letter]) == digits
  {
    if digits != [] {
      DigitsStop(digits[1..], letter);
      assert (digits + [letter])[1..] == digits[1..] + [letter];
    }
  }

  /** So from "16a" to "15a" the agent moves at any level, and the port at none. */
  lemma SuffixedNumbersDiffer(newer: string, older: string, letter: char, level: Level)
    requires IsNumber(newer) && IsNumber(older) && Value(newer) > Value(older) && 'a' <= letter <= 'z'
    ensures MatchesLevel(newer + [letter], older + [letter], level)
    ensures !PortMatchesLevel(newer + [letter], older + [letter], level)
  {
    SuffixedNumber(newer, letter);
    SuffixedNumber(older, letter);
    CompareThree([Value(older)], [Value(newer)]);
    assert PortParts(newer + [letter]) != PortParts(older + [letter]);
  }

  // Semantic Versioning

  function Digit(d: nat): char
    requires d < 10
  {
    '0' + (d as char)
  }

  function Decimal(n: nat): (s: string)
    ensures s != [] && AllDigits(s)
  {
    if n < 10 then [Digit(n)] else Decimal(n / 10) + [Digit(n % 10)]
  }

  lemma {:induction false} ValueUndoesDecimal(n: nat)
    ensures Value(Decimal(n)) == n
  {
    if n >= 10 {
      ValueUndoesDecimal(n / 10);
      assert Decimal(n)[..|Decimal(n)| - 1] == Decimal(n / 10);
    } else {
      assert Value(Decimal(n)[..0]) == 0;
    }
  }

  /** X.Y.Z, as in section 2 of Semantic Versioning 2.0.0. */
  function Plain(x: nat, y: nat, z: nat): string {
    Dotted([Decimal(x), Decimal(y), Decimal(z)])
  }

  lemma PlainParts(x: nat, y: nat, z: nat)
    requires x <= MAX_INT && y <= MAX_INT && z <= MAX_INT
    ensures Parts(Plain(x, y, z)) == [x, y, z] == PortParts(Plain(x, y, z))
  {
    var segments := [Decimal(x), Decimal(y), Decimal(z)];
    ValueUndoesDecimal(x);
    ValueUndoesDecimal(y);
    ValueUndoesDecimal(z);
    assert forall i :: 0 <= i < 3 ==> IsNumber(segments[i]);
    BothReadNumbers(segments, []);
    assert [] + Dotted(segments) == Dotted(segments);
    assert segments[..2] == [Decimal(x), Decimal(y)] && segments[..2][..1] == [Decimal(x)];
    assert segments[..2][..1][..0] == [];
    assert Values(segments[..2][..1]) == [x];
    assert Values(segments[..2]) == [x, y];
  }

  /** The order of plain versions is that of section 11.2 of Semantic Versioning 2.0.0. */
  lemma PlainPrecedence(a: (nat, nat, nat), b: (nat, nat, nat))
    requires a.0 <= MAX_INT && a.1 <= MAX_INT && a.2 <= MAX_INT && b.0 <= MAX_INT && b.1 <= MAX_INT && b.2 <= MAX_INT
    ensures Newer(Plain(a.0, a.1, a.2), Plain(b.0, b.1, b.2)) <==>
            a.0 > b.0 || (a.0 == b.0 && (a.1 > b.1 || (a.1 == b.1 && a.2 > b.2)))
  {
    PlainParts(a.0, a.1, a.2);
    PlainParts(b.0, b.1, b.2);
    CompareTriples([a.0, a.1, a.2], [b.0, b.1, b.2]);
    if a == b {
      LessIsTotal(Plain(a.0, a.1, a.2), Plain(b.0, b.1, b.2));
    }
  }

  lemma CompareTriples(a: seq<int>, b: seq<int>)
    requires |a| == |b| == 3
    ensures Compare(a, b) > 0 <==> a[0] > b[0] || (a[0] == b[0] && (a[1] > b[1] || (a[1] == b[1] && a[2] > b[2])))
    ensures Compare(a, b) == 0 <==> a == b
  {
    CompareUnfolds(a, b);
    CompareUnfolds(Tail(a), Tail(b));
    CompareUnfolds(Tail(Tail(a)), Tail(Tail(b)));
    assert Tail(Tail(Tail(a))) == [] && Tail(Tail(Tail(b))) == [];
  }

  // Where the port agrees

  /** Agent and port read a version in the tag or none, and the same up to its third number. */
  ghost predicate ReadsAlike(tag: string) {
    && (Parts(tag) == [] <==> PortParts(tag) == [])
    && forall k :: 0 <= k < 3 ==> Part(Parts(tag), k) == Part(PortParts(tag), k)
  }

  /** On tags they read alike the port gives the agent's verdict at every known level. */
  lemma AlikeAgree(current: string, candidate: string, level: Level)
    requires ReadsAlike(current) && ReadsAlike(candidate) && level != Other
    ensures MatchesLevel(current, candidate, level) == PortMatchesLevel(current, candidate, level)
  {
    CompareThree(Parts(candidate), Parts(current));
    CompareThree(PortParts(candidate), PortParts(current));
  }

  /** Whichever of the two tags is the current one. */
  ghost predicate AgreeOn(a: string, b: string) {
    && MatchesLevel(a, b, Major) == PortMatchesLevel(a, b, Major)
    && MatchesLevel(b, a, Major) == PortMatchesLevel(b, a, Major)
  }

  /** And only on those: any other tag is judged differently against some plain version. */
  lemma ReadsAlikeIff(tag: string)
    ensures ReadsAlike(tag) <==>
            forall x: nat, y: nat, z: nat :: x <= MAX_INT && y <= MAX_INT && z <= MAX_INT ==>
              AgreeOn(tag, Plain(x, y, z))
  {
    if ReadsAlike(tag) {
      forall x: nat, y: nat, z: nat | x <= MAX_INT && y <= MAX_INT && z <= MAX_INT
        ensures AgreeOn(tag, Plain(x, y, z))
      {
        PlainParts(x, y, z);
        AlikeAgree(tag, Plain(x, y, z), Major);
        AlikeAgree(Plain(x, y, z), tag, Major);
      }
    } else if Parts(tag) == [] || PortParts(tag) == [] {
      OneReadsNothing(tag);
    } else {
      PartsAreSmall(tag);
      ReadsOther(tag, Part(Parts(tag), 0), Part(Parts(tag), 1), Part(Parts(tag), 2));
    }
  }

  /** Where one of them reads no version, it admits the change to 0.0.0 and back, which the other cannot. */
  lemma OneReadsNothing(tag: string)
    requires (Parts(tag) == []) != (PortParts(tag) == [])
    ensures !AgreeOn(tag, Plain(0, 0, 0))
  {
    PlainParts(0, 0, 0);
    NotBothRise(Parts(tag), [0, 0, 0]);
    NotBothRise(PortParts(tag), [0, 0, 0]);
  }

  /** Against the agent's own reading of it, a tag is neither newer nor older to the agent. */
  lemma ReadsOther(tag: string, x: nat, y: nat, z: nat)
    requires !ReadsAlike(tag) && Parts(tag) != [] && PortParts(tag) != []
    requires x == Part(Parts(tag), 0) && y == Part(Parts(tag), 1) && z == Part(Parts(tag), 2)
    requires x <= MAX_INT && y <= MAX_INT && z <= MAX_INT
    ensures !AgreeOn(tag, Plain(x, y, z))
  {
    PlainParts(x, y, z);
    OneIsARise(Parts(tag), [x, y, z]);
    OneIsARise(PortParts(tag), [x, y, z]);
    var k :| 0 <= k < 3 && Part(Parts(tag), k) != Part(PortParts(tag), k);
    assert Part([x, y, z], k) == Part(Parts(tag), k);
  }

  lemma NotBothRise(a: seq<int>, b: seq<int>)
    ensures !(Admits(a, b, Major) && Admits(b, a, Major))
  {
    CompareThree(a, b);
    CompareThree(b, a);
  }

  /** Between versions that differ in their first three numbers there is a rise, one way or the other. */
  lemma OneIsARise(a: seq<int>, b: seq<int>)
    ensures Admits(a, b, Major) || Admits(b, a, Major) <==> exists k :: 0 <= k < 3 && Part(a, k) != Part(b, k)
  {
    CompareThree(a, b);
    CompareThree(b, a);
    if Admits(a, b, Major) || Admits(b, a, Major) {
      assert Part(a, 0) != Part(b, 0) || Part(a, 1) != Part(b, 1) || Part(a, 2) != Part(b, 2);
    }
  }

  lemma PartsAreSmall(tag: string)
    ensures forall k: nat :: 0 <= Part(Parts(tag), k) <= MAX_INT
  {
    var parts := Parts(tag);
    NumbersAreSmall(NonEmpty(Split(TrimPrefix(TrimPrefix(tag, 'v'), 'V'))));
    forall k: nat ensures 0 <= Part(parts, k) <= MAX_INT {
      assert k < |parts| ==> parts[k] in parts;
    }
  }

  lemma {:induction false} NumbersAreSmall(segments: seq<string>)
    ensures forall n :: n in Numbers(segments) ==> 0 <= n <= MAX_INT
  {
    if segments != [] {
      NumbersAreSmall(segments[..|segments| - 1]);
    }
  }

  // Tags of words and numbers

  /** A segment, possibly empty, that starts with no number. */
  ghost predicate IsWord(s: string) {
    ParseInt(s).None?
  }

  ghost predicate AllWords(segments: seq<string>) {
    forall i :: 0 <= i < |segments| ==> IsWord(segments[i])
  }

  /** The agent drops what starts with a v or a V, or with vV; the port drops one letter. */
  ghost predicate OnePrefix(tag: string) {
    !(|tag| >= 2 && tag[0] == 'v' && tag[1] == 'V')
  }

  lemma WordIsNoNumber(s: string)
    requires IsWord(s)
    ensures Atoi(s).None?
  {
    var digits := WithoutPlus(s);
    if digits != [] && AllDigits(digits) {
      AllAtFront(digits);
    }
  }

  lemma {:induction false} NumbersConcat(a: seq<string>, b: seq<string>)
    ensures Numbers(a + b) == Numbers(a) + Numbers(b)
    decreases |b|
  {
    if b == [] {
      assert a + b == a;
    } else {
      var n := |b| - 1;
      assert (a + b)[..|a + b| - 1] == a + b[..n];
      NumbersConcat(a, b[..n]);
    }
  }

  lemma {:induction false} EmptyOnesDoNotCount(segments: seq<string>)
    ensures Numbers(NonEmpty(segments)) == Numbers(segments)
  {
    if segments != [] {
      var first, rest := segments[0], segments[1..];
      EmptyOnesDoNotCount(rest);
      assert segments == [first] + rest;
      NumbersConcat([first], rest);
      if first == [] {
        NoNumbersInWords([first]);
        NothingInFront(Numbers(rest), NonEmpty(rest));
      } else {
        NumbersConcat([first], NonEmpty(rest));
      }
    }
  }

  lemma NothingInFront(numbers: seq<int>, segments: seq<string>)
    ensures [] + numbers == numbers && [] + segments == segments
  {}

  lemma {:induction false} NoNumbersInWords(words: seq<string>)
    requires AllWords(words)
    ensures Numbers(words) == []
  {
    if words != [] {
      WordIsNoNumber(words[|words| - 1]);
      NoNumbersInWords(words[..|words| - 1]);
    }
  }

  lemma {:induction false} PortSkipsWords(words: seq<string>, rest: seq<string>)
    requires AllWords(words)
    ensures PortNumbers(words + rest, []) == PortNumbers(rest, [])
  {
    if words == [] {
      assert words + rest == rest;
    } else {
      assert IsWord(words[0]) && (words + rest)[1..] == words[1..] + rest;
      PortSkipsWords(words[1..], rest);
    }
  }

  lemma PortReadsNumber(number: string, rest: seq<string>, parts: seq<int>)
    requires IsNumber(number)
    ensures PortNumbers([number] + rest, parts) == PortNumbers(rest, parts + [Value(number)])
  {
    AllAtFront(number);
    assert ([number] + rest)[1..] == rest;
  }

  lemma ValuesMore(numbers: seq<string>, k: nat)
    requires AllNumbers(numbers) && k < |numbers|
    ensures Values(numbers[..k + 1]) == Values(numbers[..k]) + [Value(numbers[k])]
  {
    assert IsNumber(numbers[k]) && numbers[..k + 1][..k] == numbers[..k];
  }

  /** The port reads on to the first word after a number. */
  lemma {:induction false} PortStopsAtWord(numbers: seq<string>, k: nat, after: seq<string>)
    requires AllNumbers(numbers) && k <= |numbers| && (after == [] || IsWord(after[0]))
    ensures PortNumbers(numbers[k..] + after, Values(numbers[..k])) == Values(numbers)
    decreases |numbers| - k
  {
    if k < |numbers| {
      assert IsNumber(numbers[k]);
      assert numbers[k..] + after == [numbers[k]] + (numbers[k + 1..] + after);
      PortReadsNumber(numbers[k], numbers[k + 1..] + after, Values(numbers[..k]));
      ValuesMore(numbers, k);
      PortStopsAtWord(numbers, k + 1, after);
    } else {
      assert numbers[k..] + after == after && numbers[..k] == numbers;
      ValuesAreAsMany(numbers);
    }
  }

  lemma AgentReadsRow(before: seq<string>, numbers: seq<string>, after: seq<string>)
    requires AllWords(before) && AllNumbers(numbers)
    ensures Numbers(before + numbers + after) == Values(numbers) + Numbers(after)
  {
    NumbersConcat(before + numbers, after);
    NumbersConcat(before, numbers);
    NoNumbersInWords(before);
    NumbersAreValues(numbers);
    NothingInFront(Values(numbers), []);
  }

  lemma PortReadsRow(before: seq<string>, numbers: seq<string>, after: seq<string>)
    requires AllWords(before) && AllNumbers(numbers) && (after == [] || IsWord(after[0]))
    ensures PortNumbers(before + numbers + after, []) == Values(numbers)
  {
    Regroup(before, numbers, after);
    PortSkipsWords(before, numbers + after);
    assert numbers[0..] == numbers && numbers[..0] == [];
    PortStopsAtWord(numbers, 0, after);
  }

  lemma Regroup(a: seq<string>, b: seq<string>, c: seq<string>)
    ensures a + b + c == a + (b + c)
  {}

  /** How both read a tag in which the first numbers stand in a row. */
  lemma BothReadRow(tag: string, before: seq<string>, numbers: seq<string>, after: seq<string>)
    requires OnePrefix(tag) && Split(Stripped(tag)) == before + numbers + after
    requires AllWords(before) && AllNumbers(numbers) && (after == [] || IsWord(after[0]))
    ensures Parts(tag) == Values(numbers) + Numbers(after) && PortParts(tag) == Values(numbers)
  {
    StripsTheSame(tag);
    EmptyOnesDoNotCount(before + numbers + after);
    AgentReadsRow(before, numbers, after);
    PortReadsRow(before, numbers, after);
  }

  lemma StripsTheSame(tag: string)
    ensures OnePrefix(tag) <==> TrimPrefix(TrimPrefix(tag, 'v'), 'V') == Stripped(tag)
  {
    var once := TrimPrefix(tag, 'v');
    if once != [] && once[0] == 'V' && once != tag {
      assert |TrimPrefix(once, 'V')| < |once|;
    }
  }

  /** They read it alike exactly if nothing but zeros after the row would be among the first three numbers. */
  lemma RowReadsAlikeIff(tag: string, before: seq<string>, numbers: seq<string>, after: seq<string>)
    requires OnePrefix(tag) && Split(Stripped(tag)) == before + numbers + after
    requires AllWords(before) && AllNumbers(numbers) && (after == [] || IsWord(after[0]))
    ensures ReadsAlike(tag) <==> forall k :: 0 <= k < 3 - |numbers| ==> Part(Numbers(after), k) == 0
  {
    BothReadRow(tag, before, numbers, after);
    ValuesAreAsMany(numbers);
    SameUpToThree(Values(numbers), Numbers(after));
  }

  lemma SameUpToThree(row: seq<int>, more: seq<int>)
    ensures (forall k :: 0 <= k < 3 ==> Part(row + more, k) == Part(row, k)) <==>
            forall k :: 0 <= k < 3 - |row| ==> Part(more, k) == 0
  {
    forall k: nat ensures Part(row + more, k) == if k < |row| then Part(row, k) else Part(more, k - |row|) {}
    if forall k :: 0 <= k < 3 ==> Part(row + more, k) == Part(row, k) {
      forall k | 0 <= k < 3 - |row| ensures Part(more, k) == 0 {
        assert Part(row + more, |row| + k) == Part(row, |row| + k);
      }
    }
  }

  lemma {:induction false} ValuesAreAsMany(numbers: seq<string>)
    requires AllNumbers(numbers) || numbers == []
    ensures |Values(numbers)| == |numbers|
  {
    if |numbers| > 1 { ValuesAreAsMany(numbers[..|numbers| - 1]); }
  }

  /** With no number before the first word after one, as in "1.2.3-alpine", they always do. */
  lemma WordsReadAlike(tag: string, before: seq<string>, numbers: seq<string>, after: seq<string>)
    requires OnePrefix(tag) && Split(Stripped(tag)) == before + numbers + after
    requires AllWords(before) && AllNumbers(numbers) && AllWords(after)
    ensures ReadsAlike(tag)
  {
    NoNumbersInWords(after);
    RowReadsAlikeIff(tag, before, numbers, after);
  }

  lemma {:induction false} SplitPiece(piece: string, separator: char, rest: string)
    requires IsSeparator(separator) && forall i :: 0 <= i < |piece| ==> !IsSeparator(piece[i])
    ensures Split(piece + [separator] + rest) == [piece] + Split(rest)
  {
    var s := piece + [separator] + rest;
    if piece == [] {
      assert s == [separator] + rest;
    } else {
      SplitPiece(piece[1..], separator, rest);
      assert s[1..] == piece[1..] + [separator] + rest;
      assert [piece[0]] + piece[1..] == piece;
    }
  }

  /** As in "3-alpine.18". */
  function WithWord(major: string, word: string, number: string): string {
    major + ['-'] + (word + ['.'] + number)
  }

  ghost predicate IsSegment(s: string) {
    forall i :: 0 <= i < |s| ==> !IsSeparator(s[i])
  }

  lemma SplitWithWord(major: string, word: string, number: string)
    requires IsNumber(major) && IsSegment(word) && IsNumber(number)
    ensures Split(WithWord(major, word, number)) == [major, word, number]
  {
    SplitPiece(major, '-', word + ['.'] + number);
    SplitPiece(word, '.', number);
    NoSeparator(number);
    assert [major] + ([word] + [number]) == [major, word, number];
  }

  lemma OneNumber(number: string)
    requires IsNumber(number)
    ensures Numbers([number]) == [Value(number)] == Values([number])
  {
    var front := [number][..0];
    assert front == [] && Numbers(front) == [] && Values(front) == [];
  }

  lemma NumberAfter(word: string, number: string)
    requires IsWord(word) && IsNumber(number)
    ensures Numbers([word, number]) == [Value(number)]
  {
    assert [word, number] == [word] + [number];
    NumbersConcat([word], [number]);
    NoNumbersInWords([word]);
    OneNumber(number);
    NothingInFront([Value(number)], []);
  }

  /** Of two numbers with a word between them, the agent reads both and the port one. */
  lemma NumberAfterWord(major: string, word: string, number: string)
    requires IsNumber(major) && IsWord(word) && IsSegment(word) && IsNumber(number)
    ensures Parts(WithWord(major, word, number)) == [Value(major), Value(number)]
    ensures PortParts(WithWord(major, word, number)) == [Value(major)]
  {
    var tag := WithWord(major, word, number);
    assert tag[0] == major[0] && IsDigit(tag[0]);
    SplitWithWord(major, word, number);
    assert [] + [major] + [word, number] == [major, word, number];
    BothReadRow(tag, [], [major], [word, number]);
    OneNumber(major);
    NumberAfter(word, number);
  }

  /** So from the one to the other the agent moves at every level but patch, and the port at none. */
  lemma NumbersAfterWordsDiffer(major: string, word: string, older: string, newer: string, level: Level)
    requires IsNumber(major) && IsWord(word) && IsSegment(word)
    requires IsNumber(older) && IsNumber(newer) && Value(newer) > Value(older)
    ensures MatchesLevel(WithWord(major, word, older), WithWord(major, word, newer), level) <==> level != Patch
    ensures !PortMatchesLevel(WithWord(major, word, older), WithWord(major, word, newer), level)
  {
    NumberAfterWord(major, word, older);
    NumberAfterWord(major, word, newer);
    CompareThree([Value(major), Value(newer)], [Value(major), Value(older)]);
    CompareThree([Value(major)], [Value(major)]);
  }
}
