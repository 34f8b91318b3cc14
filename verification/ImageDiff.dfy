/**
 The difference between the configurations of two images. A list built by going over a Go map comes
 in any order, unless it is sorted afterwards.
 */
module ImageDiff {
  import opened Options
  import opened Ordering

  datatype Config = Config(env: seq<string>, ports: set<string>, entrypoint: seq<string>, cmd: seq<string>,
                           labels: map<string, string>, workdir: string, user: string, volumes: set<string>)

  datatype Change = Change(key: string, before: string, after: string)

  datatype Differing<T> = Same | Differs(before: T, after: T)

  datatype Diff = Diff(envAdded: seq<string>, envRemoved: seq<string>, envChanged: seq<Change>,
                       portsAdded: seq<string>, portsRemoved: seq<string>,
                       entrypoint: Differing<seq<string>>, cmd: Differing<seq<string>>,
                       labelsAdded: map<string, string>, labelsRemoved: seq<string>, labelsChanged: seq<Change>,
                       workdir: Differing<string>, user: Differing<string>,
                       volumesAdded: seq<string>, volumesRemoved: seq<string>,
                       hasBreakingChanges: bool, changeCount: nat)

  // Environments

  /** Cuts at the first equals sign, if there is one. */
  function Cut(e: string): Option<(string, string)> {
    if e == [] then None
    else if e[0] == '=' then Some(([], e[1..]))
    else
      var rest := Cut(e[1..]);
      if rest.Some? then Some(([e[0]] + rest.value.0, rest.value.1)) else None
  }

  function Print(key: string, value: string): string {
    key + ['='] + value
  }

  function ParseEnv(env: seq<string>): map<string, string> {
    if env == [] then map[]
    else
      var before := ParseEnv(env[..|env| - 1]);
      var cut := Cut(env[|env| - 1]);
      if cut.Some? then before[cut.value.0 := cut.value.1] else before
  }

  method ParseEnvMap(env: seq<string>) returns (m: map<string, string>)
    ensures m == ParseEnv(env)
  {
    m := map[];
    for i := 0 to |env|
      invariant m == ParseEnv(env[..i])
    {
      assert env[..i + 1][..i] == env[..i];
      var cut := Cut(env[i]);
      if cut.Some? {
        m := m[cut.value.0 := cut.value.1];
      }
    }
    assert env[..|env|] == env;
  }

  ghost predicate PlainKeys(m: map<string, string>) {
    forall k :: k in m ==> '=' !in k
  }

  lemma {:induction false} CutUndoesPrint(key: string, value: string)
    requires '=' !in key
    ensures Cut(Print(key, value)) == Some((key, value))
  {
    if key != [] {
      assert Print(key, value)[1..] == Print(key[1..], value);
      CutUndoesPrint(key[1..], value);
      assert [key[0]] + key[1..] == key;
    }
  }

  lemma {:induction false} CutKeyIsPlain(e: string)
    ensures Cut(e).Some? ==> '=' !in Cut(e).value.0
  {
    if e != [] && e[0] != '=' {
      CutKeyIsPlain(e[1..]);
    }
  }

  lemma {:induction false} ParsedKeysArePlain(env: seq<string>)
    ensures PlainKeys(ParseEnv(env))
  {
    if env != [] {
      ParsedKeysArePlain(env[..|env| - 1]);
      CutKeyIsPlain(env[|env| - 1]);
    }
  }

  // Differences between maps

  function Restrict(m: map<string, string>, keys: set<string>): map<string, string> {
    map k | k in m && k in keys :: m[k]
  }

  function KeysChanged(current: map<string, string>, target: map<string, string>): set<string> {
    set k | k in current && k in target && current[k] != target[k]
  }

  function SetOf(s: seq<string>): set<string> {
    set x | x in s
  }

  function ValuesBefore(changes: seq<Change>): map<string, string> {
    if changes == [] then map[]
    else ValuesBefore(changes[..|changes| - 1])[changes[|changes| - 1].key := changes[|changes| - 1].before]
  }

  function ValuesAfter(changes: seq<Change>): map<string, string> {
    if changes == [] then map[]
    else ValuesAfter(changes[..|changes| - 1])[changes[|changes| - 1].key := changes[|changes| - 1].after]
  }

  /** The changes list each key with different values, once, with both its values. */
  ghost predicate Lists(changes: seq<Change>, current: map<string, string>, target: map<string, string>,
      keys: set<string>) {
    && ValuesBefore(changes) == Restrict(current, KeysChanged(current, target) * keys)
    && ValuesAfter(changes) == Restrict(target, KeysChanged(current, target) * keys)
    && |changes| == |KeysChanged(current, target) * keys|
  }

  /** The list holds these, each once. */
  ghost predicate Holds(list: seq<string>, keys: set<string>) {
    SetOf(list) == keys && |list| == |keys|
  }

  /** The printed entries, parsed again, are those of the map at these keys, each once. */
  ghost predicate Prints(list: seq<string>, m: map<string, string>, keys: set<string>) {
    ParseEnv(list) == Restrict(m, keys) && |list| == |keys|
  }

  lemma HoldsMore(list: seq<string>, keys: set<string>, k: string)
    requires Holds(list, keys) && k !in keys
    ensures Holds(list + [k], keys + {k})
  {
    assert SetOf(list + [k]) == SetOf(list) + {k};
  }

  lemma PrintsMore(list: seq<string>, m: map<string, string>, keys: set<string>, k: string)
    requires Prints(list, m, keys) && k !in keys && k in m && '=' !in k
    ensures Prints(list + [Print(k, m[k])], m, keys + {k})
  {
    var more := list + [Print(k, m[k])];
    assert more[..|more| - 1] == list;
    CutUndoesPrint(k, m[k]);
    assert Restrict(m, keys + {k}) == Restrict(m, keys)[k := m[k]];
  }

  lemma ListsMore(changes: seq<Change>, current: map<string, string>, target: map<string, string>, keys: set<string>,
      k: string)
    requires Lists(changes, current, target, keys) && k !in keys && k in KeysChanged(current, target)
    ensures Lists(changes + [Change(k, current[k], target[k])], current, target, keys + {k})
  {
    var more := changes + [Change(k, current[k], target[k])];
    var changed := KeysChanged(current, target);
    assert more[..|more| - 1] == changes;
    assert changed * (keys + {k}) == changed * keys + {k};
    assert Restrict(current, changed * (keys + {k})) == Restrict(current, changed * keys)[k := current[k]];
    assert Restrict(target, changed * (keys + {k})) == Restrict(target, changed * keys)[k := target[k]];
  }

  lemma ListsSkip(changes: seq<Change>, current: map<string, string>, target: map<string, string>, keys: set<string>,
      k: string)
    requires Lists(changes, current, target, keys) && k !in KeysChanged(current, target)
    ensures Lists(changes, current, target, keys + {k})
  {
    assert KeysChanged(current, target) * (keys + {k}) == KeysChanged(current, target) * keys;
  }

  // Going over a map

  ghost predicate Distinct(keys: seq<string>) {
    keys == [] || (keys[|keys| - 1] !in keys[..|keys| - 1] && Distinct(keys[..|keys| - 1]))
  }

  /** The keys of a map, in some order. */
  method Enumerate(keys: set<string>) returns (order: seq<string>)
    ensures Distinct(order) && SetOf(order) == keys
  {
    order := [];
    var rest := keys;
    while rest != {}
      invariant Distinct(order) && rest <= keys && SetOf(order) == keys - rest
      decreases rest
    {
      var k :| k in rest;
      assert (order + [k])[..|order|] == order && k !in SetOf(order);
      assert SetOf(order + [k]) == SetOf(order) + {k};
      order := order + [k];
      rest := rest - {k};
    }
  }

  lemma LastKey(keys: seq<string>)
    requires Distinct(keys) && keys != []
    ensures
      var n := |keys| - 1;
      && keys[n] !in SetOf(keys[..n]) && SetOf(keys) == SetOf(keys[..n]) + {keys[n]}
      && keys == keys[..n] + [keys[n]]
  {
    SplitLast(keys);
    var n := |keys| - 1;
    SetOfMore(keys[..n], keys[n]);
  }

  lemma SplitLast<T>(s: seq<T>)
    requires s != []
    ensures s == s[..|s| - 1] + [s[|s| - 1]]
  {}

  lemma SetOfMore(s: seq<string>, x: string)
    ensures SetOf(s + [x]) == SetOf(s) + {x}
  {}

  function NotIn(keys: seq<string>, other: set<string>): seq<string> {
    if keys == [] then []
    else
      var k := keys[|keys| - 1];
      NotIn(keys[..|keys| - 1], other) + (if k in other then [] else [k])
  }

  function Added(keys: seq<string>, current: map<string, string>, target: map<string, string>): seq<string>
    requires forall k :: k in keys ==> k in target
  {
    if keys == [] then []
    else
      var k := keys[|keys| - 1];
      Added(keys[..|keys| - 1], current, target) + (if k in current then [] else [Print(k, target[k])])
  }

  function Changed(keys: seq<string>, current: map<string, string>, target: map<string, string>): seq<Change>
    requires forall k :: k in keys ==> k in target
  {
    if keys == [] then []
    else
      var k := keys[|keys| - 1];
      Changed(keys[..|keys| - 1], current, target) +
      (if k in KeysChanged(current, target) then [Change(k, current[k], target[k])] else [])
  }

  // One more key

  lemma AddedMore(keys: seq<string>, current: map<string, string>, target: map<string, string>, k: string)
    requires (forall key :: key in keys ==> key in target) && k in target
    ensures forall key :: key in keys + [k] ==> key in target
    ensures Added(keys + [k], current, target) ==
            if k in current then Added(keys, current, target) else Added(keys, current, target) + [Print(k, target[k])]
  {
    assert (keys + [k])[..|keys|] == keys;
  }

  lemma ChangedMore(keys: seq<string>, current: map<string, string>, target: map<string, string>, k: string)
    requires (forall key :: key in keys ==> key in target) && k in target
    ensures forall key :: key in keys + [k] ==> key in target
    ensures Changed(keys + [k], current, target) ==
            if k in KeysChanged(current, target)
                then Changed(keys, current, target) + [Change(k, current[k], target[k])]
            else Changed(keys, current, target)
  {
    assert (keys + [k])[..|keys|] == keys;
  }

  lemma NotInMore(keys: seq<string>, other: set<string>, k: string)
    ensures NotIn(keys + [k], other) == if k in other then NotIn(keys, other) else NotIn(keys, other) + [k]
  {
    assert (keys + [k])[..|keys|] == keys;
  }

  lemma {:induction false} NotInHolds(keys: seq<string>, other: set<string>)
    requires Distinct(keys)
    ensures Holds(NotIn(keys, other), SetOf(keys) - other)
  {
    if keys != [] {
      var n := |keys| - 1;
      NotInHolds(keys[..n], other);
      LastKey(keys);
      if keys[n] in other {
        assert SetOf(keys) - other == SetOf(keys[..n]) - other;
      } else {
        assert SetOf(keys) - other == (SetOf(keys[..n]) - other) + {keys[n]};
        HoldsMore(NotIn(keys[..n], other), SetOf(keys[..n]) - other, keys[n]);
      }
    }
  }

  lemma {:induction false} AddedPrints(keys: seq<string>, current: map<string, string>, target: map<string, string>)
    requires Distinct(keys) && PlainKeys(target) && forall k :: k in keys ==> k in target
    ensures Prints(Added(keys, current, target), target, SetOf(keys) - current.Keys)
  {
    if keys == [] {
      assert Restrict(target, SetOf(keys) - current.Keys) == map[];
    } else {
      LastKey(keys);
      AddedPrints(keys[..|keys| - 1], current, target);
      AddedPrintsMore(keys[..|keys| - 1], current, target, keys[|keys| - 1]);
    }
  }

  lemma AddedPrintsMore(front: seq<string>, current: map<string, string>, target: map<string, string>, k: string)
    requires k !in SetOf(front) && k in target && '=' !in k && forall key :: key in front ==> key in target
    requires Prints(Added(front, current, target), target, SetOf(front) - current.Keys)
    ensures forall key :: key in front + [k] ==> key in target
    ensures Prints(Added(front + [k], current, target), target, SetOf(front) + {k} - current.Keys)
  {
    AddedMore(front, current, target, k);
    OneMoreNew(SetOf(front), current.Keys, k);
    if k !in current {
      PrintsMore(Added(front, current, target), target, SetOf(front) - current.Keys, k);
    }
  }

  lemma OneMoreNew(keys: set<string>, known: set<string>, k: string)
    ensures k in known ==> keys + {k} - known == keys - known
    ensures k !in known ==> keys + {k} - known == (keys - known) + {k}
  {}

  lemma {:induction false} ChangedLists(keys: seq<string>, current: map<string, string>, target: map<string, string>)
    requires Distinct(keys) && forall k :: k in keys ==> k in target
    ensures Lists(Changed(keys, current, target), current, target, SetOf(keys))
  {
    if keys == [] {
      assert KeysChanged(current, target) * SetOf(keys) == {};
    } else {
      var front, k := keys[..|keys| - 1], keys[|keys| - 1];
      ChangedLists(front, current, target);
      LastKey(keys);
      ChangedMore(front, current, target, k);
      if k in KeysChanged(current, target) {
        ListsMore(Changed(front, current, target), current, target, SetOf(front), k);
      } else {
        ListsSkip(Changed(front, current, target), current, target, SetOf(front), k);
      }
    }
  }

  // Sorting what was collected

  function Sorted(list: seq<string>): seq<string> {
    SortBy(list, ByLess())
  }

  ghost predicate InOrder(list: seq<string>) {
    Ordered(list, ByLess())
  }

  lemma SortedInOrder(list: seq<string>)
    ensures InOrder(Sorted(list)) && SetOf(Sorted(list)) == SetOf(list) && |Sorted(list)| == |list|
  {
    LessIsOrder();
    SortOrders(list, ByLess());
    SortKeepsAll(list, ByLess());
    forall x ensures x in Sorted(list) <==> x in list {
      SortedAre(list, ByLess(), x);
    }
  }

  /** An entry of the map, printed. */
  predicate IsEntry(e: string, m: map<string, string>) {
    Cut(e).Some? && Cut(e).value.0 in m && m[Cut(e).value.0] == Cut(e).value.1
  }

  ghost predicate AllEntries(list: seq<string>, m: map<string, string>) {
    forall e :: e in list ==> IsEntry(e, m)
  }

  predicate HasKey(list: seq<string>, k: string) {
    exists e :: e in list && Cut(e).Some? && Cut(e).value.0 == k
  }

  lemma {:induction false} ParsedEntry(list: seq<string>, m: map<string, string>, k: string)
    requires AllEntries(list, m)
    ensures k in ParseEnv(list) <==> HasKey(list, k)
    ensures k in ParseEnv(list) ==> k in m && ParseEnv(list)[k] == m[k]
  {
    if list != [] {
      var front, e := list[..|list| - 1], list[|list| - 1];
      SplitLast(list);
      ParsedEntry(front, m, k);
      assert IsEntry(e, m);
      if Cut(e).value.0 == k {
        assert e in list;
      } else if HasKey(list, k) {
        var x :| x in list && Cut(x).Some? && Cut(x).value.0 == k;
        assert x in front;
      }
    }
  }

  /** Printed entries parse alike in any order. */
  lemma SameEntries(a: seq<string>, b: seq<string>, m: map<string, string>)
    requires AllEntries(a, m) && forall e :: e in a <==> e in b
    ensures ParseEnv(a) == ParseEnv(b)
  {
    assert AllEntries(b, m);
    forall k ensures k in ParseEnv(a) <==> k in ParseEnv(b) {
      ParsedEntry(a, m, k);
      ParsedEntry(b, m, k);
      assert HasKey(a, k) <==> HasKey(b, k);
    }
    forall k | k in ParseEnv(a) ensures ParseEnv(a)[k] == ParseEnv(b)[k] {
      ParsedEntry(a, m, k);
      ParsedEntry(b, m, k);
    }
  }

  lemma {:induction false} AddedAreEntries(keys: seq<string>, current: map<string, string>, target: map<string, string>)
    requires PlainKeys(target) && forall k :: k in keys ==> k in target
    ensures AllEntries(Added(keys, current, target), target)
  {
    if keys != [] {
      var k := keys[|keys| - 1];
      AddedAreEntries(keys[..|keys| - 1], current, target);
      CutUndoesPrint(k, target[k]);
    }
  }

  lemma SortedPrints(list: seq<string>, m: map<string, string>, keys: set<string>)
    requires Prints(list, m, keys) && AllEntries(list, m)
    ensures Prints(Sorted(list), m, keys) && InOrder(Sorted(list))
  {
    SortedInOrder(list);
    forall e ensures e in list <==> e in Sorted(list) {
      SortedAre(list, ByLess(), e);
    }
    SameEntries(list, Sorted(list), m);
  }

  lemma SortedHolds(list: seq<string>, keys: set<string>)
    requires Holds(list, keys)
    ensures Holds(Sorted(list), keys) && InOrder(Sorted(list))
  {
    SortedInOrder(list);
  }

  lemma {:induction false} DistinctSize(keys: seq<string>)
    ensures |SetOf(keys)| <= |keys|
    ensures Distinct(keys) <==> |SetOf(keys)| == |keys|
  {
    if keys != [] {
      var n := |keys| - 1;
      DistinctSize(keys[..n]);
      SplitLast(keys);
      SetOfMore(keys[..n], keys[n]);
      if keys[n] in keys[..n] {
        assert SetOf(keys) == SetOf(keys[..n]);
      }
    }
  }

  /** Taking elements out keeps the order. */
  lemma {:induction false} NotInKeepsOrder(keys: seq<string>, other: set<string>)
    requires InOrder(keys)
    ensures InOrder(NotIn(keys, other))
  {
    NotInFromFront(keys, other);
    if keys != [] {
      NotInKeepsOrder(keys[1..], other);
      NotInAreKeys(keys[1..], other);
      var rest := NotIn(keys[1..], other);
      assert ([keys[0]] + rest)[1..] == rest;
    }
  }

  lemma {:induction false} NotInAreKeys(keys: seq<string>, other: set<string>)
    ensures forall k :: k in NotIn(keys, other) ==> k in keys
  {
    if keys != [] {
      NotInAreKeys(keys[..|keys| - 1], other);
    }
  }

  lemma {:induction false} NotInFromFront(keys: seq<string>, other: set<string>)
    ensures keys != [] ==>
              NotIn(keys, other) ==
                  (if keys[0] in other then NotIn(keys[1..], other) else [keys[0]] + NotIn(keys[1..], other))
  {
    if |keys| == 1 {
      assert keys[1..] == [] && keys[..0] == [];
    } else if |keys| > 1 {
      var n := |keys| - 1;
      NotInFromFront(keys[..n], other);
      RestOfFront(keys);
      NotInMore(keys[..n][1..], other, keys[n]);
      NotInMore(keys[..n], other, keys[n]);
      SplitLast(keys);
    }
  }

  lemma RestOfFront<T>(s: seq<T>)
    requires |s| > 1
    ensures s[1..] == s[..|s| - 1][1..] + [s[|s| - 1]]
  {}

  /** What is in the first and not in the second. */
  method SetDiff(a: seq<string>, b: set<string>) returns (diff: seq<string>)
    requires Distinct(a)
    ensures Holds(diff, SetOf(a) - b) && (InOrder(a) ==> InOrder(diff))
  {
    diff := [];
    for i := 0 to |a|
      invariant diff == NotIn(a[..i], b)
    {
      assert a[..i + 1][..i] == a[..i];
      if a[i] !in b {
        diff := diff + [a[i]];
      }
    }
    assert a[..|a|] == a;
    NotInHolds(a, b);
    if InOrder(a) {
      NotInKeepsOrder(a, b);
    }
  }

  /** The keys of a set of ports or volumes, in order. */
  method SortedKeys(keys: set<string>) returns (order: seq<string>)
    ensures Distinct(order) && SetOf(order) == keys && InOrder(order)
  {
    var found := Enumerate(keys);
    DistinctSize(found);
    SortedInOrder(found);
    order := Sorted(found);
    DistinctSize(order);
  }

  method DiffEnv(current: map<string, string>, target: map<string, string>)
      returns (added: seq<string>, removed: seq<string>, changed: seq<Change>)
    requires PlainKeys(target)
    ensures Prints(added, target, target.Keys - current.Keys) && InOrder(added)
    ensures Holds(removed, current.Keys - target.Keys) && InOrder(removed)
    ensures Lists(changed, current, target, target.Keys)
  {
    var keys := Enumerate(target.Keys);
    assert forall k :: k in keys ==> k in SetOf(keys);
    added, changed := AddedAndChanged(keys, current, target);
    AddedPrints(keys, current, target);
    AddedAreEntries(keys, current, target);
    ChangedLists(keys, current, target);
    var currentKeys := Enumerate(current.Keys);
    removed := SetDiff(currentKeys, target.Keys);
    SortedPrints(added, target, target.Keys - current.Keys);
    SortedHolds(removed, current.Keys - target.Keys);
    added, removed := Sorted(added), Sorted(removed);
  }

  /** The loop over the target's keys. */
  method AddedAndChanged(keys: seq<string>, current: map<string, string>, target: map<string, string>)
      returns (added: seq<string>, changed: seq<Change>)
    requires forall k :: k in keys ==> k in target
    ensures added == Added(keys, current, target) && changed == Changed(keys, current, target)
  {
    added, changed := [], [];
    for i := 0 to |keys|
      invariant added == Added(keys[..i], current, target)
      invariant changed == Changed(keys[..i], current, target)
    {
      assert keys[..i + 1][..i] == keys[..i];
      var k := keys[i];
      if k !in current {
        added := added + [Print(k, target[k])];
      } else if current[k] != target[k] {
        changed := changed + [Change(k, current[k], target[k])];
      }
    }
    assert keys[..|keys|] == keys;
  }

  // Labels

  /** Labels that describe the build, not how the image runs. */
  predicate IsMetadataLabel(key: string) {
    "org.opencontainers.image." <= key || "org.label-schema." <= key || key == "build_version" || key == "maintainer"
  }

  function Runtime(labels: map<string, string>): (runtime: map<string, string>)
    ensures forall k :: k in runtime <==>
                          && k in labels && k != "build_version" && k != "maintainer"
                          && !("org.opencontainers.image." <= k) && !("org.label-schema." <= k)
    ensures forall k :: k in runtime ==> runtime[k] == labels[k]
  {
    map k | k in labels && !IsMetadataLabel(k) :: labels[k]
  }

  /** Skipping metadata labels is going over the others. */
  function Others(keys: seq<string>): seq<string> {
    if keys == [] then []
    else
      var k := keys[|keys| - 1];
      Others(keys[..|keys| - 1]) + (if IsMetadataLabel(k) then [] else [k])
  }

  lemma OthersMore(keys: seq<string>, k: string)
    ensures Others(keys + [k]) == if IsMetadataLabel(k) then Others(keys) else Others(keys) + [k]
  {
    assert (keys + [k])[..|keys|] == keys;
  }

  lemma {:induction false} OthersAre(keys: seq<string>)
    ensures forall k :: k in Others(keys) <==> k in keys && !IsMetadataLabel(k)
  {
    if keys != [] {
      var front, k := keys[..|keys| - 1], keys[|keys| - 1];
      OthersAre(front);
      SplitLast(keys);
      OthersMore(front, k);
    }
  }

  lemma {:induction false} OthersDiffer(keys: seq<string>)
    requires Distinct(keys)
    ensures Distinct(Others(keys))
  {
    if keys != [] {
      var front, k := keys[..|keys| - 1], keys[|keys| - 1];
      OthersDiffer(front);
      OthersAre(front);
      SplitLast(keys);
      OthersMore(front, k);
      assert (Others(front) + [k])[..|Others(front)|] == Others(front);
    }
  }

  function AddedLabels(keys: seq<string>, current: map<string, string>, target: map<string, string>)
    : map<string, string>
    requires forall k :: k in keys ==> k in target
  {
    if keys == [] then map[]
    else
      var k := keys[|keys| - 1];
      var before := AddedLabels(keys[..|keys| - 1], current, target);
      if k in current then before else before[k := target[k]]
  }

  lemma AddedLabelsMore(keys: seq<string>, current: map<string, string>, target: map<string, string>, k: string)
    requires (forall key :: key in keys ==> key in target) && k in target
    ensures forall key :: key in keys + [k] ==> key in target
    ensures AddedLabels(keys + [k], current, target) ==
            if k in current then AddedLabels(keys, current, target)
                else AddedLabels(keys, current, target)[k := target[k]]
  {
    assert (keys + [k])[..|keys|] == keys;
  }

  lemma {:induction false} AddedLabelsAre(keys: seq<string>, current: map<string, string>, target: map<string, string>)
    requires forall k :: k in keys ==> k in target
    ensures AddedLabels(keys, current, target) == Restrict(target, SetOf(keys) - current.Keys)
  {
    if keys != [] {
      var n := |keys| - 1;
      AddedLabelsAre(keys[..n], current, target);
      SplitLast(keys);
    }
  }

  method DiffLabels(current: map<string, string>, target: map<string, string>)
      returns (added: map<string, string>, removed: seq<string>, changed: seq<Change>)
    ensures added == Restrict(Runtime(target), Runtime(target).Keys - Runtime(current).Keys)
    ensures Holds(removed, Runtime(current).Keys - Runtime(target).Keys) && InOrder(removed)
    ensures Lists(changed, Runtime(current), Runtime(target), Runtime(target).Keys)
  {
    added, changed := NewLabels(current, target);
    removed := OldLabels(current, target);
  }

  method NewLabels(current: map<string, string>, target: map<string, string>)
      returns (added: map<string, string>, changed: seq<Change>)
    ensures added == Restrict(Runtime(target), Runtime(target).Keys - Runtime(current).Keys)
    ensures Lists(changed, Runtime(current), Runtime(target), Runtime(target).Keys)
  {
    var keys := Enumerate(target.Keys);
    assert forall k :: k in keys ==> k in SetOf(keys);
    OthersOf(keys, target);
    added, changed := AddedAndChangedLabels(keys, current, target);
    AddedLabelsAre(Others(keys), Runtime(current), Runtime(target));
    ChangedLists(Others(keys), Runtime(current), Runtime(target));
  }

  method OldLabels(current: map<string, string>, target: map<string, string>) returns (removed: seq<string>)
    ensures Holds(removed, Runtime(current).Keys - Runtime(target).Keys) && InOrder(removed)
  {
    var keys := Enumerate(current.Keys);
    removed := RemovedLabels(keys, target);
    OthersOf(keys, current);
    NotInHolds(Others(keys), Runtime(target).Keys);
    SortedHolds(removed, Runtime(current).Keys - Runtime(target).Keys);
    removed := Sorted(removed);
  }

  lemma OthersOf(keys: seq<string>, labels: map<string, string>)
    requires Distinct(keys) && SetOf(keys) == labels.Keys
    ensures Distinct(Others(keys)) && SetOf(Others(keys)) == Runtime(labels).Keys
  {
    OthersAre(keys);
    OthersDiffer(keys);
    assert forall k :: k in keys <==> k in SetOf(keys);
  }

  method AddedAndChangedLabels(keys: seq<string>, current: map<string, string>, target: map<string, string>)
      returns (added: map<string, string>, changed: seq<Change>)
    requires forall k :: k in keys ==> k in target
    ensures forall k :: k in Others(keys) ==> k in Runtime(target)
    ensures added == AddedLabels(Others(keys), Runtime(current), Runtime(target))
    ensures changed == Changed(Others(keys), Runtime(current), Runtime(target))
  {
    added, changed := map[], [];
    ghost var others := [];
    for i := 0 to |keys|
      invariant others == Others(keys[..i])
      invariant forall k :: k in others ==> k in Runtime(target)
      invariant added == AddedLabels(others, Runtime(current), Runtime(target))
      invariant changed == Changed(others, Runtime(current), Runtime(target))
    {
      assert keys[..i + 1] == keys[..i] + [keys[i]];
      var k := keys[i];
      OthersMore(keys[..i], k);
      if IsMetadataLabel(k) {
        continue;
      }
      AddedLabelsMore(others, Runtime(current), Runtime(target), k);
      ChangedMore(others, Runtime(current), Runtime(target), k);
      others := others + [k];
      if k !in current {
        added := added[k := target[k]];
      } else if current[k] != target[k] {
        changed := changed + [Change(k, current[k], target[k])];
      }
    }
    assert keys[..|keys|] == keys;
  }

  method RemovedLabels(keys: seq<string>, target: map<string, string>) returns (removed: seq<string>)
    ensures removed == NotIn(Others(keys), Runtime(target).Keys)
  {
    removed := [];
    for i := 0 to |keys|
      invariant removed == NotIn(Others(keys[..i]), Runtime(target).Keys)
    {
      assert keys[..i + 1] == keys[..i] + [keys[i]];
      var k := keys[i];
      OthersMore(keys[..i], k);
      if IsMetadataLabel(k) {
        continue;
      }
      NotInMore(Others(keys[..i]), Runtime(target).Keys, k);
      if k !in target {
        removed := removed + [k];
      }
    }
    assert keys[..|keys|] == keys;
  }

  // Whole configurations

  function Compare<T(==)>(before: T, after: T): Differing<T> {
    if before == after then Same else Differs(before, after)
  }

  /** What of a configuration counts. */
  datatype Normal = Normal(env: map<string, string>, ports: set<string>, entrypoint: seq<string>, cmd: seq<string>,
                           labels: map<string, string>, workdir: string, user: string, volumes: set<string>)

  function Normalise(c: Config): Normal {
    Normal(ParseEnv(c.env), c.ports, c.entrypoint, c.cmd, Runtime(c.labels), c.workdir, c.user, c.volumes)
  }

  function MapChanges(current: map<string, string>, target: map<string, string>): nat {
    |target.Keys - current.Keys| + |current.Keys - target.Keys| + |KeysChanged(current, target)|
  }

  function SetChanges(current: set<string>, target: set<string>): nat {
    |target - current| + |current - target|
  }

  function One(b: bool): nat {
    if b then 1 else 0
  }

  /** How many single changes lead from one configuration to the other. */
  function Changes(c: Normal, t: Normal): nat {
    MapChanges(c.env, t.env) + SetChanges(c.ports, t.ports) + MapChanges(c.labels, t.labels)
    + SetChanges(c.volumes, t.volumes)
    + One(c.entrypoint != t.entrypoint) + One(c.cmd != t.cmd) + One(c.workdir != t.workdir) + One(c.user != t.user)
  }

  predicate Breaking(c: Normal, t: Normal) {
    c.ports != t.ports || c.entrypoint != t.entrypoint || c.volumes != t.volumes
  }

  /** Removes, changes and adds. */
  function PatchMap(m: map<string, string>, added: map<string, string>, removed: seq<string>, changed: seq<Change>)
    : map<string, string>
  {
    (m - SetOf(removed)) + ValuesAfter(changed) + added
  }

  function PatchSet(s: set<string>, added: seq<string>, removed: seq<string>): set<string> {
    (s - SetOf(removed)) + SetOf(added)
  }

  function Patched<T>(value: T, d: Differing<T>): T {
    match d
    case Same => value
    case Differs(_, after) => after
  }

  /** The diff read as a patch; the environment entries it prints are parsed again. */
  function Patch(c: Normal, d: Diff): Normal {
    Normal(PatchMap(c.env, ParseEnv(d.envAdded), d.envRemoved, d.envChanged),
           PatchSet(c.ports, d.portsAdded, d.portsRemoved),
           Patched(c.entrypoint, d.entrypoint), Patched(c.cmd, d.cmd),
           PatchMap(c.labels, d.labelsAdded, d.labelsRemoved, d.labelsChanged),
           Patched(c.workdir, d.workdir), Patched(c.user, d.user),
           PatchSet(c.volumes, d.volumesAdded, d.volumesRemoved))
  }

  lemma ChangedIsInTarget(current: map<string, string>, target: map<string, string>)
    ensures KeysChanged(current, target) * target.Keys == KeysChanged(current, target)
  {}

  lemma MapPatchIsRight(current: map<string, string>, target: map<string, string>,
                        added: map<string, string>, removed: set<string>, changed: map<string, string>)
    requires added == Restrict(target, target.Keys - current.Keys) && removed == current.Keys - target.Keys
    requires changed == Restrict(target, KeysChanged(current, target))
    ensures (current - removed) + changed + added == target
  {
    var patched := (current - removed) + changed + added;
    forall k ensures k in patched <==> k in target {}
    forall k | k in target ensures patched[k] == target[k] {
      if k !in current {
        assert k in added;
      } else if current[k] != target[k] {
        assert k in changed && k !in added;
      } else {
        assert k !in changed && k !in added;
      }
    }
  }

  method EnvPatch(current: map<string, string>, target: map<string, string>)
      returns (added: seq<string>, removed: seq<string>, changed: seq<Change>)
    requires PlainKeys(target)
    ensures PatchMap(current, ParseEnv(added), removed, changed) == target && InOrder(added) && InOrder(removed)
    ensures |added| + |removed| + |changed| == MapChanges(current, target)
  {
    added, removed, changed := DiffEnv(current, target);
    ChangedIsInTarget(current, target);
    MapPatchIsRight(current, target, ParseEnv(added), SetOf(removed), ValuesAfter(changed));
  }

  method LabelPatch(current: map<string, string>, target: map<string, string>)
      returns (added: map<string, string>, removed: seq<string>, changed: seq<Change>)
    ensures PatchMap(Runtime(current), added, removed, changed) == Runtime(target) && InOrder(removed)
    ensures |added| + |removed| + |changed| == MapChanges(Runtime(current), Runtime(target))
  {
    added, removed, changed := DiffLabels(current, target);
    ghost var c, t := Runtime(current), Runtime(target);
    ChangedIsInTarget(c, t);
    MapPatchIsRight(c, t, added, SetOf(removed), ValuesAfter(changed));
    assert added.Keys == t.Keys - c.Keys && |added| == |added.Keys|;
  }

  lemma CompareIsRight<T>(before: T, after: T)
    ensures Patched(before, Compare(before, after)) == after
    ensures Compare(before, after).Differs? <==> before != after
  {}

  lemma SetPatchIsRight(current: set<string>, target: set<string>, added: seq<string>, removed: seq<string>)
    requires Holds(added, target - current) && Holds(removed, current - target)
    ensures PatchSet(current, added, removed) == target
    ensures |added| + |removed| == SetChanges(current, target)
    ensures added != [] || removed != [] <==> current != target
  {
    assert SetOf(added) == {} <==> |added| == 0;
    assert SetOf(removed) == {} <==> |removed| == 0;
  }

  method DiffSets(current: set<string>, target: set<string>) returns (added: seq<string>, removed: seq<string>)
    ensures PatchSet(current, added, removed) == target && InOrder(added) && InOrder(removed)
    ensures |added| + |removed| == SetChanges(current, target)
    ensures added != [] || removed != [] <==> current != target
  {
    var currentKeys := SortedKeys(current);
    var targetKeys := SortedKeys(target);
    added := SetDiff(targetKeys, current);
    removed := SetDiff(currentKeys, target);
    SetPatchIsRight(current, target, added, removed);
  }

  /** All lists but those of changed values are sorted. */
  ghost predicate ListsInOrder(d: Diff) {
    && InOrder(d.envAdded) && InOrder(d.envRemoved) && InOrder(d.labelsRemoved)
    && InOrder(d.portsAdded) && InOrder(d.portsRemoved) && InOrder(d.volumesAdded) && InOrder(d.volumesRemoved)
  }

  function NoDiff(): Diff {
    Diff([], [], [], [], [], Same, Same, map[], [], [], Same, Same, [], [], false, 0)
  }

  /** With both configurations there, the diff is a patch from one to the other, and counts its changes. */
  method DiffImages(current: Option<Config>, target: Option<Config>) returns (diff: Diff)
    ensures current.None? || target.None? ==> diff == NoDiff()
    ensures current.Some? && target.Some? ==>
              var c, t := Normalise(current.value), Normalise(target.value);
              && Patch(c, diff) == t
              && diff.changeCount == Changes(c, t)
              && diff.hasBreakingChanges == Breaking(c, t)
              && ListsInOrder(diff)
    ensures Summed(diff)
  {
    if current.None? || target.None? {
      return NoDiff();
    }
    var parts := DiffConfigs(current.value, target.value);
    diff := SumUp(parts);
    PartsAreRight(Normalise(current.value), Normalise(target.value), parts, diff);
  }

  /** The lists and single values; breaking and count are still to come. */
  method DiffConfigs(c: Config, t: Config) returns (parts: Diff)
    ensures PartsOf(Normalise(c), Normalise(t), parts)
  {
    var currentEnv := ParseEnvMap(c.env);
    var targetEnv := ParseEnvMap(t.env);
    ParsedKeysArePlain(t.env);
    var envAdded, envRemoved, envChanged := EnvPatch(currentEnv, targetEnv);
    var portsAdded, portsRemoved := DiffSets(c.ports, t.ports);
    var entrypoint, cmd := Compare(c.entrypoint, t.entrypoint), Compare(c.cmd, t.cmd);
    var labelsAdded, labelsRemoved, labelsChanged := LabelPatch(c.labels, t.labels);
    var workdir, user := Compare(c.workdir, t.workdir), Compare(c.user, t.user);
    var volumesAdded, volumesRemoved := DiffSets(c.volumes, t.volumes);
    parts := Diff(envAdded, envRemoved, envChanged, portsAdded, portsRemoved, entrypoint, cmd,
                  labelsAdded, labelsRemoved, labelsChanged, workdir, user, volumesAdded, volumesRemoved, false, 0);
  }

  ghost predicate PartsOf(c: Normal, t: Normal, d: Diff) {
    ListParts(c, t, d) && SingleParts(c, t, d) && CountParts(c, t, d) && ListsInOrder(d)
  }

  ghost predicate ListParts(c: Normal, t: Normal, d: Diff) {
    && PatchMap(c.env, ParseEnv(d.envAdded), d.envRemoved, d.envChanged) == t.env
    && PatchMap(c.labels, d.labelsAdded, d.labelsRemoved, d.labelsChanged) == t.labels
    && PatchSet(c.ports, d.portsAdded, d.portsRemoved) == t.ports
    && PatchSet(c.volumes, d.volumesAdded, d.volumesRemoved) == t.volumes
  }

  ghost predicate SingleParts(c: Normal, t: Normal, d: Diff) {
    && d.entrypoint == Compare(c.entrypoint, t.entrypoint) && d.cmd == Compare(c.cmd, t.cmd)
    && d.workdir == Compare(c.workdir, t.workdir) && d.user == Compare(c.user, t.user)
  }

  ghost predicate CountParts(c: Normal, t: Normal, d: Diff) {
    && |d.envAdded| + |d.envRemoved| + |d.envChanged| == MapChanges(c.env, t.env)
    && |d.labelsAdded| + |d.labelsRemoved| + |d.labelsChanged| == MapChanges(c.labels, t.labels)
    && |d.portsAdded| + |d.portsRemoved| == SetChanges(c.ports, t.ports)
    && |d.volumesAdded| + |d.volumesRemoved| == SetChanges(c.volumes, t.volumes)
    && (d.portsAdded != [] || d.portsRemoved != [] <==> c.ports != t.ports)
    && (d.volumesAdded != [] || d.volumesRemoved != [] <==> c.volumes != t.volumes)
  }

  lemma PartsAreRight(c: Normal, t: Normal, parts: Diff, diff: Diff)
    requires PartsOf(c, t, parts) && Summed(diff)
    requires diff == parts.(hasBreakingChanges := diff.hasBreakingChanges, changeCount := diff.changeCount)
    ensures Patch(c, diff) == t && ListsInOrder(diff)
    ensures diff.changeCount == Changes(c, t) && diff.hasBreakingChanges == Breaking(c, t)
  {
    PatchIsRight(c, t, diff);
    CountIsRight(c, t, diff);
  }

  lemma PatchIsRight(c: Normal, t: Normal, d: Diff)
    requires ListParts(c, t, d) && SingleParts(c, t, d)
    ensures Patch(c, d) == t
  {
    CompareIsRight(c.entrypoint, t.entrypoint);
    CompareIsRight(c.cmd, t.cmd);
    CompareIsRight(c.workdir, t.workdir);
    CompareIsRight(c.user, t.user);
  }

  lemma CountIsRight(c: Normal, t: Normal, d: Diff)
    requires SingleParts(c, t, d) && CountParts(c, t, d) && Summed(d)
    ensures d.changeCount == Changes(c, t) && d.hasBreakingChanges == Breaking(c, t)
  {}

  /** The lists that make a change breaking, and all that is counted. */
  ghost predicate Summed(diff: Diff) {
    && (diff.hasBreakingChanges <==>
          || diff.portsAdded != [] || diff.portsRemoved != [] || diff.entrypoint != Same
          || diff.volumesAdded != [] || diff.volumesRemoved != [])
    && diff.changeCount == |diff.envAdded| + |diff.envRemoved| + |diff.envChanged|
                           + |diff.portsAdded| + |diff.portsRemoved|
                           + |diff.labelsAdded| + |diff.labelsRemoved| + |diff.labelsChanged|
                           + |diff.volumesAdded| + |diff.volumesRemoved| + Scalars(diff)
  }

  ghost function Scalars(diff: Diff): nat {
    One(diff.entrypoint != Same) + One(diff.cmd != Same) + One(diff.workdir != Same) + One(diff.user != Same)
  }

  method SumUp(parts: Diff) returns (diff: Diff)
    ensures Summed(diff)
    ensures diff == parts.(hasBreakingChanges := diff.hasBreakingChanges, changeCount := diff.changeCount)
  {
    var breaking := |parts.portsAdded| > 0 || |parts.portsRemoved| > 0 || parts.entrypoint.Differs?
                    || |parts.volumesAdded| > 0 || |parts.volumesRemoved| > 0;
    var scalars := CountScalars(parts.entrypoint.Differs?, parts.cmd.Differs?,
                                parts.workdir.Differs?, parts.user.Differs?);
    var count := |parts.envAdded| + |parts.envRemoved| + |parts.envChanged| + |parts.portsAdded| + |parts.portsRemoved|
                 + |parts.labelsAdded| + |parts.labelsRemoved| + |parts.labelsChanged|
                 + |parts.volumesAdded| + |parts.volumesRemoved| + scalars;
    diff := parts.(hasBreakingChanges := breaking, changeCount := count);
  }

  method CountScalars(entrypoint: bool, cmd: bool, workdir: bool, user: bool) returns (count: nat)
    ensures count == One(entrypoint) + One(cmd) + One(workdir) + One(user)
  {
    count := 0;
    if entrypoint {
      count := count + 1;
    }
    if cmd {
      count := count + 1;
    }
    if workdir {
      count := count + 1;
    }
    if user {
      count := count + 1;
    }
  }

  // What the count means

  lemma NoMapChanges(current: map<string, string>, target: map<string, string>)
    ensures MapChanges(current, target) == 0 <==> current == target
  {
    if MapChanges(current, target) == 0 {
      assert target.Keys - current.Keys == {} && current.Keys - target.Keys == {};
      assert KeysChanged(current, target) == {};
      forall k | k in current ensures k in target && current[k] == target[k] {
        assert k !in current.Keys - target.Keys;
        assert k !in KeysChanged(current, target);
      }
      forall k | k in target ensures k in current {
        assert k !in target.Keys - current.Keys;
      }
    }
  }

  lemma NoSetChanges(current: set<string>, target: set<string>)
    ensures SetChanges(current, target) == 0 <==> current == target
  {
    if SetChanges(current, target) == 0 {
      assert target - current == {} && current - target == {};
    }
  }

  /** Nothing is counted exactly when the configurations agree in all that counts. */
  lemma NoChangesIffSame(c: Normal, t: Normal)
    ensures Changes(c, t) == 0 <==> c == t
  {
    NoMapChanges(c.env, t.env);
    NoMapChanges(c.labels, t.labels);
    NoSetChanges(c.ports, t.ports);
    NoSetChanges(c.volumes, t.volumes);
  }

  lemma SwapMaps(current: map<string, string>, target: map<string, string>)
    ensures MapChanges(current, target) == MapChanges(target, current)
  {
    assert KeysChanged(current, target) == KeysChanged(target, current);
  }

  /** The way back has as many changes, and breaks as much. */
  lemma SwapKeepsCount(c: Normal, t: Normal)
    ensures Changes(c, t) == Changes(t, c) && Breaking(c, t) == Breaking(t, c)
  {
    SwapMaps(c.env, t.env);
    SwapMaps(c.labels, t.labels);
  }
}
