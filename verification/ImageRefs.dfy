/** Image references as the pruner reads them. */
module ImageRefs {
  predicate HasPrefix(s: string, prefix: string) {
    |prefix| <= |s| && s[..|prefix|] == prefix
  }

  function TrimPrefix(s: string, prefix: string): string {
    if HasPrefix(s, prefix) then s[|prefix|..] else s
  }

  predicate HasSuffix(s: string, suffix: string) {
    |suffix| <= |s| && s[|s| - |suffix|..] == suffix
  }

  /** Repository and tag, looking for the separating colon in `s[..i]` from its end. */
  function SplitBefore(s: string, i: nat): (string, string)
    requires i <= |s|
  {
    if i == 0 || s[i - 1] == '/' then (s, "latest")
    else if s[i - 1] == ':' then (s[..i - 1], s[i..])
    else SplitBefore(s, i - 1)
  }

  function RepoTag(s: string): (string, string) {
    SplitBefore(s, |s|)
  }

  method SplitRepoTag(s: string) returns (repo: string, tag: string)
    ensures (repo, tag) == RepoTag(s)
  {
    var i := |s| - 1;
    while i >= 0
      invariant -1 <= i < |s|
      invariant RepoTag(s) == SplitBefore(s, i + 1)
    {
      if s[i] == ':' { return s[..i], s[i + 1..]; }
      if s[i] == '/' { break; }
      i := i - 1;
    }
    return s, "latest";
  }

  predicate TagChars(tag: string) {
    ':' !in tag && '/' !in tag
  }

  lemma {:induction false} SplitsAtColon(repo: string, tag: string, i: nat)
    requires TagChars(tag) && |repo| < i <= |repo| + 1 + |tag|
    ensures SplitBefore(repo + [':'] + tag, i) == (repo, tag)
  {
    var s := repo + [':'] + tag;
    if i > |repo| + 1 {
      assert s[i - 1] == tag[i - 2 - |repo|];
      SplitsAtColon(repo, tag, i - 1);
    } else {
      assert s[..|repo|] == repo && s[|repo| + 1..] == tag;
    }
  }

  /** A tagged reference splits into just what it was put together from. */
  lemma SplitUndoesJoin(repo: string, tag: string)
    requires TagChars(tag)
    ensures RepoTag(repo + [':'] + tag) == (repo, tag)
  {
    SplitsAtColon(repo, tag, |repo| + 1 + |tag|);
  }

  /** Two references of the form repository:tag are equal only if both parts are. */
  lemma SplitIsUnambiguous(repo: string, tag: string, repo': string, tag': string)
    requires TagChars(tag) && TagChars(tag') && repo + [':'] + tag == repo' + [':'] + tag'
    ensures repo == repo' && tag == tag'
  {
    SplitUndoesJoin(repo, tag);
    SplitUndoesJoin(repo', tag');
  }

  /** Makes "docker.io/library/nginx" and "nginx:latest" comparable. */
  function Normalize(ref: string): string {
    var r := TrimPrefix(TrimPrefix(ref, "docker.io/"), "library/");
    if '@' !in r && RepoTag(r).1 == "latest" && !HasSuffix(r, ":latest") then r + ":latest" else r
  }

  const HUB := "docker.io/"
  const LIBRARY := "library/"
  const LATEST := ":latest"

  lemma TrimAdded(prefix: string, s: string)
    ensures TrimPrefix(prefix + s, prefix) == s
  {}

  /** The registry and the namespace of Docker's own images may be left out. */
  lemma ShortSpelling(s: string)
    requires !HasPrefix(s, HUB) && !HasPrefix(s, LIBRARY)
    ensures Normalize(HUB + (LIBRARY + s)) == Normalize(LIBRARY + s) == Normalize(HUB + s) == Normalize(s)
  {
    TrimAdded(HUB, LIBRARY + s);
    TrimAdded(HUB, s);
    TrimAdded(LIBRARY, s);
    assert (LIBRARY + s)[0] == 'l';
    assert !HasPrefix(LIBRARY + s, HUB);
  }

  /** So may the tag "latest". */
  lemma LatestIsImplied(s: string)
    requires !HasPrefix(s, HUB) && !HasPrefix(s, LIBRARY) && '@' !in s
    requires RepoTag(s).1 == "latest" && !HasSuffix(s, LATEST)
    ensures Normalize(s) == s + LATEST == Normalize(s + LATEST)
  {
    NoNewPrefix(s, LATEST, HUB);
    NoNewPrefix(s, LATEST, LIBRARY);
    assert (s + LATEST)[|s|..] == LATEST;
  }

  /** A colon before the last slash belongs to a registry's port. */
  lemma {:induction false} UntaggedSplit(host: string, name: string, i: nat)
    requires TagChars(name) && (host == [] || host[|host| - 1] == '/') && |host| <= i <= |host| + |name|
    ensures SplitBefore(host + name, i) == (host + name, "latest")
  {
    if i > |host| {
      assert (host + name)[i - 1] == name[i - 1 - |host|];
      UntaggedSplit(host, name, i - 1);
    }
  }

  /** Just the references with neither tag nor digest get a tag. */
  lemma UntaggedIsLatest(host: string, name: string)
    requires TagChars(name) && (host == [] || host[|host| - 1] == '/') && '@' !in host + name
    requires !HasPrefix(host + name, HUB) && !HasPrefix(host + name, LIBRARY)
    ensures Normalize(host + name) == host + name + ":latest"
  {
    UntaggedSplit(host, name, |host + name|);
    var s := host + name;
    if HasSuffix(s, LATEST) {
      LatestSplits(s);
    }
  }

  lemma LatestSplits(s: string)
    requires HasSuffix(s, LATEST)
    ensures RepoTag(s).0 != s
  {
    var repo := s[..|s| - |LATEST|];
    assert repo + [':'] + "latest" == repo + LATEST == s;
    SplitUndoesJoin(repo, "latest");
  }

  lemma TaggedIsKept(repo: string, tag: string)
    requires TagChars(tag)
    requires !HasPrefix(repo + [':'] + tag, HUB) && !HasPrefix(repo + [':'] + tag, LIBRARY)
    ensures Normalize(repo + [':'] + tag) == repo + [':'] + tag
  {
    SplitUndoesJoin(repo, tag);
    if tag == "latest" {
      assert (repo + [':'] + tag)[|repo|..] == LATEST;
    }
  }

  lemma DigestIsKept(s: string)
    requires '@' in s && !HasPrefix(s, HUB) && !HasPrefix(s, LIBRARY)
    ensures Normalize(s) == s
  {}

  lemma NoNewPrefix(s: string, more: string, prefix: string)
    requires !HasPrefix(s, prefix) && more != [] && more[0] !in prefix
    ensures !HasPrefix(s + more, prefix)
  {
    if |s| < |prefix| {
      assert (s + more)[|s|] == more[0];
    } else {
      assert (s + more)[..|prefix|] == s[..|prefix|];
    }
  }

  /** What follows the first '@', if there is one. */
  function AfterAt(s: string): (r: string)
  {
    if s == [] then "" else if s[0] == '@' then s[1..] else AfterAt(s[1..])
  }

  lemma {:induction false} AfterAtIs(name: string, digest: string)
    requires '@' !in name
    ensures AfterAt(name + ['@'] + digest) == digest
  {
    if name == [] {
      assert (name + ['@'] + digest)[1..] == digest;
    } else {
      assert (name + ['@'] + digest)[1..] == name[1..] + ['@'] + digest;
      AfterAtIs(name[1..], digest);
    }
  }
}
