/**
 Guest side of runtime staging (`claude_runtime.rs`): upload, verify, publish, relink and
 collect, one root command at a time. Every command may fail, and one reported as failed may
 have taken effect; the machine may stop between any two.
*/
module RuntimeGuest {
  import opened Basics

  type Digest = seq<Byte> -> string

  // Version, platform and digest name the artifact's file; a digest belongs to one size.
  datatype ArtifactSpec = ArtifactSpec(version: string, platform: string, sha256: string, size: nat)

  // A regular file, or something else under a file's name.
  datatype Node = Regular(content: seq<Byte>, uid: nat, mode: nat, mtime: int) | NotRegular

  datatype Active = Absent | Link(to: ArtifactSpec) | Plain

  // The runtime directory (artifacts and uploads in flight), the links in flight, the active link.
  datatype Fs = Fs(artifacts: map<ArtifactSpec, Node>, uploads: map<nat, Node>, links: map<nat, ArtifactSpec>,
                   active: Active)

  datatype Failure = Hard | Retryable
  datatype Result<T> = Ok(value: T) | Err(failure: Failure)

  const ROOT: nat := 0
  const EXECUTABLE: nat := 365 // 0o555

  predicate NodeMatches(sha: Digest, n: Node, spec: ArtifactSpec) {
    n.Regular? && n.uid == ROOT && n.mode == EXECUTABLE && |n.content| == spec.size && sha(n.content) == spec.sha256
  }

  predicate Matches(sha: Digest, fs: Fs, spec: ArtifactSpec) {
    spec in fs.artifacts && NodeMatches(sha, fs.artifacts[spec], spec)
  }

  // The active link leads to an artifact whose owner, mode, size and digest are right.
  predicate ActiveVerified(sha: Digest, fs: Fs) {
    fs.active.Link? && Matches(sha, fs, fs.active.to)
  }

  // ---- what one command may do to the link ----

  // The other versions, among them the one to roll back to.
  function Others(fs: Fs, spec: ArtifactSpec): map<ArtifactSpec, Node> {
    fs.artifacts - {spec}
  }

  // A verified active artifact stays one, the link moves only onto a verified artifact, and
  // no other version is touched before the link is there.
  ghost predicate SafeStep(sha: Digest, spec: ArtifactSpec, a: Fs, b: Fs) {
    && (ActiveVerified(sha, a) ==> ActiveVerified(sha, b))
    && (b.active != a.active ==> b.active == Link(spec) && ActiveVerified(sha, b))
    && (Others(b, spec) != Others(a, spec) ==> a.active == Link(spec) && ActiveVerified(sha, a))
  }

  // A run is safe when every step from one command boundary to the next is.
  ghost predicate SafeTrace(sha: Digest, spec: ArtifactSpec, trace: seq<Fs>) {
    |trace| > 1 ==>
      && SafeTrace(sha, spec, trace[..|trace| - 1])
      && SafeStep(sha, spec, trace[|trace| - 2], trace[|trace| - 1])
  }

  lemma SafeAppend(sha: Digest, spec: ArtifactSpec, trace: seq<Fs>, next: Fs)
    requires trace != [] && SafeTrace(sha, spec, trace) && SafeStep(sha, spec, trace[|trace| - 1], next)
    ensures SafeTrace(sha, spec, trace + [next])
  {
    assert (trace + [next])[..|trace|] == trace;
  }

  // ---- garbage collection ----

  datatype Entry = Entry(mtime: int, spec: ArtifactSpec)

  predicate NewestFirst(entries: seq<Entry>) {
    |entries| > 1 ==> entries[0].mtime >= entries[1].mtime && NewestFirst(entries[1..])
  }

  // Stable insertion by descending time.
  function Insert(entries: seq<Entry>, e: Entry): (r: seq<Entry>)
    requires NewestFirst(entries)
    ensures NewestFirst(r) && r != [] && (r[0] == e || (entries != [] && r[0] == entries[0]))
  {
    if entries == [] then [e]
    else if e.mtime > entries[0].mtime then assert ([e] + entries)[1..] == entries; [e] + entries
    else
      var rest := Insert(entries[1..], e);
      assert ([entries[0]] + rest)[1..] == rest;
      [entries[0]] + rest
  }

  function SortByTime(entries: seq<Entry>): (r: seq<Entry>)
    ensures NewestFirst(r)
  {
    if entries == [] then [] else Insert(SortByTime(entries[..|entries| - 1]), entries[|entries| - 1])
  }

  lemma {:induction false} InsertPermutes(entries: seq<Entry>, e: Entry)
    requires NewestFirst(entries)
    ensures multiset(Insert(entries, e)) == multiset(entries) + multiset{e}
    decreases |entries|
  {
    if entries != [] {
      assert entries == [entries[0]] + entries[1..];
      if e.mtime <= entries[0].mtime {
        InsertPermutes(entries[1..], e);
      }
    }
  }

  lemma {:induction false} SortPermutes(entries: seq<Entry>)
    ensures multiset(SortByTime(entries)) == multiset(entries)
    decreases |entries|
  {
    if entries != [] {
      var rest, last := entries[..|entries| - 1], entries[|entries| - 1];
      assert entries == rest + [last];
      SortPermutes(rest);
      InsertPermutes(SortByTime(rest), last);
    }
  }

  lemma {:induction false} FirstIsNewest(entries: seq<Entry>, k: nat)
    requires NewestFirst(entries) && k < |entries|
    ensures entries[k].mtime <= entries[0].mtime
    decreases |entries|
  {
    if k > 0 {
      FirstIsNewest(entries[1..], k - 1);
    }
  }

  function Files(fs: Fs): set<ArtifactSpec> {
    set spec | spec in fs.artifacts && fs.artifacts[spec].Regular?
  }

  // At most old versions are gone: what is left is unchanged, and once anything is gone the
  // newest other file is still there.
  ghost predicate Trimmed(before: Fs, after: Fs, active: ArtifactSpec) {
    && after == before.(artifacts := after.artifacts)
    && (forall spec :: spec in after.artifacts ==>
        spec in before.artifacts && after.artifacts[spec] == before.artifacts[spec])
    && (forall spec :: spec in before.artifacts && spec !in after.artifacts ==> spec in Files(before) && spec != active)
    && (after != before ==> exists newest :: newest in Files(after) && NewestOther(before, active, newest))
  }

  predicate NewestOther(fs: Fs, active: ArtifactSpec, newest: ArtifactSpec) {
    && newest in Files(fs) && newest != active
    && forall spec :: spec in Files(fs) && spec != active ==> fs.artifacts[spec].mtime <= fs.artifacts[newest].mtime
  }

  // Exactly `active` and the newest other regular file are left, and nothing else changed.
  ghost predicate Collected(before: Fs, after: Fs, active: ArtifactSpec) {
    && after == before.(artifacts := after.artifacts)
    && (forall spec :: spec in after.artifacts ==>
        spec in before.artifacts && after.artifacts[spec] == before.artifacts[spec])
    && (forall spec :: spec in before.artifacts && spec !in Files(before) ==> spec in after.artifacts)
    && (active in before.artifacts ==> active in after.artifacts)
    && if Files(before) <= {active} then after == before
       else exists newest ::
         NewestOther(before, active, newest) && Files(after) == (Files(before) * {active}) + {newest}
  }
}
