/** The activation run: the guest's root commands in order, with a state recorded after each. */
module RuntimeActivation {
  import opened Basics
  import opened RuntimeGuest

  // The other regular artifacts, as `find` lists them.
  ghost predicate ListsOthers(fs: Fs, active: ArtifactSpec, entries: seq<Entry>) {
    && (forall e :: multiset(entries)[e] <= 1)
    && (forall e :: e in entries ==> e.spec in Files(fs) && e.spec != active && e.mtime == fs.artifacts[e.spec].mtime)
    && (forall spec :: spec in Files(fs) && spec != active ==> Entry(fs.artifacts[spec].mtime, spec) in entries)
  }

  function Specs(entries: seq<Entry>): set<ArtifactSpec> {
    set e | e in entries :: e.spec
  }

  lemma CountTwo(entries: seq<Entry>, i: nat, j: nat)
    requires i < j < |entries| && multiset(entries)[entries[i]] <= 1
    ensures entries[i] != entries[j]
  {
    assert entries == entries[..j] + entries[j..];
    assert entries[i] in entries[..j] && entries[j] in entries[j..];
    assert entries[i] in multiset(entries[..j]) && entries[j] in multiset(entries[j..]);
  }

  lemma FirstStays(fs: Fs, active: ArtifactSpec, sorted: seq<Entry>)
    requires sorted != [] && ListsOthers(fs, active, sorted)
    ensures sorted[0].spec !in Specs(sorted[1..])
  {
    forall e | e in sorted[1..] ensures e.spec != sorted[0].spec {
      var j :| 0 <= j < |sorted| - 1 && sorted[1..][j] == e;
      CountTwo(sorted, 0, j + 1);
      assert sorted[0] in sorted && e in sorted;
    }
  }

  // Removing all but the newest other artifact is the whole collection.
  lemma CollectedAll(fs: Fs, active: ArtifactSpec, sorted: seq<Entry>)
    requires ListsOthers(fs, active, sorted) && NewestFirst(sorted)
    ensures sorted == [] ==> Collected(fs, fs, active)
    ensures sorted != [] ==> Collected(fs, fs.(artifacts := fs.artifacts - Specs(sorted[1..])), active)
  {
    if sorted == [] {
      assert Files(fs) <= {active};
    } else {
      var newest := sorted[0].spec;
      assert sorted[0] in sorted;
      var after := fs.(artifacts := fs.artifacts - Specs(sorted[1..]));
      FirstStays(fs, active, sorted);
      NewestOfAll(fs, active, sorted);
      RestIsGone(fs, active, sorted);
      assert NewestOther(fs, active, newest);
      assert forall spec :: spec in Specs(sorted[1..]) ==> spec in Files(fs) && spec != active;
    }
  }

  lemma NewestOfAll(fs: Fs, active: ArtifactSpec, sorted: seq<Entry>)
    requires sorted != [] && ListsOthers(fs, active, sorted) && NewestFirst(sorted)
    ensures forall spec :: spec in Files(fs) && spec != active ==> fs.artifacts[spec].mtime <= sorted[0].mtime
  {
    forall spec | spec in Files(fs) && spec != active ensures fs.artifacts[spec].mtime <= sorted[0].mtime {
      var e := Entry(fs.artifacts[spec].mtime, spec);
      assert e in sorted;
      var k :| 0 <= k < |sorted| && sorted[k] == e;
      FirstIsNewest(sorted, k);
    }
  }

  lemma RestIsGone(fs: Fs, active: ArtifactSpec, sorted: seq<Entry>)
    requires sorted != [] && ListsOthers(fs, active, sorted)
    ensures Files(fs) - Specs(sorted[1..]) == (Files(fs) * {active}) + {sorted[0].spec}
  {
    FirstStays(fs, active, sorted);
    assert sorted[0] in sorted;
    assert sorted == [sorted[0]] + sorted[1..];
    forall spec | spec in Files(fs) && spec != active && spec != sorted[0].spec ensures spec in Specs(sorted[1..]) {
      var e := Entry(fs.artifacts[spec].mtime, spec);
      assert e in sorted;
      assert e in sorted[1..];
    }
    forall spec | spec in Specs(sorted[1..]) ensures spec != active {
      var e :| e in sorted[1..] && e.spec == spec;
      assert e in sorted;
    }
  }

  // A regular file of root's, with mode 0555, of the artifact's size and digest.
  predicate IsSound(sha: Digest, n: Node, spec: ArtifactSpec) {
    && n.Regular? && n.uid == 0 && n.mode == 5 * 64 + 5 * 8 + 5
    && |n.content| == spec.size && sha(n.content) == spec.sha256
  }

  class Guest {
    const sha: Digest
    var fs: Fs
    // The states at the command boundaries of the current run, and whether anything failed in it.
    ghost var trace: seq<Fs>
    ghost var faulty: bool

    constructor (sha: Digest, fs: Fs)
      ensures this.sha == sha && this.fs == fs
    {
      this.sha, this.fs, this.trace, this.faulty := sha, fs, [fs], false;
    }

    ghost predicate Recorded(spec: ArtifactSpec) reads this {
      && trace != [] && trace[|trace| - 1] == fs
      && SafeTrace(sha, spec, trace)
    }

    // A command whose whole effect is to make the state `next`.
    method Run(next: Fs, ghost spec: ArtifactSpec) returns (ok: bool)
      requires Recorded(spec) && SafeStep(sha, spec, fs, next)
      modifies this
      ensures Recorded(spec) && trace[0] == old(trace[0])
      ensures fs == next || (!ok && fs == old(fs))
      ensures faulty == (old(faulty) || !ok)
    {
      var took: bool := *;
      ok := *;
      if ok || took {
        fs := next;
      }
      SafeAppend(sha, spec, trace, fs);
      trace := trace + [fs];
      faulty := faulty || !ok;
    }

    // A command that only looks.
    method Ask() returns (ok: bool)
      modifies this`faulty
      ensures faulty == (old(faulty) || !ok)
    {
      ok := *;
      faulty := faulty || !ok;
    }

    method GuestArtifactMatches(spec: ArtifactSpec) returns (r: Result<bool>)
      modifies this`faulty
      ensures match r
              case Ok(yes) =>
                && yes == Matches(sha, fs, spec) && faulty == old(faulty)
                && (yes <==> spec in fs.artifacts && IsSound(sha, fs.artifacts[spec], spec))
              case Err(e) => e.Retryable? && faulty
    {
      var answered := Ask();
      if !answered {
        return Err(Retryable);
      }
      if spec !in fs.artifacts {
        return Ok(false);
      }
      answered := Ask();
      if !answered {
        return Err(Retryable);
      }
      var n := fs.artifacts[spec];
      if !(n.Regular? && n.uid == ROOT && n.mode == EXECUTABLE && |n.content| == spec.size) {
        return Ok(false);
      }
      answered := Ask();
      if !answered {
        return Err(Retryable);
      }
      return Ok(sha(n.content) == spec.sha256);
    }

    // Two deletions; one that fails may have removed some of what it lists.
    method PruneGuestStaging(ghost spec: ArtifactSpec) returns (ok: bool)
      requires Recorded(spec)
      modifies this
      ensures Recorded(spec) && trace[0] == old(trace[0])
      ensures fs == old(fs).(uploads := fs.uploads, links := fs.links)
      ensures faulty == (old(faulty) || !ok)
      ensures ok ==> fs.uploads == map[] && fs.links == map[]
    {
      ok := PruneUploads(spec);
      if ok {
        ok := PruneLinks(spec);
      }
    }

    method PruneUploads(ghost spec: ArtifactSpec) returns (ok: bool)
      requires Recorded(spec)
      modifies this
      ensures Recorded(spec) && trace[0] == old(trace[0])
      ensures fs == old(fs).(uploads := fs.uploads) && fs.uploads.Keys <= old(fs).uploads.Keys
      ensures faulty == (old(faulty) || !ok)
      ensures ok ==> fs.uploads == map[]
    {
      var left: set<nat> := *;
      ok := Run(fs.(uploads := map n | n in fs.uploads && n in left :: fs.uploads[n]), spec);
      if ok {
        ok := Run(fs.(uploads := map[]), spec);
      }
    }

    method PruneLinks(ghost spec: ArtifactSpec) returns (ok: bool)
      requires Recorded(spec)
      modifies this
      ensures Recorded(spec) && trace[0] == old(trace[0])
      ensures fs == old(fs).(links := fs.links) && fs.links.Keys <= old(fs).links.Keys
      ensures faulty == (old(faulty) || !ok)
      ensures ok ==> fs.links == map[]
    {
      var left: set<nat> := *;
      ok := Run(fs.(links := map n | n in fs.links && n in left :: fs.links[n]), spec);
      if ok {
        ok := Run(fs.(links := map[]), spec);
      }
    }

    // `find`: every other regular artifact once, in no particular order.
    method ListOthers(active: ArtifactSpec) returns (entries: seq<Entry>)
      ensures ListsOthers(fs, active, entries)
    {
      var rest := set spec | spec in fs.artifacts && fs.artifacts[spec].Regular? && spec != active;
      entries := [];
      while rest != {}
        invariant rest <= Files(fs) - {active}
        invariant forall e :: multiset(entries)[e] <= 1
        invariant forall e :: e in entries ==>
          e.spec in Files(fs) && e.spec != active && e.mtime == fs.artifacts[e.spec].mtime && e.spec !in rest
        invariant forall spec :: spec in Files(fs) && spec != active && spec !in rest ==>
          Entry(fs.artifacts[spec].mtime, spec) in entries
        decreases |rest|
      {
        var spec :| spec in rest;
        var e := Entry(fs.artifacts[spec].mtime, spec);
        assert e !in entries;
        entries := entries + [e];
        rest := rest - {spec};
      }
    }

    method SortedOthers(active: ArtifactSpec) returns (sorted: seq<Entry>)
      ensures ListsOthers(fs, active, sorted) && NewestFirst(sorted)
    {
      var entries := ListOthers(active);
      sorted := SortByTime(entries);
      SortPermutes(entries);
      SameListing(fs, active, entries, sorted);
    }

    /** `gc_guest_versions`: leaves the active artifact and the newest other one. */
    method GcGuestVersions(active: ArtifactSpec) returns (ok: bool)
      requires Recorded(active) && fs.active == Link(active) && Matches(sha, fs, active)
      modifies this
      ensures Recorded(active) && trace[0] == old(trace[0])
      ensures fs == old(fs).(artifacts := fs.artifacts) && Matches(sha, fs, active)
      ensures faulty == (old(faulty) || !ok)
      ensures ok ==> Collected(old(fs), fs, active)
      ensures Trimmed(old(fs), fs, active)
    {
      ok := Ask();
      if !ok {
        return;
      }
      var sorted := SortedOthers(active);
      CollectedAll(fs, active, sorted);
      if sorted != [] {
        ok := RemoveStales(sorted, active);
      }
    }

    // All but the newest, in order.
    method RemoveStales(sorted: seq<Entry>, active: ArtifactSpec) returns (ok: bool)
      requires Recorded(active) && fs.active == Link(active) && Matches(sha, fs, active)
      requires sorted != [] && ListsOthers(fs, active, sorted) && NewestFirst(sorted)
      modifies this
      ensures Recorded(active) && trace[0] == old(trace[0])
      ensures fs == old(fs).(artifacts := fs.artifacts) && Matches(sha, fs, active)
      ensures faulty == (old(faulty) || !ok)
      ensures ok ==> fs == old(fs).(artifacts := old(fs).artifacts - Specs(sorted[1..]))
      ensures Trimmed(old(fs), fs, active)
    {
      ghost var before := fs;
      ok := true;
      var i := 1;
      assert Remaining(before, sorted, 1) == fs;
      while i < |sorted|
        invariant 1 <= i <= |sorted|
        invariant Recorded(active) && trace[0] == old(trace[0])
        invariant ok && faulty == old(faulty)
        invariant fs == Remaining(before, sorted, i)
        invariant fs.active == Link(active) && Matches(sha, fs, active)
      {
        assert sorted[i] in sorted;
        ok := RemoveStale(sorted[i].spec, active);
        OneMoreGone(before, sorted, i);
        if !ok {
          RemainingTrimmed(before, active, sorted, if fs == Remaining(before, sorted, i) then i else i + 1);
          return;
        }
        i := i + 1;
      }
      assert sorted[1..i] == sorted[1..];
      RemainingTrimmed(before, active, sorted, i);
    }

    method RemoveStale(stale: ArtifactSpec, active: ArtifactSpec) returns (ok: bool)
      requires Recorded(active) && fs.active == Link(active) && Matches(sha, fs, active) && stale != active
      modifies this
      ensures Recorded(active) && trace[0] == old(trace[0])
      ensures fs == Without(old(fs), stale) || (!ok && fs == old(fs))
      ensures Matches(sha, fs, active) && fs == old(fs).(artifacts := fs.artifacts)
      ensures faulty == (old(faulty) || !ok)
    {
      ok := Run(Without(fs, stale), active);
    }

    // Removals whose own failure is only logged.
    method CleanupTarget(spec: ArtifactSpec)
      requires Recorded(spec) && !Matches(sha, fs, spec)
      modifies this
      ensures Recorded(spec) && trace[0] == old(trace[0])
      ensures fs == Without(old(fs), spec) || (faulty && fs == old(fs))
      ensures old(faulty) ==> faulty
    {
      var _ := Run(Without(fs, spec), spec);
    }

    method CleanupUpload(nonce: nat, ghost spec: ArtifactSpec)
      requires Recorded(spec)
      modifies this
      ensures Recorded(spec) && trace[0] == old(trace[0])
      ensures fs == old(fs).(uploads := fs.uploads) && (old(faulty) ==> faulty)
    {
      var _ := Run(fs.(uploads := fs.uploads - {nonce}), spec);
    }

    method CleanupLink(nonce: nat, ghost spec: ArtifactSpec)
      requires Recorded(spec)
      modifies this
      ensures Recorded(spec) && trace[0] == old(trace[0])
      ensures fs == old(fs).(links := fs.links) && (old(faulty) ==> faulty)
    {
      var _ := Run(fs.(links := fs.links - {nonce}), spec);
    }

    // The copy from the host: whatever arrives, or a part of it, ends up under the upload's name.
    method UploadFromHost(host: seq<Byte>, nonce: nat, ghost spec: ArtifactSpec) returns (ok: bool)
      requires Recorded(spec)
      modifies this
      ensures Recorded(spec) && trace[0] == old(trace[0])
      ensures fs == old(fs).(uploads := fs.uploads) && (old(faulty) ==> faulty)
      ensures ok ==>
        nonce in fs.uploads && fs.uploads == old(fs).uploads[nonce := fs.uploads[nonce]] && fs.uploads[nonce].Regular?
      ensures !ok ==> faulty
      ensures !faulty ==> fs.uploads[nonce].content == host && fs.uploads[nonce].uid == ROOT
    {
      var content: seq<Byte> := *;
      var uid: nat, mode: nat, mtime: int := *, *, *;
      ok := Run(fs.(uploads := fs.uploads[nonce := Regular(content, uid, mode, mtime)]), spec);
      faulty := faulty || content != host || uid != ROOT;
    }

    method ChmodUpload(nonce: nat, ghost spec: ArtifactSpec) returns (ok: bool)
      requires Recorded(spec) && nonce in fs.uploads && fs.uploads[nonce].Regular?
      modifies this
      ensures Recorded(spec) && trace[0] == old(trace[0])
      ensures fs == old(fs).(uploads := fs.uploads)
      ensures ok ==> fs.uploads == old(fs).uploads[nonce := old(fs).uploads[nonce].(mode := EXECUTABLE)]
      ensures faulty == (old(faulty) || !ok)
    {
      ok := Run(fs.(uploads := fs.uploads[nonce := fs.uploads[nonce].(mode := EXECUTABLE)]), spec);
    }

    // `mv -fT` of the verified upload onto the target.
    method Publish(nonce: nat, spec: ArtifactSpec) returns (ok: bool)
      requires Recorded(spec) && nonce in fs.uploads && NodeMatches(sha, fs.uploads[nonce], spec)
      modifies this
      ensures Recorded(spec) && trace[0] == old(trace[0])
      ensures fs == Published(old(fs), nonce, spec) || (!ok && fs == old(fs))
      ensures ok ==> fs == Published(old(fs), nonce, spec)
      ensures faulty == (old(faulty) || !ok)
    {
      ok := Run(Published(fs, nonce, spec), spec);
    }

    // The checks on the uploaded file, and its publication when it passes all of them.
    method VerifyAndPublish(spec: ArtifactSpec, nonce: nat) returns (ok: bool)
      requires Recorded(spec) && nonce in fs.uploads && fs.uploads[nonce].Regular?
      modifies this
      ensures Recorded(spec) && trace[0] == old(trace[0])
      ensures fs.active == old(fs).active && fs.links == old(fs).links
      ensures ok ==> Matches(sha, fs, spec) && fs.uploads == old(fs).uploads - {nonce}
      ensures Others(fs, spec) == Others(old(fs), spec)
      ensures old(faulty) ==> faulty
      ensures !ok ==>
        faulty || old(fs).uploads[nonce].uid != ROOT || !HostGood(sha, old(fs).uploads[nonce].content, spec)
    {
      ok := ChmodUpload(nonce, spec);
      if !ok {
        return;
      }
      ok := Ask();
      if !ok || sha(fs.uploads[nonce].content) != spec.sha256 {
        return false;
      }
      ok := Ask();
      var n := fs.uploads[nonce];
      if !ok || !(n.uid == ROOT && n.mode == EXECUTABLE && |n.content| == spec.size) {
        return false;
      }
      ok := Publish(nonce, spec);
    }

    // The target is replaced only by a file that passed every check.
    method StageUpload(spec: ArtifactSpec, host: seq<Byte>, nonce: nat) returns (r: Result<()>)
      requires Recorded(spec) && fs.uploads == map[]
      modifies this
      ensures Recorded(spec) && trace[0] == old(trace[0])
      ensures fs.active == old(fs).active && fs.links == old(fs).links
      ensures r.Ok? ==> Matches(sha, fs, spec) && fs.uploads == map[]
      ensures Others(fs, spec) == Others(old(fs), spec)
      ensures r.Err? ==> faulty || (r.failure.Hard? && !HostGood(sha, host, spec))
      ensures old(faulty) ==> faulty
    {
      var ok := UploadFromHost(host, nonce, spec);
      if !ok {
        CleanupUpload(nonce, spec);
        return Err(Retryable);
      }
      ok := VerifyAndPublish(spec, nonce);
      if !ok {
        CleanupUpload(nonce, spec);
        return Err(Hard);
      }
      return Ok(());
    }

    // `chmod 0555` on a target that matched, and a second look.
    method ReassertTarget(spec: ArtifactSpec) returns (r: Result<()>)
      requires Recorded(spec) && Matches(sha, fs, spec)
      modifies this
      ensures Recorded(spec) && trace[0] == old(trace[0]) && fs == old(fs)
      ensures r.Err? ==> faulty
      ensures old(faulty) ==> faulty
    {
      var asExecutable := fs.artifacts[spec].(mode := EXECUTABLE);
      assert fs.artifacts[spec := asExecutable] == fs.artifacts;
      var ok := Run(fs.(artifacts := fs.artifacts[spec := asExecutable]), spec);
      if !ok {
        return Err(Retryable);
      }
      var matches := GuestArtifactMatches(spec);
      if matches.Err? {
        return Err(Retryable);
      }
      if !matches.value {
        return Err(Hard);
      }
      return Ok(());
    }

    // A new link under a name of its own, renamed over the active one.
    method SwitchLink(spec: ArtifactSpec, nonce: nat) returns (r: Result<()>)
      requires Recorded(spec) && Matches(sha, fs, spec) && fs.links == map[]
      modifies this
      ensures Recorded(spec) && trace[0] == old(trace[0])
      ensures fs == old(fs).(links := fs.links, active := fs.active)
      ensures r.Ok? ==> fs.active == Link(spec) && fs.links == map[]
      ensures r.Err? ==> r.failure.Retryable? && faulty
      ensures old(faulty) ==> faulty
    {
      var ok := Run(fs.(links := fs.links[nonce := spec]), spec);
      if !ok {
        CleanupLink(nonce, spec);
        return Err(Retryable);
      }
      ok := Run(fs.(links := fs.links - {nonce}, active := Link(fs.links[nonce])), spec);
      if !ok {
        CleanupLink(nonce, spec);
        return Err(Retryable);
      }
      return Ok(());
    }

    // Brings a verified artifact to the target, reusing the one there when it matches.
    method EnsureTarget(spec: ArtifactSpec, host: seq<Byte>, nonce: nat) returns (r: Result<()>)
      requires Recorded(spec) && fs.uploads == map[] && fs.links == map[]
      modifies this
      ensures Recorded(spec) && trace[0] == old(trace[0])
      ensures fs.active == old(fs).active && fs.links == map[]
      ensures r.Ok? ==> Matches(sha, fs, spec) && fs.uploads == map[]
      ensures Others(fs, spec) == Others(old(fs), spec)
      ensures r.Err? ==> faulty || (r.failure.Hard? && !HostGood(sha, host, spec))
      ensures old(faulty) ==> faulty
    {
      var matches := GuestArtifactMatches(spec);
      if matches.Err? {
        return Err(matches.failure);
      }
      if matches.value {
        r := ReassertTarget(spec);
      } else {
        CleanupTarget(spec);
        r := StageUpload(spec, host, nonce);
      }
    }

    /**
     `activate_artifact`: every boundary of the run is safe, whatever fails and wherever it
     stops; success means the link leads to the checked artifact and nothing is left in
     flight; and a run in which no command fails succeeds from every leftover state.
    */
    method ActivateArtifact(spec: ArtifactSpec, host: seq<Byte>, nonce: nat) returns (r: Result<()>)
      modifies this
      ensures Recorded(spec) && trace[0] == old(fs)
      ensures r.Ok? ==> fs.active == Link(spec) && Matches(sha, fs, spec) && fs.uploads == map[] && fs.links == map[]
      ensures r.Ok? ==> spec in fs.artifacts && IsSound(sha, fs.artifacts[spec], spec)
      ensures r.Err? ==> Others(fs, spec) == Others(old(fs), spec)
      ensures r.Ok? ==> exists before: Fs :: Others(before, spec) == Others(old(fs), spec) && Trimmed(before, fs, spec)
      ensures r.Ok? && !faulty ==>
        exists before: Fs :: Others(before, spec) == Others(old(fs), spec) && Collected(before, fs, spec)
      ensures old(fs).active.Plain? ==> r.Err? && fs.active.Plain?
      ensures !faulty && HostGood(sha, host, spec) && !old(fs).active.Plain? ==> r.Ok?
      ensures r.Err? && r.failure.Retryable? ==> faulty
    {
      trace, faulty := [fs], false;
      // The four runtime directories exist, belong to root and are no links.
      var ok := Ask();
      if !ok {
        var unsafeDir: bool := *;
        return Err(if unsafeDir then Hard else Retryable);
      }
      ok := PruneGuestStaging(spec);
      if !ok {
        return Err(Retryable);
      }
      ok := Ask();
      if !ok {
        return Err(Retryable);
      }
      if fs.active.Plain? {
        return Err(Hard);
      }
      r := EnsureTarget(spec, host, nonce);
      if r.Err? {
        return;
      }
      r := SwitchLink(spec, nonce);
      if r.Err? {
        return;
      }
      ghost var before := fs;
      ok := GcGuestVersions(spec);
      assert Others(before, spec) == Others(old(fs), spec) && Trimmed(before, fs, spec);
      assert ok ==> Others(before, spec) == Others(old(fs), spec) && Collected(before, fs, spec);
    }
  }

  predicate HostGood(sha: Digest, host: seq<Byte>, spec: ArtifactSpec) {
    |host| == spec.size && sha(host) == spec.sha256
  }

  function Published(fs: Fs, nonce: nat, spec: ArtifactSpec): Fs
    requires nonce in fs.uploads
  {
    fs.(artifacts := fs.artifacts[spec := fs.uploads[nonce]], uploads := fs.uploads - {nonce})
  }

  function Without(fs: Fs, stale: ArtifactSpec): Fs {
    fs.(artifacts := fs.artifacts - {stale})
  }

  // After the removal of the entries from the second to the one before `i`.
  function Remaining(fs: Fs, sorted: seq<Entry>, i: nat): Fs
    requires 1 <= i <= |sorted|
  {
    fs.(artifacts := fs.artifacts - Specs(sorted[1..i]))
  }

  lemma RemainingTrimmed(fs: Fs, active: ArtifactSpec, sorted: seq<Entry>, i: nat)
    requires ListsOthers(fs, active, sorted) && NewestFirst(sorted) && 1 <= i <= |sorted|
    ensures Trimmed(fs, Remaining(fs, sorted, i), active)
  {
    var gone := Specs(sorted[1..i]);
    FirstStays(fs, active, sorted);
    NewestOfAll(fs, active, sorted);
    assert sorted[0] in sorted;
    assert forall e :: e in sorted[1..i] ==> e in sorted[1..] && e in sorted;
    assert sorted[0].spec in Files(Remaining(fs, sorted, i)) && NewestOther(fs, active, sorted[0].spec);
  }

  lemma SameListing(fs: Fs, active: ArtifactSpec, entries: seq<Entry>, sorted: seq<Entry>)
    requires ListsOthers(fs, active, entries) && multiset(sorted) == multiset(entries)
    ensures ListsOthers(fs, active, sorted)
  {
    forall e ensures e in sorted <==> e in entries {
      assert e in multiset(sorted) <==> e in multiset(entries);
    }
  }

  lemma OneMoreGone(fs: Fs, sorted: seq<Entry>, i: nat)
    requires 1 <= i < |sorted|
    ensures Without(Remaining(fs, sorted, i), sorted[i].spec) == Remaining(fs, sorted, i + 1)
  {
    assert sorted[1..i + 1] == sorted[1..i] + [sorted[i]];
    assert Specs(sorted[1..i + 1]) == Specs(sorted[1..i]) + {sorted[i].spec};
  }

  // ---- over any number of runs ----

  // A run of activation, cut off wherever the machine or the process stopped.
  datatype RunRecord = RunRecord(spec: ArtifactSpec, trace: seq<Fs>)

  lemma {:induction false} CutRunIsSafe(sha: Digest, spec: ArtifactSpec, trace: seq<Fs>, k: nat)
    requires SafeTrace(sha, spec, trace) && k <= |trace|
    ensures SafeTrace(sha, spec, trace[..k])
    decreases |trace|
  {
    if k < |trace| && |trace| > 1 {
      CutRunIsSafe(sha, spec, trace[..|trace| - 1], k);
      assert trace[..|trace| - 1][..k] == trace[..k];
    } else {
      assert k == |trace| ==> trace[..k] == trace;
    }
  }

  // Each run starts from the state the previous one left.
  ghost predicate Chained(sha: Digest, start: Fs, runs: seq<RunRecord>)
    decreases |runs|
  {
    runs == [] ||
    (runs[0].trace != [] && runs[0].trace[0] == start && SafeTrace(sha, runs[0].spec, runs[0].trace)
     && Chained(sha, runs[0].trace[|runs[0].trace| - 1], runs[1..]))
  }

  // Verified, or not yet touched.
  ghost predicate Sound(sha: Digest, start: Fs, fs: Fs) {
    && (ActiveVerified(sha, start) ==> ActiveVerified(sha, fs))
    && (fs.active != start.active ==> ActiveVerified(sha, fs))
  }

  lemma {:induction false} SafeTraceIsSound(sha: Digest, spec: ArtifactSpec, trace: seq<Fs>, k: nat)
    requires SafeTrace(sha, spec, trace) && k < |trace|
    ensures Sound(sha, trace[0], trace[k])
    decreases |trace|
  {
    if |trace| > 1 {
      var rest := trace[..|trace| - 1];
      SafeTraceIsSound(sha, spec, rest, if k < |rest| then k else |rest| - 1);
    }
  }

  /** No other version is touched before the link leads to the new, checked one. */
  lemma {:induction false} OldVersionsWait(sha: Digest, spec: ArtifactSpec, trace: seq<Fs>, k: nat)
    requires SafeTrace(sha, spec, trace) && k < |trace|
    ensures Others(trace[k], spec) == Others(trace[0], spec) ||
      (trace[k].active == Link(spec) && ActiveVerified(sha, trace[k]))
    decreases |trace|
  {
    if k < |trace| - 1 {
      OldVersionsWait(sha, spec, trace[..|trace| - 1], k);
    } else if k > 0 {
      OldVersionsWait(sha, spec, trace[..k], k - 1);
    }
  }

  /**
   Over any sequence of runs, for any versions, each cut off anywhere: a link that led to a
   verified artifact always does, and one that was moved even once does from then on.
  */
  lemma {:induction false} LinkNeverBreaks(sha: Digest, start: Fs, runs: seq<RunRecord>, i: nat, k: nat)
    requires Chained(sha, start, runs) && i < |runs| && k < |runs[i].trace|
    ensures Sound(sha, start, runs[i].trace[k])
    decreases |runs|
  {
    var first := runs[0].trace;
    if i == 0 {
      SafeTraceIsSound(sha, runs[0].spec, first, k);
    } else {
      SafeTraceIsSound(sha, runs[0].spec, first, |first| - 1);
      LinkNeverBreaks(sha, first[|first| - 1], runs[1..], i - 1, k);
    }
  }
}
