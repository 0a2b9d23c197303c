/** Host side of runtime staging (`claude_runtime.rs`): the cache of downloaded artifacts. */
module RuntimeHost {
  import opened Basics
  import opened RuntimeGuest
  import opened RuntimeActivation

  datatype CacheNode = CacheFile(content: seq<Byte>, mode: nat) | Irregular

  // The published entries, and the downloads in flight under names of their own.
  datatype Cache = Cache(entries: map<ArtifactSpec, CacheNode>, downloads: map<nat, CacheNode>)

  const PRIVATE: nat := 384 // 0o600

  predicate EntryMatches(sha: Digest, c: Cache, spec: ArtifactSpec) {
    spec in c.entries && c.entries[spec].CacheFile? && HostGood(sha, c.entries[spec].content, spec)
  }

  /**
   One step of a preparation: other entries stay; a good entry stays good; whatever appears
   under the entry's name is good; no download outgrows the artifact.
  */
  ghost predicate SafeCacheStep(sha: Digest, spec: ArtifactSpec, a: Cache, b: Cache) {
    && b.entries - {spec} == a.entries - {spec}
    && (EntryMatches(sha, a, spec) ==> EntryMatches(sha, b, spec))
    && (spec in b.entries ==> EntryMatches(sha, b, spec) || (spec in a.entries && b.entries[spec] == a.entries[spec]))
    && forall n :: n in b.downloads ==>
         (n in a.downloads && b.downloads[n] == a.downloads[n]) ||
           (b.downloads[n].CacheFile? && |b.downloads[n].content| <= spec.size)
  }

  ghost predicate SafeCacheTrace(sha: Digest, spec: ArtifactSpec, trace: seq<Cache>) {
    |trace| > 1 ==>
      && SafeCacheTrace(sha, spec, trace[..|trace| - 1])
      && SafeCacheStep(sha, spec, trace[|trace| - 2], trace[|trace| - 1])
  }

  lemma {:induction false} FlattenPrefix(chunks: seq<seq<Byte>>, k: nat)
    requires k <= |chunks|
    ensures |Flatten(chunks[..k])| <= |Flatten(chunks)|
    decreases |chunks| - k
  {
    if k < |chunks| {
      FlattenOneMore(chunks, k);
      FlattenPrefix(chunks, k + 1);
    } else {
      assert chunks[..k] == chunks;
    }
  }

  class Host {
    const sha: Digest
    var cache: Cache
    ghost var trace: seq<Cache>
    ghost var faulty: bool

    constructor (sha: Digest, cache: Cache)
      ensures this.sha == sha && this.cache == cache
    {
      this.sha, this.cache, this.trace, this.faulty := sha, cache, [cache], false;
    }

    ghost predicate Recorded(spec: ArtifactSpec) reads this {
      && trace != [] && trace[|trace| - 1] == cache
      && SafeCacheTrace(sha, spec, trace)
    }

    // A file operation that either happens or does not.
    method Do(next: Cache, ghost spec: ArtifactSpec) returns (ok: bool)
      requires Recorded(spec) && SafeCacheStep(sha, spec, cache, next)
      modifies this
      ensures Recorded(spec) && trace[0] == old(trace[0])
      ensures cache == if ok then next else old(cache)
      ensures faulty == (old(faulty) || !ok)
    {
      ok := *;
      ghost var was := trace;
      if ok {
        cache := next;
      }
      trace := trace + [cache];
      assert trace[..|was|] == was;
      faulty := faulty || !ok;
    }

    method Ask() returns (ok: bool)
      modifies this`faulty
      ensures faulty == (old(faulty) || !ok)
    {
      ok := *;
      faulty := faulty || !ok;
    }

    // Downloads an earlier process left behind go; a link or directory among them stops the run.
    method PruneStaleDownloads(ghost spec: ArtifactSpec) returns (ok: bool)
      requires Recorded(spec)
      modifies this
      ensures Recorded(spec) && trace[0] == old(trace[0])
      ensures cache.entries == old(cache).entries
      ensures ok ==> cache.downloads == map[]
      ensures !ok ==> faulty || exists n :: n in old(cache).downloads && old(cache).downloads[n].Irregular?
      ensures old(faulty) ==> faulty
    {
      ok := true;
      while cache.downloads != map[]
        invariant Recorded(spec) && trace[0] == old(trace[0])
        invariant cache.entries == old(cache).entries && ok
        invariant forall n :: n in cache.downloads ==>
          n in old(cache).downloads && cache.downloads[n] == old(cache).downloads[n]
        invariant old(faulty) ==> faulty
        decreases |cache.downloads|
      {
        var n :| n in cache.downloads;
        if cache.downloads[n].Irregular? {
          return false;
        }
        ghost var was := cache.downloads;
        ok := Do(cache.(downloads := cache.downloads - {n}), spec);
        if !ok {
          return;
        }
        assert cache.downloads == was - {n};
        assert |was| == |was - {n}| + 1 by {
          assert was == (was - {n})[n := was[n]];
        }
      }
    }

    method RemoveDownload(nonce: nat, ghost spec: ArtifactSpec)
      requires Recorded(spec)
      modifies this
      ensures Recorded(spec) && trace[0] == old(trace[0])
      ensures cache.entries == old(cache).entries && (old(faulty) ==> faulty)
    {
      var _ := Do(cache.(downloads := cache.downloads - {nonce}), spec);
    }

    // A write that fails may have put down part of the chunk.
    method WriteChunk(nonce: nat, chunk: seq<Byte>, ghost spec: ArtifactSpec) returns (ok: bool)
      requires Recorded(spec) && nonce in cache.downloads && cache.downloads[nonce].CacheFile?
      requires |cache.downloads[nonce].content| + |chunk| <= spec.size
      modifies this
      ensures Recorded(spec) && trace[0] == old(trace[0])
      ensures cache.entries == old(cache).entries
      ensures ok ==> cache.downloads == old(cache).downloads[nonce :=
          old(cache).downloads[nonce].(content := old(cache).downloads[nonce].content + chunk)]
      ensures faulty == (old(faulty) || !ok)
    {
      var file := cache.downloads[nonce];
      var part: int := *;
      if 0 <= part < |chunk| {
        ok := Do(cache.(downloads := cache.downloads[nonce := file.(content := file.content + chunk[..part])]), spec);
        faulty := true;
        return false;
      }
      ok := Do(cache.(downloads := cache.downloads[nonce := file.(content := file.content + chunk)]), spec);
    }

    /**
     `download_verified`: success means the stream was the artifact, byte for byte, and is in
     the file; without a failing file operation, an intact stream is accepted exactly when its
     size and digest are right. A wrong stream is a hard error, a broken one retryable.
    */
    method DownloadVerified(spec: ArtifactSpec, stream: seq<seq<Byte>>, broken: bool,
                            nonce: nat) returns (r: Result<()>)
      requires Recorded(spec) && nonce !in cache.downloads
      modifies this
      ensures Recorded(spec) && trace[0] == old(trace[0])
      ensures cache.entries == old(cache).entries
      ensures r.Ok? ==> |Flatten(stream)| == spec.size && sha(Flatten(stream)) == spec.sha256
      ensures r.Ok? ==> HostGood(sha, Flatten(stream), spec) && nonce in cache.downloads
                        && cache.downloads[nonce] == CacheFile(Flatten(stream), PRIVATE)
      ensures r.Err? && !faulty ==> if r.failure.Hard? then !HostGood(sha, Flatten(stream), spec) else broken
      ensures old(faulty) ==> faulty
    {
      var ok := Do(cache.(downloads := cache.downloads[nonce := CacheFile([], PRIVATE)]), spec);
      if !ok {
        return Err(Retryable);
      }
      var hashed: seq<Byte>, size, i := [], 0, 0;
      assert stream[..0] == [];
      while i < |stream|
        invariant i <= |stream| && size == |hashed| <= spec.size
        invariant hashed == Flatten(stream[..i])
        invariant Recorded(spec) && trace[0] == old(trace[0]) && cache.entries == old(cache).entries
        invariant nonce in cache.downloads && cache.downloads[nonce] == CacheFile(hashed, PRIVATE)
        invariant old(faulty) ==> faulty
      {
        var chunk := stream[i];
        FlattenOneMore(stream, i);
        size := size + |chunk|;
        if size > spec.size {
          FlattenPrefix(stream, i + 1);
          return Err(Hard);
        }
        hashed := hashed + chunk;
        ok := WriteChunk(nonce, chunk, spec);
        if !ok {
          return Err(Retryable);
        }
        i := i + 1;
      }
      assert stream[..i] == stream;
      if broken {
        return Err(Retryable);
      }
      ok := Ask();
      if !ok {
        return Err(Retryable);
      }
      if size != spec.size || sha(hashed) != spec.sha256 {
        return Err(Hard);
      }
      ok := Ask();
      if !ok {
        return Err(Retryable);
      }
      return Ok(());
    }

    // `artifact_matches`: None when the entry cannot be read.
    method ArtifactMatches(spec: ArtifactSpec) returns (r: Option<bool>)
      modifies this`faulty
      ensures r.Some? ==> r.value == EntryMatches(sha, cache, spec)
      ensures faulty == (old(faulty) || r.None?)
    {
      var ok := Ask();
      if !ok {
        return None;
      }
      if spec !in cache.entries || cache.entries[spec].Irregular? || |cache.entries[spec].content| != spec.size {
        return Some(false);
      }
      ok := Ask();
      if !ok {
        return None;
      }
      return Some(sha(cache.entries[spec].content) == spec.sha256);
    }

    // Download, set the mode, and rename onto the entry's name.
    method Fetch(spec: ArtifactSpec, stream: seq<seq<Byte>>, broken: bool, nonce: nat) returns (r: Result<()>)
      requires Recorded(spec) && nonce !in cache.downloads
      modifies this
      ensures Recorded(spec) && trace[0] == old(trace[0])
      ensures r.Ok? ==>
        EntryMatches(sha, cache, spec) &&
          cache.entries == old(cache).entries[spec := CacheFile(Flatten(stream), EXECUTABLE)]
      ensures r.Err? ==> cache.entries == old(cache).entries
      ensures r.Err? && !faulty ==> broken || !HostGood(sha, Flatten(stream), spec)
      ensures old(faulty) ==> faulty
    {
      r := DownloadVerified(spec, stream, broken, nonce);
      if r.Err? {
        RemoveDownload(nonce, spec);
        return;
      }
      var file := cache.downloads[nonce].(mode := EXECUTABLE);
      var ok := Do(cache.(downloads := cache.downloads[nonce := file]), spec);
      if !ok {
        return Err(Retryable);
      }
      ok := Do(Cache(cache.entries[spec := file], cache.downloads - {nonce}), spec);
      if !ok {
        RemoveDownload(nonce, spec);
        return Err(Retryable);
      }
    }

    /**
     `prepare_artifact_locked`: success means the entry under the artifact's name is the
     artifact, executable. A good entry stays good at every step, and a bad one is gone unless something
     fails.
    */
    method PrepareArtifactLocked(spec: ArtifactSpec, stream: seq<seq<Byte>>, broken: bool,
                                 nonce: nat) returns (r: Result<()>)
      modifies this
      ensures Recorded(spec) && trace[0] == old(cache)
      ensures r.Ok? ==> EntryMatches(sha, cache, spec) && cache.entries[spec].mode == EXECUTABLE
      ensures r.Ok? ==>
        && spec in cache.entries && cache.entries[spec].CacheFile? && cache.entries[spec].mode == 5 * 64 + 5 * 8 + 5
        && |cache.entries[spec].content| == spec.size && sha(cache.entries[spec].content) == spec.sha256
      ensures r.Ok? && !faulty && EntryMatches(sha, old(cache), spec) ==>
        cache.entries == old(cache).entries[spec := old(cache).entries[spec].(mode := EXECUTABLE)]
      ensures r.Err? && !faulty && !Tampered(old(cache), spec) && spec in old(cache).entries ==> spec !in cache.entries
      ensures r.Err? && !faulty ==> Tampered(old(cache), spec) || broken || !HostGood(sha, Flatten(stream), spec)
    {
      trace, faulty := [cache], false;
      var ok := PruneStaleDownloads(spec);
      if !ok {
        return Err(Hard);
      }
      // An entry that cannot be looked at is taken to be missing.
      var statted := Ask();
      if statted && spec in cache.entries {
        if cache.entries[spec].Irregular? {
          return Err(Hard);
        }
        var matches := ArtifactMatches(spec);
        if matches.None? {
          return Err(Retryable);
        }
        if matches.value {
          ok := Do(cache.(entries := cache.entries[spec := cache.entries[spec].(mode := EXECUTABLE)]), spec);
          return if ok then Ok(()) else Err(Retryable);
        }
        ok := Do(cache.(entries := cache.entries - {spec}), spec);
        if !ok {
          return Err(Hard);
        }
      }
      r := Fetch(spec, stream, broken, nonce);
    }
  }

  // A link or directory where the cache expects a file.
  ghost predicate Tampered(c: Cache, spec: ArtifactSpec) {
    || (spec in c.entries && c.entries[spec].Irregular?)
    || (exists n :: n in c.downloads && c.downloads[n].Irregular?)
  }

  /**
   `stage_claude_runtime`: success means the guest's link leads to the pinned artifact. With
   nothing failing, an intact download of the right bytes is all it takes.
  */
  method StageClaudeRuntime(host: Host, guest: Guest, spec: ArtifactSpec, stream: seq<seq<Byte>>, broken: bool,
                            download: nat, nonce: nat) returns (r: Result<()>)
    requires host.sha == guest.sha
    modifies host, guest
    ensures r.Ok? ==> guest.fs.active == Link(spec) && Matches(guest.sha, guest.fs, spec)
    ensures r.Ok? ==> EntryMatches(host.sha, host.cache, spec)
    ensures guest.fs == old(guest.fs) || (guest.Recorded(spec) && guest.trace[0] == old(guest.fs))
    ensures host.Recorded(spec) && host.trace[0] == old(host.cache)
    ensures r.Err? ==>
      || host.faulty || guest.faulty || broken || !HostGood(host.sha, Flatten(stream), spec)
      || Tampered(old(host.cache), spec) || old(guest.fs).active.Plain?
  {
    r := host.PrepareArtifactLocked(spec, stream, broken, download);
    if r.Err? {
      return;
    }
    var matches := host.ArtifactMatches(spec);
    if matches.None? {
      return Err(Retryable);
    }
    if !matches.value {
      return Err(Hard);
    }
    r := guest.ActivateArtifact(spec, host.cache.entries[spec].content, nonce);
  }
}
