/** Hashing one file of a title in a single pass and building its manifest entry. */
module FileScan {
  import opened Hashing
  import opened Manifests

  // ----- plans are determined by their parameters -----

  lemma {:induction false} TilesAgree(a: seq<ChunkPlan>, b: seq<ChunkPlan>, fileSize: nat, chunkSize: nat)
    requires Tiles(a, fileSize, chunkSize) && Tiles(b, fileSize, chunkSize) && |a| == |b|
    ensures a == b
  {
    forall k | 0 <= k < |a|
      ensures a[k] == b[k]
    {
      PlannedOffset(a, fileSize, chunkSize, k);
      PlannedOffset(b, fileSize, chunkSize, k);
    }
  }

  lemma PlanReachesEnd(plans: seq<ChunkPlan>, fileSize: nat, chunkSize: nat)
    requires chunkSize > 0 && IsPlan(plans, fileSize, chunkSize)
    ensures plans == [] ==> fileSize == 0
    ensures plans != [] ==> plans[|plans| - 1].offset + plans[|plans| - 1].size == fileSize
  {
    DivCeilBounds(fileSize, chunkSize);
    if plans != [] {
      PlannedOffset(plans, fileSize, chunkSize, |plans| - 1);
      MulStep(|plans|, chunkSize);
    }
  }

  // ----- building an entry -----

  ghost predicate ChunksFollow(chunks: seq<ChunkEntry>, plans: seq<ChunkPlan>, hashes: seq<Digest>) {
    && |chunks| == |plans| == |hashes|
    && forall k | 0 <= k < |chunks| :: chunks[k] == ChunkEntry(plans[k].idx, plans[k].offset, plans[k].size, hashes[k])
  }

  lemma {:induction false} PlannedSum(chunks: seq<ChunkEntry>, plans: seq<ChunkPlan>, hashes: seq<Digest>,
        fileSize: nat, chunkSize: nat, k: nat)
    requires Tiles(plans, fileSize, chunkSize) && ChunksFollow(chunks, plans, hashes) && k <= |chunks|
    ensures SumChunks(chunks[..k]) == if k == 0 then 0 else plans[k - 1].offset + plans[k - 1].size
  {
    if k > 0 {
      PlannedSum(chunks, plans, hashes, fileSize, chunkSize, k - 1);
      SumChunksStep(chunks, k - 1);
    }
  }

  /** Chunks that follow the plan are contiguous and add up to the file size. */
  lemma PlannedChunksConsistent(f: FileEntry, plans: seq<ChunkPlan>, hashes: seq<Digest>, chunkSize: nat)
    requires chunkSize > 0 && IsPlan(plans, f.size, chunkSize) && ChunksFollow(f.chunks, plans, hashes)
    ensures FileConsistent(f)
  {
    forall k | 0 <= k < |f.chunks|
      ensures f.chunks[k].offset == SumChunks(f.chunks[..k])
    {
      PlannedSum(f.chunks, plans, hashes, f.size, chunkSize, k);
    }
    PlannedSum(f.chunks, plans, hashes, f.size, chunkSize, |f.chunks|);
    PlanReachesEnd(plans, f.size, chunkSize);
    assert f.chunks[..|f.chunks|] == f.chunks;
  }

  function PlansOf(chunks: seq<ChunkEntry>): (plans: seq<ChunkPlan>)
    ensures |plans| == |chunks|
    ensures forall k | 0 <= k < |chunks| :: plans[k] == ChunkPlan(chunks[k].idx, chunks[k].offset, chunks[k].size)
  {
    seq(|chunks|, k requires 0 <= k < |chunks| => ChunkPlan(chunks[k].idx, chunks[k].offset, chunks[k].size))
  }

  /** The file is cut as its size and the chunk size say. */
  ghost predicate Planned(f: FileEntry, chunkSize: nat) {
    IsPlan(PlansOf(f.chunks), f.size, EffectiveChunkSize(chunkSize))
  }

  lemma PlannedIsTiled(f: FileEntry, chunkSize: nat)
    requires Planned(f, chunkSize)
    ensures FileConsistent(f) && |f.chunks| == DivCeil(f.size, EffectiveChunkSize(chunkSize))
    ensures forall k | 0 <= k < |f.chunks| :: f.chunks[k].idx == k && f.chunks[k].size > 0
  {
    var hashes := seq(|f.chunks|, k requires 0 <= k < |f.chunks| => f.chunks[k].hash);
    PlannedChunksConsistent(f, PlansOf(f.chunks), hashes, EffectiveChunkSize(chunkSize));
    forall k | 0 <= k < |f.chunks|
      ensures f.chunks[k].idx == k && f.chunks[k].size > 0
    {
      assert TileAt(PlansOf(f.chunks)[k], k, f.size, EffectiveChunkSize(chunkSize));
    }
  }

  /**
   Zips the plan with the hashes. The builder's hard assertion is the `None` result: it fires
   exactly when the number of hashes is not the number of planned chunks.
   */
  method BuildFileEntry(id: nat, relPath: string, size: nat, mtime: int, fileHash: Digest, chunkSize: nat,
        hashes: seq<Digest>)
    returns (r: Option<FileEntry>)
    ensures r.None? <==> |hashes| != DivCeil(size, EffectiveChunkSize(chunkSize))
    ensures r.Some? ==>
              var f := r.value;
              && f.id == id && f.relPath == relPath && f.size == size && f.mtime == mtime && f.hash == fileHash
              && FileConsistent(f) && Planned(f, chunkSize)
              && forall plans | IsPlan(plans, size, EffectiveChunkSize(chunkSize)) ::
                  ChunksFollow(f.chunks, plans, hashes)
  {
    var plans := PlanChunks(size, chunkSize);
    if |plans| != |hashes| {
      return None;
    }
    var chunks := [];
    for k := 0 to |plans|
      invariant ChunksFollow(chunks, plans[..k], hashes[..k])
    {
      chunks := chunks + [ChunkEntry(plans[k].idx, plans[k].offset, plans[k].size, hashes[k])];
    }
    assert plans[..|plans|] == plans && hashes[..|plans|] == hashes;
    var f := FileEntry(id, relPath, size, mtime, fileHash, chunks);
    assert PlansOf(f.chunks) == plans;
    PlannedChunksConsistent(f, plans, hashes, EffectiveChunkSize(chunkSize));
    forall other | IsPlan(other, size, EffectiveChunkSize(chunkSize))
      ensures ChunksFollow(f.chunks, other, hashes)
    {
      TilesAgree(plans, other, size, EffectiveChunkSize(chunkSize));
    }
    return Some(f);
  }

  // ----- reading -----

  /** What one read returns: at least one byte unless at the end, never more than asked for. */
  function ReadLen(wanted: nat, space: nat, remaining: nat): (n: nat)
    ensures n <= space && n <= remaining
    ensures space > 0 && remaining > 0 ==> n > 0
  {
    if space == 0 || remaining == 0 then 0
    else if wanted == 0 then 1
    else Min(wanted, Min(space, remaining))
  }

  ghost predicate HashesSpans(hashes: seq<Digest>, plans: seq<ChunkPlan>, content: Data) {
    && |hashes| == |plans|
    && forall k | 0 <= k < |hashes| ::
         plans[k].offset + plans[k].size <= |content| &&
             hashes[k] == Blake3(Span(content, plans[k].offset, plans[k].size))
  }

  /** One more chunk read: the span hashes grow by one. */
  lemma OneMoreHash(plans: seq<ChunkPlan>, hashes: seq<Digest>, content: Data, pos: nat, n: nat)
    requires HashesSpans(hashes, plans, content)
    requires pos + n <= |content|
    ensures HashesSpans(hashes + [Blake3(content[pos..pos + n])], plans + [ChunkPlan(|plans|, pos, n)], content)
  {
  }

  /** What the pass has established after reading `pos` bytes. */
  ghost predicate Passed(content: Data, chunkSize: nat, pos: nat, plans: seq<ChunkPlan>, hashes: seq<Digest>) {
    && pos <= |content|
    && Tiles(plans, |content|, chunkSize)
    && HashesSpans(hashes, plans, content)
    && (plans == [] ==> pos == 0)
    && (plans != [] ==> plans[|plans| - 1].offset + plans[|plans| - 1].size == pos)
  }

  ghost predicate AtBoundary(chunkSize: nat, pos: nat, plans: seq<ChunkPlan>) {
    pos == if plans == [] then 0 else plans[|plans| - 1].offset + chunkSize
  }

  lemma OneMoreChunk(content: Data, chunkSize: nat, pos: nat, plans: seq<ChunkPlan>, hashes: seq<Digest>, buf: Data)
    requires Passed(content, chunkSize, pos, plans, hashes) && AtBoundary(chunkSize, pos, plans)
    requires buf != [] && buf == content[pos..pos + Min(chunkSize, |content| - pos)]
    ensures Passed(content, chunkSize, pos + |buf|, plans + [ChunkPlan(|plans|, pos, |buf|)], hashes + [Blake3(buf)])
    ensures |buf| == chunkSize ==> AtBoundary(chunkSize, pos + |buf|, plans + [ChunkPlan(|plans|, pos, |buf|)])
    ensures content[..pos] + buf == content[..pos + |buf|]
  {
    hide Tiles, HashesSpans;
    TilesStep(plans, |content|, chunkSize, pos);
    OneMoreHash(plans, hashes, content, pos, |buf|);
  }

  /** Fills up to one chunk from `pos`, however short the individual reads are. */
  method FillBuffer(content: Data, pos: nat, bufLen: nat, readSizes: nat -> nat, tick: nat)
        returns (buf: Data, tick': nat)
    requires pos <= |content|
    ensures buf == content[pos..pos + Min(bufLen, |content| - pos)]
  {
    buf := [];
    tick' := tick;
    while |buf| < bufLen
      invariant |buf| <= bufLen && pos + |buf| <= |content|
      invariant buf == content[pos..pos + |buf|]
      decreases bufLen - |buf|
    {
      var at := pos + |buf|;
      var n := ReadLen(readSizes(tick'), bufLen - |buf|, |content| - at);
      tick' := tick' + 1;
      if n == 0 {
        break;
      }
      buf := buf + content[at..at + n];
    }
  }

  /**
   The single read pass. With a positive chunk size it sees the whole file and produces one hash
   per planned chunk, each the hash of that chunk's span. A zero chunk size reads nothing.
   */
  method HashChunks(content: Data, chunkSize: nat, readSizes: nat -> nat) returns (whole: Digest, hashes: seq<Digest>)
    ensures whole == Blake3(Seen(content, chunkSize))
    ensures chunkSize > 0 ==> forall plans | IsPlan(plans, |content|, chunkSize) :: HashesSpans(hashes, plans, content)
    ensures |hashes| == if chunkSize == 0 then 0 else DivCeil(|content|, chunkSize)
  {
    var seen: Data := [];
    hashes := [];
    var tick := 0;
    ghost var pos, plans := 0, [];
    assert HashesSpans(hashes, plans, content) && Tiles(plans, |content|, chunkSize);
    hide Tiles, HashesSpans, IsPlan, DivCeil;
    while true
      invariant Passed(content, chunkSize, pos, plans, hashes) && AtBoundary(chunkSize, pos, plans)
      invariant seen == content[..pos]
      invariant chunkSize == 0 ==> plans == []
      decreases |content| - pos
    {
      var buf, tick' := FillBuffer(content, |seen|, chunkSize, readSizes, tick);
      tick := tick';
      if buf == [] {
        break;
      }
      OneMoreChunk(content, chunkSize, pos, plans, hashes, buf);
      plans := plans + [ChunkPlan(|plans|, pos, |buf|)];
      hashes := hashes + [Blake3(buf)];
      seen := seen + buf;
      pos := pos + |buf|;
      if |buf| < chunkSize {
        break;
      }
    }
    whole := Blake3(seen);
    if chunkSize > 0 {
      assert seen == content;
      AllHashed(content, chunkSize, plans, hashes);
    }
  }

  lemma AllHashed(content: Data, chunkSize: nat, plans: seq<ChunkPlan>, hashes: seq<Digest>)
    requires chunkSize > 0 && Passed(content, chunkSize, |content|, plans, hashes)
    ensures |hashes| == DivCeil(|content|, chunkSize)
    ensures forall other | IsPlan(other, |content|, chunkSize) :: HashesSpans(hashes, other, content)
  {
    FullTilesArePlan(plans, |content|, chunkSize);
    forall other | IsPlan(other, |content|, chunkSize)
      ensures HashesSpans(hashes, other, content)
    {
      TilesAgree(plans, other, |content|, chunkSize);
    }
  }

  /** What the pass sees of a file: with a zero chunk size it reads nothing. */
  function Seen(content: Data, chunkSize: nat): Data {
    if chunkSize == 0 then [] else content
  }

  /** Whether the scan of a file of `contentLen` bytes that was listed with `size` bytes goes through. */
  predicate CountsAgree(contentLen: nat, size: nat, chunkSize: nat) {
    (if chunkSize == 0 then 0 else DivCeil(contentLen, chunkSize)) == DivCeil(size, EffectiveChunkSize(chunkSize))
  }

  /**
   The scan of one file. The assertion in the builder fires (`None`) exactly when the planned
   and the hashed counts differ; with a positive chunk size and a file that did not change since
   it was listed, it never fires and the entry describes the content for every pattern of reads.
   */
  method HashOneFile(content: Data, relPath: string, size: nat, mtime: int, chunkSize: nat, readSizes: nat -> nat)
    returns (r: Option<FileEntry>)
    ensures r.Some? <==> CountsAgree(|content|, size, chunkSize)
    ensures r.Some? ==> r.value.relPath == relPath && r.value.size == size && r.value.mtime == mtime && r.value.id == 0
    ensures r.Some? ==> Planned(r.value, chunkSize) && r.value.hash == Blake3(Seen(content, chunkSize))
    ensures r.Some? && |Seen(content, chunkSize)| == size ==> Describes(r.value, Seen(content, chunkSize))
    ensures chunkSize > 0 && |content| == size ==> r.Some?
  {
    hide DivCeil, IsPlan, Planned, FileConsistent, ChunksFollow, HashesSpans, Describes;
    var whole, hashes := HashChunks(content, chunkSize, readSizes);
    r := BuildFileEntry(0, relPath, size, mtime, whole, chunkSize, hashes);
    if r.Some? {
      PlannedIsTiled(r.value, chunkSize);
      if chunkSize > 0 && |content| == size {
        var plans := PlanChunks(size, chunkSize);
        HashedIsDescribed(r.value, plans, hashes, content, chunkSize);
      } else if chunkSize == 0 && size == 0 {
        NothingDescribed(r.value);
      }
    }
  }

  lemma HashedIsDescribed(f: FileEntry, plans: seq<ChunkPlan>, hashes: seq<Digest>, content: Data, chunkSize: nat)
    requires f.size == |content| && f.hash == Blake3(content) && FileConsistent(f)
    requires forall k | 0 <= k < |f.chunks| :: f.chunks[k].size > 0
    requires ChunksFollow(f.chunks, plans, hashes) && HashesSpans(hashes, plans, content)
    ensures Describes(f, content)
  {
    hide FileConsistent;
  }

  lemma NothingDescribed(f: FileEntry)
    requires f.size == 0 && f.hash == Blake3([]) && FileConsistent(f)
    requires |f.chunks| == DivCeil(0, EffectiveChunkSize(0))
    ensures Describes(f, [])
  {
    hide FileConsistent;
  }
}
