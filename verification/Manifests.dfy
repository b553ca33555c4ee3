/**
 Chunk planning, the manifest and its flattened chunk list, and the scan that hashes a file.
 */
module Manifests {
  import opened Hashing

  const DEFAULT_CHUNK_SIZE: nat := 4 * 1024 * 1024

  datatype ChunkPlan = ChunkPlan(idx: nat, offset: nat, size: nat)

  datatype ChunkEntry = ChunkEntry(idx: nat, offset: nat, size: nat, hash: Digest)

  datatype FileEntry = FileEntry(
    id: nat, relPath: string, size: nat, mtime: int, hash: Digest, chunks: seq<ChunkEntry>)

  datatype Manifest = Manifest(
    titleId: nat, manifestVer: nat, totalSize: nat, fileCount: nat, chunkSize: nat, files: seq<FileEntry>)

  datatype ChunkLocator = ChunkLocator(
    globalIdx: nat, fileId: nat, relPath: string, fileSize: nat,
    chunkIdx: nat, offset: nat, size: nat, hash: Digest)

  datatype ManifestError =
    | ChunkSizeMismatch(path: string, chunkTotal: nat, size: nat)
    | ChunkOffset(path: string, idx: nat, got: nat, want: nat)
    | TotalSizeMismatch(got: nat, want: nat)
    | FileCountMismatch(got: nat, want: nat)

  // ----- chunk planning -----

  function EffectiveChunkSize(chunkSize: nat): (n: nat)
    ensures n > 0
  {
    if chunkSize == 0 then DEFAULT_CHUNK_SIZE else chunkSize
  }

  function DivCeil(n: nat, d: nat): nat
    requires d > 0
  {
    if n == 0 then 0 else (n - 1) / d + 1
  }

  /** The number of chunks is the only one whose chunks reach the end of the file and no further. */
  lemma DivCeilBounds(n: nat, d: nat)
    requires d > 0
    ensures n <= DivCeil(n, d) * d
    ensures n > 0 ==> (DivCeil(n, d) - 1) * d < n
  {
  }

  lemma DivCeilUnique(n: nat, d: nat, k: nat)
    requires d > 0 && n <= k * d
    requires k > 0 ==> (k - 1) * d < n
    ensures k == DivCeil(n, d)
  {
    DivCeilBounds(n, d);
    var c := DivCeil(n, d);
    if k < c {
      MulMonotone(k, c - 1, d);
    } else if c < k {
      MulMonotone(c, k - 1, d);
    }
  }

  lemma MulMonotone(a: nat, b: nat, d: nat)
    requires a <= b
    ensures a * d <= b * d
  {
  }

  predicate TileAt(p: ChunkPlan, k: nat, fileSize: nat, chunkSize: nat) {
    p.idx == k && p.offset < fileSize && p.size == Min(chunkSize, fileSize - p.offset)
  }

  /** Chunks tile the file from offset 0; all but the last have the full chunk size. */
  ghost predicate Tiles(plans: seq<ChunkPlan>, fileSize: nat, chunkSize: nat) {
    && (plans != [] ==> plans[0].offset == 0)
    && (forall k | 0 < k < |plans| :: plans[k].offset == plans[k - 1].offset + chunkSize)
    && (forall k | 0 <= k < |plans| :: TileAt(plans[k], k, fileSize, chunkSize))
  }

  /** The plan of a file: it tiles the file and reaches its end. */
  ghost predicate IsPlan(plans: seq<ChunkPlan>, fileSize: nat, chunkSize: nat)
    requires chunkSize > 0
  {
    Tiles(plans, fileSize, chunkSize) && |plans| == DivCeil(fileSize, chunkSize)
  }

  lemma {:induction false} PlannedOffset(plans: seq<ChunkPlan>, fileSize: nat, chunkSize: nat, k: nat)
    requires Tiles(plans, fileSize, chunkSize) && k < |plans|
    ensures plans[k].offset == k * chunkSize
  {
    if k > 0 {
      PlannedOffset(plans, fileSize, chunkSize, k - 1);
      MulStep(k, chunkSize);
    }
  }

  lemma MulStep(k: nat, d: nat)
    requires k > 0
    ensures k * d == (k - 1) * d + d
  {
  }

  lemma TilesStep(plans: seq<ChunkPlan>, fileSize: nat, chunkSize: nat, offset: nat)
    requires Tiles(plans, fileSize, chunkSize) && offset < fileSize
    requires offset == if plans == [] then 0 else plans[|plans| - 1].offset + chunkSize
    ensures Tiles(plans + [ChunkPlan(|plans|, offset, Min(chunkSize, fileSize - offset))], fileSize, chunkSize)
  {
  }

  /** Tiles that reach the end of the file are the plan of the file. */
  lemma FullTilesArePlan(plans: seq<ChunkPlan>, fileSize: nat, chunkSize: nat)
    requires chunkSize > 0 && Tiles(plans, fileSize, chunkSize)
    requires plans == [] ==> fileSize == 0
    requires plans != [] ==> plans[|plans| - 1].offset + plans[|plans| - 1].size == fileSize
    ensures IsPlan(plans, fileSize, chunkSize)
  {
    if plans != [] {
      PlannedOffset(plans, fileSize, chunkSize, |plans| - 1);
      MulStep(|plans|, chunkSize);
    }
    DivCeilUnique(fileSize, chunkSize, |plans|);
  }

  method PlanChunks(fileSize: nat, chunkSize: nat) returns (plans: seq<ChunkPlan>)
    ensures IsPlan(plans, fileSize, EffectiveChunkSize(chunkSize))
  {
    var size := EffectiveChunkSize(chunkSize);
    plans := [];
    if fileSize == 0 {
      return;
    }
    hide Tiles;
    var offset, idx := 0, 0;
    TilesNone(fileSize, size);
    while offset < fileSize
      invariant idx == |plans| && offset <= fileSize
      invariant Tiles(plans, fileSize, size)
      invariant plans != [] ==> offset == plans[idx - 1].offset + plans[idx - 1].size
      invariant plans != [] ==> offset == fileSize || plans[idx - 1].size == size
      invariant plans == [] ==> offset == 0
      decreases fileSize - offset
    {
      var n := Min(size, fileSize - offset);
      TilesStep(plans, fileSize, size, offset);
      plans := plans + [ChunkPlan(idx, offset, n)];
      offset := offset + n;
      idx := idx + 1;
    }
    FullTilesArePlan(plans, fileSize, size);
  }

  lemma TilesNone(fileSize: nat, chunkSize: nat)
    ensures Tiles([], fileSize, chunkSize)
  {
  }

  // ----- totals -----

  function SumChunks(chunks: seq<ChunkEntry>): nat {
    if chunks == [] then 0 else SumChunks(chunks[..|chunks| - 1]) + chunks[|chunks| - 1].size
  }

  function SumFiles(files: seq<FileEntry>): nat {
    if files == [] then 0 else SumFiles(files[..|files| - 1]) + files[|files| - 1].size
  }

  function ChunkTotal(files: seq<FileEntry>): nat {
    if files == [] then 0 else ChunkTotal(files[..|files| - 1]) + |files[|files| - 1].chunks|
  }

  lemma SumChunksStep(chunks: seq<ChunkEntry>, j: nat)
    requires j < |chunks|
    ensures SumChunks(chunks[..j + 1]) == SumChunks(chunks[..j]) + chunks[j].size
  {
    assert chunks[..j + 1][..j] == chunks[..j];
  }

  lemma {:induction false} SumChunksMonotone(chunks: seq<ChunkEntry>, i: nat, j: nat)
    requires i <= j <= |chunks|
    ensures SumChunks(chunks[..i]) <= SumChunks(chunks[..j])
    decreases j - i
  {
    if i < j {
      SumChunksStep(chunks, j - 1);
      SumChunksMonotone(chunks, i, j - 1);
    }
  }

  lemma ChunkTotalStep(files: seq<FileEntry>, k: nat)
    requires k < |files|
    ensures ChunkTotal(files[..k + 1]) == ChunkTotal(files[..k]) + |files[k].chunks|
  {
    assert files[..k + 1][..k] == files[..k];
  }

  lemma {:induction false} ChunkTotalMonotone(files: seq<FileEntry>, i: nat, k: nat)
    requires i <= k <= |files|
    ensures ChunkTotal(files[..i]) <= ChunkTotal(files[..k])
    decreases k - i
  {
    if i < k {
      ChunkTotalStep(files, k - 1);
      ChunkTotalMonotone(files, i, k - 1);
    }
  }

  // ----- structure -----

  /** Chunks sit back to back from offset 0. */
  ghost predicate Contiguous(chunks: seq<ChunkEntry>) {
    forall j | 0 <= j < |chunks| :: chunks[j].offset == SumChunks(chunks[..j])
  }

  ghost predicate FileConsistent(f: FileEntry) {
    Contiguous(f.chunks) && SumChunks(f.chunks) == f.size
  }

  ghost predicate Consistent(m: Manifest) {
    && (forall f | f in m.files :: FileConsistent(f))
    && m.totalSize == SumFiles(m.files)
    && m.fileCount == |m.files|
  }

  /** The first problem of a file from chunk `j` on. */
  function FileError(f: FileEntry, j: nat): Option<ManifestError>
    requires j <= |f.chunks|
    decreases |f.chunks| - j
  {
    if j == |f.chunks| then
      if SumChunks(f.chunks) != f.size then Some(ChunkSizeMismatch(f.relPath, SumChunks(f.chunks), f.size)) else None
    else if f.chunks[j].offset != SumChunks(f.chunks[..j]) then
      Some(ChunkOffset(f.relPath, f.chunks[j].idx, f.chunks[j].offset, SumChunks(f.chunks[..j])))
    else FileError(f, j + 1)
  }

  /** The first problem of a manifest from file `k` on. */
  function StructureError(m: Manifest, k: nat): Option<ManifestError>
    requires k <= |m.files|
    decreases |m.files| - k
  {
    if k == |m.files| then
      if m.totalSize != SumFiles(m.files) then Some(TotalSizeMismatch(m.totalSize, SumFiles(m.files)))
      else if m.fileCount != |m.files| then Some(FileCountMismatch(m.fileCount, |m.files|))
      else None
    else if FileError(m.files[k], 0).Some? then FileError(m.files[k], 0)
    else StructureError(m, k + 1)
  }

  lemma {:induction false} FileErrorNone(f: FileEntry, j: nat)
    requires j <= |f.chunks|
    ensures FileError(f, j).None?
       <==> SumChunks(f.chunks) == f.size &&
            forall i | j <= i < |f.chunks| :: f.chunks[i].offset == SumChunks(f.chunks[..i])
    decreases |f.chunks| - j
  {
    hide SumChunks;
    if j < |f.chunks| {
      FileErrorNone(f, j + 1);
    }
  }

  lemma {:induction false} StructureErrorNone(m: Manifest, k: nat)
    requires k <= |m.files|
    ensures StructureError(m, k).None?
       <==> m.totalSize == SumFiles(m.files) && m.fileCount == |m.files| &&
            forall i | k <= i < |m.files| :: FileConsistent(m.files[i])
    decreases |m.files| - k
  {
    if k < |m.files| {
      FileErrorNone(m.files[k], 0);
      StructureErrorNone(m, k + 1);
    }
  }

  /** The chunks before `j` sit back to back. */
  ghost predicate ContiguousUpTo(f: FileEntry, j: nat)
    requires j <= |f.chunks|
  {
    forall i | 0 <= i < j :: f.chunks[i].offset == SumChunks(f.chunks[..i])
  }

  /** What the error says is wrong with this file, and that nothing before it is. */
  ghost predicate ExplainsFile(e: ManifestError, f: FileEntry) {
    match e
    case ChunkOffset(path, idx, got, expected) =>
      path == f.relPath && exists j :: 0 <= j < |f.chunks| && ContiguousUpTo(f, j) && f.chunks[j].idx == idx &&
                                       f.chunks[j].offset == got != expected == SumChunks(f.chunks[..j])
    case ChunkSizeMismatch(path, sum, size) =>
      path == f.relPath && ContiguousUpTo(f, |f.chunks|) && sum == SumChunks(f.chunks) != size == f.size
    case _ => false
  }

  /** What the error says is wrong with the manifest, and that nothing before it is. */
  ghost predicate ExplainsManifest(e: ManifestError, m: Manifest) {
    match e
    case TotalSizeMismatch(total, sum) =>
      (forall f | f in m.files :: FileConsistent(f)) && total == m.totalSize != sum == SumFiles(m.files)
    case FileCountMismatch(count, n) =>
      && (forall f | f in m.files :: FileConsistent(f)) && m.totalSize == SumFiles(m.files)
      && count == m.fileCount != n == |m.files|
    case _ =>
      exists k :: 0 <= k < |m.files| && ExplainsFile(e, m.files[k]) &&
                  forall i | 0 <= i < k :: FileConsistent(m.files[i])
  }

  lemma {:induction false} FileErrorExplained(f: FileEntry, j: nat)
    requires j <= |f.chunks| && ContiguousUpTo(f, j)
    ensures FileError(f, j).Some? ==> ExplainsFile(FileError(f, j).value, f)
    decreases |f.chunks| - j
  {
    hide SumChunks;
    if j < |f.chunks| && f.chunks[j].offset == SumChunks(f.chunks[..j]) {
      FileErrorExplained(f, j + 1);
    }
  }

  /** The reported problem is there, and it is the first one in file and chunk order. */
  lemma {:induction false} FirstProblem(m: Manifest, k: nat)
    requires k <= |m.files| && forall i | 0 <= i < k :: FileConsistent(m.files[i])
    ensures StructureError(m, k).Some? ==> ExplainsManifest(StructureError(m, k).value, m)
    decreases |m.files| - k
  {
    hide SumFiles, FileError, ExplainsFile;
    if k < |m.files| {
      FileErrorNone(m.files[k], 0);
      FileErrorExplained(m.files[k], 0);
      OnlyFileErrors(m.files[k]);
      if FileError(m.files[k], 0).None? {
        FirstProblem(m, k + 1);
      }
    }
  }

  lemma OnlyFileErrors(f: FileEntry)
    ensures forall e | ExplainsFile(e, f) :: !e.TotalSizeMismatch? && !e.FileCountMismatch?
  {
  }

  method ValidateFile(f: FileEntry) returns (r: Option<ManifestError>)
    ensures r == FileError(f, 0)
  {
    var expectedOffset, chunkTotal := 0, 0;
    for j := 0 to |f.chunks|
      invariant expectedOffset == chunkTotal == SumChunks(f.chunks[..j])
      invariant FileError(f, 0) == FileError(f, j)
    {
      var c := f.chunks[j];
      if c.offset != expectedOffset {
        return Some(ChunkOffset(f.relPath, c.idx, c.offset, expectedOffset));
      }
      SumChunksStep(f.chunks, j);
      expectedOffset := expectedOffset + c.size;
      chunkTotal := chunkTotal + c.size;
    }
    assert f.chunks[..|f.chunks|] == f.chunks;
    if chunkTotal != f.size {
      return Some(ChunkSizeMismatch(f.relPath, chunkTotal, f.size));
    }
    return None;
  }

  /** Reports the first problem in scan order, and none exactly for a consistent manifest. */
  method ValidateStructure(m: Manifest) returns (r: Option<ManifestError>)
    ensures r == StructureError(m, 0)
    ensures r.None? <==> Consistent(m)
    ensures r.Some? ==> ExplainsManifest(r.value, m)
  {
    StructureErrorNone(m, 0);
    FirstProblem(m, 0);
    hide ExplainsManifest;
    var total := 0;
    for k := 0 to |m.files|
      invariant total == SumFiles(m.files[..k])
      invariant StructureError(m, 0) == StructureError(m, k)
    {
      var f := m.files[k];
      var e := ValidateFile(f);
      if e.Some? {
        return e;
      }
      assert m.files[..k + 1][..k] == m.files[..k];
      total := total + f.size;
    }
    assert m.files[..|m.files|] == m.files;
    if m.totalSize != total {
      return Some(TotalSizeMismatch(m.totalSize, total));
    }
    if m.fileCount != |m.files| {
      return Some(FileCountMismatch(m.fileCount, |m.files|));
    }
    return None;
  }

  // ----- the flattened chunk list -----

  function Locate(f: FileEntry, j: nat, global: nat): ChunkLocator
    requires j < |f.chunks|
  {
    var c := f.chunks[j];
    ChunkLocator(global, f.id, f.relPath, f.size, c.idx, c.offset, c.size, c.hash)
  }

  function FileLocators(f: FileEntry, base: nat): (locs: seq<ChunkLocator>)
    ensures |locs| == |f.chunks|
  {
    seq(|f.chunks|, j requires 0 <= j < |f.chunks| => Locate(f, j, base + j))
  }

  function Locators(files: seq<FileEntry>): (locs: seq<ChunkLocator>)
    ensures |locs| == ChunkTotal(files)
  {
    if files == [] then []
    else
      var n := |files| - 1;
      Locators(files[..n]) + FileLocators(files[n], ChunkTotal(files[..n]))
  }

  method ChunkLocators(m: Manifest) returns (out: seq<ChunkLocator>)
    ensures out == Locators(m.files)
  {
    out := [];
    var global := 0;
    for k := 0 to |m.files|
      invariant out == Locators(m.files[..k]) && global == |out|
    {
      var f := m.files[k];
      ghost var before := out;
      for j := 0 to |f.chunks|
        invariant global == |before| + j
        invariant out == before + FileLocators(f, |before|)[..j]
      {
        out := out + [Locate(f, j, global)];
        global := global + 1;
      }
      assert m.files[..k + 1][..k] == m.files[..k];
    }
    assert m.files[..|m.files|] == m.files;
  }

  /** The position in the flattened list of chunk `j` of file `k`. */
  function GlobalIndex(files: seq<FileEntry>, k: nat, j: nat): nat
    requires k < |files|
  {
    ChunkTotal(files[..k]) + j
  }

  /** Every chunk of every file is in the list, at its global index. */
  lemma {:induction false} LocatorAt(files: seq<FileEntry>, k: nat, j: nat)
    requires k < |files| && j < |files[k].chunks|
    ensures GlobalIndex(files, k, j) < |Locators(files)|
    ensures Locators(files)[GlobalIndex(files, k, j)] == Locate(files[k], j, GlobalIndex(files, k, j))
  {
    var n := |files| - 1;
    if k < n {
      LocatorAt(files[..n], k, j);
      assert files[..n][..k] == files[..k];
    }
  }

  /** Every entry of the list is some chunk of some file. */
  lemma {:induction false} LocatorOrigin(files: seq<FileEntry>, g: nat) returns (k: nat, j: nat)
    requires g < |Locators(files)|
    ensures k < |files| && j < |files[k].chunks| && g == GlobalIndex(files, k, j)
    ensures Locators(files)[g] == Locate(files[k], j, g)
    ensures var loc, f, c := Locators(files)[g], files[k], files[k].chunks[j];
            && loc.fileId == f.id && loc.relPath == f.relPath && loc.fileSize == f.size
            && loc.chunkIdx == c.idx && loc.offset == c.offset && loc.size == c.size && loc.hash == c.hash
  {
    var n := |files| - 1;
    var before := ChunkTotal(files[..n]);
    if g < before {
      k, j := LocatorOrigin(files[..n], g);
      assert files[..n][..k] == files[..k];
    } else {
      k, j := n, g - before;
    }
  }

  /** The flattened order is the bitmap order: entry `g` carries index `g`. */
  lemma LocatorIndex(files: seq<FileEntry>, g: nat)
    requires g < |Locators(files)|
    ensures Locators(files)[g].globalIdx == g
  {
    var _, _ := LocatorOrigin(files, g);
  }

  /** Two different indices of the list come from different files or from disjoint byte ranges. */
  lemma LocatorsDisjoint(files: seq<FileEntry>, g: nat, h: nat)
    requires g < |Locators(files)| && h < |Locators(files)| && g != h
    requires forall f | f in files :: FileConsistent(f)
    requires forall i, k | 0 <= i < k < |files| :: files[i].relPath != files[k].relPath
    ensures var a, b := Locators(files)[g], Locators(files)[h];
            a.relPath != b.relPath || a.offset + a.size <= b.offset || b.offset + b.size <= a.offset
  {
    var k, j := LocatorOrigin(files, g);
    var k', j' := LocatorOrigin(files, h);
    if k == k' {
      ChunksDisjoint(files[k], j, j');
    }
  }

  lemma ChunksDisjoint(f: FileEntry, i: nat, j: nat)
    requires FileConsistent(f)
    requires i < |f.chunks| && j < |f.chunks| && i != j
    ensures var a, b := f.chunks[i], f.chunks[j];
            a.offset + a.size <= b.offset || b.offset + b.size <= a.offset
  {
    var lo, hi := if i < j then i else j, if i < j then j else i;
    SumChunksStep(f.chunks, lo);
    SumChunksMonotone(f.chunks, lo + 1, hi);
  }

  lemma ChunkInFile(f: FileEntry, j: nat)
    requires FileConsistent(f) && j < |f.chunks|
    ensures f.chunks[j].offset + f.chunks[j].size <= f.size
    ensures j == |f.chunks| - 1 ==> f.chunks[j].offset + f.chunks[j].size == f.size
  {
    SumChunksStep(f.chunks, j);
    SumChunksMonotone(f.chunks, j + 1, |f.chunks|);
    assert f.chunks[..|f.chunks|] == f.chunks;
  }

  // ----- contents -----

  /** The bytes of a file that a chunk covers. */
  function Span(content: Data, offset: nat, size: nat): Data
    requires offset + size <= |content|
  {
    content[offset..offset + size]
  }

  /** `f` describes `content`: sizes, whole-file hash, and the hash of every chunk's span. */
  ghost predicate Describes(f: FileEntry, content: Data) {
    && FileConsistent(f)
    && f.size == |content|
    && f.hash == Blake3(content)
    && forall j | 0 <= j < |f.chunks| ::
         var c := f.chunks[j];
         c.size > 0 && c.offset + c.size <= |content| && c.hash == Blake3(Span(content, c.offset, c.size))
  }

  /** The first `j` chunks lie within both contents and have the same bytes in both. */
  ghost predicate SameSpans(f: FileEntry, a: Data, b: Data, j: nat)
    requires j <= |f.chunks|
  {
    forall i | 0 <= i < j ::
      var c := f.chunks[i];
      c.offset + c.size <= |a| && c.offset + c.size <= |b| && Span(a, c.offset, c.size) == Span(b, c.offset, c.size)
  }

  lemma LastSpan(f: FileEntry, a: Data, b: Data, j: nat)
    requires 0 < j <= |f.chunks| && SameSpans(f, a, b, j)
    ensures SameSpans(f, a, b, j - 1)
    ensures var c := f.chunks[j - 1];
            && c.offset + c.size <= |a| && c.offset + c.size <= |b|
            && Span(a, c.offset, c.size) == Span(b, c.offset, c.size)
  {
    hide Span;
  }

  lemma {:induction false} SpansDeterminePrefix(f: FileEntry, a: Data, b: Data, j: nat)
    requires Contiguous(f.chunks) && j <= |f.chunks| && SameSpans(f, a, b, j)
    requires SumChunks(f.chunks[..j]) <= |a| && SumChunks(f.chunks[..j]) <= |b|
    ensures a[..SumChunks(f.chunks[..j])] == b[..SumChunks(f.chunks[..j])]
  {
    if j == 0 {
      NoSpans(f.chunks);
    } else {
      hide *;
      var c := f.chunks[j - 1];
      SumChunksStep(f.chunks, j - 1);
      OffsetIsSum(f.chunks, j - 1);
      LastSpan(f, a, b, j);
      SpansDeterminePrefix(f, a, b, j - 1);
      PrefixGrows(a, b, c.offset, c.size);
    }
  }

  lemma NoSpans(chunks: seq<ChunkEntry>)
    ensures SumChunks(chunks[..0]) == 0
  {
  }

  lemma PrefixGrows(a: Data, b: Data, offset: nat, size: nat)
    requires offset + size <= |a| && offset + size <= |b|
    requires a[..offset] == b[..offset] && Span(a, offset, size) == Span(b, offset, size)
    ensures a[..offset + size] == b[..offset + size]
  {
    TakeSpan(a, offset, size);
    TakeSpan(b, offset, size);
    hide Span;
  }

  lemma OffsetIsSum(chunks: seq<ChunkEntry>, k: nat)
    requires Contiguous(chunks) && k < |chunks|
    ensures chunks[k].offset == SumChunks(chunks[..k])
  {
    hide SumChunks;
  }

  lemma TakeSpan(a: Data, offset: nat, size: nat)
    requires offset + size <= |a|
    ensures a[..offset + size] == a[..offset] + Span(a, offset, size)
  {
  }

  /** Two contents that agree on every chunk span of the same description are equal. */
  lemma SpansDetermineContent(f: FileEntry, a: Data, b: Data)
    requires FileConsistent(f) && |a| == |b| == f.size
    requires forall j | 0 <= j < |f.chunks| ::
               var c := f.chunks[j]; c.offset + c.size <= f.size &&
                                     Span(a, c.offset, c.size) == Span(b, c.offset, c.size)
    ensures a == b
  {
    assert f.chunks[..|f.chunks|] == f.chunks;
    SpansDeterminePrefix(f, a, b, |f.chunks|);
    assert a[..f.size] == a && b[..f.size] == b;
  }
}
