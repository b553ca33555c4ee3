/**
 Verify-before-write, and what it does to the chunks on disk.
 */
module Transfer {
  import opened Hashing
  import opened Paths
  import opened Manifests
  import opened Storage

  // ----- well-formed manifests -----

  /**
   What the download side relies on: every file's chunks tile it and none is empty, every path
   joins safely, and no two paths name the same location.
   */
  ghost predicate Usable(files: seq<FileEntry>) {
    && (forall k | 0 <= k < |files| ::
          && FileConsistent(files[k])
          && SafeJoin(files[k].relPath).Some?
          && forall j | 0 <= j < |files[k].chunks| :: files[k].chunks[j].size > 0)
    && (forall i, k | 0 <= i < k < |files| :: SafeJoin(files[i].relPath) != SafeJoin(files[k].relPath))
  }

  function PathOf(f: FileEntry): Path
    requires SafeJoin(f.relPath).Some?
  {
    SafeJoin(f.relPath).value
  }

  /** The digest has at most one preimage, and that preimage has the given length. */
  ghost predicate Binds(hash: Digest, size: nat) {
    forall d, e | Blake3(d) == hash && Blake3(e) == hash :: d == e && |d| == size
  }

  /** Content that meets a chunk digest of the manifest has the length of that chunk. */
  ghost predicate SizesBind(files: seq<FileEntry>) {
    forall k, j, d | 0 <= k < |files| && 0 <= j < |files[k].chunks| && Blake3(d) == files[k].chunks[j].hash ::
      |d| == files[k].chunks[j].size
  }

  /** No chunk digest of the manifest can be met by two different byte strings. */
  ghost predicate Binding(files: seq<FileEntry>) {
    forall k, j | 0 <= k < |files| && 0 <= j < |files[k].chunks| ::
      Binds(files[k].chunks[j].hash, files[k].chunks[j].size)
  }

  lemma BindingBindsSizes(files: seq<FileEntry>)
    requires Binding(files)
    ensures SizesBind(files)
  {
    forall k, j, d | 0 <= k < |files| && 0 <= j < |files[k].chunks| && Blake3(d) == files[k].chunks[j].hash
      ensures |d| == files[k].chunks[j].size
    {
      assert Binds(files[k].chunks[j].hash, files[k].chunks[j].size);
    }
  }

  // ----- chunks on disk -----

  /** The span named by the locator is on disk and hashes to the manifest's digest. */
  predicate Held(files: Files, loc: ChunkLocator) {
    var path := SafeJoin(loc.relPath);
    path.Some? &&
    var data := ReadExact(files, path.value, loc.offset, loc.size);
    data.Some? && Blake3(data.value) == loc.hash
  }

  ghost predicate AllHeld(m: seq<FileEntry>, files: Files) {
    forall g | 0 <= g < |Locators(m)| :: Held(files, Locators(m)[g])
  }

  ghost predicate KeepsHeld(m: seq<FileEntry>, a: Files, b: Files) {
    forall g | 0 <= g < |Locators(m)| && Held(a, Locators(m)[g]) :: Held(b, Locators(m)[g])
  }

  lemma KeepsHeldReflexive(m: seq<FileEntry>, a: Files)
    ensures KeepsHeld(m, a, a)
  {
  }

  lemma KeepsHeldTransitive(m: seq<FileEntry>, a: Files, b: Files, c: Files)
    requires KeepsHeld(m, a, b) && KeepsHeld(m, b, c)
    ensures KeepsHeld(m, a, c)
  {
  }

  // ----- verify before write -----

  datatype WriteResult = Written | HashMismatch | UnsafePath | IoError

  /** How the file system treats one attempt: a failing write may leave a prefix behind. */
  datatype Fault = NoFault | OpenFault | WriteFault(written: nat)

  function WriteOutcome(rel: string, data: Data, expected: Digest, fault: Fault): WriteResult {
    if Blake3(data) != expected then HashMismatch
    else if SafeJoin(rel).None? then UnsafePath
    else if fault != NoFault then IoError
    else Written
  }

  /** The files after a verified write attempt. */
  function AfterWrite(files: Files, rel: string, offset: nat, data: Data, expected: Digest, fault: Fault): Files {
    if Blake3(data) != expected || SafeJoin(rel).None? then files
    else
      match fault
      case NoFault => WriteAt(files, SafeJoin(rel).value, offset, data)
      case OpenFault => files
      case WriteFault(k) => WriteAt(files, SafeJoin(rel).value, offset, data[..Min(k, |data|)])
  }

  /** The stateless guard: nothing reaches the disk unless the data hashes to the expected digest. */
  method VerifyAndWrite(machine: Machine, rel: string, offset: nat, data: Data, expected: Digest, fault: Fault)
    returns (r: WriteResult)
    modifies machine
    ensures r == WriteOutcome(rel, data, expected, fault)
    ensures machine.files == AfterWrite(old(machine.files), rel, offset, data, expected, fault)
    ensures machine.rows == old(machine.rows)
    ensures old(machine.instants) <= machine.instants
    ensures forall i | |old(machine.instants)| <= i < |machine.instants| ::
              machine.instants[i] == Instant(machine.files, machine.rows)
  {
    if Blake3(data) != expected {
      return HashMismatch;
    }
    var path := JoinUnderRoot(rel);
    if path.None? {
      return UnsafePath;
    }
    match fault {
      case NoFault =>
        machine.Write(path.value, offset, data);
        return Written;
      case OpenFault =>
        return IoError;
      case WriteFault(k) =>
        machine.Write(path.value, offset, data[..Min(k, |data|)]);
        return IoError;
    }
  }

  /** Nothing is lost: every file is still there and at least as long, and empty entries are untouched. */
  ghost predicate Grows(m: seq<FileEntry>, a: Files, b: Files) {
    && (forall p | p in a :: p in b && |a[p]| <= |b[p]|)
    && (forall k | 0 <= k < |m| && m[k].size == 0 && SafeJoin(m[k].relPath).Some? ::
          var p := PathOf(m[k]);
          (p in b ==> p in a) && (p in a ==> b[p] == a[p]))
  }

  /** What any number of verified writes does to the disk. */
  ghost predicate Improves(m: seq<FileEntry>, a: Files, b: Files) {
    KeepsHeld(m, a, b) && Grows(m, a, b)
  }

  lemma ImprovesTransitive(m: seq<FileEntry>, a: Files, b: Files, c: Files)
    requires Improves(m, a, b) && Improves(m, b, c)
    ensures Improves(m, a, c)
  {
  }

  lemma LocatorFacts(m: seq<FileEntry>, g: nat) returns (k: nat, j: nat)
    requires Usable(m) && g < |Locators(m)|
    ensures k < |m| && j < |m[k].chunks| && g == GlobalIndex(m, k, j)
    ensures Locators(m)[g] == Locate(m[k], j, g)
    ensures SafeJoin(Locators(m)[g].relPath) == Some(PathOf(m[k]))
    ensures Locators(m)[g].size > 0 && m[k].size > 0
    ensures Locators(m)[g].offset + Locators(m)[g].size <= m[k].size
  {
    hide SafeJoin;
    k, j := LocatorOrigin(m, g);
    ChunkInFile(m[k], j);
  }

  /** Different chunks live in different files or in disjoint byte ranges of one file. */
  lemma LocatorsApart(m: seq<FileEntry>, g: nat, h: nat)
    requires Usable(m) && g < |Locators(m)| && h < |Locators(m)| && g != h
    ensures var a, b := Locators(m)[g], Locators(m)[h];
            SafeJoin(a.relPath) != SafeJoin(b.relPath) || a.offset + a.size <= b.offset || b.offset + b.size <= a.offset
  {
    hide SafeJoin;
    var k, j := LocatorFacts(m, g);
    var k', j' := LocatorFacts(m, h);
    if k == k' {
      ChunksDisjoint(m[k], j, j');
    }
  }

  /** A write leaves a span readable and unchanged if it misses the span or rewrites a prefix of it. */
  lemma WriteKeepsSpan(files: Files, p: Path, offset: nat, data: Data, n: nat, q: Path, at: nat, size: nat)
    requires n <= |data| && size > 0 && ReadExact(files, q, at, size).Some?
    requires || p != q
             || at + size <= offset
             || offset + |data| <= at
             || (at == offset && ReadExact(files, q, at, size) == Some(data))
    ensures ReadExact(WriteAt(files, p, offset, data[..n]), q, at, size) == ReadExact(files, q, at, size)
  {
    if p == q {
      if at + size <= offset || offset + |data| <= at {
        SpliceKeeps(files[p], offset, data[..n], at, size);
      } else {
        SpliceSamePrefix(files[p], offset, data, n);
      }
    }
  }

  /**
   Writing a verified chunk damages no held chunk. A prefix of it could only damage the chunk's own
   span, and that only if the span holds other bytes with the same digest.
   */
  lemma WriteKeepsHeld(m: seq<FileEntry>, files: Files, p: Path, g: nat, data: Data, n: nat, h: nat)
    requires Usable(m) && SizesBind(m) && n <= |data| && (n < |data| ==> Binding(m))
    requires g < |Locators(m)| && h < |Locators(m)|
    requires SafeJoin(Locators(m)[g].relPath) == Some(p)
    requires Blake3(data) == Locators(m)[g].hash
    requires Held(files, Locators(m)[h])
    ensures Held(WriteAt(files, p, Locators(m)[g].offset, data[..n]), Locators(m)[h])
  {
    var a, b := Locators(m)[g], Locators(m)[h];
    var k, j := LocatorFacts(m, g);
    var _, _ := LocatorFacts(m, h);
    HasChunkSize(m, k, j, data);
    if g == h {
      if n < |data| {
        assert Binds(m[k].chunks[j].hash, m[k].chunks[j].size);
      }
      hide *;
      OwnSpanStays(files, p, a, data, n);
    } else {
      LocatorsApart(m, g, h);
      hide *;
      OtherSpanStays(files, p, a, data, n, b);
    }
  }

  lemma HasChunkSize(m: seq<FileEntry>, k: nat, j: nat, data: Data)
    requires SizesBind(m) && k < |m| && j < |m[k].chunks| && Blake3(data) == m[k].chunks[j].hash
    ensures |data| == m[k].chunks[j].size
  {
  }

  lemma OwnSpanStays(files: Files, p: Path, loc: ChunkLocator, data: Data, n: nat)
    requires SafeJoin(loc.relPath) == Some(p) && n <= |data| == loc.size && loc.size > 0
    requires Blake3(data) == loc.hash && Held(files, loc)
    requires n < |data| ==> Binds(loc.hash, loc.size)
    ensures Held(WriteAt(files, p, loc.offset, data[..n]), loc)
  {
    hide SafeJoin, WriteAt;
    if n == |data| {
      assert data[..n] == data;
      WriteReads(files, p, loc.offset, data);
    } else {
      assert ReadExact(files, p, loc.offset, loc.size).value == data;
      WriteKeepsSpan(files, p, loc.offset, data, n, p, loc.offset, loc.size);
    }
  }

  lemma OtherSpanStays(files: Files, p: Path, loc: ChunkLocator, data: Data, n: nat, other: ChunkLocator)
    requires SafeJoin(loc.relPath) == Some(p) && n <= |data| == loc.size && other.size > 0 && Held(files, other)
    requires || SafeJoin(loc.relPath) != SafeJoin(other.relPath)
             || loc.offset + loc.size <= other.offset
             || other.offset + other.size <= loc.offset
    ensures Held(WriteAt(files, p, loc.offset, data[..n]), other)
  {
    hide SafeJoin, WriteAt;
    WriteKeepsSpan(files, p, loc.offset, data, n, SafeJoin(other.relPath).value, other.offset, other.size);
  }

  lemma WriteGrows(m: seq<FileEntry>, files: Files, p: Path, g: nat, data: Data)
    requires Usable(m) && g < |Locators(m)|
    requires SafeJoin(Locators(m)[g].relPath) == Some(p)
    ensures Grows(m, files, WriteAt(files, p, Locators(m)[g].offset, data))
  {
    hide SafeJoin;
    var k, j := LocatorFacts(m, g);
    forall i | 0 <= i < |m| && m[i].size == 0
      ensures PathOf(m[i]) != p
    {
      assert i != k;
    }
  }

  lemma WriteImproves(m: seq<FileEntry>, files: Files, p: Path, g: nat, data: Data, n: nat)
    requires Usable(m) && SizesBind(m) && n <= |data| && (n < |data| ==> Binding(m))
    requires g < |Locators(m)| && SafeJoin(Locators(m)[g].relPath) == Some(p)
    requires Blake3(data) == Locators(m)[g].hash
    ensures Improves(m, files, WriteAt(files, p, Locators(m)[g].offset, data[..n]))
  {
    hide SafeJoin;
    WriteGrows(m, files, p, g, data[..n]);
    forall h | 0 <= h < |Locators(m)| && Held(files, Locators(m)[h])
      ensures Held(WriteAt(files, p, Locators(m)[g].offset, data[..n]), Locators(m)[h])
    {
      WriteKeepsHeld(m, files, p, g, data, n, h);
    }
  }

  lemma WriteReads(files: Files, p: Path, offset: nat, data: Data)
    requires data != []
    ensures ReadExact(WriteAt(files, p, offset, data), p, offset, |data|) == Some(data)
  {
    SpliceReadsBack(ContentOf(files, p), offset, data);
  }

  lemma ImprovesReflexive(m: seq<FileEntry>, files: Files)
    ensures Improves(m, files, files)
  {
  }

  /** An attempt that gets past the checks writes the data or, failing partway, a prefix of it. */
  lemma AttemptIsWrite(files: Files, rel: string, p: Path, offset: nat, data: Data, fault: Fault) returns (n: nat)
    requires SafeJoin(rel) == Some(p) && fault != OpenFault
    ensures n <= |data| && (n < |data| ==> fault.WriteFault?)
    ensures AfterWrite(files, rel, offset, data, Blake3(data), fault) == WriteAt(files, p, offset, data[..n])
  {
    hide SafeJoin, WriteAt;
    n := if fault == NoFault then |data| else Min(fault.written, |data|);
    assert data[..|data|] == data;
  }

  /** One write attempt for a manifest chunk, successful or not, improves the disk. */
  lemma AttemptImproves(m: seq<FileEntry>, files: Files, g: nat, data: Data, fault: Fault)
    requires Usable(m) && SizesBind(m) && (fault.WriteFault? ==> Binding(m)) && g < |Locators(m)|
    ensures var loc := Locators(m)[g];
            Improves(m, files, AfterWrite(files, loc.relPath, loc.offset, data, loc.hash, fault))
  {
    var loc := Locators(m)[g];
    if Blake3(data) != loc.hash || fault == OpenFault {
      ImprovesReflexive(m, files);
    } else {
      var k, j := LocatorFacts(m, g);
      var p := PathOf(m[k]);
      hide *;
      var n := AttemptIsWrite(files, loc.relPath, p, loc.offset, data, fault);
      WriteImproves(m, files, p, g, data, n);
    }
  }

  lemma HeldOnceWritten(files: Files, loc: ChunkLocator, p: Path, data: Data)
    requires SafeJoin(loc.relPath) == Some(p) && |data| == loc.size > 0 && Blake3(data) == loc.hash
    ensures Held(WriteAt(files, p, loc.offset, data), loc)
  {
    hide SafeJoin;
    WriteReads(files, p, loc.offset, data);
  }

  lemma WrittenWrites(files: Files, loc: ChunkLocator, p: Path, data: Data, fault: Fault)
    requires SafeJoin(loc.relPath) == Some(p) && WriteOutcome(loc.relPath, data, loc.hash, fault) == Written
    ensures AfterWrite(files, loc.relPath, loc.offset, data, loc.hash, fault) == WriteAt(files, p, loc.offset, data)
  {
    hide SafeJoin, WriteAt;
  }

  /** An attempt that reports success leaves its chunk held. */
  lemma WrittenIsHeld(m: seq<FileEntry>, files: Files, g: nat, data: Data, fault: Fault)
    requires Usable(m) && SizesBind(m) && g < |Locators(m)|
    requires WriteOutcome(Locators(m)[g].relPath, data, Locators(m)[g].hash, fault) == Written
    ensures var loc := Locators(m)[g];
            Held(AfterWrite(files, loc.relPath, loc.offset, data, loc.hash, fault), loc)
  {
    hide SafeJoin, WriteAt, Held;
    var loc := Locators(m)[g];
    var k, j := LocatorFacts(m, g);
    HeldOnceWritten(files, loc, PathOf(m[k]), data);
    hide *;
    WrittenWrites(files, loc, PathOf(m[k]), data, fault);
  }
}
