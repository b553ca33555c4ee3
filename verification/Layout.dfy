/**
 Finalising the layout of a title, validating it, and planning its repair.
 */
module Layout {
  import opened Hashing
  import opened Paths
  import opened Manifests
  import opened Storage
  import opened ChunkBitmap
  import opened Transfer

  // ----- finalisation -----

  /**
   One file: an entry of size zero is created if it is missing; any other file that is longer than
   its manifest size is cut to it. An existing file is never cut to zero.
   */
  function FinalizeFile(files: Files, f: FileEntry): Files
    requires SafeJoin(f.relPath).Some?
  {
    var p := PathOf(f);
    if f.size == 0 then files[p := ContentOf(files, p)]
    else if p in files && |files[p]| > f.size then files[p := files[p][..f.size]]
    else files
  }

  ghost predicate AllSafe(m: seq<FileEntry>) {
    forall k | 0 <= k < |m| :: SafeJoin(m[k].relPath).Some?
  }

  function Finalized(files: Files, m: seq<FileEntry>): Files
    requires forall k | 0 <= k < |m| :: SafeJoin(m[k].relPath).Some?
  {
    if m == [] then files else FinalizeFile(Finalized(files, m[..|m| - 1]), m[|m| - 1])
  }

  /** The recorded instants after `from` all have the given rows and keep every chunk held in `files`. */
  ghost predicate InstantsKeep(m: seq<FileEntry>, instants: seq<Instant>, from: nat, files: Files, rows: Rows) {
    forall i | from <= i < |instants| :: instants[i].rows == rows && KeepsHeld(m, files, instants[i].files)
  }

  /** The body of the loop: create, cut or leave one file, unless its path or the file system refuses. */
  method FinalizeOne(f: FileEntry, machine: Machine, fails: bool) returns (ok: bool)
    modifies machine
    ensures ok ==> SafeJoin(f.relPath).Some? && machine.files == FinalizeFile(old(machine.files), f)
    ensures !ok ==> (fails || SafeJoin(f.relPath).None?) && machine.files == old(machine.files)
    ensures machine.rows == old(machine.rows)
    ensures || machine.instants == old(machine.instants)
            || machine.instants == old(machine.instants) + [Instant(machine.files, machine.rows)]
  {
    var path := JoinUnderRoot(f.relPath);
    if path.None? {
      return false;
    }
    if f.size == 0 {
      if fails {
        return false;
      }
      machine.Create(path.value);
    } else if path.value in machine.files && |machine.files[path.value]| > f.size {
      if fails {
        return false;
      }
      machine.Truncate(path.value, f.size);
    }
    return true;
  }

  /** The loop got to entry `k` and stopped there. */
  ghost predicate StoppedAt(m: seq<FileEntry>, before: Files, after: Files, k: nat, fails: nat -> bool) {
    && k < |m| && AllSafe(m[..k]) && (fails(k) || SafeJoin(m[k].relPath).None?)
    && after == Finalized(before, m[..k])
  }

  /** The loop over the manifest; `fails(k)` says that the file system refuses the operation on file `k`. */
  method FinalizeLayout(m: Manifest, machine: Machine, fails: nat -> bool) returns (ok: bool)
    modifies machine
    ensures ok ==> AllSafe(m.files) && machine.files == Finalized(old(machine.files), m.files)
    ensures ok || exists k: nat :: StoppedAt(m.files, old(machine.files), machine.files, k, fails)
    ensures machine.rows == old(machine.rows)
    ensures old(machine.instants) <= machine.instants
    ensures Usable(m.files) ==> KeepsHeld(m.files, old(machine.files), machine.files)
    ensures Usable(m.files) ==>
              InstantsKeep(m.files, machine.instants, |old(machine.instants)|, old(machine.files), old(machine.rows))
  {
    hide SafeJoin, KeepsHeld, Usable;
    KeepsHeldReflexive(m.files, machine.files);
    for k := 0 to |m.files|
      invariant AllSafe(m.files[..k]) && machine.files == Finalized(old(machine.files), m.files[..k])
      invariant machine.rows == old(machine.rows)
      invariant old(machine.instants) <= machine.instants
      invariant Usable(m.files) ==> KeepsHeld(m.files, old(machine.files), machine.files)
      invariant Usable(m.files) ==>
                  InstantsKeep(m.files, machine.instants, |old(machine.instants)|, old(machine.files),
                               old(machine.rows))
    {
      var f := m.files[k];
      assert m.files[..k + 1][..k] == m.files[..k];
      if Usable(m.files) {
        UsablePaths(m.files);
        FinalizeFileKeepsHeld(m.files, machine.files, k);
        KeepsHeldTransitive(m.files, old(machine.files), machine.files, FinalizeFile(machine.files, f));
      }
      ok := FinalizeOne(f, machine, fails(k));
      if !ok {
        assert StoppedAt(m.files, old(machine.files), machine.files, k, fails);
        return false;
      }
    }
    assert m.files[..|m.files|] == m.files;
    return true;
  }

  lemma UsablePaths(m: seq<FileEntry>)
    requires Usable(m)
    ensures AllSafe(m)
  {
  }

  lemma FinalizeFileKeepsHeld(m: seq<FileEntry>, files: Files, k: nat)
    requires Usable(m) && k < |m|
    ensures KeepsHeld(m, files, FinalizeFile(files, m[k]))
  {
    hide SafeJoin, Locators, FileConsistent;
    forall g | 0 <= g < |Locators(m)| && Held(files, Locators(m)[g])
      ensures Held(FinalizeFile(files, m[k]), Locators(m)[g])
    {
      var i, j := LocatorFacts(m, g);
      if i == k {
        TruncateKeepsSpan(files, PathOf(m[k]), m[k].size, Locators(m)[g].offset, Locators(m)[g].size);
      } else {
        assert PathOf(m[i]) != PathOf(m[k]);
      }
    }
  }

  lemma TruncateKeepsSpan(files: Files, p: Path, len: nat, at: nat, size: nat)
    requires at + size <= len && size > 0 && ReadExact(files, p, at, size).Some?
    ensures |files[p]| > len ==> ReadExact(files[p := files[p][..len]], p, at, size) == ReadExact(files, p, at, size)
  {
    if |files[p]| > len {
      assert files[p][..len][at..at + size] == files[p][at..at + size];
    }
  }

  /** The content the finalised layout has for a file, given what was there before. */
  function FinalContent(files: Files, f: FileEntry): Option<Data>
    requires SafeJoin(f.relPath).Some?
  {
    var p := PathOf(f);
    if f.size == 0 then Some(ContentOf(files, p))
    else if p !in files then None
    else if |files[p]| > f.size then Some(files[p][..f.size])
    else Some(files[p])
  }

  function Lookup(files: Files, p: Path): Option<Data> {
    if p in files then Some(files[p]) else None
  }

  /** Finalisation acts on each manifest file by itself, and on nothing else. */
  lemma {:induction false} FinalizedLookup(files: Files, m: seq<FileEntry>, p: Path)
    requires forall k | 0 <= k < |m| :: SafeJoin(m[k].relPath).Some?
    requires forall i, k | 0 <= i < k < |m| :: SafeJoin(m[i].relPath) != SafeJoin(m[k].relPath)
    ensures forall k | 0 <= k < |m| && PathOf(m[k]) == p :: Lookup(Finalized(files, m), p) == FinalContent(files, m[k])
    ensures (forall k | 0 <= k < |m| :: PathOf(m[k]) != p) ==> Lookup(Finalized(files, m), p) == Lookup(files, p)
  {
    hide SafeJoin;
    if m != [] {
      var n := |m| - 1;
      FinalizedLookup(files, m[..n], p);
      assert forall k | 0 <= k < n :: m[..n][k] == m[k];
    }
  }

  // ----- validation -----

  datatype CheckDetail = CheckOk | Missing | SizeMismatch(expected: nat, got: nat) | ContentMismatch

  function QuickCheck(files: Files, f: FileEntry): CheckDetail {
    var p := SafeJoin(f.relPath);
    if p.None? || p.value !in files then Missing
    else if |files[p.value]| == f.size then CheckOk
    else SizeMismatch(f.size, |files[p.value]|)
  }

  function DeepCheck(files: Files, f: FileEntry): CheckDetail {
    var p := SafeJoin(f.relPath);
    if p.None? || p.value !in files then Missing
    else if Blake3(files[p.value]) == f.hash then CheckOk
    else ContentMismatch
  }

  function ValidateQuick(m: Manifest, files: Files): (report: seq<CheckDetail>)
    ensures |report| == |m.files|
  {
    seq(|m.files|, k requires 0 <= k < |m.files| => QuickCheck(files, m.files[k]))
  }

  function ValidateDeep(m: Manifest, files: Files): (report: seq<CheckDetail>)
    ensures |report| == |m.files|
  {
    seq(|m.files|, k requires 0 <= k < |m.files| => DeepCheck(files, m.files[k]))
  }

  ghost predicate Absent(files: Files, f: FileEntry) {
    forall p | SafeJoin(f.relPath) == Some(p) :: p !in files
  }

  /** What a report says of an entry is so. */
  lemma ReportsTrue(m: Manifest, files: Files, k: nat)
    requires k < |m.files|
    ensures var f, quick, deep := m.files[k], ValidateQuick(m, files)[k], ValidateDeep(m, files)[k];
            && (quick == Missing <==> Absent(files, f)) && (deep == Missing <==> Absent(files, f))
            && (quick.SizeMismatch? <==> !Absent(files, f) && |files[PathOf(f)]| != f.size)
            && (quick.SizeMismatch? ==> quick.expected == f.size && quick.got == |files[PathOf(f)]|)
            && (deep == ContentMismatch <==> !Absent(files, f) && Blake3(files[PathOf(f)]) != f.hash)
            && (quick == CheckOk || quick == Missing || quick.SizeMismatch?)
            && (deep == CheckOk || deep == Missing || deep == ContentMismatch)
  {
    var p := SafeJoin(m.files[k].relPath);
    assert p.Some? ==> p == Some(p.value);
  }

  predicate AllOk(report: seq<CheckDetail>) {
    forall k | 0 <= k < |report| :: report[k] == CheckOk
  }

  /** Reads a file to its end, whatever the individual reads return, and hashes what it saw. */
  method HashFile(content: Data, readSizes: nat -> nat) returns (h: Digest)
    ensures h == Blake3(content)
  {
    var seen: Data := [];
    var tick := 0;
    while true
      invariant |seen| <= |content| && seen == content[..|seen|]
      decreases |content| - |seen|
    {
      var space := 1024 * 1024;
      var remaining := |content| - |seen|;
      var n := if remaining == 0 then 0 else if readSizes(tick) == 0 then 1
          else Min(readSizes(tick), Min(space, remaining));
      tick := tick + 1;
      if n == 0 {
        break;
      }
      seen := seen + content[|seen|..|seen| + n];
    }
    assert seen == content;
    return Blake3(seen);
  }

  /** A zero-size entry whose location is occupied by a non-empty file: finalisation cannot fix it. */
  predicate Occupied(files: Files, f: FileEntry)
    requires SafeJoin(f.relPath).Some?
  {
    f.size == 0 && ContentOf(files, PathOf(f)) != []
  }

  /** The file is there with at least its manifest length. */
  predicate LongEnough(files: Files, f: FileEntry)
    requires SafeJoin(f.relPath).Some?
  {
    PathOf(f) in files && |files[PathOf(f)]| >= f.size
  }

  /**
   After finalisation a file passes quick validation exactly if it was long enough before, or it
   is an empty entry whose location was free or empty.
   */
  lemma QuickAfterFinalize(m: Manifest, files: Files, k: nat)
    requires Usable(m.files) && k < |m.files|
    ensures QuickCheck(Finalized(files, m.files), m.files[k]) == CheckOk
       <==> if m.files[k].size == 0 then !Occupied(files, m.files[k]) else LongEnough(files, m.files[k])
  {
    hide SafeJoin;
    FinalizedLookup(files, m.files, PathOf(m.files[k]));
  }

  /** A file all of whose chunks are held is long enough. */
  lemma HeldFileIsLongEnough(m: seq<FileEntry>, files: Files, k: nat)
    requires Usable(m) && k < |m| && m[k].size > 0
    requires forall j | 0 <= j < |m[k].chunks| :: Held(files, Locators(m)[HeldIndex(m, k, j)])
    ensures LongEnough(files, m[k])
  {
    hide SafeJoin;
    var n := |m[k].chunks| - 1;
    assert m[k].chunks != [];
    ChunkInFile(m[k], n);
    LocatorAt(m, k, n);
    assert Held(files, Locators(m)[HeldIndex(m, k, n)]);
  }

  function HeldIndex(m: seq<FileEntry>, k: nat, j: nat): (g: nat)
    requires k < |m| && j < |m[k].chunks|
    ensures g < |Locators(m)|
  {
    LocatorAt(m, k, j);
    GlobalIndex(m, k, j)
  }

  // ----- repair -----

  /**
   The plan lists, in increasing order, exactly the chunks that are missing, short or wrong on disk.
   */
  method RepairPlan(m: Manifest, machine: Machine) returns (bad: seq<nat>)
    ensures StrictlyIncreasing(bad)
    ensures forall g: nat :: g in bad <==> g < |Locators(m.files)| && !Held(machine.files, Locators(m.files)[g])
  {
    bad := [];
    var global := 0;
    hide SafeJoin, Locators;
    for k := 0 to |m.files|
      invariant global == ChunkTotal(m.files[..k]) <= |Locators(m.files)|
      invariant StrictlyIncreasing(bad)
      invariant forall g: nat :: g in bad <==> g < global && !Held(machine.files, Locators(m.files)[g])
    {
      var f := m.files[k];
      ChunkTotalStep(m.files, k);
      ChunkTotalMonotone(m.files, k + 1, |m.files|);
      assert m.files[..|m.files|] == m.files;
      var path := JoinUnderRoot(f.relPath);
      for j := 0 to |f.chunks|
        invariant global == ChunkTotal(m.files[..k]) + j
        invariant StrictlyIncreasing(bad)
        invariant forall g: nat :: g in bad <==> g < global && !Held(machine.files, Locators(m.files)[g])
      {
        var c := f.chunks[j];
        var ok := false;
        if path.Some? {
          var data := ReadExact(machine.files, path.value, c.offset, c.size);
          ok := data.Some? && Blake3(data.value) == c.hash;
        }
        LocatorAt(m.files, k, j);
        assert ok <==> Held(machine.files, Locators(m.files)[global]);
        if !ok {
          assert forall i | 0 <= i < |bad| :: bad[i] in bad;
          bad := bad + [global];
        }
        global := global + 1;
      }
    }
    assert m.files[..|m.files|] == m.files;
  }

  // ----- what validation means -----

  /** `src` holds, for every manifest file, a content that the entry describes. */
  ghost predicate SourceOf(m: seq<FileEntry>, src: Files) {
    forall k | 0 <= k < |m| ::
      SafeJoin(m[k].relPath).Some? && PathOf(m[k]) in src && Describes(m[k], src[PathOf(m[k])])
  }

  ghost predicate Equals(m: seq<FileEntry>, files: Files, src: Files)
    requires SourceOf(m, src)
  {
    forall k | 0 <= k < |m| :: Lookup(files, PathOf(m[k])) == Some(src[PathOf(m[k])])
  }

  /** A chunk is held exactly when the disk has the source's bytes there. */
  lemma HeldIsSource(m: seq<FileEntry>, files: Files, src: Files, k: nat, j: nat)
    requires Usable(m) && Binding(m) && SourceOf(m, src)
    requires k < |m| && j < |m[k].chunks|
    ensures var c := m[k].chunks[j];
            Held(files, Locators(m)[HeldIndex(m, k, j)])
            <==> ReadExact(files, PathOf(m[k]), c.offset, c.size) == Some(Span(src[PathOf(m[k])], c.offset, c.size))
  {
    hide SafeJoin;
    var c := m[k].chunks[j];
    LocatorAt(m, k, j);
    assert Binds(c.hash, c.size);
  }

  /** A file of the right length with all its chunks held has the source's content. */
  lemma HeldFileEqualsSource(m: seq<FileEntry>, files: Files, src: Files, k: nat)
    requires Usable(m) && Binding(m) && SourceOf(m, src) && k < |m|
    requires PathOf(m[k]) in files && |files[PathOf(m[k])]| == m[k].size
    requires forall j | 0 <= j < |m[k].chunks| :: Held(files, Locators(m)[HeldIndex(m, k, j)])
    ensures files[PathOf(m[k])] == src[PathOf(m[k])]
  {
    var f, p := m[k], PathOf(m[k]);
    forall j | 0 <= j < |f.chunks|
      ensures var c := f.chunks[j]; c.offset + c.size <= f.size &&
                                    Span(files[p], c.offset, c.size) == Span(src[p], c.offset, c.size)
    {
      HeldIsSource(m, files, src, k, j);
      ChunkInFile(f, j);
    }
    SpansDetermineContent(f, files[p], src[p]);
  }

  /** Right lengths and an empty repair plan mean that the disk equals the source, and conversely. */
  lemma RepairedIffEqual(m: Manifest, files: Files, src: Files)
    requires Usable(m.files) && Binding(m.files) && SourceOf(m.files, src)
    ensures AllOk(ValidateQuick(m, files)) && AllHeld(m.files, files) <==> Equals(m.files, files, src)
  {
    hide SafeJoin;
    var fs := m.files;
    if AllOk(ValidateQuick(m, files)) && AllHeld(fs, files) {
      forall k | 0 <= k < |fs|
        ensures Lookup(files, PathOf(fs[k])) == Some(src[PathOf(fs[k])])
      {
        assert ValidateQuick(m, files)[k] == QuickCheck(files, fs[k]);
        HeldFileEqualsSource(fs, files, src, k);
      }
    }
    if Equals(fs, files, src) {
      EqualIsHeld(fs, files, src);
      EqualIsQuick(m, files, src);
    }
  }

  lemma EqualIsHeld(m: seq<FileEntry>, files: Files, src: Files)
    requires Usable(m) && SourceOf(m, src) && Equals(m, files, src)
    ensures AllHeld(m, files)
  {
    hide SafeJoin;
    forall g | 0 <= g < |Locators(m)|
      ensures Held(files, Locators(m)[g])
    {
      var k, j := LocatorFacts(m, g);
      hide Locators;
      assert Describes(m[k], src[PathOf(m[k])]);
    }
  }

  lemma EqualIsQuick(m: Manifest, files: Files, src: Files)
    requires Usable(m.files) && SourceOf(m.files, src) && Equals(m.files, files, src)
    ensures AllOk(ValidateQuick(m, files))
  {
    hide SafeJoin;
    forall k | 0 <= k < |m.files|
      ensures ValidateQuick(m, files)[k] == CheckOk
    {
      assert Describes(m.files[k], src[PathOf(m.files[k])]);
    }
  }

  /** No whole-file digest of the manifest can be met by different content. */
  ghost predicate FileBinding(m: seq<FileEntry>) {
    forall k | 0 <= k < |m| :: Binds(m[k].hash, m[k].size)
  }

  /** Deep validation passes on every file exactly when the disk equals the source. */
  lemma DeepIffEqual(m: Manifest, files: Files, src: Files)
    requires Usable(m.files) && FileBinding(m.files) && SourceOf(m.files, src)
    ensures AllOk(ValidateDeep(m, files)) <==> Equals(m.files, files, src)
  {
    hide SafeJoin;
    var fs := m.files;
    forall k | 0 <= k < |fs|
      ensures ValidateDeep(m, files)[k] == CheckOk <==> Lookup(files, PathOf(fs[k])) == Some(src[PathOf(fs[k])])
    {
      assert Binds(fs[k].hash, fs[k].size) && Describes(fs[k], src[PathOf(fs[k])]);
    }
  }

  /** When every chunk is held after finalisation, quick validation fails only on occupied empty entries. */
  lemma QuickWhenHeld(m: Manifest, files: Files)
    requires Usable(m.files)
    requires AllHeld(m.files, Finalized(files, m.files))
    ensures AllOk(ValidateQuick(m, Finalized(files, m.files))) <==>
              forall k | 0 <= k < |m.files| :: !Occupied(files, m.files[k])
  {
    hide SafeJoin;
    var after := Finalized(files, m.files);
    forall k | 0 <= k < |m.files|
      ensures ValidateQuick(m, after)[k] == CheckOk <==> !Occupied(files, m.files[k])
    {
      FinalizedLookup(files, m.files, PathOf(m.files[k]));
      if m.files[k].size > 0 {
        HeldFileIsLongEnough(m.files, after, k);
      }
    }
  }

  /**
   After finalisation, deep validation passes exactly when the repair plan is empty and no empty
   entry is occupied by a non-empty file.
   */
  lemma DeepAfterFinalize(m: Manifest, files: Files, src: Files)
    requires Usable(m.files) && Binding(m.files) && FileBinding(m.files) && SourceOf(m.files, src)
    ensures AllOk(ValidateDeep(m, Finalized(files, m.files)))
       <==> AllHeld(m.files, Finalized(files, m.files)) && forall k | 0 <= k < |m.files| :: !Occupied(files, m.files[k])
  {
    var after := Finalized(files, m.files);
    hide *;
    DeepIffEqual(m, after, src);
    RepairedIffEqual(m, after, src);
    if AllHeld(m.files, after) {
      QuickWhenHeld(m, files);
    }
  }
}
