/**
 Scanning a title folder: what changed since the last publication, and which version it becomes.
 Walking the tree and reading files are inputs: the listing, the contents, and how reads split.
 */
module LibraryScan {
  import opened Hashing
  import opened Manifests
  import opened FileScan
  import opened Publication
  import opened ManifestStore
  import Paths
  import Transfer

  /** A file found in the title folder. */
  datatype Walked = Walked(rel: string, size: nat, mtime: int)

  datatype ScanOutcome = Published | Republished | InfoUpdated | Unchanged | Failed

  type Contents = string -> Data

  /** What the scan sees of the files. */
  function Seeing(contents: Contents, chunkSize: nat): Contents {
    (rel: string) => Seen(contents(rel), chunkSize)
  }

  ghost predicate DistinctRels(walked: seq<Walked>) {
    forall i, j | 0 <= i < j < |walked| :: walked[i].rel != walked[j].rel
  }

  // ----- change detection -----

  /** The listed file is the published one: same size, and the same time or the same content hash. */
  ghost predicate Unaltered(p: FileEntry, w: Walked, contents: Contents) {
    p.relPath == w.rel && p.size == w.size && (p.mtime == w.mtime || p.hash == Blake3(contents(w.rel)))
  }

  ghost predicate Kept(prev: seq<FileEntry>, w: Walked, contents: Contents) {
    exists p :: p in prev && Unaltered(p, w, contents)
  }

  /** Nothing was added, removed, renamed or altered. */
  ghost predicate UpToDate(prev: seq<FileEntry>, walked: seq<Walked>, contents: Contents) {
    && (forall w | w in walked :: Kept(prev, w, contents))
    && (forall p | p in prev :: exists w :: w in walked && w.rel == p.relPath)
  }

  /** The entry for a listed file: the published one if unaltered, otherwise a fresh scan of it. */
  ghost predicate ScannedEntry(prev: seq<FileEntry>, w: Walked, contents: Contents, chunkSize: nat, f: FileEntry) {
    if Kept(prev, w, contents) then f in prev && Unaltered(f, w, contents)
    else
      && f.relPath == w.rel && f.size == w.size && f.mtime == w.mtime && f.hash == Blake3(contents(w.rel))
      && Planned(f, chunkSize)
      && (|contents(w.rel)| == w.size ==> Describes(f, contents(w.rel)))
  }

  ghost predicate Scanned(prev: seq<FileEntry>, walked: seq<Walked>, contents: Contents, chunkSize: nat,
      files: seq<FileEntry>) {
    |files| == |walked| && forall k | 0 <= k < |walked| :: ScannedEntry(prev, walked[k], contents, chunkSize, files[k])
  }

  /** No published entry has this file's path, size and time, so its content has to be hashed. */
  ghost predicate HashNeeded(prev: seq<FileEntry>, w: Walked) {
    forall p | p in prev :: !(p.relPath == w.rel && p.size == w.size && p.mtime == w.mtime)
  }

  /** Each file that has to be hashed has the number of chunks its listed size says. */
  ghost predicate GoesThrough(prev: seq<FileEntry>, walked: seq<Walked>, contents: Contents, chunkSize: nat) {
    forall w | w in walked && HashNeeded(prev, w) :: CountsAgree(|contents(w.rel)|, w.size, chunkSize)
  }

  ghost predicate Indexes(prev: seq<FileEntry>, byPath: map<string, FileEntry>) {
    && (forall p | p in prev :: p.relPath in byPath && byPath[p.relPath] == p)
    && (forall path | path in byPath :: byPath[path] in prev && byPath[path].relPath == path)
  }

  method IndexByPath(prev: seq<FileEntry>) returns (byPath: map<string, FileEntry>)
    requires DistinctPaths(prev)
    ensures Indexes(prev, byPath)
  {
    byPath := map[];
    for k := 0 to |prev|
      invariant Indexes(prev[..k], byPath)
    {
      assert prev[..k + 1] == prev[..k] + [prev[k]];
      byPath := byPath[prev[k].relPath := prev[k]];
    }
    assert prev[..|prev|] == prev;
  }

  ghost function PathSet(files: seq<FileEntry>): set<string> {
    set f | f in files :: f.relPath
  }

  ghost function RelSet(walked: seq<Walked>): set<string> {
    set w | w in walked :: w.rel
  }

  lemma {:induction false} PathCount(files: seq<FileEntry>)
    requires DistinctPaths(files)
    ensures |PathSet(files)| == |files|
  {
    if files != [] {
      var n := |files| - 1;
      PathCount(files[..n]);
      assert files == files[..n] + [files[n]];
      assert PathSet(files) == PathSet(files[..n]) + {files[n].relPath};
      assert files[n].relPath !in PathSet(files[..n]);
    }
  }

  lemma {:induction false} RelCount(walked: seq<Walked>)
    requires DistinctRels(walked)
    ensures |RelSet(walked)| == |walked|
  {
    if walked != [] {
      var n := |walked| - 1;
      RelCount(walked[..n]);
      assert walked == walked[..n] + [walked[n]];
      assert RelSet(walked) == RelSet(walked[..n]) + {walked[n].rel};
      assert walked[n].rel !in RelSet(walked[..n]);
    }
  }

  lemma SubsetSameSize<T>(a: set<T>, b: set<T>)
    requires a <= b
    ensures |a| == |b| ==> a == b
  {
    assert b == a + (b - a);
  }

  /**
   If every listed path was published before, then equal counts are the same as equal path sets:
   no path can have disappeared without another one being new.
   */
  lemma EqualCountsEqualPaths(prev: seq<FileEntry>, walked: seq<Walked>)
    requires DistinctPaths(prev) && DistinctRels(walked)
    requires forall w | w in walked :: exists p :: p in prev && p.relPath == w.rel
    ensures |prev| == |walked| <==> forall p | p in prev :: exists w :: w in walked && w.rel == p.relPath
  {
    PathCount(prev);
    RelCount(walked);
    assert RelSet(walked) <= PathSet(prev);
    SubsetSameSize(RelSet(walked), PathSet(prev));
    if |prev| == |walked| {
      forall p | p in prev
        ensures exists w :: w in walked && w.rel == p.relPath
      {
        assert p.relPath in PathSet(prev);
      }
    }
    if forall p | p in prev :: exists w :: w in walked && w.rel == p.relPath {
      assert PathSet(prev) <= RelSet(walked);
      assert PathSet(prev) == RelSet(walked);
    }
  }

  /** Compares one listed file with the published one, hashing it only if size or time differ. */
  method CompareOne(prev: seq<FileEntry>, byPath: map<string, FileEntry>, w: Walked, ghost contents: Contents,
        content: Data, readSizes: nat -> nat, chunkSize: nat)
    returns (entry: Option<FileEntry>, changed: bool)
    requires Indexes(prev, byPath) && contents(w.rel) == Seen(content, chunkSize)
    ensures entry.None? <==> HashNeeded(prev, w) && !CountsAgree(|content|, w.size, chunkSize)
    ensures entry.Some? ==> ScannedEntry(prev, w, contents, chunkSize, entry.value)
    ensures entry.Some? ==> (changed <==> !Kept(prev, w, contents))
  {
    hide CountsAgree, FileConsistent, Planned, Describes;
    if w.rel in byPath && byPath[w.rel].size == w.size && byPath[w.rel].mtime == w.mtime {
      assert Unaltered(byPath[w.rel], w, contents);
      return Some(byPath[w.rel]), false;
    }
    var hashed := HashOneFile(content, w.rel, w.size, w.mtime, chunkSize, readSizes);
    if hashed.None? {
      return None, false;
    }
    if w.rel in byPath && byPath[w.rel].size == w.size && byPath[w.rel].hash == hashed.value.hash {
      assert Unaltered(byPath[w.rel], w, contents);
      return Some(byPath[w.rel]), false;
    }
    assert forall p | p in prev && p.relPath == w.rel :: p == byPath[w.rel];
    return hashed, true;
  }

  /**
   The whole comparison. The flag is false exactly if the title was published before and nothing was
   added, removed, renamed or altered; no entries are returned exactly if some file that has to be
   hashed does not have the listed size.
   */
  method Compare(previous: Option<seq<FileEntry>>, walked: seq<Walked>, contents: Contents, readSizes: nat -> nat,
        chunkSize: nat)
    returns (files: Option<seq<FileEntry>>, anyChange: bool)
    requires DistinctRels(walked)
    requires previous.Some? ==> DistinctPaths(previous.value)
    ensures files.Some? <==>
              GoesThrough(if previous.Some? then previous.value else [], walked, contents, chunkSize)
    ensures files.Some? ==>
              Scanned(if previous.Some? then previous.value else [], walked, Seeing(contents, chunkSize), chunkSize,
                      files.value)
    ensures files.Some? ==>
              (anyChange <==> previous.None? || !UpToDate(previous.value, walked, Seeing(contents, chunkSize)))
  {
    hide CountsAgree, ScannedEntry, Kept, Indexes, DistinctPaths, DistinctRels, HashNeeded;
    var prev := if previous.Some? then previous.value else [];
    ghost var seeing := Seeing(contents, chunkSize);
    NoPathsDistinct();
    var byPath := IndexByPath(prev);
    var found: seq<FileEntry> := [];
    anyChange := previous.None? || |prev| != |walked|;
    ghost var early := anyChange;
    for k := 0 to |walked|
      invariant Scanned(prev, walked[..k], seeing, chunkSize, found)
      invariant GoesThrough(prev, walked[..k], contents, chunkSize)
      invariant anyChange <==> early || exists i | 0 <= i < k :: !Kept(prev, walked[i], seeing)
    {
      var w := walked[k];
      var entry, changed := CompareOne(prev, byPath, w, seeing, contents(w.rel), readSizes, chunkSize);
      if entry.None? {
        assert w in walked;
        return None, anyChange;
      }
      found := found + [entry.value];
      anyChange := anyChange || changed;
    }
    assert walked[..|walked|] == walked;
    if previous.Some? {
      FlagIsRight(prev, walked, seeing);
    }
    return Some(found), anyChange;
  }

  lemma NoPathsDistinct()
    ensures DistinctPaths([])
  {
  }

  lemma FlagIsRight(prev: seq<FileEntry>, walked: seq<Walked>, contents: Contents)
    requires DistinctPaths(prev) && DistinctRels(walked)
    ensures UpToDate(prev, walked, contents)
       <==> |prev| == |walked| && forall i | 0 <= i < |walked| :: Kept(prev, walked[i], contents)
  {
    if forall i | 0 <= i < |walked| :: Kept(prev, walked[i], contents) {
      forall w | w in walked
        ensures exists p :: p in prev && p.relPath == w.rel
      {
        assert Kept(prev, w, contents);
      }
      EqualCountsEqualPaths(prev, walked);
    }
  }

  // ----- publishing -----

  ghost predicate NoneEmpty(chunks: seq<ChunkEntry>) {
    forall k | 0 <= k < |chunks| :: chunks[k].size > 0
  }

  /** Stored entries are consistent and numbered in order, and none of their chunks is empty. */
  ghost predicate Ready(db: Db) {
    && DbOk(db)
    && forall id | id in db.files :: EntryOk(db, id)
  }

  ghost predicate EntryOk(db: Db, id: nat)
    requires id in db.files
  {
    GoodEntry(StoredEntry(db, id).(chunks := Entries(db.chunks, id)))
  }

  ghost predicate GoodEntry(f: FileEntry) {
    Indexed(f.chunks) && FileConsistent(f) && NoneEmpty(f.chunks)
  }

  predicate WasLive(db: Db, id: nat) {
    id in db.titles && db.titles[id].manifestVer > 0 && db.titles[id].state == Live
  }

  lemma LoadedAreGood(db: Db, title: nat, loaded: seq<FileEntry>)
    requires Ready(db) && Loads(db, title, loaded)
    ensures DistinctPaths(loaded)
    ensures forall e | e in loaded :: GoodEntry(e) && e.chunks == Entries(db.chunks, e.id)
  {
    hide Entries, FileConsistent, Indexed;
    forall i, j | 0 <= i < j < |loaded|
      ensures loaded[i].relPath != loaded[j].relPath
    {
      assert Owns(db, title, loaded[i].id) && Owns(db, title, loaded[j].id);
    }
    forall e | e in loaded
      ensures GoodEntry(e) && e.chunks == Entries(db.chunks, e.id)
    {
      assert EntryOk(db, e.id);
      IndexedLoads(db, e.id);
    }
  }

  lemma IndexedLoads(db: Db, id: nat)
    requires id in db.files && Indexed(Entries(db.chunks, id))
    ensures StoredEntry(db, id).chunks == Entries(db.chunks, id)
  {
    hide Entries;
    SortedAlready(Entries(db.chunks, id), IdxBefore);
  }

  lemma ScannedAreGood(prev: seq<FileEntry>, walked: seq<Walked>, contents: Contents, chunkSize: nat,
        files: seq<FileEntry>)
    requires Scanned(prev, walked, contents, chunkSize, files) && DistinctRels(walked)
    requires forall p | p in prev :: GoodEntry(p)
    ensures DistinctPaths(files) && forall f | f in files :: GoodEntry(f)
  {
    hide FileConsistent, Describes, Planned;
    forall k | 0 <= k < |files|
      ensures GoodEntry(files[k])
    {
      assert ScannedEntry(prev, walked[k], contents, chunkSize, files[k]);
      if Planned(files[k], chunkSize) {
        PlannedIsTiled(files[k], chunkSize);
      }
    }
  }

  /** What was loaded and kept is what is stored, so nothing skipped is stale. */
  lemma RepublishNeverStale(db: Db, title: nat, prev: seq<FileEntry>, walked: seq<Walked>, contents: Contents,
        chunkSize: nat, files: seq<FileEntry>)
    requires Ready(db) && Loads(db, title, prev) && Scanned(prev, walked, contents, chunkSize, files)
    ensures NothingStale(db, title, files)
  {
    hide Entries, FileConsistent, Describes, Indexed, Planned;
    LoadedAreGood(db, title, prev);
    forall id, f | f in files && Skipped(db, title, id, f)
      ensures Entries(db.chunks, id) == f.chunks
    {
      var k :| 0 <= k < |files| && files[k] == f;
      assert ScannedEntry(prev, walked[k], contents, chunkSize, f);
      assert Owns(db, title, id);
      var j :| 0 <= j < |prev| && prev[j].id == id;
      assert prev[j] in prev;
      StoredIsUnaltered(db, title, prev, walked[k], contents, f, id, j);
      if Kept(prev, walked[k], contents) {
        assert f == prev[j] by {
          var i :| 0 <= i < |prev| && prev[i] == f;
          assert prev[i].relPath == prev[j].relPath;
        }
      }
    }
  }

  lemma StoredIsUnaltered(db: Db, title: nat, prev: seq<FileEntry>, w: Walked, contents: Contents, f: FileEntry,
        id: nat, j: nat)
    requires Loads(db, title, prev) && j < |prev| && prev[j].id == id && Skipped(db, title, id, f)
    ensures f.relPath == w.rel && f.size == w.size && f.hash == Blake3(contents(w.rel)) ==>
              Unaltered(prev[j], w, contents)
  {
    hide Entries;
  }

  lemma StaysReady(before: Db, db: Db, title: nat, files: seq<FileEntry>)
    requires Ready(before) && Replaced(before, db, title, files) && forall f | f in files :: GoodEntry(f)
    ensures Ready(db)
  {
    hide Entries, HasPath, FileConsistent, Indexed, DbOk;
    forall id | id in db.files
      ensures EntryOk(db, id)
    {
      if Owns(db, title, id) {
        var f :| f in files && Written(before, db, title, id, f);
        WrittenIsOk(before, db, title, id, f);
      } else {
        assert SameFile(before, db, id) && EntryOk(before, id);
      }
    }
  }

  lemma WrittenIsOk(before: Db, db: Db, title: nat, id: nat, f: FileEntry)
    requires Written(before, db, title, id, f) && GoodEntry(f)
    requires id in before.files ==> EntryOk(before, id)
    ensures EntryOk(db, id)
  {
    hide Entries, Indexed;
    if Skipped(before, title, id, f) {
      IndexedLoads(before, id);
    }
    IndexedLoads(db, id);
    ConsistentByChunks(if Skipped(before, title, id, f) then StoredEntry(before, id) else f, StoredEntry(db, id));
  }

  lemma ConsistentByChunks(f: FileEntry, g: FileEntry)
    requires FileConsistent(f) && g.size == f.size && g.chunks == f.chunks
    ensures FileConsistent(g)
  {
  }

  method SumSizes(files: seq<FileEntry>) returns (total: nat)
    ensures total == SumFiles(files)
  {
    total := 0;
    for k := 0 to |files|
      invariant total == SumFiles(files[..k])
    {
      assert files[..k + 1][..k] == files[..k];
      total := total + files[k].size;
    }
    assert files[..|files|] == files;
  }

  function WithInfo(db: Db, id: nat, infoHash: Option<Digest>): Db
    requires id in db.titles
  {
    db.(titles := db.titles[id := db.titles[id].(infoHash := infoHash)])
  }

  /** Version, totals, state and files of every title are as they were; one title has another sidecar digest. */
  ghost predicate OnlyDigestChanged(a: Db, b: Db, id: nat, infoHash: Option<Digest>) {
    && b.files == a.files && b.chunks == a.chunks && b.titles.Keys == a.titles.Keys && id in a.titles
    && (forall k | k in a.titles && k != id :: b.titles[k] == a.titles[k])
    && var t, u := a.titles[id], b.titles[id];
       && u.name == t.name && u.manifestVer == t.manifestVer && u.totalSize == t.totalSize
       && u.fileCount == t.fileCount && u.state == t.state && u.infoHash == infoHash
  }

  lemma OnlyInfo(db: Db, id: nat, infoHash: Option<Digest>)
    requires id in db.titles
    ensures var after := WithInfo(db, id, infoHash);
            && after.files == db.files && after.chunks == db.chunks
            && id in after.titles && after.titles[id].name == db.titles[id].name
            && OnlyDigestChanged(db, after, id, infoHash)
            && (UniqueNames(db) ==> UniqueNames(after))
  {
  }

  /** Records a changed sidecar without touching version or files. */
  method UpdateInfoOnly(lib: Library, id: nat, infoHash: Option<Digest>)
    modifies lib
    ensures lib.chunkSize == old(lib.chunkSize)
    ensures lib.db == if id in old(lib.db).titles then WithInfo(old(lib.db), id, infoHash) else old(lib.db)
  {
    if id in lib.db.titles {
      lib.db := lib.db.(titles := lib.db.titles[id := lib.db.titles[id].(infoHash := infoHash)]);
    }
  }

  /** The titles table has one row for each name. */
  ghost predicate UniqueNames(db: Db) {
    forall i, j | i in db.titles && j in db.titles && db.titles[i].name == db.titles[j].name :: i == j
  }

  lemma NamesStay(a: Db, b: Db)
    requires UniqueNames(a) && b.titles.Keys == a.titles.Keys
    requires forall k | k in a.titles :: b.titles[k].name == a.titles[k].name
    ensures UniqueNames(b)
  {
  }

  /**
   The scan of one title folder. `id` is the title's row and `files` the list that was published, if
   one was. While a title is live its version rises by exactly one when something changed and stays
   otherwise, together with everything stored; a title that is not live starts at version 1.
   */
  method ScanTitle(lib: Library, name: string, walked: seq<Walked>, contents: Contents, readSizes: nat -> nat,
        infoHash: Option<Digest>)
    returns (outcome: ScanOutcome, id: nat, ghost prev: seq<FileEntry>, ghost files: seq<FileEntry>)
    requires Ready(lib.db) && DistinctRels(walked)
    modifies lib
    ensures Ready(lib.db) && lib.chunkSize == old(lib.chunkSize)
    ensures id in lib.db.titles && lib.db.titles[id].name == name
    ensures if id in old(lib.db).titles then old(lib.db).titles[id].name == name
            else forall k | k in old(lib.db).titles :: old(lib.db).titles[k].name != name
    ensures WasLive(old(lib.db), id) ==> Loads(old(lib.db), id, prev)
    ensures outcome == Failed <==>
              !GoesThrough(if WasLive(old(lib.db), id) then prev else [], walked, contents, lib.chunkSize)
    ensures outcome == Published ==> !WasLive(old(lib.db), id)
    ensures outcome == Republished ==>
              WasLive(old(lib.db), id) && !UpToDate(prev, walked, Seeing(contents, lib.chunkSize))
    ensures outcome == Unchanged || outcome == InfoUpdated ==>
              WasLive(old(lib.db), id) && UpToDate(prev, walked, Seeing(contents, lib.chunkSize))
    ensures outcome == Unchanged ==> lib.db == old(lib.db) && lib.db.titles[id].infoHash == infoHash
    ensures outcome == InfoUpdated ==>
              && old(lib.db).titles[id].infoHash != infoHash
              && lib.db == WithInfo(old(lib.db), id, infoHash)
              && OnlyDigestChanged(old(lib.db), lib.db, id, infoHash)
    ensures outcome == Failed ==> lib.db.files == old(lib.db).files && lib.db.chunks == old(lib.db).chunks
    ensures outcome == Failed ==>
              lib.db.titles == if id in old(lib.db).titles then old(lib.db).titles
                               else old(lib.db).titles[id := Title(name, 0, 0, 0, Scanning, None)]
    ensures outcome == Published || outcome == Republished ==>
              && Replaced(old(lib.db), lib.db, id, files) && ListOrder(old(lib.db), lib.db, files)
              && Scanned(if WasLive(old(lib.db), id) then prev else [], walked, Seeing(contents, lib.chunkSize),
                         lib.chunkSize, files)
              && lib.db.titles == old(lib.db).titles[id := Title(name, if WasLive(old(lib.db), id)
                  then old(lib.db).titles[id].manifestVer + 1 else 1,
                                                     SumFiles(files), |files|, Live, infoHash)]
    ensures outcome == Republished ==> NothingStale(old(lib.db), id, files)
    ensures UniqueNames(old(lib.db)) ==> UniqueNames(lib.db)
    ensures outcome != Failed ==> Settled(lib.db, id, name, walked, contents, lib.chunkSize, infoHash)
  {
    hide *;
    ghost var before := lib.db;
    id := lib.EnsureTitle(name);
    EnsuredTitle(before, lib.db, id, name);
    var previous: Option<seq<FileEntry>> := None;
    var version := 1;
    prev, files := [], [];
    NoneGood();
    if lib.db.titles[id].manifestVer > 0 && lib.db.titles[id].state == Live {
      var m := lib.LoadManifest(id);
      previous := Some(m.value.files);
      prev := m.value.files;
      version := m.value.manifestVer + 1;
      LoadedAreGood(lib.db, id, prev);
    }
    var scanned, anyChange := Compare(previous, walked, contents, readSizes, lib.chunkSize);
    if scanned.None? {
      return Failed, id, prev, files;
    }
    files := scanned.value;
    if !anyChange {
      if lib.db.titles[id].infoHash == infoHash {
        NothingChanged(lib.db, id);
        SettledAsItWas(lib.db, lib.db, id, name, prev, walked, contents, lib.chunkSize, infoHash);
        return Unchanged, id, prev, files;
      }
      ghost var ready := lib.db;
      OnlyInfo(ready, id, infoHash);
      UpdateInfoOnly(lib, id, infoHash);
      TitlesKeepReady(ready, lib.db);
      SettledAsItWas(ready, lib.db, id, name, prev, walked, contents, lib.chunkSize, infoHash);
      return InfoUpdated, id, prev, files;
    }
    ScannedAreGood(prev, walked, Seeing(contents, lib.chunkSize), lib.chunkSize, files);
    var total := SumSizes(scanned.value);
    ghost var ensured := lib.db;
    TitlesKeepReady(ensured, ensured);
    lib.ReplaceManifest(id, scanned.value, total, |scanned.value|, version, infoHash);
    StaysReady(ensured, lib.db, id, files);
    if UniqueNames(ensured) {
      NamesStay(ensured, lib.db);
    }
    var m := lib.LoadManifest(id);
    LoadedIsConsistent(ensured, lib.db, id, files, m.value);
    var problem := ValidateStructure(m.value);
    if problem.Some? {
      assert false;
      return Failed, id, prev, files;
    }
    SettledByPublishing(ensured, lib.db, id, name, prev, walked, contents, lib.chunkSize, files, infoHash);
    SameBefore(before, ensured, lib.db, id, files);
    if previous.Some? {
      RepublishNeverStale(before, id, prev, walked, Seeing(contents, lib.chunkSize), lib.chunkSize, files);
      return Republished, id, prev, files;
    }
    return Published, id, prev, files;
  }

  lemma TitlesKeepReady(before: Db, db: Db)
    requires Ready(before) && db.files == before.files && db.chunks == before.chunks
    ensures Ready(db) && DbOk(db)
  {
  }

  lemma NoneGood()
    ensures DistinctPaths([]) && forall p: FileEntry | p in [] :: GoodEntry(p)
  {
  }

  lemma EnsuredTitle(before: Db, db: Db, id: nat, name: string)
    requires Ready(before) && db.files == before.files && db.chunks == before.chunks
    requires id in before.titles ==> db == before
    requires id !in before.titles ==> db.titles == before.titles[id := Title(name, 0, 0, 0, Scanning, None)]
    ensures Ready(db) && (WasLive(before, id) <==>
              id in db.titles && db.titles[id].manifestVer > 0 && db.titles[id].state == Live)
    ensures WasLive(before, id) ==> db == before
    ensures id in before.titles && UniqueNames(before) ==> UniqueNames(db)
    ensures (forall k | k in before.titles :: before.titles[k].name != name) && UniqueNames(before) ==> UniqueNames(db)
  {
    TitlesKeepReady(before, db);
  }

  lemma SameBefore(before: Db, ensured: Db, db: Db, title: nat, files: seq<FileEntry>)
    requires Replaced(ensured, db, title, files) && ListOrder(ensured, db, files)
    requires ensured.files == before.files && ensured.chunks == before.chunks
    ensures Replaced(before, db, title, files) && ListOrder(before, db, files)
  {
    hide Entries, HasPath, DbOk, Written, SameFile;
    assert ListOrder(before, db, files) by {
      assert forall a: nat, f :: Inserted(before, db, a, f) <==> Inserted(ensured, db, a, f);
      hide Inserted;
    }
    forall id
      ensures Owns(ensured, title, id) <==> Owns(before, title, id)
      ensures SameFile(ensured, db, id) <==> SameFile(before, db, id)
    {
      SameStart(before, ensured, db, title, id);
    }
    forall id, f
      ensures Written(ensured, db, title, id, f) <==> Written(before, db, title, id, f)
    {
      SameStartWritten(before, ensured, db, title, id, f);
    }
  }

  lemma SameStart(before: Db, ensured: Db, db: Db, title: nat, id: nat)
    requires ensured.files == before.files && ensured.chunks == before.chunks
    ensures Owns(ensured, title, id) <==> Owns(before, title, id)
    ensures SameFile(ensured, db, id) <==> SameFile(before, db, id)
  {
  }

  lemma SameStartWritten(before: Db, ensured: Db, db: Db, title: nat, id: nat, f: FileEntry)
    requires ensured.files == before.files && ensured.chunks == before.chunks
    ensures Written(ensured, db, title, id, f) <==> Written(before, db, title, id, f)
  {
  }

  /** The manifest that is loaded back after publishing passes validation. */
  lemma LoadedIsConsistent(before: Db, db: Db, title: nat, files: seq<FileEntry>, m: Manifest)
    requires Ready(before) && Ready(db) && Replaced(before, db, title, files) && DistinctPaths(files)
    requires Loads(db, title, m.files) && m.totalSize == SumFiles(files) && m.fileCount == |files|
    ensures Consistent(m)
  {
    hide DbOk, Replaced, Loads, DistinctPaths, EntryOk, FileConsistent;
    LoadedTotals(before, db, title, files, m.files);
    LoadedAreGood(db, title, m.files);
  }

  // ----- scanning again -----

  /** What a scan that went through leaves behind: a live title that a scan of the same folder finds up to date. */
  ghost predicate Settled(db: Db, id: nat, name: string, walked: seq<Walked>, contents: Contents, chunkSize: nat,
      infoHash: Option<Digest>) {
    && id in db.titles && db.titles[id].name == name && db.titles[id].infoHash == infoHash && WasLive(db, id)
    && forall loaded | Loads(db, id, loaded) ::
         UpToDate(loaded, walked, Seeing(contents, chunkSize)) && GoesThrough(loaded, walked, contents, chunkSize)
  }

  lemma ScannedIsUpToDate(before: Db, db: Db, title: nat, prev: seq<FileEntry>, walked: seq<Walked>,
        contents: Contents, chunkSize: nat, files: seq<FileEntry>, loaded: seq<FileEntry>)
    requires Ready(before) && Replaced(before, db, title, files) && Loads(db, title, loaded)
    requires Scanned(prev, walked, Seeing(contents, chunkSize), chunkSize, files) && DistinctRels(walked)
    requires GoesThrough(prev, walked, contents, chunkSize)
    requires DistinctPaths(prev) && forall p | p in prev :: GoodEntry(p)
    ensures UpToDate(loaded, walked, Seeing(contents, chunkSize)) && GoesThrough(loaded, walked, contents, chunkSize)
  {
    ScannedAreGood(prev, walked, Seeing(contents, chunkSize), chunkSize, files);
    AllReady(before, title, files);
    LoadAfterReplace(before, db, title, files, loaded);
    LoadedPaths(before, db, title, files, loaded);
    ScannedPaths(prev, walked, Seeing(contents, chunkSize), chunkSize, files);
    hide *;
    SameFilesUpToDate(prev, walked, Seeing(contents, chunkSize), chunkSize, files, loaded);
    GoesThroughAgain(prev, walked, contents, chunkSize, files, loaded);
  }

  /** Stored like this, the scanned files are what the same scan would find unaltered. */
  lemma SameFilesUpToDate(prev: seq<FileEntry>, walked: seq<Walked>, contents: Contents, chunkSize: nat,
        files: seq<FileEntry>, loaded: seq<FileEntry>)
    requires Scanned(prev, walked, contents, chunkSize, files)
    requires forall f | f in files :: exists e :: e in loaded && Anonymous(e).(chunks := f.chunks) == Anonymous(f)
    requires forall path :: HasPath(loaded, path) <==> HasPath(files, path)
    requires forall path :: HasPath(files, path) <==> Walks(walked, path)
    ensures UpToDate(loaded, walked, contents)
  {
    forall k | 0 <= k < |walked|
      ensures Kept(loaded, walked[k], contents)
    {
      assert files[k] in files;
      var e :| e in loaded && Anonymous(e).(chunks := files[k].chunks) == Anonymous(files[k]);
      assert ScannedEntry(prev, walked[k], contents, chunkSize, files[k]);
      StaysUnaltered(prev, walked[k], contents, chunkSize, files[k], e);
    }
    hide Scanned, Kept;
    forall p | p in loaded
      ensures exists w :: w in walked && w.rel == p.relPath
    {
      assert HasPath(loaded, p.relPath) && Walks(walked, p.relPath);
    }
  }

  lemma StaysUnaltered(prev: seq<FileEntry>, w: Walked, contents: Contents, chunkSize: nat, f: FileEntry, e: FileEntry)
    requires ScannedEntry(prev, w, contents, chunkSize, f)
    requires Anonymous(e).(chunks := f.chunks) == Anonymous(f)
    ensures Unaltered(e, w, contents)
  {
    hide Planned, Describes, FileConsistent, Kept;
  }

  /** A file that the next scan would have to hash is one that this scan had to hash. */
  lemma HashedBefore(prev: seq<FileEntry>, w: Walked, contents: Contents, chunkSize: nat, f: FileEntry, e: FileEntry,
        loaded: seq<FileEntry>)
    requires ScannedEntry(prev, w, contents, chunkSize, f) && DistinctPaths(prev)
    requires Anonymous(e).(chunks := f.chunks) == Anonymous(f) && e in loaded && HashNeeded(loaded, w)
    ensures HashNeeded(prev, w)
  {
    hide Planned, Describes, FileConsistent;
    StaysUnaltered(prev, w, contents, chunkSize, f, e);
    assert e.mtime != w.mtime;
    var i :| 0 <= i < |prev| && prev[i] == f;
    forall p | p in prev && p.relPath == w.rel
      ensures p == f
    {
      var j :| 0 <= j < |prev| && prev[j] == p;
    }
  }

  lemma GoesThroughAgain(prev: seq<FileEntry>, walked: seq<Walked>, contents: Contents, chunkSize: nat,
        files: seq<FileEntry>, loaded: seq<FileEntry>)
    requires Scanned(prev, walked, Seeing(contents, chunkSize), chunkSize, files) && DistinctPaths(prev)
    requires forall f | f in files :: exists e :: e in loaded && Anonymous(e).(chunks := f.chunks) == Anonymous(f)
    requires GoesThrough(prev, walked, contents, chunkSize)
    ensures GoesThrough(loaded, walked, contents, chunkSize)
  {
    hide ScannedEntry, HashNeeded, CountsAgree, DistinctPaths, Seeing;
    forall k | 0 <= k < |walked| && HashNeeded(loaded, walked[k])
      ensures CountsAgree(|contents(walked[k].rel)|, walked[k].size, chunkSize)
    {
      assert files[k] in files && walked[k] in walked;
      var e :| e in loaded && Anonymous(e).(chunks := files[k].chunks) == Anonymous(files[k]);
      HashedBefore(prev, walked[k], Seeing(contents, chunkSize), chunkSize, files[k], e, loaded);
    }
  }

  lemma SettledByPublishing(before: Db, db: Db, id: nat, name: string, prev: seq<FileEntry>, walked: seq<Walked>,
        contents: Contents, chunkSize: nat, files: seq<FileEntry>, infoHash: Option<Digest>)
    requires Ready(before) && Replaced(before, db, id, files) && DistinctRels(walked)
    requires Scanned(prev, walked, Seeing(contents, chunkSize), chunkSize, files)
    requires GoesThrough(prev, walked, contents, chunkSize)
    requires DistinctPaths(prev) && forall p | p in prev :: GoodEntry(p)
    requires id in db.titles && db.titles[id].name == name && db.titles[id].infoHash == infoHash
    requires db.titles[id].manifestVer > 0 && db.titles[id].state == Live
    ensures Settled(db, id, name, walked, contents, chunkSize, infoHash)
  {
    hide Ready, Replaced, Loads, DistinctRels, Scanned, GoodEntry, UpToDate, Seeing, GoesThrough, DistinctPaths;
    forall loaded | Loads(db, id, loaded)
      ensures UpToDate(loaded, walked, Seeing(contents, chunkSize)) && GoesThrough(loaded, walked, contents, chunkSize)
    {
      ScannedIsUpToDate(before, db, id, prev, walked, contents, chunkSize, files, loaded);
    }
  }

  lemma SettledAsItWas(before: Db, db: Db, id: nat, name: string, prev: seq<FileEntry>, walked: seq<Walked>,
        contents: Contents, chunkSize: nat, infoHash: Option<Digest>)
    requires WasLive(before, id) && Loads(before, id, prev) && UpToDate(prev, walked, Seeing(contents, chunkSize))
    requires GoesThrough(prev, walked, contents, chunkSize)
    requires before.titles[id].name == name && OnlyDigestChanged(before, db, id, infoHash)
    ensures Settled(db, id, name, walked, contents, chunkSize, infoHash)
  {
    hide Loads, UpToDate, Seeing, GoesThrough;
    forall loaded | Loads(db, id, loaded)
      ensures UpToDate(loaded, walked, Seeing(contents, chunkSize)) && GoesThrough(loaded, walked, contents, chunkSize)
    {
      LoadUnique(before, db, id, prev, loaded);
    }
  }

  lemma NothingChanged(db: Db, id: nat)
    requires id in db.titles
    ensures OnlyDigestChanged(db, db, id, db.titles[id].infoHash)
  {
  }

  lemma AllReady(db: Db, title: nat, files: seq<FileEntry>)
    requires Ready(db) && forall f | f in files :: GoodEntry(f)
    ensures DbOk(db) && AllIndexed(db, title) && ListIndexed(files)
  {
    hide Entries, FileConsistent, Indexed, NoneEmpty;
    forall id | Owns(db, title, id)
      ensures Indexed(Entries(db.chunks, id))
    {
      assert EntryOk(db, id);
    }
  }

  lemma OnlyTitle(db: Db, title: nat, id: nat, name: string)
    requires UniqueNames(db) && title in db.titles && db.titles[title].name == name
    requires if id in db.titles then db.titles[id].name == name
             else forall k | k in db.titles :: db.titles[k].name != name
    ensures id == title
  {
  }

  /** Scanning the same folder again, after a scan that went through, finds nothing to do. */
  lemma NothingToDo(db: Db, id: nat, name: string, walked: seq<Walked>, contents: Contents, chunkSize: nat,
        infoHash: Option<Digest>, prev: seq<FileEntry>)
    requires Settled(db, id, name, walked, contents, chunkSize, infoHash) && (WasLive(db, id) ==> Loads(db, id, prev))
    ensures WasLive(db, id) && UpToDate(prev, walked, Seeing(contents, chunkSize))
    ensures GoesThrough(prev, walked, contents, chunkSize) && id in db.titles && db.titles[id].infoHash == infoHash
  {
    hide Loads, UpToDate, Seeing, GoesThrough;
  }

  lemma SameManifest(a: Db, b: Db, id: nat, m: Manifest, n: Manifest)
    requires id in a.titles && id in b.titles && b.files == a.files && b.chunks == a.chunks
    requires b.titles[id].manifestVer == a.titles[id].manifestVer
    requires b.titles[id].totalSize == a.titles[id].totalSize && b.titles[id].fileCount == a.titles[id].fileCount
    requires m.titleId == id == n.titleId && m.chunkSize == n.chunkSize
    requires m.manifestVer == a.titles[id].manifestVer && n.manifestVer == b.titles[id].manifestVer
    requires m.totalSize == a.titles[id].totalSize && n.totalSize == b.titles[id].totalSize
    requires m.fileCount == a.titles[id].fileCount && n.fileCount == b.titles[id].fileCount
    requires Loads(a, id, m.files) && Loads(b, id, n.files)
    ensures m == n
  {
    hide Loads;
    LoadUnique(a, b, id, m.files, n.files);
  }

  lemma DigestOnly(a: Db, b: Db, id: nat, infoHash: Option<Digest>)
    requires OnlyDigestChanged(a, b, id, infoHash)
    ensures id in b.titles && b.files == a.files && b.chunks == a.chunks
    ensures b.titles[id].manifestVer == a.titles[id].manifestVer
    ensures b.titles[id].totalSize == a.titles[id].totalSize && b.titles[id].fileCount == a.titles[id].fileCount
  {
  }

  /**
   Scanning is idempotent: if a scan goes through, an immediate second scan of the same folder is
   Unchanged and stores nothing.
   */
  method ScanTwice(lib: Library, name: string, walked: seq<Walked>, contents: Contents, readSizes: nat -> nat,
        again: nat -> nat, infoHash: Option<Digest>)
    returns (first: ScanOutcome, second: ScanOutcome, ghost between: Db)
    requires Ready(lib.db) && UniqueNames(lib.db) && DistinctRels(walked)
    modifies lib
    ensures first != Failed ==> second == Unchanged && lib.db == between
  {
    hide *;
    var outcome, id, _, _ := ScanTitle(lib, name, walked, contents, readSizes, infoHash);
    first := outcome;
    between := lib.db;
    var outcome2, id2, prev, _ := ScanTitle(lib, name, walked, contents, again, infoHash);
    second := outcome2;
    OnlyTitle(between, id, id2, name);
    if outcome != Failed {
      NothingToDo(between, id, name, walked, contents, lib.chunkSize, infoHash, prev);
    }
  }

  /** A scan that finds no file changed leaves the manifest that is served as it was, whatever the sidecar. */
  method ScanKeepsManifest(lib: Library, title: nat, walked: seq<Walked>, contents: Contents, readSizes: nat -> nat,
        infoHash: Option<Digest>)
    returns (outcome: ScanOutcome, before: Option<Manifest>, after: Option<Manifest>)
    requires Ready(lib.db) && UniqueNames(lib.db) && DistinctRels(walked) && title in lib.db.titles
    modifies lib
    ensures outcome == InfoUpdated || outcome == Unchanged ==> after == before
  {
    hide *;
    ghost var start := lib.db;
    before := lib.LoadManifest(title);
    var name := lib.db.titles[title].name;
    var result, id, _, _ := ScanTitle(lib, name, walked, contents, readSizes, infoHash);
    outcome := result;
    OnlyTitle(start, title, id, name);
    after := lib.LoadManifest(title);
    if outcome == InfoUpdated {
      DigestOnly(start, lib.db, id, infoHash);
    }
    if outcome == InfoUpdated || outcome == Unchanged {
      SameManifest(start, lib.db, id, before.value, after.value);
    }
  }

  // ----- what a published manifest is good for -----

  /** The listed paths join safely, and different ones to different locations. */
  ghost predicate JoinApart(walked: seq<Walked>) {
    && (forall w | w in walked :: Paths.SafeJoin(w.rel).Some?)
    && (forall v, w | v in walked && w in walked && v.rel != w.rel :: Paths.SafeJoin(v.rel) != Paths.SafeJoin(w.rel))
  }

  /**
   Scanning does not look at names, so a published manifest can be downloaded exactly if the names
   in the folder join safely and apart.
   */
  lemma PublishedIsUsable(before: Db, db: Db, title: nat, prev: seq<FileEntry>, walked: seq<Walked>,
        contents: Contents, chunkSize: nat, files: seq<FileEntry>, loaded: seq<FileEntry>)
    requires Ready(db) && Replaced(before, db, title, files) && Loads(db, title, loaded)
    requires Scanned(prev, walked, contents, chunkSize, files)
    ensures Transfer.Usable(loaded) <==> JoinApart(walked)
  {
    LoadedAreGood(db, title, loaded);
    LoadedPaths(before, db, title, files, loaded);
    ScannedPaths(prev, walked, contents, chunkSize, files);
    hide *;
    GoodIsUsable(loaded);
    if PathsJoinApart(loaded) {
      JoinedByPaths(loaded, walked);
    }
    if JoinApart(walked) {
      WalkedByPaths(loaded, walked);
    }
  }

  ghost predicate PathsJoinApart(files: seq<FileEntry>) {
    && (forall k | 0 <= k < |files| :: Paths.SafeJoin(files[k].relPath).Some?)
    && (forall i, k | 0 <= i < k < |files| :: Paths.SafeJoin(files[i].relPath) != Paths.SafeJoin(files[k].relPath))
  }

  lemma GoodIsUsable(files: seq<FileEntry>)
    requires forall e | e in files :: GoodEntry(e)
    ensures Transfer.Usable(files) <==> PathsJoinApart(files)
  {
    hide Paths.SafeJoin, FileConsistent, Indexed;
    assert forall k | 0 <= k < |files| :: files[k] in files && GoodEntry(files[k]);
  }

  ghost predicate Walks(walked: seq<Walked>, path: string) {
    exists w :: w in walked && w.rel == path
  }

  lemma ScannedPaths(prev: seq<FileEntry>, walked: seq<Walked>, contents: Contents, chunkSize: nat,
        files: seq<FileEntry>)
    requires Scanned(prev, walked, contents, chunkSize, files)
    ensures forall path :: HasPath(files, path) <==> Walks(walked, path)
  {
    hide Planned, Describes, Blake3;
    forall k | 0 <= k < |files|
      ensures files[k].relPath == walked[k].rel && files[k] in files && walked[k] in walked
    {
      assert ScannedEntry(prev, walked[k], contents, chunkSize, files[k]);
    }
  }

  lemma LoadedPaths(before: Db, db: Db, title: nat, files: seq<FileEntry>, loaded: seq<FileEntry>)
    requires Replaced(before, db, title, files) && Loads(db, title, loaded)
    ensures forall path :: HasPath(loaded, path) <==> HasPath(files, path)
  {
    hide Entries, DbOk, StoredEntry;
    forall k | 0 <= k < |loaded|
      ensures HasPath(files, loaded[k].relPath)
    {
      assert Owns(db, title, loaded[k].id);
      var f :| f in files && Written(before, db, title, loaded[k].id, f);
      LoadedRow(db, title, loaded, k);
    }
    forall f | f in files
      ensures HasPath(loaded, f.relPath)
    {
      var k := LoadedAs(before, db, title, files, loaded, f);
      LoadedRow(db, title, loaded, k);
      assert loaded[k] in loaded;
    }
  }

  lemma LoadedRow(db: Db, title: nat, loaded: seq<FileEntry>, k: nat)
    requires Loads(db, title, loaded) && k < |loaded|
    ensures loaded[k].id in db.files && db.files[loaded[k].id].relPath == loaded[k].relPath
  {
    hide Entries;
  }

  lemma JoinedByPaths(loaded: seq<FileEntry>, walked: seq<Walked>)
    requires PathsJoinApart(loaded) && forall path :: HasPath(loaded, path) <==> Walks(walked, path)
    ensures JoinApart(walked)
  {
    hide Paths.SafeJoin;
    forall w | w in walked
      ensures exists k :: 0 <= k < |loaded| && loaded[k].relPath == w.rel
    {
      assert Walks(walked, w.rel) && HasPath(loaded, w.rel);
    }
  }

  lemma WalkedByPaths(loaded: seq<FileEntry>, walked: seq<Walked>)
    requires JoinApart(walked) && forall path :: HasPath(loaded, path) <==> Walks(walked, path)
    requires DistinctPaths(loaded)
    ensures PathsJoinApart(loaded)
  {
    hide Paths.SafeJoin;
    forall k | 0 <= k < |loaded|
      ensures Walks(walked, loaded[k].relPath)
    {
      assert loaded[k] in loaded && HasPath(loaded, loaded[k].relPath);
    }
  }

  // ----- stale chunks -----

  /** A title with one file that was scanned and then removed. */
  method RemovedTitle(content: Data, w: Walked, chunkSize: nat, readSizes: nat -> nat)
    returns (lib: Library, id: nat, ghost f: FileEntry, ghost row: nat)
    requires chunkSize > 0 && w.size == |content|
    ensures fresh(lib) && Ready(lib.db)
    ensures id in lib.db.titles && lib.db.titles[id].state == Removed
    ensures forall k | k in lib.db.titles :: k == id && lib.db.titles[k].name == "t"
    ensures f.relPath == w.rel && f.size == w.size && f.mtime == w.mtime && f.hash == Blake3(content)
    ensures |f.chunks| == DivCeil(w.size, chunkSize)
    ensures row in lib.db.files && lib.db.files[row] == RowOf(id, f) && Entries(lib.db.chunks, row) == f.chunks
  {
    hide *;
    var contents: Contents := _ => content;
    OneListed(w);
    lib := new Library(chunkSize);
    EmptyIsReady(lib.db);
    ghost var empty := lib.db;
    var _, title, _, files := ScanTitle(lib, "t", [w], contents, readSizes, None);
    id := title;
    NotLive(empty, id);
    NeverFails(w, contents, content, chunkSize);
    f := FreshScan(w, contents, content, chunkSize, files);
    row := FirstStored(empty, lib.db, id, f);
    ghost var stored := lib.db;
    lib.SetTitleState(id, Removed);
    TitlesKeepReady(stored, lib.db);
  }

  /**
   A title that was removed keeps its rows. If its folder comes back with the same file after the
   configured chunk size has changed, the row is skipped, and what is loaded is not what was
   scanned: for any content whose number of chunks differs between the two sizes.
   */
  method StaleRescan(content: Data, mtime: int, before: nat, after: nat, readSizes: nat -> nat)
    returns (outcome: ScanOutcome, loaded: seq<FileEntry>, ghost scanned: seq<FileEntry>)
    requires before > 0 && after > 0 && DivCeil(|content|, before) != DivCeil(|content|, after)
    ensures outcome == Published && Anonymized(loaded) != Anonymized(scanned)
  {
    hide *;
    var w := Walked("a", |content|, mtime);
    var contents: Contents := _ => content;
    var lib, id, f, row := RemovedTitle(content, w, before, readSizes);
    lib.chunkSize := after;
    ghost var removed := lib.db;
    OneListed(w);
    NotLive(removed, id);
    NeverFails(w, contents, content, after);
    var second, again, _, files := ScanTitle(lib, "t", [w], contents, readSizes, None);
    outcome, scanned := second, files;
    var g := FreshScan(w, contents, content, after, files);
    var m := lib.LoadManifest(id);
    loaded := m.value.files;
    StaleLoad(removed, lib.db, id, f, g, row, loaded);
  }

  lemma OneListed(w: Walked)
    ensures DistinctRels([w]) && forall v | v in [w] :: v == w
  {
  }

  lemma EmptyIsReady(db: Db)
    requires db == Db(map[], map[], [])
    ensures Ready(db)
  {
  }

  lemma NotLive(db: Db, id: nat)
    ensures id !in db.titles || db.titles[id].state == Removed ==> !WasLive(db, id)
  {
  }

  /** A file that did not change while it was scanned cannot make the scan fail. */
  lemma NeverFails(w: Walked, contents: Contents, content: Data, chunkSize: nat)
    requires chunkSize > 0 && contents(w.rel) == content && w.size == |content|
    ensures GoesThrough([], [w], contents, chunkSize)
  {
  }

  lemma FreshScan(w: Walked, contents: Contents, content: Data, chunkSize: nat, files: seq<FileEntry>)
    returns (f: FileEntry)
    requires Scanned([], [w], Seeing(contents, chunkSize), chunkSize, files)
    requires chunkSize > 0 && contents(w.rel) == content
    ensures files == [f] && f.relPath == w.rel && f.size == w.size && f.mtime == w.mtime && f.hash == Blake3(content)
    ensures |f.chunks| == DivCeil(w.size, chunkSize) && GoodEntry(f)
  {
    hide FileConsistent, Describes, Planned;
    f := files[0];
    assert ScannedEntry([], w, Seeing(contents, chunkSize), chunkSize, f);
    PlannedIsTiled(f, chunkSize);
  }

  lemma FirstStored(empty: Db, db: Db, title: nat, f: FileEntry) returns (id: nat)
    requires empty.files == map[] && Replaced(empty, db, title, [f])
    ensures id in db.files && db.files[id] == RowOf(title, f) && Entries(db.chunks, id) == f.chunks
  {
    hide Entries, DbOk;
    assert f in [f];
    id :| Written(empty, db, title, id, f);
  }

  lemma StaleLoad(before: Db, db: Db, title: nat, f: FileEntry, g: FileEntry, id: nat, loaded: seq<FileEntry>)
    requires Ready(before) && Replaced(before, db, title, [g]) && Loads(db, title, loaded) && GoodEntry(g)
    requires id in before.files && before.files[id] == RowOf(title, f) && Entries(before.chunks, id) == f.chunks
    requires f.relPath == g.relPath && f.size == g.size && f.mtime == g.mtime && f.hash == g.hash
    requires |f.chunks| != |g.chunks|
    ensures Anonymized(loaded) != Anonymized([g])
  {
    hide Entries, DbOk, FileConsistent, Indexed, Replaced, Loads, StoredEntry, Anonymized;
    forall k | Owns(before, title, k)
      ensures Indexed(Entries(before.chunks, k))
    {
      assert EntryOk(before, k);
    }
    LoadAfterReplace(before, db, title, [g], loaded);
    assert Skipped(before, title, id, g) && g in [g];
  }
}
