/** The library's tables: replacing a title's manifest and loading it back. */
module ManifestStore {
  import opened Hashing
  import opened Manifests
  import opened Ordering
  import opened Publication

  /** What `ReplaceManifest` remembers of a row it found. */
  datatype Existing = Existing(id: nat, row: FileRow)

  predicate IdxBefore(a: ChunkEntry, b: ChunkEntry) {
    a.idx < b.idx
  }

  predicate IdBefore(a: nat, b: nat) {
    a < b
  }

  /** Chunk indices increase, as the scan numbers them. */
  ghost predicate Indexed(chunks: seq<ChunkEntry>) {
    Increasing(chunks, IdxBefore)
  }

  /** The entry that loading a file row gives: its chunks ordered by index. */
  function StoredEntry(db: Db, id: nat): FileEntry
    requires id in db.files
  {
    var row := db.files[id];
    FileEntry(id, row.relPath, row.size, row.mtime, row.hash, SortBy(Entries(db.chunks, id), IdxBefore))
  }

  /** Sorting what is already in order changes nothing. */
  lemma {:induction false} SortedAlready<T(!new)>(q: seq<T>, lt: (T, T) -> bool)
    requires Increasing(q, lt)
    ensures SortBy(q, lt) == q
  {
    if q != [] {
      SortedAlready(q[1..], lt);
    }
  }

  /** Whatever the order of the chunk table, chunks with different indices are loaded in index order. */
  lemma LoadedByIndex(db: Db, id: nat)
    requires id in db.files
    requires forall i, j :: 0 <= i < j < |Entries(db.chunks, id)| ==>
               Entries(db.chunks, id)[i].idx != Entries(db.chunks, id)[j].idx
    ensures Indexed(StoredEntry(db, id).chunks)
    ensures Elements(StoredEntry(db, id).chunks) == Elements(Entries(db.chunks, id))
  {
    hide Entries, SortBy;
    SortByLists(Entries(db.chunks, id), IdxBefore);
  }

  lemma {:induction false} NoneToRemove(chunks: seq<ChunkRow>, id: nat)
    requires forall c | c in chunks :: c.fileId != id
    ensures WithoutFiles(chunks, {id}) == chunks
  {
    if chunks != [] {
      assert chunks[0] in chunks;
      NoneToRemove(chunks[1..], id);
    }
  }

  lemma DistinctDetermine(files: seq<FileEntry>, k: nat)
    requires DistinctPaths(files) && k <= |files|
    ensures PathsDetermine(files[..k])
    ensures k < |files| ==> !HasPath(files[..k], files[k].relPath)
  {
  }

  class Library {
    var db: Db
    /** The configured chunk size. */
    var chunkSize: nat

    constructor (chunkSize: nat)
      ensures db == Db(map[], map[], []) && DbOk(db) && this.chunkSize == chunkSize
    {
      db := Db(map[], map[], []);
      this.chunkSize := chunkSize;
    }

    /** The title with this name, inserted if there is none. */
    method EnsureTitle(name: string) returns (id: nat)
      modifies this
      ensures chunkSize == old(chunkSize) && db.files == old(db).files && db.chunks == old(db).chunks
      ensures id in db.titles && db.titles[id].name == name
      ensures id in old(db).titles ==> db == old(db)
      ensures id !in old(db).titles ==>
                && (forall k | k in old(db).titles :: old(db).titles[k].name != name)
                && db.titles == old(db).titles[id := Title(name, 0, 0, 0, Scanning, None)]
    {
      var named := set k | k in db.titles && db.titles[k].name == name;
      if named != {} {
        id :| id in named;
      } else {
        id := NextId(db.titles.Keys);
        assert forall k | k in db.titles && db.titles[k].name == name :: k in named;
        db := db.(titles := db.titles[id := Title(name, 0, 0, 0, Scanning, None)]);
      }
    }

    /** A title whose folder is gone is marked as removed and keeps its files. */
    method SetTitleState(title: nat, state: TitleState)
      modifies this
      ensures chunkSize == old(chunkSize) && db.files == old(db).files && db.chunks == old(db).chunks
      ensures db.titles == if title in old(db).titles
                           then old(db).titles[title := old(db).titles[title].(state := state)] else old(db).titles
    {
      if title in db.titles {
        db := db.(titles := db.titles[title := db.titles[title].(state := state)]);
      }
    }

    method InsertChunks(id: nat, entries: seq<ChunkEntry>)
      modifies this
      ensures chunkSize == old(chunkSize) && db == old(db).(chunks := old(db).chunks + ChunkRows(id, entries))
    {
      for k := 0 to |entries|
        invariant chunkSize == old(chunkSize) && db == old(db).(chunks := old(db).chunks + ChunkRows(id, entries[..k]))
      {
        assert ChunkRows(id, entries[..k + 1]) == ChunkRows(id, entries[..k]) + [ChunkRow(id, entries[k])];
        db := db.(chunks := db.chunks + [ChunkRow(id, entries[k])]);
      }
      assert entries[..|entries|] == entries;
    }

    /** The title's rows by path. */
    method ReadExisting(title: nat) returns (existing: map<string, Existing>)
      requires DbOk(db)
      ensures Known(db, title, {}, existing)
    {
      existing := map[];
      var ids := db.files.Keys;
      while ids != {}
        invariant ids <= db.files.Keys
        invariant Known(db, title, ids, existing)
        decreases |ids|
      {
        var id :| id in ids;
        if db.files[id].titleId == title {
          existing := existing[db.files[id].relPath := Existing(id, db.files[id])];
        }
        ids := ids - {id};
      }
    }

    /** Brings one file up to date: nothing, an update with new chunks, or an insertion. */
    method Upsert(title: nat, f: FileEntry, existing: map<string, Existing>, ghost before: Db,
          ghost files: seq<FileEntry>)
      requires DbOk(before) && Upserted(before, db, title, files) && !HasPath(files, f.relPath)
      requires Known(before, title, {}, existing) && ListOrder(before, db, files)
      modifies this
      ensures Upserted(before, db, title, files + [f]) && ListOrder(before, db, files + [f])
      ensures chunkSize == old(chunkSize)
    {
      if f.relPath in existing {
        var e := existing[f.relPath];
        KnownRow(before, title, existing, f.relPath);
        if e.row.size == f.size && e.row.mtime == f.mtime && e.row.hash == f.hash {
          StepSkip(before, db, title, files, f, e.id);
          SkipKeepsOrder(before, db, title, files, f, e.id);
          return;
        }
        StepStore(before, db, title, files, f, e.id);
        StoreKeepsOrder(before, db, title, files, f, e.id);
        hide *;
        ghost var was := db;
        db := db.(files := db.files[e.id := RowOf(title, f)]);
        db := db.(chunks := WithoutFiles(db.chunks, {e.id}));
        InsertChunks(e.id, f.chunks);
        StoredIs(was, title, e.id, f);
      } else {
        var id := NextId(db.files.Keys);
        FreshTarget(before, db, title, files, f, existing, id);
        StepStore(before, db, title, files, f, id);
        StoreKeepsOrder(before, db, title, files, f, id);
        hide *;
        ghost var was := db;
        db := db.(files := db.files[id := RowOf(title, f)]);
        InsertChunks(id, f.chunks);
        StoredIs(was, title, id, f);
      }
    }

    /**
     Replaces the title's files and chunks and records the new version. Ids of surviving paths are
     kept, vanished paths and their chunks are removed, and a file whose row is already up to date
     is not written again.
     */
    method ReplaceManifest(title: nat, files: seq<FileEntry>, totalSize: nat, fileCount: nat, version: nat,
          infoHash: Option<Digest>)
      requires DbOk(db) && DistinctPaths(files)
      modifies this
      ensures Replaced(old(db), db, title, files) && ListOrder(old(db), db, files) && chunkSize == old(chunkSize)
      ensures db.titles == if title in old(db).titles
                           then old(db).titles[title := Title(old(db).titles[title].name, version, totalSize,
                                                              fileCount, Live, infoHash)]
                           else old(db).titles
    {
      hide *;
      ghost var before := db;
      var existing := ReadExisting(title);
      NothingUpserted(before, title);
      assert files[..0] == [];
      for k := 0 to |files|
        invariant Upserted(before, db, title, files[..k]) && ListOrder(before, db, files[..k])
        invariant chunkSize == old(chunkSize)
      {
        DistinctDetermine(files, k);
        assert files[..k + 1] == files[..k] + [files[k]];
        Upsert(title, files[k], existing, before, files[..k]);
      }
      assert files[..|files|] == files;
      DistinctDetermine(files, |files|);
      var gone := set path | path in existing && (forall f | f in files :: f.relPath != path) :: existing[path].id;
      GoneIs(before, title, files, existing, gone);
      StepPrune(before, db, title, files, gone);
      PruneKeepsOrder(before, db, files, gone);
      UpsertedTitles(before, db, title, files);
      PrunedTitles(db, gone);
      db := db.(files := db.files - gone, chunks := WithoutFiles(db.chunks, gone));
      TitlesDoNotMatter(before, db, title, files);
      SameIdsSameOrder(before, db, files);
      if title in db.titles {
        db := db.(titles := db.titles[title := Title(db.titles[title].name, version, totalSize, fileCount, Live,
            infoHash)]);
      }
    }

    /** The stored manifest: the title's files in id order, each with its chunks in index order. */
    method LoadManifest(title: nat) returns (m: Option<Manifest>)
      ensures m.None? <==> title !in db.titles
      ensures m.Some? ==>
                && m.value.titleId == title && m.value.manifestVer == db.titles[title].manifestVer
                && m.value.totalSize == db.titles[title].totalSize && m.value.fileCount == db.titles[title].fileCount
                && m.value.chunkSize == chunkSize
                && Loads(db, title, m.value.files)
    {
      if title !in db.titles {
        return None;
      }
      var ids := OwnedIds(title);
      var now := db;
      OwnedInOrder(now, title, ids);
      var files := seq(|ids|, k requires 0 <= k < |ids| && ids[k] in now.files => StoredEntry(now, ids[k]));
      var t := db.titles[title];
      return Some(Manifest(title, t.manifestVer, t.totalSize, t.fileCount, chunkSize, files));
    }

    /** The ids of the title's files in increasing order. */
    method OwnedIds(title: nat) returns (ids: seq<nat>)
      ensures Lists(ids, Owned(db, title), IdBefore)
    {
      ids := [];
      var left := Owned(db, title);
      while left != {}
        invariant left <= Owned(db, title) && Distinct(ids) && Elements(ids) == Owned(db, title) - left
        decreases |left|
      {
        var id :| id in left;
        assert id !in Elements(ids);
        assert Elements(ids + [id]) == Elements(ids) + {id};
        ids := ids + [id];
        left := left - {id};
      }
      SortByLists(ids, IdBefore);
      ids := SortBy(ids, IdBefore);
    }
  }

  function Owned(db: Db, title: nat): set<nat> {
    set id | id in db.files && db.files[id].titleId == title
  }

  lemma OwnedInOrder(db: Db, title: nat, ids: seq<nat>)
    requires Lists(ids, Owned(db, title), IdBefore)
    ensures forall k | 0 <= k < |ids| :: ids[k] in db.files
    ensures Loads(db, title, seq(|ids|, k requires 0 <= k < |ids| && ids[k] in db.files => StoredEntry(db, ids[k])))
  {
    assert forall k | 0 <= k < |ids| :: ids[k] in Elements(ids);
    var files := seq(|ids|, k requires 0 <= k < |ids| && ids[k] in db.files => StoredEntry(db, ids[k]));
    forall id | Owns(db, title, id)
      ensures exists k | 0 <= k < |files| :: files[k].id == id
    {
      assert id in Elements(ids);
      var k :| 0 <= k < |ids| && ids[k] == id;
      assert files[k].id == id;
    }
  }

  /** The largest id plus one. */
  method NextId(ids: set<nat>) returns (id: nat)
    ensures id !in ids && forall k | k in ids :: k < id
  {
    id := 0;
    var left := ids;
    while left != {}
      invariant left <= ids && forall k | k in ids && k !in left :: k <= id
      decreases |left|
    {
      var k :| k in left;
      id := if k > id then k else id;
      left := left - {k};
    }
    id := id + 1;
  }

  /** Every row of the title outside `ids` is known by its path. */
  ghost predicate Known(db: Db, title: nat, ids: set<nat>, existing: map<string, Existing>) {
    && (forall path | path in existing ::
          var e := existing[path];
          Owns(db, title, e.id) && e.id !in ids && e.row == db.files[e.id] && e.row.relPath == path)
    && (forall id | Owns(db, title, id) && id !in ids :: db.files[id].relPath in existing &&
                                                         existing[db.files[id].relPath].id == id)
  }

  lemma KnownRow(db: Db, title: nat, existing: map<string, Existing>, path: string)
    requires Known(db, title, {}, existing) && path in existing
    ensures var e := existing[path]; Owns(db, title, e.id) && e.row == db.files[e.id] && e.row.relPath == path
  {
  }

  lemma StoredIs(db: Db, title: nat, id: nat, f: FileEntry)
    requires DbOk(db)
    ensures var files := db.files[id := RowOf(title, f)];
            && Stored(db, title, id, f) == Db(db.titles, files, WithoutFiles(db.chunks, {id}) + ChunkRows(id, f.chunks))
            && (id !in db.files ==> WithoutFiles(db.chunks, {id}) == db.chunks)
  {
    if id !in db.files {
      NoneToRemove(db.chunks, id);
    }
  }

  lemma FreshTarget(before: Db, db: Db, title: nat, files: seq<FileEntry>, f: FileEntry, existing: map<string,
        Existing>, id: nat)
    requires Upserted(before, db, title, files) && Known(before, title, {}, existing) && f.relPath !in existing
    requires forall k | k in db.files :: k < id
    ensures Target(before, db, title, f, id)
  {
    hide OldOk, NewOk, PathOk, DbOk;
  }

  lemma NothingUpserted(db: Db, title: nat)
    requires DbOk(db)
    ensures Upserted(db, db, title, []) && ListOrder(db, db, [])
  {
    hide DbOk, Entries;
  }

  lemma GoneIs(before: Db, title: nat, files: seq<FileEntry>, existing: map<string, Existing>, gone: set<nat>)
    requires Known(before, title, {}, existing)
    requires gone == set path | path in existing && (forall f | f in files :: f.relPath != path) :: existing[path].id
    ensures Gone(before, title, files, gone)
  {
  }

  lemma UpsertedTitles(before: Db, db: Db, title: nat, files: seq<FileEntry>)
    requires Upserted(before, db, title, files)
    ensures db.titles == before.titles
  {
    hide DbOk, OldOk, NewOk, PathOk;
  }

  lemma PrunedTitles(db: Db, gone: set<nat>)
    ensures Pruned(db, gone) == db.(files := db.files - gone, chunks := WithoutFiles(db.chunks, gone))
  {
  }

  lemma TitlesDoNotMatter(before: Db, db: Db, title: nat, files: seq<FileEntry>)
    requires Replaced(before, db, title, files)
    ensures forall titles :: Replaced(before, db.(titles := titles), title, files)
  {
    hide Entries, HasPath;
    forall titles
      ensures Replaced(before, db.(titles := titles), title, files)
    {
      SameReplaced(before, db, db.(titles := titles), title, files);
    }
  }

  lemma SameIdsSameOrder(before: Db, db: Db, files: seq<FileEntry>)
    requires ListOrder(before, db, files)
    ensures forall titles :: ListOrder(before, db.(titles := titles), files)
  {
    hide ListOrder;
    forall titles
      ensures ListOrder(before, db.(titles := titles), files)
    {
      StoredInOrder(before, db, db.(titles := titles), files);
    }
  }

  lemma SameReplaced(before: Db, db: Db, other: Db, title: nat, files: seq<FileEntry>)
    requires Replaced(before, db, title, files) && other.files == db.files && other.chunks == db.chunks
    ensures Replaced(before, other, title, files)
  {
    hide Entries, HasPath;
    assert DbOk(other);
    assert forall id :: Owns(other, title, id) <==> Owns(db, title, id);
    assert forall id, f :: Written(before, other, title, id, f) <==> Written(before, db, title, id, f);
    assert forall id :: SameFile(before, other, id) <==> SameFile(before, db, id);
  }

  /** `files` are the title's rows in id order. */
  ghost predicate Loads(db: Db, title: nat, files: seq<FileEntry>) {
    && (forall i, j | 0 <= i < j < |files| :: files[i].id < files[j].id)
    && (forall k | 0 <= k < |files| :: Owns(db, title, files[k].id) && files[k] == StoredEntry(db, files[k].id))
    && (forall id | Owns(db, title, id) :: exists k | 0 <= k < |files| :: files[k].id == id)
  }

  lemma LoadsIds(db: Db, title: nat, files: seq<FileEntry>) returns (ids: seq<nat>)
    requires Loads(db, title, files)
    ensures |ids| == |files| && forall k | 0 <= k < |files| :: ids[k] == files[k].id
    ensures Lists(ids, Owned(db, title), IdBefore)
  {
    ids := seq(|files|, k requires 0 <= k < |files| => files[k].id);
    forall id
      ensures id in Elements(ids) <==> Owns(db, title, id)
    {
      if Owns(db, title, id) {
        var k :| 0 <= k < |files| && files[k].id == id;
        assert ids[k] == id;
      }
    }
  }

  /** The load is determined by the file and chunk tables. */
  lemma LoadUnique(a: Db, b: Db, title: nat, f: seq<FileEntry>, g: seq<FileEntry>)
    requires a.files == b.files && a.chunks == b.chunks && Loads(a, title, f) && Loads(b, title, g)
    ensures f == g
  {
    var i := LoadsIds(a, title, f);
    var j := LoadsIds(b, title, g);
    assert Owned(a, title) == Owned(b, title);
    assert StrictTotal(Owned(a, title), IdBefore);
    ListingUnique(i, j, Owned(a, title), IdBefore);
    forall k | 0 <= k < |f|
      ensures f[k] == g[k]
    {
      assert i[k] == j[k];
    }
  }

  // ----- loading what was replaced -----

  /** A file without its id, which the database assigns. */
  function Anonymous(f: FileEntry): FileEntry {
    f.(id := 0)
  }

  ghost function Anonymized(files: seq<FileEntry>): set<FileEntry> {
    set f | f in files :: Anonymous(f)
  }

  /** The chunks that stay stored for a skipped file are the ones that were to be written. */
  ghost predicate NothingStale(before: Db, title: nat, files: seq<FileEntry>) {
    forall id, f | f in files && Skipped(before, title, id, f) :: Entries(before.chunks, id) == f.chunks
  }

  /** All chunk lists are numbered in order. */
  ghost predicate AllIndexed(db: Db, title: nat) {
    forall id | Owns(db, title, id) :: Indexed(Entries(db.chunks, id))
  }

  ghost predicate ListIndexed(files: seq<FileEntry>) {
    forall f | f in files :: Indexed(f.chunks)
  }

  lemma WrittenLoads(before: Db, db: Db, title: nat, id: nat, f: FileEntry)
    requires Written(before, db, title, id, f) && Indexed(f.chunks) &&
               (id in before.files && Owns(before, title, id) ==> Indexed(Entries(before.chunks, id)))
    ensures Anonymous(StoredEntry(db, id)).(chunks := []) == Anonymous(f).(chunks := [])
    ensures StoredEntry(db, id).chunks == if Skipped(before, title, id, f) then Entries(before.chunks, id) else f.chunks
    ensures Indexed(Entries(db.chunks, id))
  {
    hide Entries;
    SortedAlready(Entries(db.chunks, id), IdxBefore);
  }

  lemma LoadedFrom(before: Db, db: Db, title: nat, files: seq<FileEntry>, loaded: seq<FileEntry>, k: nat)
        returns (f: FileEntry)
    requires Replaced(before, db, title, files) && Loads(db, title, loaded) && AllIndexed(before, title) &&
               ListIndexed(files)
    requires k < |loaded|
    ensures f in files && Written(before, db, title, loaded[k].id, f)
    ensures loaded[k].relPath == f.relPath && Anonymous(loaded[k]).(chunks := f.chunks) == Anonymous(f)
    ensures loaded[k].chunks == if Skipped(before, title, loaded[k].id, f)
              then Entries(before.chunks, loaded[k].id) else f.chunks
  {
    hide DbOk, HasPath, Entries, Indexed;
    assert Owns(db, title, loaded[k].id);
    f :| f in files && Written(before, db, title, loaded[k].id, f);
    WrittenLoads(before, db, title, loaded[k].id, f);
  }

  lemma LoadedAs(before: Db, db: Db, title: nat, files: seq<FileEntry>, loaded: seq<FileEntry>, f: FileEntry)
        returns (k: nat)
    requires Replaced(before, db, title, files) && Loads(db, title, loaded) && f in files
    ensures k < |loaded| && Written(before, db, title, loaded[k].id, f)
  {
    hide DbOk, HasPath, Entries;
    var id :| Written(before, db, title, id, f);
    assert Owns(db, title, id);
    k :| 0 <= k < |loaded| && loaded[k].id == id;
  }

  /**
   Loading after replacing gives back the given files, apart from the ids the database assigns,
   exactly if no skipped file had stale chunks stored. In any case paths, sizes, times and file
   hashes are the given ones.
   */
  lemma LoadAfterReplace(before: Db, db: Db, title: nat, files: seq<FileEntry>, loaded: seq<FileEntry>)
    requires DbOk(before) && Replaced(before, db, title, files) && DistinctPaths(files)
    requires AllIndexed(before, title) && ListIndexed(files) && Loads(db, title, loaded)
    ensures forall f | f in files :: exists e :: e in loaded && Anonymous(e).(chunks := f.chunks) == Anonymous(f)
    ensures Anonymized(loaded) == Anonymized(files) <==> NothingStale(before, title, files)
  {
    hide DbOk, Replaced, Loads, AllIndexed, ListIndexed, Written, Entries;
    forall f | f in files
      ensures exists e :: e in loaded && Anonymous(e).(chunks := f.chunks) == Anonymous(f)
    {
      var k := LoadedAs(before, db, title, files, loaded, f);
      var g := LoadedFrom(before, db, title, files, loaded, k);
      SameWriter(before, db, title, loaded[k].id, f, g);
      DistinctDetermine(files, |files|);
      assert files[..|files|] == files;
      assert loaded[k] in loaded;
    }
    if NothingStale(before, title, files) {
      NothingStaleLoads(before, db, title, files, loaded);
    }
    if Anonymized(loaded) == Anonymized(files) {
      LoadsNothingStale(before, db, title, files, loaded);
    }
  }

  lemma SameWriter(before: Db, db: Db, title: nat, id: nat, f: FileEntry, g: FileEntry)
    requires Written(before, db, title, id, f) && Written(before, db, title, id, g)
    ensures f.relPath == g.relPath
  {
  }

  lemma NothingStaleLoads(before: Db, db: Db, title: nat, files: seq<FileEntry>, loaded: seq<FileEntry>)
    requires Replaced(before, db, title, files) && DistinctPaths(files)
    requires AllIndexed(before, title) && ListIndexed(files) && Loads(db, title, loaded)
    requires NothingStale(before, title, files)
    ensures Anonymized(loaded) == Anonymized(files)
  {
    hide Replaced, Loads, AllIndexed, ListIndexed, Written, Entries;
    forall k | 0 <= k < |loaded|
      ensures exists f :: f in files && Anonymous(loaded[k]) == Anonymous(f)
    {
      var f := LoadedFrom(before, db, title, files, loaded, k);
    }
    forall f | f in files
      ensures exists e :: e in loaded && Anonymous(e) == Anonymous(f)
    {
      var k := LoadedAs(before, db, title, files, loaded, f);
      var g := LoadedFrom(before, db, title, files, loaded, k);
      SameWriter(before, db, title, loaded[k].id, f, g);
      DistinctDetermine(files, |files|);
      assert files[..|files|] == files;
      assert loaded[k] in loaded;
    }
  }

  lemma LoadsNothingStale(before: Db, db: Db, title: nat, files: seq<FileEntry>, loaded: seq<FileEntry>)
    requires DbOk(before) && Replaced(before, db, title, files) && DistinctPaths(files)
    requires AllIndexed(before, title) && ListIndexed(files) && Loads(db, title, loaded)
    requires Anonymized(loaded) == Anonymized(files)
    ensures NothingStale(before, title, files)
  {
    hide Replaced, Loads, AllIndexed, ListIndexed, Written, Entries;
    forall id, f | f in files && Skipped(before, title, id, f)
      ensures Entries(before.chunks, id) == f.chunks
    {
      var k := LoadedAs(before, db, title, files, loaded, f);
      SkippedHolder(before, db, title, files, f, id, loaded[k].id);
      var g := LoadedFrom(before, db, title, files, loaded, k);
      SameWriter(before, db, title, id, f, g);
      DistinctDetermine(files, |files|);
      assert files[..|files|] == files;
      assert loaded[k] in loaded;
      assert Anonymous(loaded[k]) in Anonymized(loaded);
      var h :| h in files && Anonymous(h) == Anonymous(loaded[k]);
    }
  }

  lemma SkippedHolder(before: Db, db: Db, title: nat, files: seq<FileEntry>, f: FileEntry, id: nat, holder: nat)
    requires Replaced(before, db, title, files) && f in files && Skipped(before, title, id, f)
    requires Written(before, db, title, holder, f)
    ensures holder == id
  {
    hide Entries;
    assert HasPath(files, before.files[id].relPath);
    assert id in db.files && db.files[id].relPath == f.relPath;
    OwnedStays(before, db, title, files, id);
  }

  lemma OwnedStays(before: Db, db: Db, title: nat, files: seq<FileEntry>, id: nat)
    requires Replaced(before, db, title, files) && Owns(before, title, id) && id in db.files
    ensures Owns(db, title, id)
  {
    hide Entries, HasPath, DbOk;
  }

  // ----- totals -----

  lemma {:induction false} SumDrop(q: seq<FileEntry>, j: nat)
    requires j < |q|
    ensures SumFiles(q) == SumFiles(Drop(q, j)) + q[j].size
  {
    var n := |q| - 1;
    SumSnoc(q[..n], q[n]);
    assert q == q[..n] + [q[n]];
    if j < n {
      SumDrop(q[..n], j);
      SumSnoc(Drop(q[..n], j), q[n]);
      hide SumFiles;
      assert Drop(q, j) == Drop(q[..n], j) + [q[n]];
    } else {
      hide SumFiles;
      assert Drop(q, j) == q[..n];
    }
  }

  lemma SumSnoc(q: seq<FileEntry>, f: FileEntry)
    ensures SumFiles(q + [f]) == SumFiles(q) + f.size
  {
    assert (q + [f])[..|q|] == q;
  }

  /** The same paths with the same sizes. */
  ghost predicate SameSizes(a: seq<FileEntry>, b: seq<FileEntry>) {
    forall f | f in a :: exists g :: g in b && g.relPath == f.relPath && g.size == f.size
  }

  lemma SameSizesDrop(a: seq<FileEntry>, b: seq<FileEntry>, i: nat, j: nat)
    requires DistinctPaths(a) && i < |a| && j < |b| && a[i].relPath == b[j].relPath && SameSizes(a, b)
    ensures DistinctPaths(Drop(a, i)) && SameSizes(Drop(a, i), Drop(b, j))
  {
  }

  /** Lists with the same paths and sizes have the same length and total, whatever their order. */
  lemma {:induction false} SameTotals(a: seq<FileEntry>, b: seq<FileEntry>)
    requires DistinctPaths(a) && DistinctPaths(b) && SameSizes(a, b) && SameSizes(b, a)
    ensures |a| == |b| && SumFiles(a) == SumFiles(b)
    decreases |a|
  {
    if a == [] {
      if b != [] {
        var _ := Partner(b, a, 0);
      }
    } else {
      var i := |a| - 1;
      var j := Partner(a, b, i);
      SameSizesDrop(a, b, i, j);
      SameSizesDrop(b, a, j, i);
      hide *;
      SumDrop(a, i);
      SumDrop(b, j);
      DropLength(a, i);
      DropLength(b, j);
      SameTotals(Drop(a, i), Drop(b, j));
    }
  }

  lemma DropLength(q: seq<FileEntry>, j: nat)
    requires j < |q|
    ensures |Drop(q, j)| == |q| - 1
  {
  }

  lemma Partner(a: seq<FileEntry>, b: seq<FileEntry>, i: nat) returns (j: nat)
    requires SameSizes(a, b) && i < |a|
    ensures j < |b| && b[j].relPath == a[i].relPath && b[j].size == a[i].size
  {
    assert a[i] in a;
    var g :| g in b && g.relPath == a[i].relPath && g.size == a[i].size;
    j :| 0 <= j < |b| && b[j] == g;
  }

  /** The loaded list has as many files and bytes as the given one. */
  lemma LoadedTotals(before: Db, db: Db, title: nat, files: seq<FileEntry>, loaded: seq<FileEntry>)
    requires DbOk(before) && Replaced(before, db, title, files) && DistinctPaths(files) && Loads(db, title, loaded)
    ensures |loaded| == |files| && SumFiles(loaded) == SumFiles(files)
  {
    hide Entries, HasPath;
    forall i, j | 0 <= i < j < |loaded|
      ensures loaded[i].relPath != loaded[j].relPath
    {
      assert Owns(db, title, loaded[i].id) && Owns(db, title, loaded[j].id);
    }
    forall e | e in loaded
      ensures exists f :: f in files && f.relPath == e.relPath && f.size == e.size
    {
      var f :| f in files && Written(before, db, title, e.id, f);
    }
    forall f | f in files
      ensures exists e :: e in loaded && e.relPath == f.relPath && e.size == f.size
    {
      var k := LoadedAs(before, db, title, files, loaded, f);
      assert loaded[k] in loaded;
    }
    SameTotals(loaded, files);
  }
}
