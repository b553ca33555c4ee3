/**
 Publishing a manifest: the stored files and chunks of a title are brought up to date with a scan,
 keeping the ids of files that are still there.
 */
module Publication {
  import opened Hashing
  import opened Manifests

  datatype FileRow = FileRow(titleId: nat, relPath: string, size: nat, mtime: int, hash: Digest)

  datatype ChunkRow = ChunkRow(fileId: nat, entry: ChunkEntry)

  datatype TitleState = Scanning | Live | Removed

  datatype Title = Title(name: string, manifestVer: nat, totalSize: nat, fileCount: nat, state: TitleState,
      infoHash: Option<Digest>)

  datatype Db = Db(titles: map<nat, Title>, files: map<nat, FileRow>, chunks: seq<ChunkRow>)

  function RowOf(title: nat, f: FileEntry): FileRow {
    FileRow(title, f.relPath, f.size, f.mtime, f.hash)
  }

  // ----- the chunk table -----

  /** The chunk entries of one file, in table order. */
  function Entries(chunks: seq<ChunkRow>, id: nat): seq<ChunkEntry> {
    if chunks == [] then []
    else (if chunks[0].fileId == id then [chunks[0].entry] else []) + Entries(chunks[1..], id)
  }

  function WithoutFiles(chunks: seq<ChunkRow>, ids: set<nat>): seq<ChunkRow> {
    if chunks == [] then []
    else (if chunks[0].fileId in ids then [] else [chunks[0]]) + WithoutFiles(chunks[1..], ids)
  }

  function ChunkRows(id: nat, entries: seq<ChunkEntry>): seq<ChunkRow> {
    seq(|entries|, k requires 0 <= k < |entries| => ChunkRow(id, entries[k]))
  }

  lemma {:induction false} EntriesAppend(a: seq<ChunkRow>, b: seq<ChunkRow>, id: nat)
    ensures Entries(a + b, id) == Entries(a, id) + Entries(b, id)
  {
    hide Entries;
    if a == [] {
      EntriesEmpty(id);
      assert a + b == b;
    } else {
      assert (a + b)[0] == a[0] && (a + b)[1..] == a[1..] + b;
      EntriesCons(a, id);
      EntriesCons(a + b, id);
      EntriesAppend(a[1..], b, id);
      if a[0].fileId == id {
        assert [a[0].entry] + (Entries(a[1..], id) + Entries(b, id)) == [a[0].entry] + Entries(a[1..], id) +
            Entries(b, id);
      }
    }
  }

  lemma EntriesEmpty(id: nat)
    ensures Entries([], id) == []
  {
  }

  lemma EntriesCons(chunks: seq<ChunkRow>, id: nat)
    requires chunks != []
    ensures Entries(chunks, id) == if chunks[0].fileId == id then [chunks[0].entry] + Entries(chunks[1..], id)
              else Entries(chunks[1..], id)
  {
  }

  lemma {:induction false} EntriesRows(id: nat, entries: seq<ChunkEntry>, j: nat)
    ensures Entries(ChunkRows(id, entries), j) == if j == id then entries else []
  {
    if entries != [] {
      assert ChunkRows(id, entries)[1..] == ChunkRows(id, entries[1..]);
      EntriesRows(id, entries[1..], j);
    }
  }

  lemma {:induction false} EntriesWithout(chunks: seq<ChunkRow>, ids: set<nat>, j: nat)
    ensures Entries(WithoutFiles(chunks, ids), j) == if j in ids then [] else Entries(chunks, j)
    ensures forall c | c in WithoutFiles(chunks, ids) :: c in chunks && c.fileId !in ids
  {
    if chunks != [] {
      EntriesWithout(chunks[1..], ids, j);
      EntriesAppend(if chunks[0].fileId in ids then [] else [chunks[0]], WithoutFiles(chunks[1..], ids), j);
    }
  }

  lemma {:induction false} EntriesNone(chunks: seq<ChunkRow>, id: nat)
    requires forall c | c in chunks :: c.fileId != id
    ensures Entries(chunks, id) == []
  {
    if chunks != [] {
      assert chunks[0] in chunks;
      EntriesNone(chunks[1..], id);
    }
  }

  // ----- the state of a title -----

  predicate Owns(db: Db, title: nat, id: nat) {
    id in db.files && db.files[id].titleId == title
  }

  /** Chunks belong to files, and no title has two files with the same path. */
  ghost predicate DbOk(db: Db) {
    && (forall c | c in db.chunks :: c.fileId in db.files)
    && (forall i, j | i in db.files && j in db.files && db.files[i].titleId == db.files[j].titleId &&
        db.files[i].relPath == db.files[j].relPath :: i == j)
  }

  ghost predicate DistinctPaths(files: seq<FileEntry>) {
    forall i, j | 0 <= i < j < |files| :: files[i].relPath != files[j].relPath
  }

  ghost predicate PathsDetermine(files: seq<FileEntry>) {
    forall f, g | f in files && g in files && f.relPath == g.relPath :: f == g
  }

  ghost predicate HasPath(files: seq<FileEntry>, path: string) {
    exists f :: f in files && f.relPath == path
  }

  /** The row was already up to date, so its chunks are left alone. */
  predicate Skipped(before: Db, title: nat, id: nat, f: FileEntry) {
    id in before.files && before.files[id] == RowOf(title, f)
  }

  /** What a file's row and chunks are after it has been written. */
  ghost predicate Written(before: Db, db: Db, title: nat, id: nat, f: FileEntry) {
    && id in db.files && db.files[id] == RowOf(title, f)
    && Entries(db.chunks, id) == if Skipped(before, title, id, f) then Entries(before.chunks, id) else f.chunks
  }

  predicate SameFile(a: Db, b: Db, id: nat) {
    && id in a.files && id in b.files && a.files[id] == b.files[id]
    && Entries(a.chunks, id) == Entries(b.chunks, id)
  }

  /** A file that was there: brought up to date if it is listed, untouched otherwise. */
  ghost predicate OldOk(before: Db, db: Db, title: nat, files: seq<FileEntry>, id: nat)
    requires id in before.files
  {
    if Owns(before, title, id) && HasPath(files, before.files[id].relPath) then
      forall f | f in files && f.relPath == before.files[id].relPath :: Written(before, db, title, id, f)
    else
      SameFile(before, db, id)
  }

  /** A file that was not there: its id is new and it is listed. */
  ghost predicate NewOk(before: Db, db: Db, title: nat, files: seq<FileEntry>, id: nat) {
    (forall k | k in before.files :: k < id) && exists f :: f in files && Written(before, db, title, id, f)
  }

  ghost predicate PathOk(db: Db, title: nat, path: string) {
    exists id :: Owns(db, title, id) && db.files[id].relPath == path
  }

  /** Every file of the list has been inserted or updated, and nothing else has changed. */
  ghost predicate Upserted(before: Db, db: Db, title: nat, files: seq<FileEntry>) {
    && DbOk(db) && db.titles == before.titles
    && (forall id | id in before.files :: id in db.files && OldOk(before, db, title, files, id))
    && (forall id | id in db.files && id !in before.files :: NewOk(before, db, title, files, id))
    && (forall f | f in files :: PathOk(db, title, f.relPath))
  }

  /**
   The outcome for a title's files: rows of other titles are untouched; the title has exactly the
   given paths; a path that was there before keeps its id; a file whose row was already up to date
   keeps its stored chunks, every other file has the given ones.
   */
  ghost predicate Replaced(before: Db, db: Db, title: nat, files: seq<FileEntry>) {
    && DbOk(db)
    && (forall id | id in before.files && !Owns(before, title, id) :: SameFile(before, db, id))
    && (forall id | id in db.files && !Owns(db, title, id) :: id in before.files && !Owns(before, title, id))
    && (forall id | Owns(before, title, id) :: id in db.files <==> HasPath(files, before.files[id].relPath))
    && (forall id | Owns(before, title, id) && id in db.files :: db.files[id].relPath == before.files[id].relPath)
    && (forall id | id in db.files && id !in before.files :: forall k | k in before.files :: k < id)
    && (forall id | Owns(db, title, id) :: exists f :: f in files && Written(before, db, title, id, f))
    && (forall f | f in files :: exists id :: Written(before, db, title, id, f))
  }

  predicate Inserted(before: Db, db: Db, id: nat, f: FileEntry) {
    id in db.files && id !in before.files && db.files[id].relPath == f.relPath
  }

  /** Files that were not there before got their ids in the order of the list. */
  ghost predicate ListOrder(before: Db, db: Db, files: seq<FileEntry>) {
    forall i, j, a, b | 0 <= i < j < |files| && Inserted(before, db, a, files[i]) &&
        Inserted(before, db, b, files[j]) :: a < b
  }

  // ----- the steps of a replacement -----

  lemma PathAppended(files: seq<FileEntry>, f: FileEntry, path: string)
    ensures HasPath(files + [f], path) <==> HasPath(files, path) || f.relPath == path
  {
  }

  lemma SkipOld(before: Db, db: Db, title: nat, files: seq<FileEntry>, f: FileEntry, id: nat, j: nat)
    requires DbOk(before) && !HasPath(files, f.relPath) && Skipped(before, title, id, f)
    requires j in before.files && OldOk(before, db, title, files, j)
    requires OldOk(before, db, title, files, id)
    ensures OldOk(before, db, title, files + [f], j)
  {
  }

  lemma StepSkip(before: Db, db: Db, title: nat, files: seq<FileEntry>, f: FileEntry, id: nat)
    requires Upserted(before, db, title, files) && !HasPath(files, f.relPath)
    requires Skipped(before, title, id, f) && DbOk(before)
    ensures Upserted(before, db, title, files + [f])
  {
    hide OldOk, DbOk, HasPath, Written;
    forall j | j in before.files
      ensures OldOk(before, db, title, files + [f], j)
    {
      SkipOld(before, db, title, files, f, id, j);
    }
    forall j | j in db.files && j !in before.files
      ensures NewOk(before, db, title, files + [f], j)
    {
      assert NewOk(before, db, title, files, j);
    }
    SkippedHasPath(before, db, title, files, f, id);
  }

  lemma SkippedHasPath(before: Db, db: Db, title: nat, files: seq<FileEntry>, f: FileEntry, id: nat)
    requires id in before.files && id in db.files && OldOk(before, db, title, files, id)
    requires !HasPath(files, f.relPath) && Skipped(before, title, id, f)
    ensures PathOk(db, title, f.relPath)
  {
    hide Entries;
    assert Owns(db, title, id);
  }

  /** Writing a file's row and chunks leaves all other files as they are. */
  function Stored(db: Db, title: nat, id: nat, f: FileEntry): Db {
    db.(files := db.files[id := RowOf(title, f)], chunks := WithoutFiles(db.chunks, {id}) + ChunkRows(id, f.chunks))
  }

  lemma StoredEntries(db: Db, title: nat, id: nat, f: FileEntry, j: nat)
    ensures Entries(Stored(db, title, id, f).chunks, j) == if j == id then f.chunks else Entries(db.chunks, j)
    ensures j != id && j in db.files ==> SameFile(db, Stored(db, title, id, f), j)
  {
    EntriesAppend(WithoutFiles(db.chunks, {id}), ChunkRows(id, f.chunks), j);
    EntriesWithout(db.chunks, {id}, j);
    EntriesRows(id, f.chunks, j);
  }

  lemma StoredOk(db: Db, title: nat, id: nat, f: FileEntry)
    requires DbOk(db)
    requires forall j | j in db.files && j != id && db.files[j].titleId == title :: db.files[j].relPath != f.relPath
    ensures DbOk(Stored(db, title, id, f))
  {
    EntriesWithout(db.chunks, {id}, id);
  }

  /** Whether the file goes to an existing outdated row or to a fresh one. */
  ghost predicate Target(before: Db, db: Db, title: nat, f: FileEntry, id: nat) {
    if id in before.files then
      Owns(before, title, id) && before.files[id].relPath == f.relPath && !Skipped(before, title, id, f)
    else
      (forall k | k in db.files :: k < id) &&
          (forall k | Owns(before, title, k) :: before.files[k].relPath != f.relPath)
  }

  lemma StoreOld(before: Db, db: Db, title: nat, files: seq<FileEntry>, f: FileEntry, id: nat, j: nat)
    requires DbOk(before) && !HasPath(files, f.relPath) && Target(before, db, title, f, id)
    requires j in before.files && j in db.files && OldOk(before, db, title, files, j)
    ensures OldOk(before, Stored(db, title, id, f), title, files + [f], j)
  {
    StoredEntries(db, title, id, f, j);
    hide Entries, Stored;
    PathAppended(files, f, before.files[j].relPath);
    var after := Stored(db, title, id, f);
    assert j != id && Owns(before, title, j) ==> before.files[j].relPath != f.relPath;
    if Owns(before, title, j) && HasPath(files + [f], before.files[j].relPath) {
      forall g | g in files + [f] && g.relPath == before.files[j].relPath
        ensures Written(before, after, title, j, g)
      {
        if g in files {
          assert HasPath(files, g.relPath);
          assert Written(before, db, title, j, g);
        } else {
          StoredRow(db, title, id, f);
        }
      }
    }
  }

  lemma StoredRow(db: Db, title: nat, id: nat, f: FileEntry)
    ensures id in Stored(db, title, id, f).files && Stored(db, title, id, f).files[id] == RowOf(title, f)
  {
  }

  lemma StoreNew(before: Db, db: Db, title: nat, files: seq<FileEntry>, f: FileEntry, id: nat, j: nat)
    requires Target(before, db, title, f, id) && j !in before.files
    requires if j == id then forall k | k in before.files :: k in db.files
             else j in db.files && NewOk(before, db, title, files, j)
    ensures NewOk(before, Stored(db, title, id, f), title, files + [f], j)
  {
    StoredEntries(db, title, id, f, j);
    hide Entries, Stored;
    var after := Stored(db, title, id, f);
    if j == id {
      StoredRow(db, title, id, f);
      assert f in files + [f] && Written(before, after, title, j, f);
    } else {
      var g :| g in files && Written(before, db, title, j, g);
      assert g in files + [f] && Written(before, after, title, j, g);
    }
  }

  lemma StorePath(db: Db, title: nat, f: FileEntry, id: nat, path: string)
    requires id in db.files ==> db.files[id].titleId == title && db.files[id].relPath == f.relPath
    requires PathOk(db, title, path) || path == f.relPath
    ensures PathOk(Stored(db, title, id, f), title, path)
  {
    var after := Stored(db, title, id, f);
    if path == f.relPath {
      assert Owns(after, title, id);
    } else {
      var j :| Owns(db, title, j) && db.files[j].relPath == path;
      assert Owns(after, title, j);
    }
  }

  lemma StepStore(before: Db, db: Db, title: nat, files: seq<FileEntry>, f: FileEntry, id: nat)
    requires DbOk(before) && Upserted(before, db, title, files) && !HasPath(files, f.relPath)
    requires Target(before, db, title, f, id)
    ensures Upserted(before, Stored(db, title, id, f), title, files + [f])
  {
    hide OldOk, NewOk, PathOk, HasPath, DbOk, Written;
    forall j | j in before.files
      ensures OldOk(before, Stored(db, title, id, f), title, files + [f], j)
    {
      StoreOld(before, db, title, files, f, id, j);
    }
    forall j | j in Stored(db, title, id, f).files && j !in before.files
      ensures NewOk(before, Stored(db, title, id, f), title, files + [f], j)
    {
      StoreNew(before, db, title, files, f, id, j);
    }
    forall j | j in db.files && j != id && db.files[j].titleId == title
      ensures db.files[j].relPath != f.relPath
    {
      PathIsFree(before, db, title, files, f, id, j);
    }
    StoredOk(db, title, id, f);
    TargetRow(before, db, title, files, f, id);
    forall g | g in files + [f]
      ensures PathOk(Stored(db, title, id, f), title, g.relPath)
    {
      StorePath(db, title, f, id, g.relPath);
    }
  }

  lemma NotYetInserted(before: Db, db: Db, title: nat, files: seq<FileEntry>, f: FileEntry, id: nat)
    requires Upserted(before, db, title, files) && !HasPath(files, f.relPath)
    ensures !Inserted(before, db, id, f)
  {
    hide Entries, OldOk, PathOk, DbOk;
  }

  /** A file that is already up to date is not inserted, so the order of ids is as it was. */
  lemma SkipKeepsOrder(before: Db, db: Db, title: nat, files: seq<FileEntry>, f: FileEntry, id: nat)
    requires DbOk(before) && Upserted(before, db, title, files) && !HasPath(files, f.relPath)
    requires Skipped(before, title, id, f) && ListOrder(before, db, files)
    ensures ListOrder(before, db, files + [f])
  {
    hide Entries, OldOk, PathOk, ListOrder;
    forall a: nat
      ensures !Inserted(before, db, a, f)
    {
      NotYetInserted(before, db, title, files, f, a);
    }
    OneMoreInOrder(before, db, files, f);
  }

  /** A fresh id is above all others, so the ids still follow the list. */
  lemma StoreKeepsOrder(before: Db, db: Db, title: nat, files: seq<FileEntry>, f: FileEntry, id: nat)
    requires DbOk(before) && Upserted(before, db, title, files) && !HasPath(files, f.relPath)
    requires Target(before, db, title, f, id) && ListOrder(before, db, files)
    ensures ListOrder(before, Stored(db, title, id, f), files + [f])
  {
    hide Entries, OldOk, PathOk, ListOrder;
    var after := Stored(db, title, id, f);
    forall a: nat
      ensures Inserted(before, after, a, f) ==> a == id && id !in before.files
    {
      NotYetInserted(before, db, title, files, f, a);
    }
    forall a: nat, i | 0 <= i < |files|
      ensures Inserted(before, after, a, files[i]) ==>
                Inserted(before, db, a, files[i]) && (id in before.files || a < id)
    {
      assert files[i] in files;
      if a == id {
        assert HasPath(files, files[i].relPath);
      }
    }
    StoredInOrder(before, db, after, files);
    OneMoreInOrder(before, after, files, f);
  }

  lemma StoredInOrder(before: Db, db: Db, after: Db, files: seq<FileEntry>)
    requires ListOrder(before, db, files)
    requires forall a, i | 0 <= i < |files| && Inserted(before, after, a, files[i]) :: Inserted(before, db, a, files[i])
    ensures ListOrder(before, after, files)
  {
    hide Inserted;
  }

  lemma OneMoreInOrder(before: Db, db: Db, files: seq<FileEntry>, f: FileEntry)
    requires ListOrder(before, db, files)
    requires forall a, b, i | 0 <= i < |files| && Inserted(before, db, a, files[i]) && Inserted(before, db, b, f) ::
               a < b
    ensures ListOrder(before, db, files + [f])
  {
    hide Inserted;
  }

  lemma PruneKeepsOrder(before: Db, db: Db, files: seq<FileEntry>, gone: set<nat>)
    requires ListOrder(before, db, files)
    ensures ListOrder(before, Pruned(db, gone), files)
  {
    hide ListOrder;
    StoredInOrder(before, db, Pruned(db, gone), files);
  }

  lemma TargetRow(before: Db, db: Db, title: nat, files: seq<FileEntry>, f: FileEntry, id: nat)
    requires Target(before, db, title, f, id) && !HasPath(files, f.relPath)
    requires id in before.files ==> id in db.files && OldOk(before, db, title, files, id)
    ensures id in db.files ==> db.files[id].titleId == title && db.files[id].relPath == f.relPath
  {
    hide Entries;
  }

  lemma PathIsFree(before: Db, db: Db, title: nat, files: seq<FileEntry>, f: FileEntry, id: nat, j: nat)
    requires DbOk(before) && !HasPath(files, f.relPath) && Target(before, db, title, f, id)
    requires j in db.files && j != id && db.files[j].titleId == title
    requires if j in before.files then OldOk(before, db, title, files, j) else NewOk(before, db, title, files, j)
    ensures db.files[j].relPath != f.relPath
  {
  }

  lemma OwnerStays(before: Db, db: Db, title: nat, files: seq<FileEntry>, id: nat)
    requires id in before.files && id in db.files && OldOk(before, db, title, files, id)
    ensures Owns(db, title, id) <==> Owns(before, title, id)
    ensures db.files[id].relPath == before.files[id].relPath
  {
  }

  // ----- removing what is gone -----

  function Pruned(db: Db, gone: set<nat>): Db {
    db.(files := db.files - gone, chunks := WithoutFiles(db.chunks, gone))
  }

  lemma PrunedFile(db: Db, gone: set<nat>, id: nat)
    ensures id in Pruned(db, gone).files <==> id in db.files && id !in gone
    ensures id in db.files && id !in gone ==> SameFile(db, Pruned(db, gone), id)
  {
    EntriesWithout(db.chunks, gone, id);
  }

  lemma PrunedOk(db: Db, gone: set<nat>)
    requires DbOk(db)
    ensures DbOk(Pruned(db, gone))
  {
    EntriesWithout(db.chunks, gone, 0);
  }

  lemma SameWritten(before: Db, a: Db, b: Db, title: nat, id: nat, f: FileEntry)
    requires Written(before, a, title, id, f) && SameFile(a, b, id)
    ensures Written(before, b, title, id, f)
  {
    hide Entries;
  }

  ghost predicate Gone(before: Db, title: nat, files: seq<FileEntry>, gone: set<nat>) {
    forall id :: id in gone <==> Owns(before, title, id) && !HasPath(files, before.files[id].relPath)
  }

  /** The listed file that a surviving row was written from. */
  lemma WrittenFrom(before: Db, db: Db, title: nat, files: seq<FileEntry>, id: nat) returns (f: FileEntry)
    requires Upserted(before, db, title, files) && Owns(db, title, id)
    requires id in before.files ==> HasPath(files, before.files[id].relPath)
    ensures f in files && Written(before, db, title, id, f)
  {
    hide Entries, DbOk;
    if id in before.files {
      OwnerStays(before, db, title, files, id);
      f :| f in files && f.relPath == before.files[id].relPath;
    } else {
      assert NewOk(before, db, title, files, id);
      f :| f in files && Written(before, db, title, id, f);
    }
  }

  lemma PrunedOwned(before: Db, db: Db, title: nat, files: seq<FileEntry>, gone: set<nat>, id: nat)
    requires Upserted(before, db, title, files) && Gone(before, title, files, gone)
    requires Owns(Pruned(db, gone), title, id)
    ensures exists f :: f in files && Written(before, Pruned(db, gone), title, id, f)
  {
    hide DbOk, Entries, Written, SameFile;
    PrunedFile(db, gone, id);
    SameRow(db, Pruned(db, gone), id);
    if id in before.files {
      OwnerStays(before, db, title, files, id);
    }
    var f := WrittenFrom(before, db, title, files, id);
    SameWritten(before, db, Pruned(db, gone), title, id, f);
  }

  lemma PrunedPath(before: Db, db: Db, title: nat, files: seq<FileEntry>, gone: set<nat>, f: FileEntry)
    requires Upserted(before, db, title, files) && PathsDetermine(files) && Gone(before, title, files, gone)
    requires f in files
    ensures exists id :: Written(before, Pruned(db, gone), title, id, f)
  {
    hide DbOk, Entries, Written, SameFile, Pruned;
    var id :| Owns(db, title, id) && db.files[id].relPath == f.relPath;
    var g := HolderOf(before, db, title, files, f, id);
    PrunedFile(db, gone, id);
    SameWritten(before, db, Pruned(db, gone), title, id, f);
  }

  lemma PrunedOld(before: Db, db: Db, title: nat, files: seq<FileEntry>, gone: set<nat>, id: nat)
    requires Upserted(before, db, title, files) && Gone(before, title, files, gone) && id in before.files
    ensures !Owns(before, title, id) ==> SameFile(before, Pruned(db, gone), id)
    ensures Owns(before, title, id) ==> (id in Pruned(db, gone).files <==> HasPath(files, before.files[id].relPath))
    ensures id in Pruned(db, gone).files ==> Pruned(db, gone).files[id].relPath == before.files[id].relPath
  {
    hide DbOk, Entries, Written, HasPath;
    OwnerStays(before, db, title, files, id);
    PrunedFile(db, gone, id);
  }

  /** Deleting the files that are gone, and their chunks with them, completes the replacement. */
  lemma StepPrune(before: Db, db: Db, title: nat, files: seq<FileEntry>, gone: set<nat>)
    requires DbOk(before) && Upserted(before, db, title, files) && PathsDetermine(files)
    requires Gone(before, title, files, gone)
    ensures Replaced(before, Pruned(db, gone), title, files)
  {
    PrunedOk(db, gone);
    hide DbOk, Upserted, Pruned, Written, SameFile, HasPath, Gone;
    var after := Pruned(db, gone);
    forall id | id in before.files
      ensures !Owns(before, title, id) ==> SameFile(before, after, id)
      ensures Owns(before, title, id) ==> (id in after.files <==> HasPath(files, before.files[id].relPath))
      ensures id in after.files ==> after.files[id].relPath == before.files[id].relPath
    {
      PrunedOld(before, db, title, files, gone, id);
    }
    PrunedListed(before, db, title, files, gone);
    PrunedOthers(before, db, title, files, gone);
  }

  lemma PrunedListed(before: Db, db: Db, title: nat, files: seq<FileEntry>, gone: set<nat>)
    requires Upserted(before, db, title, files) && PathsDetermine(files) && Gone(before, title, files, gone)
    ensures forall id | Owns(Pruned(db, gone), title, id) :: exists f :: f in files &&
                                                                         Written(before, Pruned(db, gone), title, id, f)
    ensures forall f | f in files :: exists id :: Written(before, Pruned(db, gone), title, id, f)
  {
    hide Upserted, Pruned, Written, Gone, Owns;
    forall id | Owns(Pruned(db, gone), title, id)
      ensures exists f :: f in files && Written(before, Pruned(db, gone), title, id, f)
    {
      PrunedOwned(before, db, title, files, gone, id);
    }
    forall f | f in files
      ensures exists id :: Written(before, Pruned(db, gone), title, id, f)
    {
      PrunedPath(before, db, title, files, gone, f);
    }
  }

  lemma PrunedOthers(before: Db, db: Db, title: nat, files: seq<FileEntry>, gone: set<nat>)
    requires Upserted(before, db, title, files) && Gone(before, title, files, gone)
    ensures forall id | id in Pruned(db, gone).files && id !in before.files :: forall k | k in before.files :: k < id
    ensures forall id | id in Pruned(db, gone).files && !Owns(Pruned(db, gone), title, id) :: id in before.files &&
              !Owns(before, title, id)
  {
  }

  lemma SameRow(a: Db, b: Db, id: nat)
    requires SameFile(a, b, id)
    ensures a.files[id] == b.files[id]
  {
  }

  lemma HolderOf(before: Db, db: Db, title: nat, files: seq<FileEntry>, f: FileEntry, id: nat) returns (g: FileEntry)
    requires Upserted(before, db, title, files) && PathsDetermine(files) && f in files
    requires Owns(db, title, id) && db.files[id].relPath == f.relPath
    ensures Written(before, db, title, id, f)
    ensures id in before.files ==> HasPath(files, before.files[id].relPath)
  {
    hide Entries, DbOk;
    if id in before.files {
      OwnerStays(before, db, title, files, id);
    }
    g := WrittenFrom(before, db, title, files, id);
  }
}
