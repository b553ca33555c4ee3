/** The order in which a title's files are loaded after its manifest was replaced. */
module LoadOrder {
  import opened Hashing
  import opened Manifests
  import opened Ordering
  import opened Publication
  import opened ManifestStore

  function PathsOf(files: seq<FileEntry>): (paths: seq<string>)
    ensures |paths| == |files| && forall k | 0 <= k < |files| :: paths[k] == files[k].relPath
  {
    seq(|files|, k requires 0 <= k < |files| => files[k].relPath)
  }

  lemma {:induction false} KeepOrder<T(!new)>(q: seq<T>, s: set<T>, i: nat, j: nat)
    requires i < j < |q| && q[i] in s && q[j] in s
    ensures Earlier(Keep(q, s), q[i], q[j])
  {
    var rest := Keep(q[1..], s);
    if i == 0 {
      KeepElements(q[1..], s);
      assert q[1..][j - 1] in q[1..];
      var k :| 0 <= k < |rest| && rest[k] == q[j];
      assert Keep(q, s)[0] == q[0] && Keep(q, s)[k + 1] == q[j];
    } else {
      KeepOrder(q[1..], s, i - 1, j - 1);
      var a, b :| 0 <= a < b < |rest| && rest[a] == q[i] && rest[b] == q[j];
      LaterStays(if q[0] in s then [q[0]] else [], rest, a, b);
    }
  }

  lemma LaterStays<T(!new)>(p: seq<T>, q: seq<T>, a: nat, b: nat)
    requires a < b < |q|
    ensures Earlier(p + q, q[a], q[b])
  {
    assert (p + q)[|p| + a] == q[a] && (p + q)[|p| + b] == q[b];
  }

  lemma EarlierSoonerStays<T(!new)>(p: seq<T>, q: seq<T>, x: T, y: T)
    requires Earlier(p, x, y) || Earlier(q, x, y) || (x in p && y in q)
    ensures Earlier(p + q, x, y)
  {
    if Earlier(p, x, y) {
      var i, j :| 0 <= i < j < |p| && p[i] == x && p[j] == y;
      assert (p + q)[i] == x && (p + q)[j] == y;
    } else if Earlier(q, x, y) {
      var i, j :| 0 <= i < j < |q| && q[i] == x && q[j] == y;
      LaterStays(p, q, i, j);
    } else {
      var i :| 0 <= i < |p| && p[i] == x;
      var j :| 0 <= j < |q| && q[j] == y;
      assert (p + q)[i] == x && (p + q)[|p| + j] == y;
    }
  }

  lemma EarlierTotal<T(!new)>(q: seq<T>)
    requires Distinct(q)
    ensures StrictTotal(Elements(q), (x, y) => Earlier(q, x, y))
  {
    forall x, y | x in q && y in q && x != y
      ensures Earlier(q, x, y) || Earlier(q, y, x)
    {
      var i :| 0 <= i < |q| && q[i] == x;
      var j :| 0 <= j < |q| && q[j] == y;
    }
  }

  /** Two lists of the same elements in the same order are the same. */
  lemma SameOrder<T(!new)>(q: seq<T>, r: seq<T>)
    requires Distinct(r) && Elements(q) == Elements(r)
    requires forall k, l | 0 <= k < l < |q| :: Earlier(r, q[k], q[l])
    ensures q == r
  {
    EarlierTotal(r);
    ListingUnique(q, r, Elements(r), (x, y) => Earlier(r, x, y));
  }

  // ----- the order of a load -----

  ghost function Paths(files: seq<FileEntry>): set<string> {
    Elements(PathsOf(files))
  }

  /** The paths that were there before and still are, in the order of the previous load. */
  ghost function Surviving(previous: seq<FileEntry>, files: seq<FileEntry>): seq<string> {
    Keep(PathsOf(previous), Paths(files))
  }

  /** The new paths, in the order of the list. */
  ghost function New(previous: seq<FileEntry>, files: seq<FileEntry>): seq<string> {
    Keep(PathsOf(files), Paths(files) - Paths(previous))
  }

  /** A title's manifest is replaced by `files`; it loads as `previous` before and as `loaded` after. */
  ghost predicate Reloads(before: Db, db: Db, title: nat, files: seq<FileEntry>, previous: seq<FileEntry>,
      loaded: seq<FileEntry>) {
    && DbOk(before) && DistinctPaths(files)
    && Replaced(before, db, title, files) && ListOrder(before, db, files)
    && Loads(before, title, previous) && Loads(db, title, loaded)
  }

  /** Where a loaded file comes from: a file loaded before with the same id, or a new one of the list. */
  lemma OriginOf(before: Db, db: Db, title: nat, files: seq<FileEntry>, previous: seq<FileEntry>,
        loaded: seq<FileEntry>, k: nat) returns (i: nat)
    requires Reloads(before, db, title, files, previous, loaded) && k < |loaded|
    ensures var e := loaded[k];
            && e.relPath in Paths(files)
            && if e.id in before.files then i < |previous| && previous[i].id == e.id && previous[i].relPath == e.relPath
               else i < |files| && Inserted(before, db, e.id, files[i]) && files[i].relPath == e.relPath
  {
    hide Entries, HasPath, DbOk;
    var id := loaded[k].id;
    assert Owns(db, title, id);
    var f :| f in files && Written(before, db, title, id, f);
    i :| 0 <= i < |files| && files[i] == f;
    assert PathsOf(files)[i] in PathsOf(files);
    if id in before.files {
      assert Owns(before, title, id);
      i :| 0 <= i < |previous| && previous[i].id == id;
    }
  }

  lemma NewIsNew(before: Db, db: Db, title: nat, files: seq<FileEntry>, previous: seq<FileEntry>,
        loaded: seq<FileEntry>, k: nat)
    requires Reloads(before, db, title, files, previous, loaded) && k < |loaded|
    ensures loaded[k].relPath in Paths(previous) <==> loaded[k].id in before.files
  {
    hide Entries, ListOrder;
    var i := OriginOf(before, db, title, files, previous, loaded, k);
    var id := loaded[k].id;
    assert Owns(db, title, id);
    if id in before.files {
      assert PathsOf(previous)[i] in PathsOf(previous);
    } else if loaded[k].relPath in PathsOf(previous) {
      var j :| 0 <= j < |previous| && PathsOf(previous)[j] == loaded[k].relPath;
      StillThere(before, db, title, files, previous[j].id, files[i]);
    }
  }

  /** A listed path that was there keeps its row. */
  lemma StillThere(before: Db, db: Db, title: nat, files: seq<FileEntry>, old': nat, f: FileEntry)
    requires Replaced(before, db, title, files) && Owns(before, title, old') && f in files
    requires before.files[old'].relPath == f.relPath
    ensures forall id | Owns(db, title, id) && db.files[id].relPath == f.relPath :: id == old'
  {
    hide Entries;
    assert HasPath(files, before.files[old'].relPath);
    OwnedStays(before, db, title, files, old');
  }

  lemma PathsOfLoaded(before: Db, db: Db, title: nat, files: seq<FileEntry>, previous: seq<FileEntry>,
        loaded: seq<FileEntry>)
    requires Reloads(before, db, title, files, previous, loaded)
    ensures Paths(loaded) == Paths(files)
    ensures Distinct(PathsOf(previous)) && Distinct(PathsOf(files))
  {
    hide Entries, HasPath, ListOrder, DbOk;
    forall k | 0 <= k < |loaded|
      ensures loaded[k].relPath in Paths(files)
    {
      var _ := OriginOf(before, db, title, files, previous, loaded, k);
    }
    forall i | 0 <= i < |files|
      ensures files[i].relPath in Paths(loaded)
    {
      var k := LoadedAs(before, db, title, files, loaded, files[i]);
      assert PathsOf(loaded)[k] in PathsOf(loaded);
    }
    LoadedDistinct(before, title, previous);
  }

  lemma LoadedDistinct(db: Db, title: nat, loaded: seq<FileEntry>)
    requires DbOk(db) && Loads(db, title, loaded)
    ensures Distinct(PathsOf(loaded))
  {
    hide Entries;
    forall i, j | 0 <= i < j < |loaded|
      ensures loaded[i].relPath != loaded[j].relPath
    {
      assert Owns(db, title, loaded[i].id) && Owns(db, title, loaded[j].id);
    }
  }

  /**
   Files are loaded in id order, and ids survive with their paths: the load lists the surviving
   paths as the previous load did, and after them the new paths in the order they were listed.
   */
  lemma LoadedInOrder(before: Db, db: Db, title: nat, files: seq<FileEntry>, previous: seq<FileEntry>,
        loaded: seq<FileEntry>)
    requires Reloads(before, db, title, files, previous, loaded)
    ensures PathsOf(loaded) == Surviving(previous, files) + New(previous, files)
  {
    hide Reloads, PathsOf, Keep;
    PathsOfLoaded(before, db, title, files, previous, loaded);
    var old', new' := Surviving(previous, files), New(previous, files);
    KeepElements(PathsOf(previous), Paths(files));
    KeepElements(PathsOf(files), Paths(files) - Paths(previous));
    BothParts(previous, files);
    forall k, l | 0 <= k < l < |loaded|
      ensures Earlier(old' + new', PathsOf(loaded)[k], PathsOf(loaded)[l])
    {
      PairInOrder(before, db, title, files, previous, loaded, k, l);
      EarlierSoonerStays(old', new', loaded[k].relPath, loaded[l].relPath);
    }
    SameOrder(PathsOf(loaded), old' + new');
  }

  lemma BothParts(previous: seq<FileEntry>, files: seq<FileEntry>)
    requires Distinct(PathsOf(previous)) && Distinct(PathsOf(files))
    ensures Distinct(Surviving(previous, files) + New(previous, files))
    ensures Elements(Surviving(previous, files) + New(previous, files)) == Paths(files)
  {
    hide Keep;
    KeepElements(PathsOf(previous), Paths(files));
    KeepElements(PathsOf(files), Paths(files) - Paths(previous));
    var p, q := Surviving(previous, files), New(previous, files);
    forall i, j | 0 <= i < |p| && 0 <= j < |q|
      ensures p[i] != q[j]
    {
      assert p[i] in p && q[j] in q;
    }
    assert forall x :: x in p + q <==> x in p || x in q;
  }

  lemma PairInOrder(before: Db, db: Db, title: nat, files: seq<FileEntry>, previous: seq<FileEntry>,
        loaded: seq<FileEntry>, k: nat, l: nat)
    requires Reloads(before, db, title, files, previous, loaded) && k < l < |loaded|
    ensures var x, y, p, q := loaded[k].relPath, loaded[l].relPath, Surviving(previous, files), New(previous, files);
            Earlier(p, x, y) || Earlier(q, x, y) || (x in p && y in q)
  {
    NewIsNew(before, db, title, files, previous, loaded, k);
    NewIsNew(before, db, title, files, previous, loaded, l);
    var i := OriginOf(before, db, title, files, previous, loaded, k);
    var j := OriginOf(before, db, title, files, previous, loaded, l);
    IdsInOrder(before, db, title, files, previous, loaded, k, l, i, j);
    hide Reloads, Keep, Inserted, Earlier;
    var x, y := loaded[k].relPath, loaded[l].relPath;
    assert x in Paths(files) && y in Paths(files);
    if loaded[l].id in before.files {
      KeepOrder(PathsOf(previous), Paths(files), i, j);
    } else if loaded[k].id in before.files {
      KeepElements(PathsOf(previous), Paths(files));
      KeepElements(PathsOf(files), Paths(files) - Paths(previous));
      assert x in PathsOf(previous) && y in PathsOf(files);
    } else {
      KeepOrder(PathsOf(files), Paths(files) - Paths(previous), i, j);
    }
  }

  /** Ids increase along the load, and so do the places the files come from. */
  lemma IdsInOrder(before: Db, db: Db, title: nat, files: seq<FileEntry>, previous: seq<FileEntry>,
        loaded: seq<FileEntry>, k: nat, l: nat, i: nat, j: nat)
    requires Reloads(before, db, title, files, previous, loaded) && k < l < |loaded|
    requires if loaded[k].id in before.files then i < |previous| && previous[i].id == loaded[k].id
             else i < |files| && Inserted(before, db, loaded[k].id, files[i]) && files[i].relPath == loaded[k].relPath
    requires if loaded[l].id in before.files then j < |previous| && previous[j].id == loaded[l].id
             else j < |files| && Inserted(before, db, loaded[l].id, files[j]) && files[j].relPath == loaded[l].relPath
    ensures loaded[l].id in before.files ==> loaded[k].id in before.files
    ensures (loaded[k].id in before.files <==> loaded[l].id in before.files) ==> i < j
  {
    hide Entries, HasPath, Written;
    LoadedDistinct(db, title, loaded);
    assert PathsOf(loaded)[k] != PathsOf(loaded)[l];
    assert loaded[k].id < loaded[l].id;
  }

  // ----- sorted manifests -----

  /** Strings in the order of their characters. */
  predicate PathBefore(a: string, b: string) {
    b != [] && (a == [] || a[0] < b[0] || (a[0] == b[0] && PathBefore(a[1..], b[1..])))
  }

  lemma {:induction false} KeepIncreasing(q: seq<string>, s: set<string>)
    requires Increasing(q, PathBefore)
    ensures Increasing(Keep(q, s), PathBefore)
  {
    if q != [] {
      KeepIncreasing(q[1..], s);
      KeepElements(q[1..], s);
      hide PathBefore;
      forall k | 0 <= k < |Keep(q[1..], s)|
        ensures PathBefore(q[0], Keep(q[1..], s)[k])
      {
        assert Keep(q[1..], s)[k] in q[1..];
      }
    }
  }

  lemma IncreasingJoin(p: seq<string>, q: seq<string>)
    ensures Increasing(p + q, PathBefore)
       <==> Increasing(p, PathBefore) && Increasing(q, PathBefore) &&
            forall x, y | x in p && y in q :: PathBefore(x, y)
  {
    hide PathBefore;
    if Increasing(p + q, PathBefore) {
      forall i, j | 0 <= i < j < |p|
        ensures PathBefore(p[i], p[j])
      {
        assert (p + q)[i] == p[i] && (p + q)[j] == p[j];
      }
      forall i, j | 0 <= i < j < |q|
        ensures PathBefore(q[i], q[j])
      {
        assert (p + q)[|p| + i] == q[i] && (p + q)[|p| + j] == q[j];
      }
      forall x, y | x in p && y in q
        ensures PathBefore(x, y)
      {
        EarlierSoonerStays(p, q, x, y);
      }
    }
  }

  /**
   So the manifest is not kept in path order, although every listing is sorted: it stays sorted
   exactly if each new path sorts after each surviving one.
   */
  lemma SortedIff(before: Db, db: Db, title: nat, files: seq<FileEntry>, previous: seq<FileEntry>,
        loaded: seq<FileEntry>)
    requires Reloads(before, db, title, files, previous, loaded)
    requires Increasing(PathsOf(previous), PathBefore) && Increasing(PathsOf(files), PathBefore)
    ensures Increasing(PathsOf(loaded), PathBefore)
       <==> forall x, y | x in Paths(files) && y in Paths(files) && x in Paths(previous) && y !in Paths(previous) ::
              PathBefore(x, y)
  {
    hide Reloads, PathBefore, Increasing, PathsOf, Keep;
    LoadedInOrder(before, db, title, files, previous, loaded);
    KeepIncreasing(PathsOf(previous), Paths(files));
    KeepIncreasing(PathsOf(files), Paths(files) - Paths(previous));
    KeepElements(PathsOf(previous), Paths(files));
    KeepElements(PathsOf(files), Paths(files) - Paths(previous));
    IncreasingJoin(Surviving(previous, files), New(previous, files));
  }

  lemma NoPaths(s: set<string>)
    ensures Paths([]) == {} && Keep(PathsOf([]), s) == []
  {
    assert PathsOf([]) == [];
  }

  lemma OnlyNew(files: seq<FileEntry>)
    ensures Surviving([], files) + New([], files) == PathsOf(files)
  {
    NoPaths(Paths(files));
    hide Keep, PathsOf;
    KeepAll(PathsOf(files), Paths(files) - Paths([]));
  }

  /** The first load is in the order of the list. */
  lemma FirstLoad(before: Db, db: Db, title: nat, files: seq<FileEntry>, loaded: seq<FileEntry>)
    requires Reloads(before, db, title, files, [], loaded)
    ensures PathsOf(loaded) == PathsOf(files)
  {
    LoadedInOrder(before, db, title, files, [], loaded);
    hide *;
    OnlyNew(files);
  }

  lemma FirstThenSecond(a: string, b: string, files: seq<FileEntry>, previous: seq<FileEntry>)
    requires a != b && PathsOf(files) == [a, b] && PathsOf(previous) == [b]
    ensures Surviving(previous, files) + New(previous, files) == [b, a]
  {
    assert Paths(files) == {a, b} && Paths(previous) == {b} && {a, b} - {b} == {a};
    KeepAll([b], {a, b});
    assert [a, b][1..] == [b] && [b][1..] == [];
    assert Keep([b], {a}) == [];
    assert Keep([a, b], {a}) == [a];
  }

  /** A new file whose name sorts first is loaded last. */
  method OrderExample() returns (loaded: seq<FileEntry>)
    ensures PathsOf(loaded) == ["b", "a"] && !Increasing(PathsOf(loaded), PathBefore)
  {
    var lib := new Library(1);
    var title := lib.EnsureTitle("t");
    var a, b := FileEntry(0, "a", 0, 1, Blake3([]), []), FileEntry(0, "b", 0, 1, Blake3([]), []);
    ghost var empty := lib.db;
    assert Loads(empty, title, []);
    assert PathsOf([b]) == ["b"] && PathsOf([a, b]) == ["a", "b"];
    assert PathBefore("a", "b");
    Unsorted();
    hide *;
    TwoDistinct(a, b);
    lib.ReplaceManifest(title, [b], 0, 1, 1, None);
    ghost var before := lib.db;
    var first := lib.LoadManifest(title);
    ReloadsBy(empty, before, title, [b], [], first.value.files);
    FirstLoad(empty, before, title, [b], first.value.files);
    lib.ReplaceManifest(title, [a, b], 0, 2, 2, None);
    var second := lib.LoadManifest(title);
    loaded := second.value.files;
    ReloadsBy(before, lib.db, title, [a, b], first.value.files, loaded);
    LoadedInOrder(before, lib.db, title, [a, b], first.value.files, loaded);
    FirstThenSecond("a", "b", [a, b], first.value.files);
  }

  lemma Unsorted()
    ensures !Increasing(["b", "a"], PathBefore)
  {
    assert !PathBefore("b", "a");
    assert ["b", "a"][0] == "b" && ["b", "a"][1] == "a";
  }

  lemma TwoDistinct(a: FileEntry, b: FileEntry)
    requires a.relPath != b.relPath
    ensures DistinctPaths([b]) && DistinctPaths([a, b])
  {
  }

  lemma ReloadsBy(before: Db, db: Db, title: nat, files: seq<FileEntry>, previous: seq<FileEntry>,
        loaded: seq<FileEntry>)
    requires DbOk(before) && DistinctPaths(files)
    requires Replaced(before, db, title, files) && ListOrder(before, db, files)
    requires Loads(before, title, previous) && Loads(db, title, loaded)
    ensures Reloads(before, db, title, files, previous, loaded) && DbOk(db)
  {
  }
}
