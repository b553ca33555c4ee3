/**
 Repairing a downloaded title: the saved bitmap is rebuilt from what is really on disk and the
 download resumes for the rest.
 */
module Repair {
  import opened Hashing
  import opened Paths
  import opened Manifests
  import opened Storage
  import opened Transfer
  import opened Layout
  import opened JobFacts
  import opened DownloadJob
  import DownloadRuns
  import ChunkBitmap

  /** The chunks a repair has to fetch. */
  ghost function BadChunks(m: seq<FileEntry>, files: Files): set<nat> {
    set g | 0 <= g < |Locators(m)| && !Held(files, Locators(m)[g])
  }

  /** Marks every chunk present and the bad ones absent. */
  method MarkAll(bm: ChunkBitmap.Bitmap, total: nat, bad: seq<nat>)
    requires bm.Valid()
    modifies bm
    ensures bm.Valid() && bm.len == old(bm.len)
    ensures forall g: nat | g < total && g < bm.len :: g in bm.Present() <==> g !in bad
  {
    hide *;
    for i := 0 to total
      invariant bm.Valid() && bm.len == old(bm.len)
      invariant forall g: nat | g < i && g < bm.len :: g in bm.Present()
    {
      bm.Set(i);
    }
    for i := 0 to |bad|
      invariant bm.Valid() && bm.len == old(bm.len)
      invariant forall g: nat | g < total && g < bm.len :: g in bm.Present() <==> g !in bad[..i]
    {
      bm.Clear(bad[i]);
    }
    assert bad[..|bad|] == bad;
  }

  /**
   Rebuilds the saved bitmap of a title that has one. Afterwards a chunk is claimed exactly if it
   is on disk, whatever was claimed before, and the result counts the others.
   */
  method RepairTitle(m: Manifest, machine: Machine, key: Key) returns (r: Option<nat>)
    modifies machine
    ensures machine.files == old(machine.files)
    ensures r.None? <==> key !in old(machine.rows)
    ensures r.None? ==> machine.rows == old(machine.rows)
    ensures r.Some? ==>
              && r.value == |BadChunks(m.files, machine.files)|
              && key in machine.rows && machine.rows == old(machine.rows)[key := machine.rows[key]]
              && machine.rows[key].status == "paused"
              && machine.rows[key].chunkCount == old(machine.rows)[key].chunkCount
              && (forall g: nat | g < |Locators(m.files)| && g < machine.rows[key].chunkCount ::
                    g in RowBits(machine.rows, key) <==> Held(machine.files, Locators(m.files)[g]))
    ensures r.Some? ==> InstantSound(m.files, key, Instant(machine.files, machine.rows))
  {
    hide Held, Locators, ChunkBitmap.Unpack, ChunkBitmap.Members, ChunkBitmap.WellFormed;
    if key !in machine.rows {
      return None;
    }
    var row := machine.rows[key];
    var bad := RepairPlan(m, machine);
    var locs := ChunkLocators(m);
    var bm := new ChunkBitmap.Bitmap.FromBytes(row.chunkCount, row.bitmap);
    MarkAll(bm, |locs|, bad);
    machine.SaveRow(key, DownloadRow(bm.len, bm.bytes, "paused", row.dest, None));
    assert RowBits(machine.rows, key) == bm.Present();
    IncreasingCount(bad, BadChunks(m.files, machine.files));
    return Some(|bad|);
  }

  lemma {:induction false} IncreasingCount(s: seq<nat>, all: set<nat>)
    requires ChunkBitmap.StrictlyIncreasing(s) && forall g: nat :: g in s <==> g in all
    ensures |s| == |all|
  {
    if s == [] {
      assert all == {};
    } else {
      var n := |s| - 1;
      forall g: nat
        ensures g in s[..n] <==> g in all - {s[n]}
      {
        if g in s[..n] {
          var i :| 0 <= i < n && s[i] == g;
        }
      }
      IncreasingCount(s[..n], all - {s[n]});
      assert s[n] in s;
    }
  }

  /**
   Repair followed by the resumed download, with an honest server. Nothing is resumed if nothing was
   bad, and then neither is the layout finalised. So unless the run is interrupted, deep validation
   passes afterwards exactly if no empty entry is occupied and either a chunk was bad or every file
   already had its length. Only bad chunks are requested, and exactly their bytes are received.
   */
  method RepairAndResume(manifest: Manifest, world: World, machine: Machine, key: Key, dest: string, ghost src: Files)
    returns (count: nat, outcome: Option<Outcome>, ghost asked: set<nat>, received: nat)
    requires Usable(manifest.files) && Binding(manifest.files) && FileBinding(manifest.files)
    requires SourceOf(manifest.files, src)
    requires key in machine.rows
    requires StaleOk(world, |Locators(manifest.files)|)
    requires ServerHonest(world, Locators(manifest.files)) && DownloadRuns.LayoutWorks(world)
    requires forall t: nat :: world.fault(t) == NoFault
    modifies machine
    ensures count == |BadChunks(manifest.files, old(machine.files))|
    ensures outcome.None? <==> count == 0
    ensures outcome.Some? && outcome != Some(Stopped) ==>
              (outcome == Some(Completed) <==> NoneOccupied(manifest.files, old(machine.files)))
    ensures outcome == Some(Completed) ==> Equals(manifest.files, machine.files, src)
    ensures count == 0 ==>
              && machine.files == old(machine.files)
              && (AllOk(ValidateDeep(manifest, machine.files)) <==> AllOk(ValidateQuick(manifest, machine.files)))
    ensures outcome != Some(Stopped) ==>
              (AllOk(ValidateDeep(manifest, machine.files)) <==>
                 && NoneOccupied(manifest.files, old(machine.files))
                 && (count > 0 || AllOk(ValidateQuick(manifest, old(machine.files)))))
    ensures old(machine.rows)[key].chunkCount == |Locators(manifest.files)| ==>
              var bad := BadChunks(manifest.files, old(machine.files));
              && asked <= bad
              && (outcome.None? || outcome == Some(Completed) ==> received == HeldBytes(Locators(manifest.files), bad))
  {
    hide *;
    ghost var files := machine.files;
    NothingBadIsQuick(manifest, files, src);
    BindingIsSafe(manifest.files, world);
    var repaired := RepairTitle(manifest, machine, key);
    count, outcome, asked, received := repaired.value, None, {}, 0;
    NoBadBytes(manifest.files, files);
    if count > 0 {
      DownloadRuns.SoundStartIs(manifest.files, key, machine.files, machine.rows);
      StartsWithGood(manifest.files, files, machine.rows, key);
      var o, job := DownloadRuns.Download(manifest, world, machine, key, dest, true, src);
      DeepIffEqual(manifest, machine.files, src);
      RepairedIffEqual(manifest, machine.files, src);
      outcome, asked, received := Some(o), job.asked, job.fromServer + job.fromPeers;
      OnlyBad(manifest.files, files, job.asked, job.startBits, job.bitmap.Present());
    }
  }

  lemma BindingIsSafe(m: seq<FileEntry>, world: World)
    requires Binding(m)
    ensures WritesSafe(m, world)
  {
    BindingBindsSizes(m);
  }

  /** With every chunk on disk, only a wrong length can make a file differ from the source. */
  lemma NothingBadIsQuick(m: Manifest, files: Files, src: Files)
    requires Usable(m.files) && Binding(m.files) && FileBinding(m.files) && SourceOf(m.files, src)
    ensures BadChunks(m.files, files) == {} ==> (AllOk(ValidateDeep(m, files)) <==> AllOk(ValidateQuick(m, files)))
    ensures AllOk(ValidateQuick(m, files)) ==> NoneOccupied(m.files, files)
  {
    hide *;
    AllHeldIffNothingBad(m.files, files);
    DeepIffEqual(m, files, src);
    RepairedIffEqual(m, files, src);
    if AllOk(ValidateQuick(m, files)) {
      QuickMeansFree(m, files);
    }
  }

  lemma QuickMeansFree(m: Manifest, files: Files)
    requires Usable(m.files) && AllOk(ValidateQuick(m, files))
    ensures NoneOccupied(m.files, files)
  {
    hide SafeJoin;
    forall k | 0 <= k < |m.files|
      ensures !Occupied(files, m.files[k])
    {
      assert ValidateQuick(m, files)[k] == QuickCheck(files, m.files[k]);
    }
  }

  /** The chunks that are on disk. */
  ghost function GoodChunks(m: seq<FileEntry>, files: Files): set<nat> {
    ChunkBitmap.Below(|Locators(m)|) - BadChunks(m, files)
  }

  lemma NoBadBytes(m: seq<FileEntry>, files: Files)
    ensures |BadChunks(m, files)| == 0 ==> BadChunks(m, files) == {} && HeldBytes(Locators(m), BadChunks(m, files)) == 0
  {
    hide BadChunks, Locators;
    HeldBytesNone(Locators(m));
  }

  /** After a repair whose row has the right length, a job starts with exactly the good chunks. */
  lemma StartsWithGood(m: seq<FileEntry>, files: Files, rows: Rows, key: Key)
    requires key in rows
    requires forall g: nat | g < |Locators(m)| && g < rows[key].chunkCount ::
               g in RowBits(rows, key) <==> Held(files, Locators(m)[g])
    ensures rows[key].chunkCount == |Locators(m)| ==>
              DownloadRuns.StartBits(rows, key, |Locators(m)|, true) == GoodChunks(m, files)
  {
    hide Held, Locators, RowBits;
  }

  lemma OnlyBad(m: seq<FileEntry>, files: Files, asked: set<nat>, start: set<nat>, present: set<nat>)
    requires asked <= ChunkBitmap.Below(|Locators(m)|) && asked !! start && present <= ChunkBitmap.Below(|Locators(m)|)
    ensures start == GoodChunks(m, files) ==>
              && asked <= BadChunks(m, files)
              && ((forall g | 0 <= g < |Locators(m)| :: g in present) ==> present - start == BadChunks(m, files))
  {
    hide Held, Locators;
  }

  /**
   A repair does not see trailing bytes: a file with the right chunk and one byte too many is reported
   free of bad chunks although deep validation fails, and nothing is resumed that could cut it.
   */
  lemma TrailingByteIsNotRepaired(path: string, b: Byte, extra: Byte)
    requires SafeJoin(path).Some? && Blake3([b, extra]) != Blake3([b])
    ensures var f := FileEntry(1, path, 1, 0, Blake3([b]), [ChunkEntry(0, 0, 1, Blake3([b]))]);
            var m := Manifest(1, 1, 1, 1, 1, [f]);
            var files := map[SafeJoin(path).value := [b, extra]];
            && Usable(m.files) && NoneOccupied(m.files, files)
            && BadChunks(m.files, files) == {}
            && !AllOk(ValidateDeep(m, files)) && AllOk(ValidateDeep(m, Finalized(files, m.files)))
  {
    hide SafeJoin;
    var f := FileEntry(1, path, 1, 0, Blake3([b]), [ChunkEntry(0, 0, 1, Blake3([b]))]);
    var m := Manifest(1, 1, 1, 1, 1, [f]);
    var p := SafeJoin(path).value;
    var files := map[p := [b, extra]];
    assert f.chunks[..0] == [] && f.chunks[..1] == f.chunks && SumChunks(f.chunks) == 1;
    assert files[p][0..1] == [b];
    forall g | 0 <= g < |Locators(m.files)|
      ensures Held(files, Locators(m.files)[g])
    {
      var k, j := LocatorFacts(m.files, g);
    }
    assert ValidateDeep(m, files)[0] == ContentMismatch;
    assert m.files[..0] == [];
    assert Finalized(files, m.files) == FinalizeFile(files, f) && files[p][..1] == [b];
  }

  /** An empty repair plan on the finalised layout is as good as deep validation. */
  lemma NothingBadMeansDeepValid(m: Manifest, files: Files, src: Files)
    requires Usable(m.files) && Binding(m.files) && FileBinding(m.files) && SourceOf(m.files, src)
    ensures AllOk(ValidateDeep(m, Finalized(files, m.files)))
       <==> BadChunks(m.files, Finalized(files, m.files)) == {} && NoneOccupied(m.files, files)
  {
    DeepAfterFinalize(m, files, src);
    AllHeldIffNothingBad(m.files, Finalized(files, m.files));
  }

  lemma AllHeldIffNothingBad(m: seq<FileEntry>, files: Files)
    ensures AllHeld(m, files) <==> BadChunks(m, files) == {}
  {
    hide Held, Locators;
    assert forall g: nat | g < |Locators(m)| :: g in BadChunks(m, files) <==> !Held(files, Locators(m)[g]);
  }
}
