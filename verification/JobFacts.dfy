/**
 Facts about disk, bitmap and saved rows that the download job maintains, stated on values.
 */
module JobFacts {
  import opened Paths
  import opened Manifests
  import opened Storage
  import opened Transfer
  import opened Layout
  import ChunkBitmap

  // ----- bits and the disk -----

  /** Every chunk in the set is on disk with the right content. */
  ghost predicate BitsHeld(m: seq<FileEntry>, files: Files, bits: set<nat>) {
    forall g | g in bits && g < |Locators(m)| :: Held(files, Locators(m)[g])
  }

  /** The chunks a saved row claims. */
  ghost function RowBits(rows: Rows, key: Key): set<nat> {
    if key in rows then ChunkBitmap.Members(ChunkBitmap.Unpack(rows[key].bitmap)) else {}
  }

  /** What a stop at this instant would leave behind is sound: no claimed chunk is missing or wrong. */
  ghost predicate InstantSound(m: seq<FileEntry>, key: Key, inst: Instant) {
    BitsHeld(m, inst.files, RowBits(inst.rows, key))
  }

  ghost predicate InstantsSound(m: seq<FileEntry>, key: Key, instants: seq<Instant>, from: nat) {
    forall i | from <= i < |instants| :: InstantSound(m, key, instants[i])
  }

  /** A bitmap taken from a sound instant is true of the disk. */
  lemma SoundInstantSoundBits(m: seq<FileEntry>, key: Key, files: Files, rows: Rows, bits: set<nat>)
    ensures InstantSound(m, key, Instant(files, rows)) && bits <= RowBits(rows, key) ==> BitsHeld(m, files, bits)
    ensures BitsHeld(m, files, {})
  {
    hide Held, RowBits;
  }

  lemma NoInstants(m: seq<FileEntry>, key: Key, instants: seq<Instant>)
    ensures InstantsSound(m, key, instants, |instants|)
  {
  }

  /** Verified writes happened: the disk improved, and every recorded instant kept what was held. */
  ghost predicate Advanced(m: seq<FileEntry>, a: Files, before: seq<Instant>, b: Files, after: seq<Instant>,
        rows: Rows) {
    && Improves(m, a, b)
    && before <= after
    && InstantsKeep(m, after, |before|, a, rows)
  }

  lemma AdvancedReflexive(m: seq<FileEntry>, a: Files, instants: seq<Instant>, rows: Rows)
    ensures Advanced(m, a, instants, a, instants, rows)
  {
  }

  lemma AdvancedTransitive(m: seq<FileEntry>, a: Files, ia: seq<Instant>, b: Files, ib: seq<Instant>, c: Files,
        ic: seq<Instant>, rows: Rows)
    requires Advanced(m, a, ia, b, ib, rows) && Advanced(m, b, ib, c, ic, rows)
    ensures Advanced(m, a, ia, c, ic, rows)
  {
  }

  lemma AdvancedImproves(m: seq<FileEntry>, a: Files, ia: seq<Instant>, b: Files, ib: seq<Instant>, rows: Rows)
    requires Advanced(m, a, ia, b, ib, rows)
    ensures Improves(m, a, b) && ia <= ib
  {
  }

  lemma BitsStayHeld(m: seq<FileEntry>, a: Files, b: Files, bits: set<nat>)
    requires BitsHeld(m, a, bits) && KeepsHeld(m, a, b)
    ensures BitsHeld(m, b, bits)
  {
    hide Held;
  }

  lemma FewerBitsHeld(m: seq<FileEntry>, files: Files, bits: set<nat>, fewer: set<nat>)
    requires BitsHeld(m, files, bits) && fewer <= bits
    ensures BitsHeld(m, files, fewer)
  {
    hide Held;
  }

  lemma MoreBitsHeld(m: seq<FileEntry>, files: Files, bits: set<nat>, more: set<nat>)
    requires BitsHeld(m, files, bits) && BitsHeld(m, files, more)
    ensures BitsHeld(m, files, bits + more)
  {
    hide Held;
  }

  /** Soundness of the saved row survives any number of verified writes, at every instant. */
  lemma SoundnessSurvives(m: seq<FileEntry>, key: Key, a: Files, ia: seq<Instant>, b: Files, ib: seq<Instant>,
        rows: Rows, from: nat)
    requires ia <= ib && KeepsHeld(m, a, b) && InstantsKeep(m, ib, |ia|, a, rows)
    requires InstantsSound(m, key, ia, from) && BitsHeld(m, a, RowBits(rows, key))
    ensures InstantsSound(m, key, ib, from) && BitsHeld(m, b, RowBits(rows, key))
  {
  }

  // ----- progress of a pass -----

  /** From `(a, pa)` to `(b, pb)`: bits were only added, and each new bit is held. */
  ghost predicate Gained(m: seq<FileEntry>, a: Files, pa: set<nat>, b: Files, pb: set<nat>) {
    Improves(m, a, b) && pa <= pb && BitsHeld(m, b, pb - pa)
  }

  lemma GainedReflexive(m: seq<FileEntry>, a: Files, pa: set<nat>)
    ensures Gained(m, a, pa, a, pa)
  {
  }

  lemma GainedTransitive(m: seq<FileEntry>, a: Files, pa: set<nat>, b: Files, pb: set<nat>, c: Files, pc: set<nat>)
    requires Gained(m, a, pa, b, pb) && Gained(m, b, pb, c, pc)
    ensures Gained(m, a, pa, c, pc)
  {
    hide Held, Grows;
    ImprovesTransitive(m, a, b, c);
  }

  lemma GainedIs(m: seq<FileEntry>, a: Files, pa: set<nat>, b: Files, pb: set<nat>)
    requires Improves(m, a, b) && pa <= pb && BitsHeld(m, b, pb - pa)
    ensures Gained(m, a, pa, b, pb)
  {
  }

  lemma GainedAdds(m: seq<FileEntry>, a: Files, pa: set<nat>, b: Files, pb: set<nat>)
    requires Gained(m, a, pa, b, pb)
    ensures pa <= pb
  {
  }

  lemma GainedThenImproved(m: seq<FileEntry>, a: Files, pa: set<nat>, b: Files, c: Files, pb: set<nat>)
    requires Gained(m, a, pa, b, pb) && Improves(m, b, c)
    ensures Gained(m, a, pa, c, pb)
  {
    hide Held, Grows;
    ImprovesTransitive(m, a, b, c);
  }

  /**
   A file is settled when either it already has its full length or every bit set for one of its
   chunks is true. A settled file cannot fail quick validation once all bits are set.
   */
  ghost predicate FileSettled(m: seq<FileEntry>, files: Files, bits: set<nat>, k: nat)
    requires k < |m| && SafeJoin(m[k].relPath).Some?
  {
    || LongEnough(files, m[k])
    || forall j | 0 <= j < |m[k].chunks| && HeldIndex(m, k, j) in bits :: Held(files, Locators(m)[HeldIndex(m, k, j)])
  }

  ghost predicate Settled(m: seq<FileEntry>, files: Files, bits: set<nat>)
    requires Usable(m)
  {
    forall k | 0 <= k < |m| && m[k].size > 0 :: FileSettled(m, files, bits, k)
  }

  /** With every bit set, settled files are long enough. */
  lemma SettledIsLongEnough(m: seq<FileEntry>, files: Files, bits: set<nat>, k: nat)
    requires Usable(m) && Settled(m, files, bits) && k < |m| && m[k].size > 0
    requires forall g | 0 <= g < |Locators(m)| :: g in bits
    ensures LongEnough(files, m[k])
  {
    hide Held, SafeJoin, LongEnough;
    assert FileSettled(m, files, bits, k);
    if !LongEnough(files, m[k]) {
      HeldFileIsLongEnough(m, files, k);
    }
  }

  // ----- empty entries -----

  /** The contents found at the locations of empty entries are the same. */
  ghost predicate SameEmpties(m: seq<FileEntry>, a: Files, b: Files) {
    forall k | 0 <= k < |m| && m[k].size == 0 && SafeJoin(m[k].relPath).Some? ::
      ContentOf(a, PathOf(m[k])) == ContentOf(b, PathOf(m[k]))
  }

  lemma FinalizeKeepsEmpties(m: seq<FileEntry>, a: Files)
    requires Usable(m)
    ensures SameEmpties(m, a, Finalized(a, m))
  {
    hide SafeJoin;
    forall k | 0 <= k < |m| && m[k].size == 0
      ensures ContentOf(a, PathOf(m[k])) == ContentOf(Finalized(a, m), PathOf(m[k]))
    {
      FinalizedLookup(a, m, PathOf(m[k]));
    }
  }

  ghost predicate NoneOccupied(m: seq<FileEntry>, files: Files)
    requires Usable(m)
  {
    forall k | 0 <= k < |m| :: !Occupied(files, m[k])
  }

  // ----- validation outcomes -----

  /** With all bits set and all files settled, validation after finalisation fails only on occupied empty entries. */
  lemma SettledValidates(m: Manifest, files: Files, bits: set<nat>)
    requires Usable(m.files) && Settled(m.files, files, bits)
    requires forall g | 0 <= g < |Locators(m.files)| :: g in bits
    ensures AllOk(ValidateQuick(m, Finalized(files, m.files))) <==> NoneOccupied(m.files, files)
    ensures forall k | 0 <= k < |m.files| &&
              m.files[k].size > 0 :: QuickCheck(Finalized(files, m.files), m.files[k]) == CheckOk
  {
    hide SafeJoin, QuickCheck, Settled, LongEnough, Finalized;
    forall k | 0 <= k < |m.files|
      ensures ValidateQuick(m, Finalized(files, m.files))[k] == CheckOk <==> !Occupied(files, m.files[k])
      ensures m.files[k].size > 0 ==> QuickCheck(Finalized(files, m.files), m.files[k]) == CheckOk
    {
      QuickAfterFinalize(m, files, k);
      if m.files[k].size > 0 {
        SettledIsLongEnough(m.files, files, bits, k);
      }
    }
  }

  /** The paths the report flags. */
  ghost function FailedPaths(m: Manifest, files: Files): set<string> {
    set k | 0 <= k < |m.files| && QuickCheck(files, m.files[k]) != CheckOk :: m.files[k].relPath
  }

  /** A file that is not empty fails validation. */
  ghost predicate NonEmptyFails(m: Manifest, files: Files) {
    exists k :: 0 <= k < |m.files| && m.files[k].size > 0 && QuickCheck(files, m.files[k]) != CheckOk
  }

  lemma AllOkNoneFails(m: Manifest, files: Files)
    requires AllOk(ValidateQuick(m, files))
    ensures !NonEmptyFails(m, files)
  {
    hide QuickCheck;
    assert forall k | 0 <= k < |m.files| :: ValidateQuick(m, files)[k] == QuickCheck(files, m.files[k]);
  }

  lemma FailedPathsAre(m: Manifest, files: Files, report: seq<CheckDetail>)
    requires report == ValidateQuick(m, files)
    ensures |report| == |m.files|
    ensures (set k | 0 <= k < |report| && report[k] != CheckOk :: m.files[k].relPath) == FailedPaths(m, files)
  {
    hide QuickCheck;
  }

  /** A chunk that a failed non-empty file has cleared. */
  lemma FailedChunk(m: Manifest, files: Files, k: nat) returns (g: nat)
    requires Usable(m.files) && k < |m.files| && m.files[k].size > 0 && QuickCheck(files, m.files[k]) != CheckOk
    ensures g < |Locators(m.files)| && g in BitsOfPaths(m.files, FailedPaths(m, files)) && Locators(m.files)[g].size > 0
  {
    hide SafeJoin, QuickCheck;
    assert m.files[k].chunks != [];
    LocatorAt(m.files, k, 0);
    g := HeldIndex(m.files, k, 0);
    assert m.files[k].relPath in FailedPaths(m, files);
    var _, _ := LocatorFacts(m.files, g);
  }

  lemma ClearedAreChunks(m: Manifest, files: Files)
    ensures forall g | g in BitsOfPaths(m.files, FailedPaths(m, files)) :: 0 <= g < |Locators(m.files)|
  {
    hide FailedPaths, Locators;
  }

  /** If only empty entries failed, no bit is cleared. */
  lemma EmptyFailuresClearNothing(m: Manifest, files: Files)
    requires Usable(m.files) && !NonEmptyFails(m, files)
    ensures BitsOfPaths(m.files, FailedPaths(m, files)) == {}
  {
    hide Held, SafeJoin, QuickCheck;
    var fs := m.files;
    forall g | 0 <= g < |Locators(fs)|
      ensures Locators(fs)[g].relPath !in FailedPaths(m, files)
    {
      var k, j := LocatorFacts(fs, g);
      assert forall i | 0 <= i < |fs| && i != k :: fs[i].relPath != fs[k].relPath;
    }
  }

  ghost function BitsOfPaths(m: seq<FileEntry>, paths: set<string>): set<nat> {
    set g | 0 <= g < |Locators(m)| && Locators(m)[g].relPath in paths
  }

  /** After clearing the bits of every file that failed validation, all files are settled. */
  lemma ClearingSettles(m: Manifest, files: Files, bits: set<nat>)
    requires Usable(m.files)
    ensures Settled(m.files, files, bits - BitsOfPaths(m.files, FailedPaths(m, files)))
  {
    hide Held, SafeJoin;
    var fs := m.files;
    var cleared := BitsOfPaths(fs, FailedPaths(m, files));
    forall k | 0 <= k < |fs| && fs[k].size > 0
      ensures FileSettled(fs, files, bits - cleared, k)
    {
      if QuickCheck(files, fs[k]) != CheckOk {
        assert fs[k].relPath in FailedPaths(m, files);
        forall j | 0 <= j < |fs[k].chunks|
          ensures HeldIndex(fs, k, j) in cleared
        {
          LocatorAt(fs, k, j);
        }
      }
    }
  }

  lemma SameEmptiesSameOccupied(m: seq<FileEntry>, a: Files, b: Files)
    requires Usable(m) && SameEmpties(m, a, b)
    ensures NoneOccupied(m, a) <==> NoneOccupied(m, b)
  {
    hide SafeJoin;
    assert forall k | 0 <= k < |m| :: Occupied(a, m[k]) <==> Occupied(b, m[k]);
  }

  /** A passed validation shows that no empty entry was occupied. */
  lemma ValidatedMeansFree(m: Manifest, files: Files)
    requires Usable(m.files) && AllOk(ValidateQuick(m, Finalized(files, m.files)))
    ensures NoneOccupied(m.files, files)
  {
    hide SafeJoin, QuickCheck, Finalized, Occupied, LongEnough;
    forall k | 0 <= k < |m.files|
      ensures !Occupied(files, m.files[k])
    {
      QuickAfterFinalize(m, files, k);
      assert ValidateQuick(m, Finalized(files, m.files))[k] == CheckOk;
      if m.files[k].size > 0 {
        NotEmptyNotOccupied(files, m.files[k]);
      }
    }
  }

  lemma NotEmptyNotOccupied(files: Files, f: FileEntry)
    requires SafeJoin(f.relPath).Some? && f.size > 0
    ensures !Occupied(files, f)
  {
  }

  /** All bits held and every length right: the disk equals the source. */
  lemma CompletedEqualsSource(m: Manifest, files: Files, src: Files, bits: set<nat>)
    requires Usable(m.files) && Binding(m.files) && SourceOf(m.files, src)
    requires AllOk(ValidateQuick(m, files)) && BitsHeld(m.files, files, bits)
    requires forall g | 0 <= g < |Locators(m.files)| :: g in bits
    ensures Equals(m.files, files, src)
  {
    hide Held, SafeJoin;
    RepairedIffEqual(m, files, src);
  }
}
