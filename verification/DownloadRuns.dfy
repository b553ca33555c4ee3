/**
 Whole runs of the download job: what holds after any number of turns in any world, what holds at
 every instant a process could stop at, and where a run with an honest server ends.
 */
module DownloadRuns {
  import opened Hashing
  import opened Manifests
  import opened Storage
  import opened Transfer
  import opened Layout
  import opened JobFacts
  import opened DownloadJob
  import ChunkBitmap

  /** No file system operation of the finalisation is refused. */
  ghost predicate LayoutWorks(world: World) {
    forall t: nat, k: nat :: !world.layoutFault(t, k)
  }

  /** The state at the beginning was sound as far as this title is concerned. */
  ghost predicate SoundStart(m: seq<FileEntry>, key: Key, files: Files, rows: Rows) {
    InstantSound(m, key, Instant(files, rows))
  }

  /**
   Safety over any number of turns in any world: whatever peers and server return, whichever writes
   fail, and whenever pause and cancel come, no instant since the start ever claims a chunk that is
   not on disk. A process stop is a stop at one of these instants, or within a write that leads to
   the next one. When the job has ended, the remaining turns are time in which a write task that an
   interrupt has detached goes on writing.
   */
  method RunFor(job: Job, n: nat) returns (step: Step)
    requires job.Valid() && (job.writer.None? ==> job.Flagged())
    modifies job, job.machine, job.pool, job.bitmap
    ensures job.Valid()
    ensures job.startSound ==> BitsHeld(job.manifest.files, job.machine.files, job.bitmap.Present())
    ensures job.startSound ==> InstantsSound(job.manifest.files, job.key, job.machine.instants, job.since)
    ensures old(job.machine.instants) <= job.machine.instants
    ensures job.have == |job.bitmap.Present()| && job.bytesDone == job.bytesStart + job.fromServer + job.fromPeers
    ensures job.bytesDone == HeldBytes(job.locators, job.bitmap.Present()) <==> !job.fileFailed
  {
    hide *;
    step := Again;
    var i := 0;
    while i < n
      invariant job.Valid() && (step == Again && job.writer.None? ==> job.Flagged())
      invariant old(job.machine.instants) <= job.machine.instants
    {
      if step == Again {
        step := job.Iterate();
      } else {
        OnlyLingering(job);
      }
      i := i + 1;
    }
    Honoured(job);
  }

  method OnlyLingering(job: Job)
    requires job.Valid()
    modifies job`tick, job`late, job.machine, job.pool
    ensures job.Valid()
    ensures old(job.machine.instants) <= job.machine.instants
  {
    hide *;
    ghost var files, instants := job.machine.files, job.machine.instants;
    job.Linger();
    AdvancedImproves(job.manifest.files, files, instants, job.machine.files, job.machine.instants, job.machine.rows);
  }

  lemma Honoured(job: Job)
    requires job.Valid()
    ensures job.bitmap.Valid()
    ensures job.startSound ==> BitsHeld(job.manifest.files, job.machine.files, job.bitmap.Present())
    ensures job.startSound ==> InstantsSound(job.manifest.files, job.key, job.machine.instants, job.since)
    ensures job.have == |job.bitmap.Present()| && job.bytesDone == job.bytesStart + job.fromServer + job.fromPeers
    ensures job.bytesDone == HeldBytes(job.locators, job.bitmap.Present()) <==> !job.fileFailed
  {
    job.BitmapValid();
    job.SoundNow();
    job.CounterIsHeldBytes();
    hide Held, Usable, WritesSafe, BitsHeld, InstantsSound, job.Valid;
  }

  /** A write attempt for a chunk of the manifest. */
  datatype Attempt = Attempt(gidx: nat, data: Data, fault: Fault)

  function AfterAttempts(m: seq<FileEntry>, files: Files, attempts: seq<Attempt>): Files
    requires forall i | 0 <= i < |attempts| :: attempts[i].gidx < |Locators(m)|
  {
    if attempts == [] then files
    else
      var a := attempts[|attempts| - 1];
      var loc, before := Locators(m)[a.gidx], AfterAttempts(m, files, attempts[..|attempts| - 1]);
      AfterWrite(before, loc.relPath, loc.offset, a.data, loc.hash, a.fault)
  }

  /**
   Whatever a detached write task still does before or while the process stops, also in the middle
   of a write, no chunk on disk is lost.
   */
  lemma {:induction false} AttemptsKeepHeld(m: seq<FileEntry>, files: Files, attempts: seq<Attempt>)
    requires Usable(m) && SizesBind(m)
    requires forall i | 0 <= i < |attempts| ::
               attempts[i].gidx < |Locators(m)| && (attempts[i].fault.WriteFault? ==> Binding(m))
    ensures KeepsHeld(m, files, AfterAttempts(m, files, attempts))
  {
    hide Usable, SizesBind, Binding, Locators, AfterWrite, Held, Grows;
    if attempts == [] {
      KeepsHeldReflexive(m, files);
    } else {
      var n := |attempts| - 1;
      AttemptsKeepHeld(m, files, attempts[..n]);
      var before := AfterAttempts(m, files, attempts[..n]);
      AttemptImproves(m, before, attempts[n].gidx, attempts[n].data, attempts[n].fault);
      KeepsHeldTransitive(m, files, before, AfterAttempts(m, files, attempts));
    }
  }

  /**
   A process stop: the saved rows are those of a recorded instant of a soundly started job, and the
   disk is the one of that instant or what later verified writes, of a detached task for example,
   have made of it. A start from there is a sound start again.
   */
  method Restart(job: Job, files: Files, rows: Rows, world: World, destExists: bool) returns (again: Job)
    requires job.Valid() && job.startSound
    requires exists i :: job.since <= i < |job.machine.instants| && job.machine.instants[i].rows == rows &&
                         KeepsHeld(job.manifest.files, job.machine.instants[i].files, files)
    requires StaleOk(world, |job.locators|) && WritesSafe(job.manifest.files, world)
    ensures again.Valid() && again.startSound && again.writer.Some? && again.Converging()
    ensures again.manifest == job.manifest && again.key == job.key && fresh(again.machine)
    ensures again.machine.files == files
  {
    ghost var i :| job.since <= i < |job.machine.instants| && job.machine.instants[i].rows == rows &&
                   KeepsHeld(job.manifest.files, job.machine.instants[i].files, files);
    Honoured(job);
    job.BitmapValid();
    job.StaticParts();
    hide *;
    SoundAt(job.manifest.files, job.key, job.machine.instants, job.since, i, files);
    var machine := new Machine(files, rows);
    again := new Job(job.manifest, world, machine, job.key, job.dest, destExists);
  }

  lemma SoundAt(m: seq<FileEntry>, key: Key, instants: seq<Instant>, from: nat, i: nat, files: Files)
    requires InstantsSound(m, key, instants, from) && from <= i < |instants|
    requires KeepsHeld(m, instants[i].files, files)
    ensures InstantSound(m, key, Instant(files, instants[i].rows))
  {
    hide BitsHeld, KeepsHeld, RowBits;
    assert InstantSound(m, key, instants[i]);
    BitsStayHeld(m, instants[i].files, files, RowBits(instants[i].rows, key));
  }

  /**
   With a server that answers correctly and a working disk the loop ends: each pass either gets a
   new chunk or is interrupted, and at most `MAX_TRIES` validations fail. It completes exactly if
   no empty entry was occupied by a non-empty file at the start.
   */
  method RunToEnd(job: Job) returns (outcome: Outcome)
    requires job.Valid() && job.Converging() && (job.writer.None? ==> job.Flagged())
    requires job.Honest() && LayoutWorks(job.world)
    modifies job, job.machine, job.pool, job.bitmap
    ensures job.Valid()
    ensures old(job.machine.instants) <= job.machine.instants
    ensures outcome == Stopped ==> job.Flagged() && job.SavedAs("paused")
    ensures outcome != Stopped ==> (outcome == Completed <==> job.noneOccupied)
    ensures outcome != LayoutFailed
    ensures outcome == ValidationFailed ==> !AllOk(ValidateQuick(job.manifest, job.machine.files))
    ensures outcome == Completed ==> job.CompletedOk() && job.validateTries <= (if job.startSound then 0 else 1)
    ensures job.bitmap.Valid() && job.AskedOnlyMissing()
  {
    hide *;
    Limits();
    var step: Step := Again;
    EnterRun(job);
    while step == Again
      invariant RunState(job, step)
      invariant job.Honest() && LayoutWorks(job.world)
      invariant old(job.machine.instants) <= job.machine.instants
      decreases step == Again, MAX_TRIES - job.validateTries, !job.Flagged(), |job.locators| - job.have
    {
      InRun(job, step);
      step := Turn(job);
    }
    InRun(job, step);
    outcome := step.outcome;
  }

  /** Between two turns of a run with an honest server, or at its end. */
  ghost predicate RunState(job: Job, step: Step)
    reads job, job.machine, job.bitmap, job.pool
  {
    && job.Valid() && (job.writer.None? ==> job.Flagged())
    && job.validateTries <= MAX_TRIES && job.have <= |job.locators|
    && job.bitmap.Valid() && job.AskedOnlyMissing()
    && match step
       case Again => job.Converging()
       case Finished(Stopped) => job.Flagged() && job.SavedAs("paused")
       case Finished(Completed) => job.noneOccupied && job.CompletedOk() &&
           job.validateTries <= (if job.startSound then 0 else 1)
       case Finished(ValidationFailed) => !job.noneOccupied && !AllOk(ValidateQuick(job.manifest, job.machine.files))
       case Finished(LayoutFailed) => false
  }

  lemma EnterRun(job: Job)
    requires job.Valid() && job.Converging() && (job.writer.None? ==> job.Flagged())
    ensures RunState(job, Again)
  {
    job.BitmapValid();
    HaveBound(job);
    job.ConvergingParts();
    hide job.Valid, job.Converging, job.AskedOnlyMissing;
  }

  lemma InRun(job: Job, step: Step)
    requires RunState(job, step)
    ensures job.Valid() && (job.writer.None? ==> job.Flagged())
    ensures job.validateTries <= MAX_TRIES && job.have <= |job.locators|
    ensures job.bitmap.Valid() && job.Static() && job.AskedOnlyMissing()
    ensures match step
            case Again => job.Converging()
            case Finished(Stopped) => job.Flagged() && job.SavedAs("paused")
            case Finished(Completed) => job.noneOccupied && job.CompletedOk() &&
                job.validateTries <= (if job.startSound then 0 else 1)
            case Finished(ValidationFailed) =>
              !job.noneOccupied && !AllOk(ValidateQuick(job.manifest, job.machine.files))
            case Finished(LayoutFailed) => false
  {
    job.BitmapValid();
    hide job.Valid, job.Converging, job.AskedOnlyMissing;
  }

  /** One turn; a turn that does not end the run makes progress. */
  method Turn(job: Job) returns (step: Step)
    requires RunState(job, Again)
    requires job.Honest() && LayoutWorks(job.world)
    modifies job, job.machine, job.pool, job.bitmap
    ensures RunState(job, step)
    ensures old(job.machine.instants) <= job.machine.instants
    ensures step == Again ==>
              || job.validateTries > old(job.validateTries)
              || (job.validateTries == old(job.validateTries) && !old(job.Flagged()) &&
                  (job.Flagged() || job.have > old(job.have)))
  {
    hide *;
    InRun(job, Again);
    job.ConvergingParts();
    Limits();
    step := job.Iterate();
    job.BitmapValid();
    NoLayoutFault(job.world);
    Reached(job, step);
  }

  lemma Reached(job: Job, step: Step)
    requires job.Valid() && (job.writer.None? ==> job.Flagged())
    requires job.validateTries <= MAX_TRIES && job.bitmap.Valid() && job.AskedOnlyMissing()
    requires match step
             case Again => job.bitmap.Valid() && job.Static() && job.Converging()
             case Finished(Stopped) => job.Flagged() && job.SavedAs("paused")
             case Finished(Completed) => job.noneOccupied && job.CompletedOk() &&
                 job.validateTries <= (if job.startSound then 0 else 1)
             case Finished(ValidationFailed) =>
               !job.noneOccupied && !AllOk(ValidateQuick(job.manifest, job.machine.files))
             case Finished(LayoutFailed) => false
    ensures RunState(job, step)
  {
    HaveBound(job);
    hide job.Valid, job.Converging, job.AskedOnlyMissing;
  }

  lemma HaveBound(job: Job)
    requires job.Valid()
    ensures job.have <= |job.locators|
  {
    job.BitmapValid();
    hide *;
    PresentBelow(job.bitmap);
  }

  lemma PresentBelow(bitmap: ChunkBitmap.Bitmap)
    requires bitmap.Valid()
    ensures |bitmap.Present()| <= bitmap.len
  {
    hide ChunkBitmap.WellFormed, ChunkBitmap.Members;
    ChunkBitmap.FullSubset(ChunkBitmap.Below(bitmap.len), bitmap.len);
    assert ChunkBitmap.Below(bitmap.len) == bitmap.Present() + (ChunkBitmap.Below(bitmap.len) - bitmap.Present());
  }

  lemma NoLayoutFault(world: World)
    ensures LayoutWorks(world) ==> !exists t: nat, k: nat :: world.layoutFault(t, k)
  {
  }

  /** The chunks a job starts with, given what is saved. */
  ghost function StartBits(rows: Rows, key: Key, total: nat, destExists: bool): set<nat> {
    if key in rows && rows[key].chunkCount == total && destExists then set g <- RowBits(rows, key) | g < total else {}
  }

  /**
   One whole download of a manifest. The saved state it starts from may be anything; the server is
   honest, peers are arbitrary. Started from a sound state, the job claims nothing false at any
   instant, requests only chunks that were missing, receives exactly the bytes of those it gains,
   and on completion every file equals the source.
   */
  method Download(manifest: Manifest, world: World, machine: Machine, key: Key, dest: string, destExists: bool,
        ghost src: Files)
    returns (outcome: Outcome, job: Job)
    requires Usable(manifest.files) && WritesSafe(manifest.files, world) && SourceOf(manifest.files, src)
    requires StaleOk(world, |Locators(manifest.files)|)
    requires ServerHonest(world, Locators(manifest.files)) && LayoutWorks(world)
    requires forall t: nat :: world.fault(t) == NoFault
    modifies machine
    ensures outcome == Stopped ==> exists t: nat :: world.control(t).pause || world.control(t).cancel
    ensures outcome != Stopped ==> (outcome == Completed <==> NoneOccupied(manifest.files, old(machine.files)))
    ensures outcome != LayoutFailed
    ensures outcome == ValidationFailed ==> !AllOk(ValidateQuick(manifest, machine.files))
    ensures outcome == Completed ==>
              && AllOk(ValidateQuick(manifest, machine.files))
              && key in machine.rows && machine.rows[key].status == "complete"
    ensures job.bitmap.Valid() && job.locators == Locators(manifest.files)
    ensures job.bitmap.Present() <= ChunkBitmap.Below(|job.locators|)
    ensures job.startBits == StartBits(old(machine.rows), key, |job.locators|, destExists)
    ensures outcome == Completed ==> forall g | 0 <= g < |job.locators| :: g in job.bitmap.Present()
    ensures SoundStart(manifest.files, key, old(machine.files), old(machine.rows)) ==>
              && InstantsSound(manifest.files, key, machine.instants, |old(machine.instants)|)
              && job.asked <= ChunkBitmap.Below(|job.locators|) && job.asked !! job.startBits
              && job.fromServer + job.fromPeers == HeldBytes(job.locators, job.bitmap.Present() - job.startBits)
              && (outcome == Completed && Binding(manifest.files) ==> Equals(manifest.files, machine.files, src))
  {
    hide *;
    ghost var files, rows := machine.files, machine.rows;
    job := new Job(manifest, world, machine, key, dest, destExists);
    SoundStartIs(manifest.files, key, files, rows);
    StartBitsAre(rows, key, |job.locators|, destExists);
    job.BitmapValid();
    job.StaticParts();
    HonestIs(job);
    outcome := RunToEnd(job);
    Honoured(job);
    job.BitmapValid();
    QuietOrAsked(job);
    AskedMissing(job);
    if outcome == Completed {
      CompletedIs(job);
      if job.startSound && Binding(manifest.files) {
        CompletedEqualsSource(manifest, machine.files, src, job.bitmap.Present());
      }
    }
  }

  lemma StartBitsAre(rows: Rows, key: Key, total: nat, destExists: bool)
    ensures StartBits(rows, key, total, destExists) ==
              if key in rows && rows[key].chunkCount == total && destExists
              then set g <- RowBits(rows, key) | g < total else {}
  {
  }

  lemma AskedMissing(job: Job)
    requires job.Valid() && job.bitmap.Valid() && job.AskedOnlyMissing()
    ensures job.startSound ==>
              && job.asked <= ChunkBitmap.Below(|job.locators|) && job.asked !! job.startBits
              && job.startBits <= job.bitmap.Present()
              && job.fromServer + job.fromPeers == HeldBytes(job.locators, job.bitmap.Present() - job.startBits)
  {
    hide job.Valid, HeldBytes;
    if job.startSound {
      job.ReceivedIsGained();
    }
  }

  lemma SoundStartIs(m: seq<FileEntry>, key: Key, files: Files, rows: Rows)
    ensures SoundStart(m, key, files, rows) <==> InstantSound(m, key, Instant(files, rows))
  {
  }

  lemma HonestIs(job: Job)
    requires ServerHonest(job.world, job.locators) && forall t: nat :: job.world.fault(t) == NoFault
    ensures job.Honest()
  {
  }

  lemma QuietOrAsked(job: Job)
    requires job.Valid()
    ensures job.Flagged() ==> exists t: nat :: job.world.control(t).pause || job.world.control(t).cancel
  {
    job.SoundNow();
    hide job.Valid;
  }

  lemma CompletedIs(job: Job)
    requires job.CompletedOk()
    ensures job.bitmap.Valid() && forall g | 0 <= g < |job.locators| :: g in job.bitmap.Present()
    ensures AllOk(ValidateQuick(job.manifest, job.machine.files))
    ensures job.key in job.machine.rows && job.machine.rows[job.key].status == "complete"
  {
    hide RowBits;
  }

  /**
   The progress counter can exceed the bytes of the set bits: whenever the saved bitmap is full but a
   non-empty file is not there in full length, the first validation clears that file's chunks and
   leaves the counter as it is.
   */
  method OvercountAfterFailure(manifest: Manifest, world: World, machine: Machine, key: Key, dest: string, ghost k: nat)
    returns (step: Step, job: Job)
    requires Usable(manifest.files) && WritesSafe(manifest.files, world) && StaleOk(world, |Locators(manifest.files)|)
    requires LayoutWorks(world)
    requires StartBits(machine.rows, key, |Locators(manifest.files)|, true) ==
               ChunkBitmap.Below(|Locators(manifest.files)|)
    requires k < |manifest.files| && manifest.files[k].size > 0 && !LongEnough(machine.files, manifest.files[k])
    modifies machine
    ensures job.Valid() && job.bitmap.Valid()
    ensures job.bytesDone > HeldBytes(job.locators, job.bitmap.Present())
  {
    hide *;
    StartBitsAre(machine.rows, key, |Locators(manifest.files)|, true);
    ghost var files := machine.files;
    job := new Job(manifest, world, machine, key, dest, true);
    job.BitmapValid();
    job.StaticParts();
    AllBelow(job.bitmap, |job.locators|);
    step := job.FinishOrRetry();
    NoLayoutFault(world);
    ShortFileFails(manifest, files, k);
    job.BitmapValid();
    job.CounterIsHeldBytes();
  }

  lemma AllBelow(bitmap: ChunkBitmap.Bitmap, n: nat)
    requires bitmap.Valid() && bitmap.Present() == ChunkBitmap.Below(n)
    ensures forall g | 0 <= g < n :: g in bitmap.Present()
  {
    hide ChunkBitmap.WellFormed, ChunkBitmap.Members;
  }

  lemma ShortFileFails(manifest: Manifest, files: Files, k: nat)
    requires Usable(manifest.files) && k < |manifest.files| && manifest.files[k].size > 0
    requires !LongEnough(files, manifest.files[k])
    ensures NonEmptyFails(manifest, Finalized(files, manifest.files))
  {
    QuickAfterFinalize(manifest, files, k);
    hide *;
    FailsAt(manifest, Finalized(files, manifest.files), k);
  }

  lemma FailsAt(m: Manifest, files: Files, k: nat)
    requires k < |m.files| && m.files[k].size > 0 && QuickCheck(files, m.files[k]) != CheckOk
    ensures NonEmptyFails(m, files)
  {
    hide QuickCheck;
  }
}
