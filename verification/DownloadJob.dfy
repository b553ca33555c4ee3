/**
 The download job: one long loop over a title's missing chunks.

 Everything the job cannot control is a `World` of arbitrary functions of a clock that advances at
 every consultation: what a fetch returns, how a write fails, when pause and cancel are requested,
 how far a write task running in the background has got, and which writes left over from earlier
 runs of the same title still reach the disk while the job waits.
 */
module DownloadJob {
  import opened Hashing
  import opened Paths
  import opened Manifests
  import opened Storage
  import opened Transfer
  import opened Layout
  import opened JobFacts
  import opened PooledWrites
  import Scheduler
  import ChunkBitmap

  const FETCH_CONCURRENCY: nat := 4
  const PERSIST_EVERY: nat := 32
  const SOURCE_FAILURE_LIMIT: nat := 3
  const BATCH_SIZE: nat := 64
  const MAX_TRIES: nat := 3

  /** A fetched chunk on its way to the writer. */
  datatype WriteJob = WriteJob(gidx: nat, source: string, bytes: Data)

  /** The result of writing one chunk, for accounting. */
  datatype WriteDone = WriteDone(gidx: nat, source: string, size: nat, written: bool)

  /** A write task: the writer it has taken, its jobs, and the results so far. */
  datatype WriteTask = WriteTask(writer: PooledWriter, jobs: seq<WriteJob>, done: seq<WriteDone>)

  datatype Control = Control(pause: bool, cancel: bool)

  datatype World = World(
    fetch: (nat, string, nat) -> Option<Data>,
    fault: nat -> Fault,
    layoutFault: (nat, nat) -> bool,
    control: nat -> Control,
    drops: nat -> bool,
    stale: nat -> seq<WriteJob>,
    staleFault: (nat, nat) -> Fault,
    progress: nat -> nat,
    peers: nat -> seq<Scheduler.PeerSource>)

  datatype Outcome = Stopped | Completed | ValidationFailed | LayoutFailed

  datatype Step = Again | Finished(outcome: Outcome)

  type Failures = map<string, nat>

  function Bumped(failures: Failures, source: string): Failures {
    failures[source := (if source in failures then failures[source] else 0) + 1]
  }

  /** No failing write leaves a prefix of its data behind. */
  ghost predicate NoPartialWrites(world: World) {
    && (forall t: nat :: !world.fault(t).WriteFault?)
    && (forall t: nat, i: nat :: !world.staleFault(t, i).WriteFault?)
  }

  /**
   What the digests have to tell apart for writes to be harmless: lengths always, and contents only
   if a failing write can leave a prefix behind.
   */
  ghost predicate WritesSafe(files: seq<FileEntry>, world: World) {
    SizesBind(files) && (Binding(files) || NoPartialWrites(world))
  }

  /**
   Left-over writes come from runs of the same manifest version. Those of an older version are not
   modelled: checked against older digests, they could damage a chunk that is already held.
   */
  ghost predicate StaleOk(world: World, n: nat) {
    forall t: nat, i | 0 <= i < |world.stale(t)| :: world.stale(t)[i].gidx < n
  }

  // ----- write tasks -----

  ghost predicate JobsBelow(jobs: seq<WriteJob>, n: nat) {
    forall i | 0 <= i < |jobs| :: jobs[i].gidx < n
  }

  lemma BelowAt(jobs: seq<WriteJob>, n: nat)
    requires JobsBelow(jobs, n) && jobs != []
    ensures jobs[0].gidx < n && JobsBelow(jobs[1..], n)
  {
  }

  lemma MoreBelow(late: seq<WriteJob>, jobs: seq<WriteJob>, k: nat, n: nat)
    requires JobsBelow(late, n) && JobsOk(jobs, n) && k <= |jobs|
    ensures JobsBelow(late + jobs[k..], n)
  {
  }

  lemma JobInRange(jobs: seq<WriteJob>, n: nat, i: nat)
    requires JobsOk(jobs, n) && i < |jobs|
    ensures jobs[i].gidx < n
  {
  }

  ghost predicate JobsOk(jobs: seq<WriteJob>, n: nat) {
    && (forall i | 0 <= i < |jobs| :: jobs[i].gidx < n)
    && (forall i, j | 0 <= i < j < |jobs| :: jobs[i].gidx < jobs[j].gidx)
  }

  /** Each result belongs to its job, and a success means that the chunk is on disk. */
  ghost predicate DoneOk(m: seq<FileEntry>, files: Files, jobs: seq<WriteJob>, done: seq<WriteDone>, faultless: bool)
    requires JobsOk(jobs, |Locators(m)|)
  {
    && |done| <= |jobs|
    && forall i | 0 <= i < |done| ::
         var loc := Locators(m)[jobs[i].gidx];
         && done[i].gidx == jobs[i].gidx && done[i].source == jobs[i].source && done[i].size == loc.size
         && (done[i].written ==> Held(files, loc))
         && (faultless && Blake3(jobs[i].bytes) == loc.hash ==> done[i].written)
  }

  lemma DoneStays(m: seq<FileEntry>, a: Files, b: Files, jobs: seq<WriteJob>, done: seq<WriteDone>, faultless: bool)
    requires JobsOk(jobs, |Locators(m)|) && DoneOk(m, a, jobs, done, faultless) && KeepsHeld(m, a, b)
    ensures DoneOk(m, b, jobs, done, faultless)
  {
    hide Held;
  }

  /** The chunks whose bytes pass verification. */
  ghost function Verifying(jobs: seq<WriteJob>, locators: seq<ChunkLocator>): set<nat> {
    set i | 0 <= i < |jobs| && jobs[i].gidx < |locators| && Blake3(jobs[i].bytes) == locators[jobs[i].gidx].hash ::
      jobs[i].gidx
  }

  ghost function Targets(jobs: seq<WriteJob>): set<nat> {
    set i | 0 <= i < |jobs| :: jobs[i].gidx
  }

  ghost predicate NotIn(jobs: seq<WriteJob>, bits: set<nat>) {
    forall i | 0 <= i < |jobs| :: jobs[i].gidx !in bits
  }

  // ----- fetching a group -----

  /** The chunks a group of fetches delivered, in order. */
  function GoodFetches(world: World, t: nat, group: seq<Scheduler.Assignment>): seq<WriteJob> {
    if group == [] then []
    else
      var a := group[|group| - 1];
      GoodFetches(world, t, group[..|group| - 1])
      + match world.fetch(t, a.source, a.chunk)
        case Some(bytes) => [WriteJob(a.chunk, a.source, bytes)]
        case None => []
  }

  /** The failure counts after a group of fetches: one more per failed fetch. */
  function FetchFailures(world: World, t: nat, group: seq<Scheduler.Assignment>, failures: Failures): Failures {
    if group == [] then failures
    else
      var a := group[|group| - 1];
      var before := FetchFailures(world, t, group[..|group| - 1], failures);
      if world.fetch(t, a.source, a.chunk).None? then Bumped(before, a.source) else before
  }

  ghost function ChunksIn(group: seq<Scheduler.Assignment>): set<nat> {
    set a | a in group :: a.chunk
  }

  lemma NoChunksYet(plan: seq<Scheduler.Assignment>)
    ensures ChunksIn(plan[..0]) == {}
  {
  }

  lemma MoreChunks(plan: seq<Scheduler.Assignment>, i: nat, next: nat)
    requires i <= next <= |plan|
    ensures ChunksIn(plan[..next]) == ChunksIn(plan[..i]) + ChunksIn(plan[i..next])
  {
    assert plan[..next] == plan[..i] + plan[i..next];
  }

  /** From `before` to `now`, only chunks below `n` and outside `bits` have been requested. */
  ghost predicate AskedOutside(before: set<nat>, now: set<nat>, bits: set<nat>, n: nat) {
    before <= now && (now - before) !! bits && now - before <= ChunkBitmap.Below(n)
  }

  lemma AskedNothing(asked: set<nat>, bits: set<nat>, n: nat)
    ensures AskedOutside(asked, asked, bits, n)
  {
  }

  /** A group of missing chunks is requested. */
  lemma AskedGroup(before: set<nat>, group: seq<Scheduler.Assignment>, bits: set<nat>, n: nat)
    requires Ordered(group, 0, n) && forall i | 0 <= i < |group| :: group[i].chunk !in bits
    ensures AskedOutside(before, before + ChunksIn(group), bits, n)
  {
  }

  lemma AskedMore(a: set<nat>, b: set<nat>, c: set<nat>, bits: set<nat>, more: set<nat>, n: nat)
    requires AskedOutside(a, b, bits, n) && AskedOutside(b, c, more, n) && bits <= more
    ensures AskedOutside(a, c, bits, n)
  {
  }

  ghost predicate Ordered(group: seq<Scheduler.Assignment>, lo: nat, hi: nat) {
    && (forall i | 0 <= i < |group| :: lo <= group[i].chunk < hi)
    && (forall i, j | 0 <= i < j < |group| :: group[i].chunk < group[j].chunk)
  }

  ghost predicate Within(jobs: seq<WriteJob>, lo: nat, hi: nat) {
    forall i | 0 <= i < |jobs| :: lo <= jobs[i].gidx < hi
  }

  /** Every job is for a chunk of the group. */
  ghost predicate FromGroup(jobs: seq<WriteJob>, group: seq<Scheduler.Assignment>) {
    forall i | 0 <= i < |jobs| :: exists k | 0 <= k < |group| :: jobs[i].gidx == group[k].chunk
  }

  lemma GoodFetchesStep(world: World, t: nat, group: seq<Scheduler.Assignment>)
    ensures group != [] ==>
              var a := group[|group| - 1];
              var before := GoodFetches(world, t, group[..|group| - 1]);
              GoodFetches(world, t, group) == match world.fetch(t, a.source, a.chunk)
                                              case Some(bytes) => before + [WriteJob(a.chunk, a.source, bytes)]
                                              case None => before
    ensures GoodFetches(world, t, []) == []
  {
  }

  /** Delivered chunks come from the group, in its order, and the first comes first. */
  lemma GoodFetchesOk(world: World, t: nat, group: seq<Scheduler.Assignment>, lo: nat, hi: nat)
    requires Ordered(group, lo, hi)
    ensures JobsOk(GoodFetches(world, t, group), hi)
    ensures FromGroup(GoodFetches(world, t, group), group)
    ensures Within(GoodFetches(world, t, group), lo, if group == [] then lo else group[|group| - 1].chunk + 1)
    ensures group != [] && world.fetch(t, group[0].source, group[0].chunk).Some? ==>
              GoodFetches(world, t, group) != []
              && GoodFetches(world, t, group)[0] ==
                   WriteJob(group[0].chunk, group[0].source, world.fetch(t, group[0].source, group[0].chunk).value)
  {
    hide GoodFetches;
    FetchesInOrder(world, t, group, lo, hi);
    FetchesFromGroup(world, t, group);
    FirstFetch(world, t, group);
  }

  /** Exactly the answered fetches are delivered, each with the bytes its source sent. */
  lemma {:induction false} GoodFetchesIff(world: World, t: nat, group: seq<Scheduler.Assignment>, job: WriteJob)
    ensures job in GoodFetches(world, t, group) <==>
              exists k :: 0 <= k < |group| && group[k] == Scheduler.Assignment(job.gidx, job.source) &&
                          world.fetch(t, job.source, job.gidx) == Some(job.bytes)
  {
    GoodFetchesStep(world, t, group);
    hide GoodFetches;
    if group != [] {
      var n := |group| - 1;
      GoodFetchesIff(world, t, group[..n], job);
      assert forall k | 0 <= k < n :: group[..n][k] == group[k];
    }
  }

  lemma {:induction false} FetchesInOrder(world: World, t: nat, group: seq<Scheduler.Assignment>, lo: nat, hi: nat)
    requires Ordered(group, lo, hi)
    ensures JobsOk(GoodFetches(world, t, group), hi)
    ensures Within(GoodFetches(world, t, group), lo, if group == [] then lo else group[|group| - 1].chunk + 1)
  {
    GoodFetchesStep(world, t, group);
    hide GoodFetches;
    if group != [] {
      FetchesInOrder(world, t, group[..|group| - 1], lo, hi);
    }
  }

  lemma {:induction false} FetchesFromGroup(world: World, t: nat, group: seq<Scheduler.Assignment>)
    ensures FromGroup(GoodFetches(world, t, group), group)
  {
    GoodFetchesStep(world, t, group);
    hide GoodFetches;
    if group != [] {
      var n := |group| - 1;
      FetchesFromGroup(world, t, group[..n]);
      var before := GoodFetches(world, t, group[..n]);
      forall i | 0 <= i < |before|
        ensures exists k | 0 <= k < n :: before[i].gidx == group[k].chunk
      {
        var k :| 0 <= k < n && before[i].gidx == group[..n][k].chunk;
        assert before[i].gidx == group[k].chunk;
      }
    }
  }

  lemma {:induction false} FirstFetch(world: World, t: nat, group: seq<Scheduler.Assignment>)
    ensures group != [] && world.fetch(t, group[0].source, group[0].chunk).Some? ==>
              GoodFetches(world, t, group) != []
              && GoodFetches(world, t, group)[0] ==
                   WriteJob(group[0].chunk, group[0].source, world.fetch(t, group[0].source, group[0].chunk).value)
  {
    GoodFetchesStep(world, t, group);
    hide GoodFetches;
    if group != [] {
      FirstFetch(world, t, group[..|group| - 1]);
    }
  }

  // ----- sources and results -----

  /** The peers of this pass: those not dropped for repeated failures, all taken to hold the batch. */
  function Sources(peers: seq<Scheduler.PeerSource>, failures: Failures, batch: seq<nat>): seq<Scheduler.PeerSource> {
    if peers == [] then []
    else
      var p, before := peers[|peers| - 1], Sources(peers[..|peers| - 1], failures, batch);
      if p.id in failures && failures[p.id] >= SOURCE_FAILURE_LIMIT then before else before + [HoldingBatch(p, batch)]
  }

  function HoldingBatch(p: Scheduler.PeerSource, batch: seq<nat>): Scheduler.PeerSource {
    p.(have := set g | g in batch)
  }

  /** A peer that has not failed three times since its last success. */
  predicate Trusted(p: Scheduler.PeerSource, failures: Failures) {
    p.id in failures ==> failures[p.id] < 3
  }

  /** The same peer, with the same rate and flags, taken to hold exactly the batch. */
  ghost predicate PassedOn(p: Scheduler.PeerSource, batch: seq<nat>, q: Scheduler.PeerSource) {
    && q.id == p.id && q.throughput == p.throughput && q.reachable == p.reachable && q.serverOnly == p.serverOnly
    && forall g: nat :: g in q.have <==> g in batch
  }

  lemma SourcesStep(peers: seq<Scheduler.PeerSource>, failures: Failures, batch: seq<nat>)
    requires peers != []
    ensures var p, front := peers[|peers| - 1], Sources(peers[..|peers| - 1], failures, batch);
            Sources(peers, failures, batch) ==
              if Trusted(p, failures) then front + [HoldingBatch(p, batch)] else front
  {
    hide HoldingBatch;
  }

  lemma OnlyOnePassedOn(p: Scheduler.PeerSource, batch: seq<nat>, q: Scheduler.PeerSource)
    ensures PassedOn(p, batch, q) <==> q == HoldingBatch(p, batch)
  {
    assert (forall g: nat :: g in q.have <==> g in batch) <==> q.have == set g | g in batch;
  }

  /** Every trusted peer is passed on as it is, and taken to hold every chunk of the batch; nobody else is. */
  lemma {:induction false} SourcesIff(peers: seq<Scheduler.PeerSource>, failures: Failures, batch: seq<nat>,
        q: Scheduler.PeerSource)
    ensures q in Sources(peers, failures, batch) <==>
              exists p :: p in peers && Trusted(p, failures) && PassedOn(p, batch, q)
  {
    if peers != [] {
      var n := |peers| - 1;
      SourcesStep(peers, failures, batch);
      SourcesIff(peers[..n], failures, batch, q);
      OnlyOnePassedOn(peers[n], batch, q);
      hide Sources, Trusted, PassedOn, HoldingBatch;
      assert peers == peers[..n] + [peers[n]];
    }
  }

  lemma {:induction false} SourcesDistinct(peers: seq<Scheduler.PeerSource>, failures: Failures, batch: seq<nat>)
    requires Scheduler.DistinctPeers(peers)
    ensures Scheduler.DistinctPeers(Sources(peers, failures, batch)) && |Sources(peers, failures, batch)| <= |peers|
  {
    if peers != [] {
      var n := |peers| - 1;
      SourcesStep(peers, failures, batch);
      hide Sources, Trusted;
      assert peers == peers[..n] + [peers[n]];
      SourcesDistinct(peers[..n], failures, batch);
      forall q | q in Sources(peers[..n], failures, batch)
        ensures q.id != peers[n].id
      {
        SourcesIff(peers[..n], failures, batch, q);
      }
    }
  }

  /** The plan of a pass: what it asks of whom. */
  ghost function PlanOf(peers: seq<Scheduler.PeerSource>, failures: Failures, batch: seq<nat>):
    seq<Scheduler.Assignment> {
    var cfg := Scheduler.DefaultConfig();
    Scheduler.AssignAll(batch, Scheduler.Eligible(Sources(peers, failures, batch), cfg), cfg).out
  }

  /** Besides the server only serviceable and trusted peers are asked. */
  ghost predicate OnlyUsable(peers: seq<Scheduler.PeerSource>, failures: Failures, plan: seq<Scheduler.Assignment>) {
    forall i | 0 <= i < |plan| ::
      || plan[i].source == Scheduler.SERVER
      || exists p :: p in peers && p.id == plan[i].source && Trusted(p, failures) &&
                     Scheduler.Serviceable(p, Scheduler.DefaultConfig())
  }

  /** If the batch has more chunks than there are peers, each serviceable and trusted peer is asked for one. */
  ghost predicate EveryUsable(peers: seq<Scheduler.PeerSource>, failures: Failures, plan: seq<Scheduler.Assignment>) {
    var cfg := Scheduler.DefaultConfig();
    Scheduler.DistinctPeers(peers) && Scheduler.SlackIsSmallFor(peers, cfg) && |plan| > |peers| ==>
      forall p | p in peers && Trusted(p, failures) && Scheduler.Serviceable(p, cfg) ::
        exists i :: 0 <= i < |plan| && plan[i].source == p.id
  }

  /** A pass asks only the server and usable peers that have not failed too often. */
  lemma OnlyUsableSources(peers: seq<Scheduler.PeerSource>, failures: Failures, batch: seq<nat>)
    ensures |PlanOf(peers, failures, batch)| == |batch| && OnlyUsable(peers, failures, PlanOf(peers, failures, batch))
  {
    hide Scheduler.AssignAll, Scheduler.Eligible, Sources;
    var cfg := Scheduler.DefaultConfig();
    var sources := Sources(peers, failures, batch);
    var plan := Scheduler.AssignAll(batch, Scheduler.Eligible(sources, cfg), cfg).out;
    forall i | 0 <= i < |plan| && plan[i].source != Scheduler.SERVER
      ensures exists p :: p in peers && p.id == plan[i].source && Trusted(p, failures) && Scheduler.Serviceable(p, cfg)
    {
      Scheduler.AssignUsesHolders(batch, Scheduler.Eligible(sources, cfg), cfg, i);
      var c :| c in Scheduler.Eligible(sources, cfg) && c.id == plan[i].source;
      Scheduler.EligibleIff(sources, cfg, c);
      var q :| q in sources && Scheduler.StandsFor(c, q, cfg);
      SourcesIff(peers, failures, batch, q);
      var p :| p in peers && Trusted(p, failures) && PassedOn(p, batch, q);
    }
  }

  /** A pass asks every usable peer, measured or not, as long as the batch has more chunks than there are peers. */
  lemma EveryUsablePeerIsAsked(peers: seq<Scheduler.PeerSource>, failures: Failures, batch: seq<nat>)
    ensures EveryUsable(peers, failures, PlanOf(peers, failures, batch))
  {
    hide Scheduler.AssignAll, Scheduler.Eligible, Sources, Scheduler.Negligible;
    var cfg := Scheduler.DefaultConfig();
    var sources := Sources(peers, failures, batch);
    if Scheduler.DistinctPeers(peers) && Scheduler.SlackIsSmallFor(peers, cfg) && |batch| > |peers| {
      SourcesDistinct(peers, failures, batch);
      forall q | q in sources && q.throughput.Some?
        ensures Scheduler.Negligible(q.throughput.value)
      {
        SourcesIff(peers, failures, batch, q);
      }
      forall p | p in peers && Trusted(p, failures) && Scheduler.Serviceable(p, cfg)
        ensures exists i :: 0 <= i < |batch| && PlanOf(peers, failures, batch)[i].source == p.id
      {
        var q := HoldingBatch(p, batch);
        OnlyOnePassedOn(p, batch, q);
        SourcesIff(peers, failures, batch, q);
        Scheduler.EveryPeerServes(batch, sources, cfg, q);
        var plan := Scheduler.AssignAll(batch, Scheduler.Eligible(sources, cfg), cfg).out;
        var i :| 0 <= i < |batch| && plan[i].source == q.id;
        assert PlanOf(peers, failures, batch)[i].source == p.id;
      }
    }
  }

  /** The chunks a list of results reports as written. */
  function WrittenChunks(done: seq<WriteDone>): set<nat> {
    set d | d in done && d.written :: d.gidx
  }

  /** Failure counts after a list of results: a success forgives its source, a rejection counts. */
  function ResultFailures(done: seq<WriteDone>, failures: Failures): Failures {
    if done == [] then failures
    else
      var d := done[|done| - 1];
      var before := ResultFailures(done[..|done| - 1], failures);
      if d.written then before - {d.source} else Bumped(before, d.source)
  }

  /** The bytes written from the server, or from peers. */
  function BytesFrom(done: seq<WriteDone>, server: bool): nat {
    if done == [] then 0
    else
      var d := done[|done| - 1];
      BytesFrom(done[..|done| - 1], server) + if d.written && (d.source == Scheduler.SERVER) == server
          then d.size else 0
  }

  lemma OneMoreResult(done: seq<WriteDone>, i: nat, failures: Failures)
    requires i < |done|
    ensures var d := done[i];
            && ResultFailures(done[..i + 1], failures)
               == (if d.written then ResultFailures(done[..i], failures) - {d.source}
                   else Bumped(ResultFailures(done[..i], failures), d.source))
            && forall server :: BytesFrom(done[..i + 1], server)
                 == BytesFrom(done[..i], server) + if d.written && (d.source == Scheduler.SERVER) == server
                     then d.size else 0
  {
    assert done[..i + 1][..i] == done[..i];
  }

  // ----- failure counts -----

  /** How often a source has failed since its last success. */
  function FailuresOf(failures: Failures, source: string): nat {
    if source in failures then failures[source] else 0
  }

  lemma CountOneMoreIndex(before: set<nat>, after: set<nat>, n: nat, grows: bool)
    requires after == (if grows then before + {n} else before) && n !in before
    ensures |after| == |before| + if grows then 1 else 0
  {
  }

  /** The requests of a group to this source that were not answered. */
  ghost function Unanswered(world: World, t: nat, group: seq<Scheduler.Assignment>, source: string): set<nat> {
    set k | 0 <= k < |group| && group[k].source == source && world.fetch(t, source, group[k].chunk).None?
  }

  lemma UnansweredSnoc(world: World, t: nat, group: seq<Scheduler.Assignment>, source: string)
    requires group != []
    ensures var n := |group| - 1;
            && n !in Unanswered(world, t, group[..n], source)
            && Unanswered(world, t, group, source) ==
                 if group[n].source == source && world.fetch(t, source, group[n].chunk).None?
                 then Unanswered(world, t, group[..n], source) + {n} else Unanswered(world, t, group[..n], source)
  {
  }

  lemma FetchFailuresStep(world: World, t: nat, group: seq<Scheduler.Assignment>, failures: Failures, source: string)
    requires group != []
    ensures var a, front := group[|group| - 1], FetchFailures(world, t, group[..|group| - 1], failures);
            FailuresOf(FetchFailures(world, t, group, failures), source) == FailuresOf(front, source) +
              if a.source == source && world.fetch(t, source, a.chunk).None? then 1 else 0
  {
  }

  /** A fetched group adds to each source exactly the number of its unanswered requests. */
  lemma {:induction false} FetchFailuresCounted(world: World, t: nat, group: seq<Scheduler.Assignment>,
        failures: Failures, source: string)
    ensures FailuresOf(FetchFailures(world, t, group, failures), source) ==
              FailuresOf(failures, source) + |Unanswered(world, t, group, source)|
  {
    if group == [] {
      assert Unanswered(world, t, group, source) == {};
    } else {
      var n := |group| - 1;
      UnansweredSnoc(world, t, group, source);
      FetchFailuresStep(world, t, group, failures, source);
      hide Unanswered, FetchFailures, FailuresOf;
      FetchFailuresCounted(world, t, group[..n], failures, source);
      CountOneMoreIndex(Unanswered(world, t, group[..n], source), Unanswered(world, t, group, source), n,
                        group[n].source == source && world.fetch(t, source, group[n].chunk).None?);
    }
  }

  /** The rejected results of a source from position `from` on. */
  ghost function Rejected(done: seq<WriteDone>, source: string, from: nat): set<nat> {
    set k | from <= k < |done| && done[k].source == source && !done[k].written
  }

  lemma RejectedSnoc(done: seq<WriteDone>, source: string, from: nat)
    requires done != []
    ensures var n := |done| - 1;
            && n !in Rejected(done[..n], source, from)
            && Rejected(done, source, from) ==
                 if from <= n && done[n].source == source && !done[n].written
                 then Rejected(done[..n], source, from) + {n} else Rejected(done[..n], source, from)
  {
  }

  /**
   After the results of a task, a source that had none accepted has its rejections added, and any
   other source counts only the rejections after its last accepted result.
   */
  lemma {:induction false} ResultFailuresCounted(done: seq<WriteDone>, failures: Failures, source: string, last: nat)
    requires last <= |done| && forall k | last <= k < |done| && done[k].written :: done[k].source != source
    requires last > 0 ==> done[last - 1].written && done[last - 1].source == source
    ensures FailuresOf(ResultFailures(done, failures), source) ==
              (if last > 0 then 0 else FailuresOf(failures, source)) + |Rejected(done, source, last)|
  {
    if done == [] {
      assert Rejected(done, source, last) == {};
    } else {
      var n := |done| - 1;
      if last == |done| {
        assert Rejected(done, source, last) == {};
      } else {
        ResultFailuresCounted(done[..n], failures, source, last);
        RejectedSnoc(done, source, last);
        CountOneMoreIndex(Rejected(done[..n], source, last), Rejected(done, source, last), n,
                          done[n].source == source && !done[n].written);
      }
    }
  }

  /** Results for different chunks, none of them accounted yet. */
  ghost predicate NewResults(done: seq<WriteDone>, n: nat, bits: set<nat>) {
    && (forall i | 0 <= i < |done| :: done[i].gidx < n && done[i].gidx !in bits)
    && (forall i, j | 0 <= i < j < |done| :: done[i].gidx < done[j].gidx)
  }

  lemma AllNew(done: seq<WriteDone>, n: nat, bits: set<nat>)
    ensures NewResults(done, n, bits) ==> NewResults(done[0..], n, bits)
    ensures WrittenChunks(done[..0]) == {}
  {
    assert done[0..] == done;
  }

  lemma ResultsStep(done: seq<WriteDone>, i: nat, n: nat, bits: set<nat>)
    requires i < |done| && NewResults(done[i..], n, bits)
    ensures NewResults(done[i + 1..], n, if done[i].written then bits + {done[i].gidx} else bits + {})
    ensures WrittenChunks(done[..i + 1]) == WrittenChunks(done[..i]) + if done[i].written then {done[i].gidx} else {}
    ensures done[i].gidx < n && done[i].gidx !in bits
  {
  }

  lemma TargetsBelow(jobs: seq<WriteJob>, n: nat)
    requires Within(jobs, 0, n)
    ensures Targets(jobs) <= ChunkBitmap.Below(n)
  {
  }

  lemma GroupOrder(group: seq<Scheduler.Assignment>, lo: nat, hi: nat)
    requires Ordered(group, lo, hi)
    ensures forall i, j | 0 <= i < j < |group| :: group[i].chunk < group[j].chunk
    ensures forall i | 0 <= i < |group| :: lo <= group[i].chunk < hi
  {
  }

  /** Chunks fetched from a group stay new while only lower chunks are accounted. */
  lemma FetchedAreNew(group: seq<Scheduler.Assignment>, jobs: seq<WriteJob>, before: set<nat>, bits: set<nat>)
    requires group != [] && forall i, j | 0 <= i < j < |group| :: group[i].chunk < group[j].chunk
    requires forall i | 0 <= i < |group| :: group[i].chunk !in before
    requires FromGroup(jobs, group)
    requires bits <= before + ChunkBitmap.Below(group[0].chunk)
    ensures NotIn(jobs, bits)
  {
  }

  /** The server answers every request with bytes that pass verification. */
  ghost predicate ServerHonest(world: World, locators: seq<ChunkLocator>) {
    forall t: nat, g: nat | g < |locators| ::
      world.fetch(t, Scheduler.SERVER, g).Some? && Blake3(world.fetch(t, Scheduler.SERVER, g).value) == locators[g].hash
  }

  // ----- starting -----

  /** The bytes of the chunks already present. */
  ghost function HeldBytes(locators: seq<ChunkLocator>, bits: set<nat>): nat {
    if locators == [] then 0
    else
      var last := locators[|locators| - 1];
      HeldBytes(locators[..|locators| - 1], bits) + if last.globalIdx in bits then last.size else 0
  }

  ghost predicate Numbered(locators: seq<ChunkLocator>) {
    forall i | 0 <= i < |locators| :: locators[i].globalIdx == i
  }

  lemma {:induction false} HeldBytesUnion(locators: seq<ChunkLocator>, a: set<nat>, b: set<nat>)
    requires a !! b
    ensures HeldBytes(locators, a + b) == HeldBytes(locators, a) + HeldBytes(locators, b)
  {
    if locators != [] {
      HeldBytesUnion(locators[..|locators| - 1], a, b);
    }
  }

  lemma HeldBytesLess(locators: seq<ChunkLocator>, bits: set<nat>, fewer: set<nat>)
    requires forall g | g in fewer :: g in bits
    ensures HeldBytes(locators, bits) == HeldBytes(locators, bits - fewer) + HeldBytes(locators, fewer)
  {
    hide HeldBytes;
    assert bits == bits - fewer + fewer;
    HeldBytesUnion(locators, bits - fewer, fewer);
  }

  lemma {:induction false} HeldBytesOne(locators: seq<ChunkLocator>, g: nat)
    requires Numbered(locators)
    ensures HeldBytes(locators, {g}) == if g < |locators| then locators[g].size else 0
  {
    if locators != [] {
      HeldBytesOne(locators[..|locators| - 1], g);
    }
  }

  lemma {:induction false} HeldBytesNone(locators: seq<ChunkLocator>)
    ensures HeldBytes(locators, {}) == 0
  {
    if locators != [] {
      HeldBytesNone(locators[..|locators| - 1]);
    }
  }

  lemma HeldBytesPositive(locators: seq<ChunkLocator>, bits: set<nat>, g: nat)
    requires Numbered(locators) && g in bits && g < |locators| && locators[g].size > 0
    ensures HeldBytes(locators, bits) > 0
  {
    HeldBytesUnion(locators, bits - {g}, {g});
    HeldBytesOne(locators, g);
    assert bits == bits - {g} + {g};
  }

  /** Each result carries the size of its chunk. */
  ghost predicate Sized(done: seq<WriteDone>, locators: seq<ChunkLocator>) {
    forall i | 0 <= i < |done| :: done[i].gidx < |locators| && done[i].size == locators[done[i].gidx].size
  }

  /** Accepted results add exactly their bytes to those of the bitmap. */
  lemma {:induction false} HeldBytesGain(locators: seq<ChunkLocator>, bits: set<nat>, done: seq<WriteDone>)
    requires Numbered(locators) && NewResults(done, |locators|, bits) && Sized(done, locators)
    ensures HeldBytes(locators, bits + WrittenChunks(done)) ==
              HeldBytes(locators, bits) + BytesFrom(done, true) + BytesFrom(done, false)
  {
    if done == [] {
      assert bits + WrittenChunks(done) == bits;
    } else {
      var n := |done| - 1;
      var front, last := done[..n], done[n];
      LastResult(done, |locators|, bits);
      BytesStep(done);
      HeldBytesGain(locators, bits, front);
      hide WrittenChunks, NewResults, BytesFrom, HeldBytes;
      if last.written {
        HeldBytesUnion(locators, bits + WrittenChunks(front), {last.gidx});
        HeldBytesOne(locators, last.gidx);
      }
    }
  }

  lemma LastResult(done: seq<WriteDone>, n: nat, bits: set<nat>)
    requires done != [] && NewResults(done, n, bits)
    ensures var front, last := done[..|done| - 1], done[|done| - 1];
            && NewResults(front, n, bits) && last.gidx !in bits + WrittenChunks(front)
            && bits + WrittenChunks(done) ==
                 if last.written then bits + WrittenChunks(front) + {last.gidx} else bits + WrittenChunks(front)
  {
    assert done == done[..|done| - 1] + [done[|done| - 1]];
  }

  lemma BytesStep(done: seq<WriteDone>)
    requires done != []
    ensures var front, last := done[..|done| - 1], done[|done| - 1];
            BytesFrom(done, true) + BytesFrom(done, false) ==
              BytesFrom(front, true) + BytesFrom(front, false) + if last.written then last.size else 0
  {
  }

  /** The first `n` chunks as far as they belong to these paths. */
  ghost function PathBits(locators: seq<ChunkLocator>, paths: set<string>, n: nat): set<nat>
    requires n <= |locators|
  {
    set g | 0 <= g < n && locators[g].relPath in paths
  }

  lemma PathBitsStep(locators: seq<ChunkLocator>, paths: set<string>, n: nat)
    requires n < |locators|
    ensures PathBits(locators, paths, n + 1) ==
              PathBits(locators, paths, n) + if locators[n].relPath in paths then {n} else {}
  {
  }

  lemma PathBitsAre(m: seq<FileEntry>, paths: set<string>)
    ensures PathBits(Locators(m), paths, 0) == {}
    ensures PathBits(Locators(m), paths, |Locators(m)|) == BitsOfPaths(m, paths)
  {
    hide Locators;
  }

  /** The retracted bytes of a failed validation are none exactly if only empty files failed. */
  lemma ClearedBytes(m: Manifest, files: Files)
    requires Usable(m.files) && Numbered(Locators(m.files))
    ensures HeldBytes(Locators(m.files), BitsOfPaths(m.files, FailedPaths(m, files))) == 0 <==> !NonEmptyFails(m, files)
  {
    hide SafeJoin, QuickCheck, HeldBytes, Numbered;
    var cleared := BitsOfPaths(m.files, FailedPaths(m, files));
    if NonEmptyFails(m, files) {
      var k :| 0 <= k < |m.files| && m.files[k].size > 0 && QuickCheck(files, m.files[k]) != CheckOk;
      var g := FailedChunk(m, files, k);
      HeldBytesPositive(Locators(m.files), cleared, g);
    } else {
      EmptyFailuresClearNothing(m, files);
      HeldBytesNone(Locators(m.files));
    }
  }

  method CountHeldBytes(locators: seq<ChunkLocator>, bitmap: ChunkBitmap.Bitmap) returns (n: nat)
    requires bitmap.Valid()
    ensures n == HeldBytes(locators, bitmap.Present())
  {
    n := 0;
    for i := 0 to |locators|
      invariant n == HeldBytes(locators[..i], bitmap.Present())
    {
      assert locators[..i + 1][..i] == locators[..i];
      if bitmap.Has(locators[i].globalIdx) {
        n := n + locators[i].size;
      }
    }
    assert locators[..|locators|] == locators;
  }

  /**
   The resume bitmap: the saved one if it has the right length and the destination still exists,
   otherwise an empty one.
   */
  method LoadBitmap(rows: Rows, key: Key, total: nat, destExists: bool) returns (bm: ChunkBitmap.Bitmap)
    ensures fresh(bm) && bm.Valid() && bm.len == total
    ensures bm.Present() == if key in rows && rows[key].chunkCount == total && destExists
                            then set g <- RowBits(rows, key) | g < total else {}
  {
    if key in rows && rows[key].chunkCount == total && destExists {
      bm := new ChunkBitmap.Bitmap.FromBytes(rows[key].chunkCount, rows[key].bitmap);
    } else {
      bm := new ChunkBitmap.Bitmap(total);
    }
  }

  // ----- the job -----

  class Job {
    const manifest: Manifest
    const locators: seq<ChunkLocator>
    const world: World
    const machine: Machine
    const bitmap: ChunkBitmap.Bitmap
    const pool: PooledWriter
    const key: Key
    const dest: string

    var tick: nat
    var paused: bool
    var cancelled: bool
    /** The writer, unless a write task has taken it. */
    var writer: Option<PooledWriter>
    /** The write task of the previous group. */
    var pending: Option<WriteTask>
    /** What a write task detached by an interrupt has still to write. */
    var late: seq<WriteJob>
    var failures: Failures
    var have: nat
    var bytesDone: nat
    var fromServer: nat
    var fromPeers: nat
    var sincePersist: nat
    var validateTries: nat

    /** The chunks requested so far. */
    ghost var asked: set<nat>
    /** The bytes of all chunks cleared so far, and whether a non-empty file has failed a validation. */
    ghost var retracted: nat
    ghost var fileFailed: bool

    /** Chunks and progress when the job started, and how much history the machine had then. */
    ghost const startBits: set<nat>
    ghost const bytesStart: nat
    ghost const since: nat
    /** Whether every bit the job started from was true of the disk. */
    ghost const startSound: bool
    /** Whether, at the start, no empty entry was occupied by a non-empty file. */
    ghost const noneOccupied: bool

    /**
     Starts from the saved state and saves it again at once. A start from any sound instant, such
     as one an earlier run was stopped at, is a sound start.
     */
    constructor (manifest: Manifest, world: World, machine: Machine, key: Key, dest: string, destExists: bool)
      requires Usable(manifest.files) && WritesSafe(manifest.files, world)
      requires StaleOk(world, |Locators(manifest.files)|)
      modifies machine
      ensures fresh(bitmap) && fresh(pool)
      ensures this.manifest == manifest && this.world == world && this.machine == machine && this.key == key
      ensures Valid() && !paused && !cancelled && writer == Some(pool) && pending == None && validateTries == 0
      ensures machine.files == old(machine.files)
      ensures bitmap.Present() == if key in old(machine.rows) && old(machine.rows)[key].chunkCount == |locators| &&
                destExists
                                  then set g <- RowBits(old(machine.rows), key) | g < |locators| else {}
      ensures startBits == bitmap.Present() && asked == {} && !fileFailed
      ensures bytesDone == HeldBytes(locators, bitmap.Present()) && fromServer == 0 && fromPeers == 0
      ensures startSound <==> BitsHeld(manifest.files, machine.files, bitmap.Present())
      ensures InstantSound(manifest.files, key, Instant(old(machine.files), old(machine.rows))) ==> startSound
      ensures since == |old(machine.instants)|
      ensures Converging() && noneOccupied == NoneOccupied(manifest.files, machine.files)
    {
      hide *;
      var locs := ChunkLocators(manifest);
      var bm := LoadBitmap(machine.rows, key, |locs|, destExists);
      var writerPool := new PooledWriter(machine);
      var count := bm.CountSet();
      var bytes := CountHeldBytes(locs, bm);
      this.manifest, this.world, this.machine, this.key, this.dest := manifest, world, machine, key, dest;
      locators := locs;
      bitmap := bm;
      pool := writerPool;
      tick, paused, cancelled := 0, false, false;
      writer := Some(writerPool);
      pending := None;
      late := [];
      failures := map[];
      asked, retracted, fileFailed, startBits := {}, 0, false, bm.Present();
      have := count;
      bytesDone, bytesStart := bytes, bytes;
      fromServer, fromPeers, sincePersist, validateTries := 0, 0, 0, 0;
      since := |machine.instants|;
      startSound := BitsHeld(manifest.files, machine.files, bm.Present());
      noneOccupied := NoneOccupied(manifest.files, machine.files);
      SoundInstantSoundBits(manifest.files, key, machine.files, machine.rows, bm.Present());
      NoInstants(manifest.files, key, machine.instants);
      new;
      Composed();
      Persist("active", None);
      StartTallied();
      AtRest();
      StartConverging();
    }

    lemma StartTallied()
      requires bitmap.Valid() && startBits == bitmap.Present()
      requires bytesDone == bytesStart == HeldBytes(locators, startBits)
      requires fromServer == 0 && fromPeers == 0 && retracted == 0 && !fileFailed
      ensures Tallied()
      ensures late == [] ==> JobsBelow(late, |locators|)
    {
    }

    lemma Composed()
      requires Usable(manifest.files) && WritesSafe(manifest.files, world) && locators == Locators(manifest.files)
      requires pool.machine == machine && StaleOk(world, |locators|)
      ensures Static()
      ensures !paused && !cancelled ==> !Flagged()
    {
      hide Usable, WritesSafe, Locators, StaleOk;
    }

    lemma StartConverging()
      requires Static() && bitmap.Valid() && validateTries == 0
      requires startBits == bitmap.Present() && asked == {} && retracted == 0
      requires noneOccupied == NoneOccupied(manifest.files, machine.files)
      requires startSound ==> BitsHeld(manifest.files, machine.files, bitmap.Present())
      ensures Converging()
    {
    }

    /** What `Valid` amounts to while no write task is under way. */
    lemma AtRest()
      requires Static() && pool.Valid() && bitmap.Valid() && bitmap.len == |locators|
      requires writer == Some(pool) && pending == None && have == |bitmap.Present()|
      requires Tallied() && JobsBelow(late, |locators|)
      requires Quiet() ==> !Flagged()
      requires startSound ==> BitsHeld(manifest.files, machine.files, bitmap.Present()) && SavedSound()
      ensures Valid()
    {
      hide Static, SavedSound, BitsHeld, Tallied, JobsBelow;
    }

    /** Saves the bitmap under this job's key and touches nothing else. */
    method Persist(status: string, error: Option<string>)
      requires Static() && bitmap.Valid() && bitmap.len == |locators|
      modifies machine
      ensures machine.files == old(machine.files)
      ensures machine.rows == old(machine.rows)[key := DownloadRow(bitmap.len, bitmap.bytes, status, dest, error)]
      ensures RowBits(machine.rows, key) == bitmap.Present()
      ensures machine.instants == old(machine.instants) + [Instant(machine.files, machine.rows)]
      ensures BitsHeld(manifest.files, machine.files, bitmap.Present()) &&
                InstantsSound(manifest.files, key, old(machine.instants), since)
              ==> SavedSound()
    {
      hide Held, Usable, WritesSafe;
      machine.SaveRow(key, DownloadRow(bitmap.len, bitmap.bytes, status, dest, error));
    }

    predicate Flagged()
      reads this`paused, this`cancelled
    {
      paused || cancelled
    }

    ghost predicate Faultless() {
      forall t: nat :: world.fault(t) == NoFault
    }

    /** Nobody ever asks for a pause or a cancel. */
    ghost predicate Quiet() {
      forall t: nat :: !world.control(t).pause && !world.control(t).cancel
    }

    ghost predicate Static() {
      && Usable(manifest.files) && WritesSafe(manifest.files, world)
      && locators == Locators(manifest.files)
      && pool.machine == machine
      && StaleOk(world, |locators|)
    }

    ghost predicate TaskOk(task: WriteTask)
      requires Static() && bitmap.Valid()
      reads machine, bitmap
    {
      && task.writer == pool
      && JobsOk(task.jobs, |locators|)
      && DoneOk(manifest.files, machine.files, task.jobs, task.done, Faultless())
      && NotIn(task.jobs, bitmap.Present())
    }

    /** The writer is at home, or a task has it, or it went away with a task dropped on an interrupt. */
    ghost predicate WriterOk()
      requires Static() && bitmap.Valid()
      reads this, machine, bitmap
    {
      && (writer.Some? ==> writer.value == pool && pending.None?)
      && (pending.Some? ==> TaskOk(pending.value))
      && (writer.None? && pending.None? ==> Flagged())
    }

    ghost predicate Sound()
      requires Static() && bitmap.Valid()
      reads machine, bitmap
    {
      && BitsHeld(manifest.files, machine.files, bitmap.Present())
      && SavedSound()
    }

    ghost predicate SavedSound()
      reads machine
    {
      && BitsHeld(manifest.files, machine.files, RowBits(machine.rows, key))
      && InstantsSound(manifest.files, key, machine.instants, since)
    }

    /**
     The progress counter: the start plus what came from the server and from peers, and equally the
     bytes of the set bits plus those of the chunks that were cleared again. The latter is nothing
     exactly as long as no non-empty file has failed a validation.
     */
    ghost predicate Tallied()
      requires bitmap.Valid()
      reads this`bytesDone, this`fromServer, this`fromPeers, this`retracted, this`fileFailed, bitmap
    {
      && bytesDone == bytesStart + fromServer + fromPeers
      && bytesStart == HeldBytes(locators, startBits)
      && bytesDone == HeldBytes(locators, bitmap.Present()) + retracted
      && (retracted == 0 <==> !fileFailed)
    }

    ghost predicate Valid()
      reads this, machine, bitmap, pool
    {
      && Static() && pool.Valid() && bitmap.Valid() && bitmap.len == |locators|
      && WriterOk()
      && JobsBelow(late, |locators|)
      && have == |bitmap.Present()|
      && Tallied()
      && (Quiet() ==> !Flagged())
      && (startSound ==> Sound())
    }

    /** Only the clock, the flags (upwards), the failure counts and the counters for saving changed. */
    twostate lemma StillValid()
      requires old(Valid())
      requires unchanged(machine) && unchanged(bitmap) && unchanged(pool)
      requires writer == old(writer) && pending == old(pending) && have == old(have)
      requires late == old(late) || JobsBelow(late, |locators|)
      requires bytesDone == old(bytesDone) && fromServer == old(fromServer) && fromPeers == old(fromPeers)
      requires retracted == old(retracted) && fileFailed == old(fileFailed)
      requires old(Flagged()) ==> Flagged()
      requires Quiet() && !old(Flagged()) ==> !Flagged()
      ensures Valid()
    {
      hide Held, Usable, WritesSafe, BitsHeld, InstantsSound, DoneOk, NotIn, JobsOk, HeldBytes;
    }

    /** Only the disk, the handles and the clock changed, and everything claimed of the disk is true again. */
    twostate lemma DiskMoved()
      requires old(Valid()) && unchanged(bitmap) && pool.Valid()
      requires writer == old(writer) && pending == old(pending) && have == old(have) && late == old(late)
      requires bytesDone == old(bytesDone) && fromServer == old(fromServer) && fromPeers == old(fromPeers)
      requires retracted == old(retracted) && fileFailed == old(fileFailed)
      requires paused == old(paused) && cancelled == old(cancelled)
      requires pending.Some? ==> ResultsTrue(pending.value.jobs, pending.value.done)
      requires startSound ==> BitsHeld(manifest.files, machine.files, bitmap.Present()) && SavedSound()
      ensures Valid()
    {
      hide Static, SavedSound, BitsHeld, DoneOk, NotIn, JobsOk, JobsBelow, HeldBytes;
    }

    /** The results of a write task are true of the disk. */
    ghost predicate ResultsTrue(jobs: seq<WriteJob>, done: seq<WriteDone>)
      reads machine
    {
      JobsOk(jobs, |Locators(manifest.files)|) && DoneOk(manifest.files, machine.files, jobs, done, Faultless())
    }

    /** What the job claims of the disk. */
    lemma DiskFacts()
      requires Valid()
      ensures Static() && pool.Valid() && bitmap.Valid() && bitmap.len == |locators| && pool.machine == machine
      ensures pending.Some? ==>
                && JobsOk(pending.value.jobs, |Locators(manifest.files)|)
                && DoneOk(manifest.files, machine.files, pending.value.jobs, pending.value.done, Faultless())
      ensures startSound ==>
                && BitsHeld(manifest.files, machine.files, bitmap.Present())
                && BitsHeld(manifest.files, machine.files, RowBits(machine.rows, key))
                && InstantsSound(manifest.files, key, machine.instants, since)
    {
      hide Usable, WritesSafe, Held, BitsHeld, InstantsSound, DoneOk, NotIn, JobsOk, JobsBelow, HeldBytes, RowBits,
          Locators, StaleOk;
    }

    /** Pause or cancel may be requested at any time; a flag once set stays set. */
    method Poll(t: nat)
      requires Valid()
      modifies this`paused, this`cancelled
      ensures Valid()
      ensures paused == (old(paused) || world.control(t).pause)
      ensures cancelled == (old(cancelled) || world.control(t).cancel)
    {
      hide Valid;
      var control := world.control(t);
      paused := paused || control.pause;
      cancelled := cancelled || control.cancel;
      StillValid();
    }

    method Advance() returns (t: nat)
      requires Valid()
      modifies this`tick
      ensures Valid() && t == old(tick) && tick == t + 1
    {
      hide Valid;
      t := tick;
      tick := tick + 1;
      StillValid();
    }

    /** Up to `n` further writes of the write task complete in the background. */
    method Progress(n: nat)
      requires Valid()
      modifies this`tick, this`pending, machine, pool
      ensures Valid()
      ensures pending.Some? == old(pending).Some?
      ensures pending.Some? ==> pending.value.jobs == old(pending).value.jobs &&
                                |pending.value.done| <= |pending.value.jobs|
      ensures pending.Some? && n >= |pending.value.jobs| ==> |pending.value.done| == |pending.value.jobs|
      ensures machine.rows == old(machine.rows)
      ensures Advanced(manifest.files, old(machine.files), old(machine.instants), machine.files, machine.instants,
                machine.rows)
    {
      hide Held, Usable, WritesSafe, Locators, Improves, RowBits, BitsHeld, InstantsSound, InstantsKeep, Advanced,
          NotIn, JobsOk;
      ghost var m := manifest.files;
      ghost var files, instants, rows := machine.files, machine.instants, machine.rows;
      Unmoved(files, instants, rows);
      assert pending.Some? ==> |pending.value.done| <= |pending.value.jobs|;
      hide Valid;
      var k := 0;
      while k < n && pending.Some? && |pending.value.done| < |pending.value.jobs|
        invariant k <= n && Valid()
        invariant pending.Some? == old(pending).Some?
        invariant pending.Some? ==> pending.value.jobs == old(pending).value.jobs &&
                                    k <= |pending.value.done| <= |pending.value.jobs|
        invariant machine.rows == rows
        invariant Advanced(m, files, instants, machine.files, machine.instants, rows)
      {
        ghost var files', instants' := machine.files, machine.instants;
        WriteNext();
        AdvancedTransitive(m, files, instants, files', instants', machine.files, machine.instants, rows);
        k := k + 1;
      }
    }

    /** Waiting: other tasks run, and the wait may be given up once pause or cancel is requested. */
    method Await() returns (dropped: bool)
      requires Valid()
      modifies this`tick, this`paused, this`cancelled, this`pending, machine, pool
      ensures Valid()
      ensures (old(paused) ==> paused) && (old(cancelled) ==> cancelled)
      ensures dropped ==> Flagged()
      ensures pending.Some? == old(pending).Some?
      ensures pending.Some? ==> pending.value.jobs == old(pending).value.jobs
      ensures machine.rows == old(machine.rows)
      ensures Advanced(manifest.files, old(machine.files), old(machine.instants), machine.files, machine.instants,
                machine.rows)
    {
      hide Valid, Advanced;
      ghost var m, files, instants := manifest.files, machine.files, machine.instants;
      var t := Advance();
      StaleWrites(t);
      ghost var files', instants' := machine.files, machine.instants;
      Progress(world.progress(t));
      AdvancedTransitive(m, files, instants, files', instants', machine.files, machine.instants, machine.rows);
      Poll(t);
      dropped := Flagged() && world.drops(t);
    }

    /**
     Fetches one group concurrently. Unless the wait was interrupted, every failed fetch is counted
     against its source and the delivered chunks come back in group order.
     */
    method FetchGroup(group: seq<Scheduler.Assignment>) returns (dropped: bool, jobs: seq<WriteJob>, ghost t: nat)
      requires Valid()
      modifies this`tick, this`paused, this`cancelled, this`pending, this`failures, this`asked, machine, pool
      ensures Valid()
      ensures (old(paused) ==> paused) && (old(cancelled) ==> cancelled)
      ensures dropped ==> Flagged() && failures == old(failures)
      ensures asked == old(asked) + ChunksIn(group)
      ensures !dropped ==> jobs == GoodFetches(world, t, group) &&
                           failures == FetchFailures(world, t, group, old(failures))
      ensures pending.Some? == old(pending).Some?
      ensures pending.Some? ==> pending.value.jobs == old(pending).value.jobs
      ensures machine.rows == old(machine.rows)
      ensures Advanced(manifest.files, old(machine.files), old(machine.instants), machine.files, machine.instants,
                machine.rows)
    {
      hide Valid, Advanced;
      var at := tick;
      t := at;
      jobs := [];
      asked := asked + ChunksIn(group);
      StillValid();
      dropped := Await();
      if !dropped {
        jobs := CollectFetches(at, group);
      }
    }

    method CollectFetches(t: nat, group: seq<Scheduler.Assignment>) returns (jobs: seq<WriteJob>)
      requires Valid()
      modifies this`failures
      ensures Valid()
      ensures jobs == GoodFetches(world, t, group) && failures == FetchFailures(world, t, group, old(failures))
    {
      hide Valid;
      jobs := [];
      for i := 0 to |group|
        invariant jobs == GoodFetches(world, t, group[..i])
        invariant failures == FetchFailures(world, t, group[..i], old(failures))
      {
        assert group[..i + 1][..i] == group[..i];
        match world.fetch(t, group[i].source, group[i].chunk) {
          case Some(bytes) =>
            jobs := jobs + [WriteJob(group[i].chunk, group[i].source, bytes)];
          case None =>
            failures := Bumped(failures, group[i].source);
        }
      }
      assert group[..|group|] == group;
      StillValid();
    }

    /** Folds one completed write into the bitmap and the progress and failure bookkeeping. */
    method AccountWrite(o: WriteDone) returns (accepted: bool)
      requires bitmap.Valid() && o.gidx < bitmap.len
      requires have == |bitmap.Present()| && bytesDone == bytesStart + fromServer + fromPeers
      requires o.gidx !in bitmap.Present()
      modifies this`have, this`bytesDone, this`fromServer, this`fromPeers, this`failures, bitmap
      ensures bitmap.Valid() && bitmap.len == old(bitmap.len)
      ensures accepted == o.written
      ensures bitmap.Present() == old(bitmap.Present()) + (if o.written then {o.gidx} else {})
      ensures have == |bitmap.Present()| && bytesDone == bytesStart + fromServer + fromPeers
      ensures fromServer == old(fromServer) + if o.written && o.source == Scheduler.SERVER then o.size else 0
      ensures fromPeers == old(fromPeers) + if o.written && o.source != Scheduler.SERVER then o.size else 0
      ensures failures == if o.written then old(failures) - {o.source} else Bumped(old(failures), o.source)
    {
      if o.written {
        bitmap.Set(o.gidx);
        have := have + 1;
        bytesDone := bytesDone + o.size;
        if o.source == Scheduler.SERVER {
          fromServer := fromServer + o.size;
        } else {
          fromPeers := fromPeers + o.size;
        }
        failures := failures - {o.source};
        return true;
      }
      failures := Bumped(failures, o.source);
      return false;
    }

    lemma BitmapValid()
      requires Valid()
      ensures bitmap.Valid() && bitmap.len == |locators| && pool.Valid() && Static()
      ensures startSound ==> BitsHeld(manifest.files, machine.files, bitmap.Present())
      ensures have == |bitmap.Present()|
    {
      hide BitsHeld, InstantsSound, Static;
    }

    /** Re-establishes what depends on the disk after verified writes. */
    lemma AfterWrites(files: Files, instants: seq<Instant>, rows: Rows, bits: set<nat>)
      requires Static()
      requires Advanced(manifest.files, files, instants, machine.files, machine.instants, rows) && machine.rows == rows
      requires BitsHeld(manifest.files, files, RowBits(rows, key)) &&
                 InstantsSound(manifest.files, key, instants, since)
      requires BitsHeld(manifest.files, files, bits)
      ensures SavedSound() && BitsHeld(manifest.files, machine.files, bits)
    {
    }

    // ----- writing -----

    /** One job of a write task: verify, write, and report. */
    method WriteOne(w: PooledWriter, job: WriteJob) returns (done: WriteDone)
      requires Valid() && w == pool && job.gidx < |locators|
      modifies this`tick, machine, pool
      ensures Valid()
      ensures JobDone(job, done)
      ensures machine.rows == old(machine.rows)
      ensures Advanced(manifest.files, old(machine.files), old(machine.instants), machine.files, machine.instants,
                machine.rows)
    {
      hide *;
      DiskFacts();
      ghost var files, instants, rows := machine.files, machine.instants, machine.rows;
      var loc := locators[job.gidx];
      var fault := world.fault(tick);
      tick := tick + 1;
      ghost var hit := loc.relPath in Keys(pool.open);
      ghost var effective := Effective(fault, hit);
      var result := w.VerifyAndWrite(loc.relPath, loc.offset, job.bytes, loc.hash, fault);
      FaultAllowed(fault, tick - 1, hit);
      AttemptAdvances(files, instants, job.gidx, job.bytes, effective);
      if pending.Some? {
        ResultsStay(files, pending.value.jobs, pending.value.done);
      }
      done := WriteDone(job.gidx, job.source, loc.size, result == Written);
      NewDone(files, job, done, effective);
      if startSound {
        AfterWrites(files, instants, rows, bitmap.Present());
      }
      DiskMoved();
    }

    lemma ResultsStay(files: Files, jobs: seq<WriteJob>, done: seq<WriteDone>)
      requires JobsOk(jobs, |Locators(manifest.files)|) && DoneOk(manifest.files, files, jobs, done, Faultless())
      requires KeepsHeld(manifest.files, files, machine.files)
      ensures ResultsTrue(jobs, done)
    {
      hide JobsOk, DoneOk, KeepsHeld, Locators;
      DoneStays(manifest.files, files, machine.files, jobs, done, Faultless());
    }

    /** The result belongs to the job; a success means that the chunk is on disk. */
    ghost predicate JobDone(job: WriteJob, done: WriteDone)
      requires job.gidx < |locators|
      reads machine
    {
      var loc := locators[job.gidx];
      && done.gidx == job.gidx && done.source == job.source && done.size == loc.size
      && (done.written ==> Held(machine.files, loc))
      && (Faultless() && Blake3(job.bytes) == loc.hash ==> done.written)
    }

    lemma FaultAllowed(fault: Fault, t: nat, hit: bool)
      requires Static() && fault == world.fault(t)
      ensures Effective(fault, hit).WriteFault? ==> Binding(manifest.files)
      ensures Faultless() ==> Effective(fault, hit) == NoFault
    {
      hide Usable, Binding, SizesBind;
    }

    /** The write task performs its next job. */
    method WriteNext()
      requires Valid() && pending.Some? && |pending.value.done| < |pending.value.jobs|
      modifies this`tick, this`pending, machine, pool
      ensures Valid()
      ensures pending.Some? && pending.value.jobs == old(pending.value.jobs) &&
                pending.value.writer == old(pending.value.writer)
      ensures |pending.value.done| == |old(pending.value.done)| + 1
      ensures machine.rows == old(machine.rows)
      ensures Advanced(manifest.files, old(machine.files), old(machine.instants), machine.files, machine.instants,
                machine.rows)
    {
      hide *;
      TaskNow();
      var task := pending.value;
      JobInRange(task.jobs, |locators|, |task.done|);
      var done := WriteOne(task.writer, task.jobs[|task.done|]);
      label Written:
      pending := Some(task.(done := task.done + [done]));
      TaskGrew@Written(done);
    }

    twostate lemma TaskGrew(done: WriteDone)
      requires old(Valid()) && old(pending).Some? && |old(pending).value.done| < |old(pending).value.jobs|
      requires var task := old(pending).value;
               var job := task.jobs[|task.done|];
               && pending == Some(task.(done := task.done + [done]))
               && job.gidx < |locators| && JobDone(job, done)
      requires unchanged(machine) && unchanged(bitmap) && unchanged(pool)
      requires writer == old(writer) && have == old(have) && late == old(late)
      requires bytesDone == old(bytesDone) && fromServer == old(fromServer) && fromPeers == old(fromPeers)
      requires retracted == old(retracted) && fileFailed == old(fileFailed)
      requires paused == old(paused) && cancelled == old(cancelled)
      ensures Valid()
    {
      hide Static, Held, Usable, WritesSafe, BitsHeld, SavedSound, NotIn, HeldBytes, JobsBelow, DoneOk, JobsOk, JobDone,
          Tallied;
      var task := old(pending).value;
      OneMoreDone(task.jobs, task.done, done);
    }

    lemma OneMoreDone(jobs: seq<WriteJob>, before: seq<WriteDone>, done: WriteDone)
      requires Static() && JobsOk(jobs, |locators|) && |before| < |jobs|
      requires DoneOk(manifest.files, machine.files, jobs, before, Faultless())
      requires jobs[|before|].gidx < |locators| && JobDone(jobs[|before|], done)
      ensures DoneOk(manifest.files, machine.files, jobs, before + [done], Faultless())
    {
      hide Held, Usable, WritesSafe, Locators;
    }

    lemma AttemptAdvances(files: Files, instants: seq<Instant>, g: nat, data: Data, fault: Fault)
      requires Static() && g < |locators| && (fault.WriteFault? ==> Binding(manifest.files))
      requires machine.files == AfterWrite(files, locators[g].relPath, locators[g].offset, data, locators[g].hash,
                 fault)
      requires machine.instants == instants || machine.instants == instants + [Instant(machine.files, machine.rows)]
      ensures Advanced(manifest.files, files, instants, machine.files, machine.instants, machine.rows)
      ensures KeepsHeld(manifest.files, files, machine.files)
    {
      hide Held, Usable, WritesSafe, Binding, SafeJoin, AfterWrite, Grows;
      SafeWritesBindSizes();
      AttemptImproves(manifest.files, files, g, data, fault);
    }

    lemma NewDone(files: Files, job: WriteJob, done: WriteDone, fault: Fault)
      requires Static() && job.gidx < |locators|
      requires var loc := locators[job.gidx];
               && machine.files == AfterWrite(files, loc.relPath, loc.offset, job.bytes, loc.hash, fault)
               && done == WriteDone(job.gidx, job.source, loc.size,
                                    WriteOutcome(loc.relPath, job.bytes, loc.hash, fault) == Written)
      requires Faultless() ==> fault == NoFault
      ensures JobDone(job, done)
    {
      hide Held, WritesSafe, SafeJoin, AfterWrite, Usable, Locators, SizesBind;
      StaticParts();
      hide Static;
      assert SafeJoin(locators[job.gidx].relPath).Some? by {
        var _, _ := LocatorFacts(manifest.files, job.gidx);
      }
      if done.written {
        SafeWritesBindSizes();
        WrittenIsHeld(manifest.files, files, job.gidx, job.bytes, fault);
      }
    }

    lemma SafeWritesBindSizes()
      requires WritesSafe(manifest.files, world)
      ensures SizesBind(manifest.files)
    {
      hide SizesBind, Binding;
    }

    lemma StaticParts()
      requires Static()
      ensures Usable(manifest.files) && WritesSafe(manifest.files, world) && locators == Locators(manifest.files)
    {
      hide Usable, WritesSafe, Locators;
    }

    /** Writes of tasks left over from earlier runs that reach the disk at clock `t`. */
    method StaleWrites(t: nat)
      requires Valid()
      modifies machine
      ensures Valid()
      ensures machine.rows == old(machine.rows)
      ensures Advanced(manifest.files, old(machine.files), old(machine.instants), machine.files, machine.instants,
                machine.rows)
    {
      hide *;
      ghost var m := manifest.files;
      ghost var files, instants, rows := machine.files, machine.instants, machine.rows;
      var batch := world.stale(t);
      Unmoved(files, instants, rows);
      StaleInRange(t);
      for i := 0 to |batch|
        invariant Valid()
        invariant machine.rows == rows
        invariant Advanced(m, files, instants, machine.files, machine.instants, rows)
      {
        ghost var files', instants' := machine.files, machine.instants;
        StaleWrite(batch[i], t, i);
        AdvancedTransitive(m, files, instants, files', instants', machine.files, machine.instants, rows);
      }
    }

    lemma StaleInRange(t: nat)
      requires Valid()
      ensures forall i | 0 <= i < |world.stale(t)| :: world.stale(t)[i].gidx < |locators|
    {
    }

    method StaleWrite(job: WriteJob, t: nat, i: nat)
      requires Valid() && job.gidx < |locators|
      modifies machine
      ensures Valid()
      ensures machine.rows == old(machine.rows)
      ensures Advanced(manifest.files, old(machine.files), old(machine.instants), machine.files, machine.instants,
                machine.rows)
    {
      hide *;
      DiskFacts();
      ghost var files, instants, rows := machine.files, machine.instants, machine.rows;
      var loc := locators[job.gidx];
      var _ := VerifyAndWrite(machine, loc.relPath, loc.offset, job.bytes, loc.hash, world.staleFault(t, i));
      StaleFaultAllowed(t, i);
      StatelessAdvances(files, instants, job.gidx, job.bytes, world.staleFault(t, i));
      if pending.Some? {
        ResultsStay(files, pending.value.jobs, pending.value.done);
      }
      if startSound {
        AfterWrites(files, instants, rows, bitmap.Present());
      }
      DiskMoved();
    }

    lemma StaleFaultAllowed(t: nat, i: nat)
      requires Static()
      ensures world.staleFault(t, i).WriteFault? ==> Binding(manifest.files)
    {
      hide Usable, Binding, SizesBind;
    }

    lemma Unmoved(files: Files, instants: seq<Instant>, rows: Rows)
      ensures Advanced(manifest.files, files, instants, files, instants, rows)
    {
      AdvancedReflexive(manifest.files, files, instants, rows);
    }

    lemma StatelessAdvances(files: Files, instants: seq<Instant>, g: nat, data: Data, fault: Fault)
      requires Static() && g < |locators| && (fault.WriteFault? ==> Binding(manifest.files))
      requires machine.files == AfterWrite(files, locators[g].relPath, locators[g].offset, data, locators[g].hash,
                 fault)
      requires instants <= machine.instants
      requires forall i | |instants| <= i < |machine.instants| ::
                 machine.instants[i] == Instant(machine.files, machine.rows)
      ensures Advanced(manifest.files, files, instants, machine.files, machine.instants, machine.rows)
      ensures KeepsHeld(manifest.files, files, machine.files)
    {
      hide Held, Usable, WritesSafe, Binding, SafeJoin, AfterWrite, Grows;
      SafeWritesBindSizes();
      AttemptImproves(manifest.files, files, g, data, fault);
    }

    // ----- one pass -----

    /** `Persist` in a running job. */
    method Save(status: string, error: Option<string>)
      requires Valid()
      modifies machine
      ensures Valid()
      ensures machine.files == old(machine.files)
      ensures machine.rows == old(machine.rows)[key := DownloadRow(bitmap.len, bitmap.bytes, status, dest, error)]
      ensures machine.instants == old(machine.instants) + [Instant(machine.files, machine.rows)]
      ensures SavedAs(status)
    {
      hide *;
      DiskFacts();
      Persist(status, error);
      SavedNow(status);
      ResultsNow();
      DiskMoved();
    }

    lemma SavedNow(status: string)
      requires bitmap.Valid() && key in machine.rows && machine.rows[key].status == status
      requires RowBits(machine.rows, key) == bitmap.Present()
      ensures SavedAs(status)
    {
      hide RowBits;
    }

    /** The saved row has this status and claims exactly the chunks of the bitmap. */
    ghost predicate SavedAs(status: string)
      reads machine, bitmap
    {
      && bitmap.Valid() && key in machine.rows && machine.rows[key].status == status
      && RowBits(machine.rows, key) == bitmap.Present()
    }

    /** Accounts every result of a finished task. */
    method AccountAll(done: seq<WriteDone>) returns (gained: nat)
      requires bitmap.Valid() && NewResults(done, bitmap.len, bitmap.Present())
      requires have == |bitmap.Present()| && bytesDone == bytesStart + fromServer + fromPeers
      modifies this`have, this`bytesDone, this`fromServer, this`fromPeers, this`failures, bitmap
      ensures bitmap.Valid() && bitmap.len == old(bitmap.len)
      ensures have == |bitmap.Present()| && bytesDone == bytesStart + fromServer + fromPeers
      ensures bitmap.Present() == old(bitmap.Present()) + WrittenChunks(done)
      ensures have == old(have) + gained
      ensures Booked(done, old(failures), old(fromServer), old(fromPeers))
    {
      hide *;
      gained := 0;
      AllNew(done, bitmap.len, bitmap.Present());
      NothingBooked(done);
      for i := 0 to |done|
        invariant bitmap.Valid() && bitmap.len == old(bitmap.len)
        invariant have == |bitmap.Present()| && bytesDone == bytesStart + fromServer + fromPeers
        invariant bitmap.Present() == old(bitmap.Present()) + WrittenChunks(done[..i])
        invariant NewResults(done[i..], bitmap.len, bitmap.Present())
        invariant have == old(have) + gained
        invariant Booked(done[..i], old(failures), old(fromServer), old(fromPeers))
      {
        BookOne(done, i, old(failures), old(fromServer), old(fromPeers));
        var accepted := AccountNext(done, i, old(bitmap.Present()));
        BookedIs(done[..i + 1], old(failures), old(fromServer), old(fromPeers));
        if accepted {
          gained := gained + 1;
        }
      }
      assert done[..|done|] == done;
    }

    /** Failure counts and byte counters are those that the results give. */
    ghost predicate Booked(done: seq<WriteDone>, failuresBefore: Failures, server: nat, peers: nat)
      reads this`failures, this`fromServer, this`fromPeers
    {
      && failures == ResultFailures(done, failuresBefore)
      && fromServer == server + BytesFrom(done, true)
      && fromPeers == peers + BytesFrom(done, false)
    }

    lemma NothingBooked(done: seq<WriteDone>)
      ensures Booked(done[..0], failures, fromServer, fromPeers)
    {
    }

    /** What one more result has to do to the counters. */
    lemma BookOne(done: seq<WriteDone>, i: nat, failuresBefore: Failures, server: nat, peers: nat)
      requires i < |done| && Booked(done[..i], failuresBefore, server, peers)
      ensures var d := done[i];
              && (if d.written then failures - {d.source}
                  else Bumped(failures, d.source)) == ResultFailures(done[..i + 1], failuresBefore)
              && fromServer + (if d.written && d.source == Scheduler.SERVER then d.size else 0) == server +
                  BytesFrom(done[..i + 1], true)
              && fromPeers + (if d.written && d.source != Scheduler.SERVER then d.size else 0) == peers +
                  BytesFrom(done[..i + 1], false)
    {
      OneMoreResult(done, i, failuresBefore);
    }

    lemma BookedIs(done: seq<WriteDone>, failuresBefore: Failures, server: nat, peers: nat)
      requires failures == ResultFailures(done, failuresBefore)
      requires fromServer == server + BytesFrom(done, true) && fromPeers == peers + BytesFrom(done, false)
      ensures Booked(done, failuresBefore, server, peers)
    {
    }

    method AccountNext(done: seq<WriteDone>, i: nat, ghost before: set<nat>) returns (accepted: bool)
      requires i < |done| && bitmap.Valid() && NewResults(done[i..], bitmap.len, bitmap.Present())
      requires have == |bitmap.Present()| && bytesDone == bytesStart + fromServer + fromPeers
      requires bitmap.Present() == before + WrittenChunks(done[..i])
      modifies this`have, this`bytesDone, this`fromServer, this`fromPeers, this`failures, bitmap
      ensures bitmap.Valid() && bitmap.len == old(bitmap.len) && NewResults(done[i + 1..], bitmap.len, bitmap.Present())
      ensures have == |bitmap.Present()| && bytesDone == bytesStart + fromServer + fromPeers
      ensures bitmap.Present() == before + WrittenChunks(done[..i + 1])
      ensures have == old(have) + if accepted then 1 else 0
      ensures fromServer == old(fromServer) + if done[i].written && done[i].source == Scheduler.SERVER
                then done[i].size else 0
      ensures fromPeers == old(fromPeers) + if done[i].written && done[i].source != Scheduler.SERVER
                then done[i].size else 0
      ensures failures == if done[i].written then old(failures) - {done[i].source}
                else Bumped(old(failures), done[i].source)
    {
      hide *;
      ResultsStep(done, i, bitmap.len, bitmap.Present());
      accepted := AccountWrite(done[i]);
      if accepted {
        CardinalityGrows(old(bitmap.Present()), done[i].gidx);
      }
    }

    lemma WrittenAreHeld(jobs: seq<WriteJob>, done: seq<WriteDone>)
      requires Static() && JobsOk(jobs, |locators|) && |done| == |jobs|
      requires DoneOk(manifest.files, machine.files, jobs, done, Faultless())
      requires bitmap.Valid() && NotIn(jobs, bitmap.Present())
      ensures NewResults(done, |locators|, bitmap.Present()) && Sized(done, locators)
      ensures BitsHeld(manifest.files, machine.files, WrittenChunks(done))
      ensures WrittenChunks(done) <= Targets(jobs)
      ensures Faultless() ==> Verifying(jobs, locators) <= WrittenChunks(done)
    {
      hide Held, Usable, WritesSafe, Locators;
      assert forall i | 0 <= i < |done| :: done[i] in done;
    }

    /** The pass lets go of its write task; the write task keeps the writer and goes on by itself. */
    method DropTask()
      requires Valid() && Flagged() && pending.Some?
      modifies this`pending, this`late
      ensures Valid() && pending.None?
      ensures late == old(late) + old(pending).value.jobs[|old(pending).value.done|..]
    {
      hide *;
      TaskNow();
      LateNow();
      SoundNow();
      var task := pending.value;
      MoreBelow(late, task.jobs, |task.done|, |locators|);
      label Before:
      late := late + task.jobs[|task.done|..];
      pending := None;
      TaskDropped@Before();
    }

    twostate lemma TaskDropped()
      requires old(Valid()) && Flagged() && pending.None? && JobsBelow(late, |locators|)
      requires unchanged(machine) && unchanged(bitmap) && unchanged(pool)
      requires writer == old(writer) && have == old(have) && (writer.Some? ==> old(pending).None?)
      requires bytesDone == old(bytesDone) && fromServer == old(fromServer) && fromPeers == old(fromPeers)
      requires retracted == old(retracted) && fileFailed == old(fileFailed)
      requires paused == old(paused) && cancelled == old(cancelled)
      ensures Valid()
    {
      hide Held, Usable, WritesSafe, BitsHeld, InstantsSound, DoneOk, NotIn, HeldBytes, JobsBelow, JobsOk;
    }

    /** A detached write task performs its next job; nobody looks at the result. */
    method LateNext()
      requires Valid() && late != []
      modifies this`tick, this`late, machine, pool
      ensures Valid() && late == old(late)[1..]
      ensures machine.rows == old(machine.rows)
      ensures Advanced(manifest.files, old(machine.files), old(machine.instants), machine.files, machine.instants,
                machine.rows)
    {
      hide *;
      LateNow();
      BelowAt(late, |locators|);
      var _ := WriteOne(pool, late[0]);
      label Written:
      late := late[1..];
      StillValid@Written();
    }

    lemma LateNow()
      requires Valid()
      ensures JobsBelow(late, |locators|)
    {
      hide Static, BitsHeld, SavedSound, TaskOk, Tallied;
    }

    /**
     Time passes after an interrupt, while the job saves its state or has already ended: detached
     and left-over writes go on reaching the disk.
     */
    method Linger()
      requires Valid()
      modifies this`tick, this`late, machine, pool
      ensures Valid()
      ensures machine.rows == old(machine.rows)
      ensures Advanced(manifest.files, old(machine.files), old(machine.instants), machine.files, machine.instants,
                machine.rows)
    {
      hide *;
      ghost var m, files, instants, rows := manifest.files, machine.files, machine.instants, machine.rows;
      var t := Advance();
      StaleWrites(t);
      var k := 0;
      while k < world.progress(t) && late != []
        invariant Valid() && machine.rows == rows
        invariant Advanced(m, files, instants, machine.files, machine.instants, rows)
        decreases world.progress(t) - k
      {
        ghost var files', instants' := machine.files, machine.instants;
        LateNext();
        AdvancedTransitive(m, files, instants, files', instants', machine.files, machine.instants, rows);
        k := k + 1;
      }
    }

    /** A finished task hands the writer back and its results are accounted. */
    method TakeResults() returns (gained: nat)
      requires Valid() && pending.Some? && |pending.value.done| == |pending.value.jobs|
      modifies this`pending, this`writer
      modifies this`have, this`bytesDone, this`fromServer, this`fromPeers, this`failures, bitmap
      ensures Valid() && pending.None? && writer == Some(pool)
      ensures bitmap.Present() == old(bitmap.Present()) + WrittenChunks(old(pending).value.done)
      ensures Booked(old(pending).value.done, old(failures), old(fromServer), old(fromPeers))
      ensures old(bitmap.Present()) <= bitmap.Present() <= old(bitmap.Present()) + Targets(old(pending).value.jobs)
      ensures BitsHeld(manifest.files, machine.files, bitmap.Present() - old(bitmap.Present()))
      ensures have == old(have) + gained
      ensures Faultless() ==> Verifying(old(pending).value.jobs, locators) <= bitmap.Present()
    {
      hide *;
      TaskNow();
      SoundNow();
      LateNow();
      ghost var m, bits := manifest.files, bitmap.Present();
      var task := pending.value;
      writer := Some(task.writer);
      pending := None;
      WrittenAreHeld(task.jobs, task.done);
      label Taken:
      gained := AccountAll(task.done);
      FewerBitsHeld(m, machine.files, WrittenChunks(task.done), bitmap.Present() - bits);
      if startSound {
        MoreBitsHeld(m, machine.files, bits, WrittenChunks(task.done));
      }
      assert bitmap.Present() == bits + WrittenChunks(task.done);
      TalliesUp@Taken(task.done);
      AtRest();
    }

    twostate lemma TalliesUp(done: seq<WriteDone>)
      requires Static() && old(bitmap.Valid() && Tallied()) && bitmap.Valid()
      requires NewResults(done, |locators|, old(bitmap.Present())) && Sized(done, locators)
      requires bitmap.Present() == old(bitmap.Present()) + WrittenChunks(done)
      requires Booked(done, old(failures), old(fromServer), old(fromPeers))
      requires bytesDone == bytesStart + fromServer + fromPeers
      requires retracted == old(retracted) && fileFailed == old(fileFailed)
      ensures Tallied()
    {
      hide NewResults, Sized, WrittenChunks, HeldBytes, BytesFrom, ResultFailures, Static;
      LocatorsNumbered();
      HeldBytesGain(locators, old(bitmap.Present()), done);
    }

    lemma LocatorsNumbered()
      requires Static()
      ensures Numbered(locators)
    {
      StaticParts();
      hide Static, Usable, WritesSafe, Locators;
      forall i | 0 <= i < |locators|
        ensures locators[i].globalIdx == i
      {
        LocatorIndex(manifest.files, i);
      }
    }

    lemma TaskNow()
      requires Valid() && pending.Some?
      ensures bitmap.Valid() && Static() && pending.value.writer == pool && NotIn(pending.value.jobs, bitmap.Present())
      ensures |pending.value.done| <= |pending.value.jobs| && writer.None?
      ensures JobsOk(pending.value.jobs, |locators|)
      ensures DoneOk(manifest.files, machine.files, pending.value.jobs, pending.value.done, Faultless())
    {
      hide Static, BitsHeld, SavedSound, JobsOk, NotIn, Tallied, JobsBelow, Held;
    }

    /**
     Waits for the write task and accounts its results; the writer comes home. If the wait is
     interrupted the write task is left to itself and nothing is accounted.
     */
    method JoinTask() returns (dropped: bool, gained: nat)
      requires Valid() && pending.Some?
      modifies this`tick, this`paused, this`cancelled, this`pending, this`writer, this`late, machine, pool
      modifies this`have, this`bytesDone, this`fromServer, this`fromPeers, this`failures, bitmap
      ensures Valid() && pending.None?
      ensures (old(paused) ==> paused) && (old(cancelled) ==> cancelled)
      ensures dropped ==> Flagged()
      ensures !dropped ==> writer == Some(pool)
      ensures Gained(manifest.files, old(machine.files), old(bitmap.Present()), machine.files, bitmap.Present())
      ensures bitmap.Present() <= old(bitmap.Present()) + Targets(old(pending).value.jobs)
      ensures have == old(have) + gained
      ensures !dropped && Faultless() ==> Verifying(old(pending).value.jobs, locators) <= bitmap.Present()
      ensures machine.rows == old(machine.rows) && old(machine.instants) <= machine.instants
    {
      hide *;
      BitmapValid();
      ghost var m, files, instants, bits := manifest.files, machine.files, machine.instants, bitmap.Present();
      gained := 0;
      dropped := Await();
      AdvancedImproves(m, files, instants, machine.files, machine.instants, machine.rows);
      if dropped {
        DropTask();
        NothingGained(files, bits);
        return;
      }
      ghost var files', instants' := machine.files, machine.instants;
      Progress(|pending.value.jobs|);
      AdvancedImproves(m, files', instants', machine.files, machine.instants, machine.rows);
      ImprovesTransitive(m, files, files', machine.files);
      gained := TakeResults();
      BitmapValid();
      GainedIs(m, files, bits, machine.files, bitmap.Present());
    }

    /** Hands the chunks of a group to a write task, which takes the writer. */
    method SpawnWrite(jobs: seq<WriteJob>)
      requires Valid() && writer.Some?
      requires JobsOk(jobs, |locators|) && NotIn(jobs, bitmap.Present())
      modifies this`pending, this`writer
      ensures Valid() && writer.None? && pending.Some? && pending.value.jobs == jobs
    {
      hide *;
      SoundNow();
      var w := writer.value;
      writer := None;
      pending := Some(WriteTask(w, jobs, []));
      UnderWay(WriteTask(w, jobs, []));
    }

    /** What `Valid` amounts to while a write task that has not begun has the writer. */
    lemma UnderWay(task: WriteTask)
      requires Static() && pool.Valid() && bitmap.Valid() && bitmap.len == |locators|
      requires task.writer == pool && task.done == [] && JobsOk(task.jobs, |locators|)
      requires NotIn(task.jobs, bitmap.Present())
      requires writer == None && pending == Some(task) && have == |bitmap.Present()|
      requires Tallied() && JobsBelow(late, |locators|)
      requires Quiet() ==> !Flagged()
      requires startSound ==> BitsHeld(manifest.files, machine.files, bitmap.Present()) && SavedSound()
      ensures Valid()
    {
      hide SavedSound, BitsHeld, Tallied, JobsBelow, NotIn, Usable, WritesSafe, StaleOk, Locators;
    }

    /** The chunks in flight whose bytes pass verification. */
    ghost function InFlight(): set<nat>
      reads this`pending
    {
      if pending.Some? then Verifying(pending.value.jobs, locators) else {}
    }

    /** The source of this assignment answers, whenever it is asked, with bytes that pass verification. */
    ghost predicate Delivered(a: Scheduler.Assignment) {
      && a.chunk < |locators|
      && forall t: nat :: && world.fetch(t, a.source, a.chunk).Some?
                          && Blake3(world.fetch(t, a.source, a.chunk).value) == locators[a.chunk].hash
    }

    ghost function DeliveredChunks(plan: seq<Scheduler.Assignment>): set<nat> {
      set k | 0 <= k < |plan| && Delivered(plan[k]) :: plan[k].chunk
    }

    lemma DeliveredUpTo(plan: seq<Scheduler.Assignment>, i: nat, next: nat)
      requires i <= next <= |plan|
      ensures DeliveredChunks(plan[..next]) == DeliveredChunks(plan[..i]) + DeliveredChunks(plan[i..next])
      ensures DeliveredChunks(plan[..0]) == {} && DeliveredChunks(plan[..|plan|]) == DeliveredChunks(plan)
    {
      hide Delivered;
      var front, group := plan[..i], plan[i..next];
      assert plan[..next] == front + group && plan[..|plan|] == plan;
      assert forall k | 0 <= k < |front| :: (front + group)[k] == front[k];
      assert forall k | 0 <= k < |group| :: (front + group)[i + k] == group[k];
    }

    /** Exactly one of the writer and the write task is at hand. */
    ghost predicate AtBoundary()
      reads this`writer, this`pending
    {
      writer.Some? != pending.Some?
    }

    /** Collects the previous group's task, if there is one; all its chunks are below `n`. */
    method JoinPrevious(ghost n: nat) returns (dropped: bool, gained: nat)
      requires Valid() && AtBoundary()
      requires pending.Some? ==> Within(pending.value.jobs, 0, n)
      modifies this`tick, this`paused, this`cancelled, this`pending, this`writer, this`late, machine, pool
      modifies this`have, this`bytesDone, this`fromServer, this`fromPeers, this`failures, bitmap
      ensures Valid() && pending.None?
      ensures (old(paused) ==> paused) && (old(cancelled) ==> cancelled)
      ensures dropped ==> Flagged()
      ensures !dropped ==> writer.Some?
      ensures Gained(manifest.files, old(machine.files), old(bitmap.Present()), machine.files, bitmap.Present())
      ensures bitmap.Present() <= old(bitmap.Present()) + ChunkBitmap.Below(n)
      ensures have == old(have) + gained
      ensures old(machine.instants) <= machine.instants
      ensures !dropped && Faultless() ==> old(InFlight()) <= bitmap.Present()
    {
      hide Static, Held, Usable, WritesSafe, Locators, KeepsHeld, InstantsSound, InstantsKeep, RowBits, Faultless,
          Targets, Verifying;
      dropped, gained := false, 0;
      GainedReflexive(manifest.files, machine.files, bitmap.Present());
      hide Valid;
      if pending.Some? {
        ghost var jobs := pending.value.jobs;
        dropped, gained := JoinTask();
        TargetsBelow(jobs, n);
      }
    }

    /**
     One group: fetch it while the previous group's task writes, account that task, and spawn the
     next one. `writer.Some?` is what makes taking the writer safe at that point.
     */
    method OneGroup(group: seq<Scheduler.Assignment>) returns (dropped: bool, gained: nat)
      requires Valid() && AtBoundary()
      requires group != [] && Ordered(group, 0, |locators|)
      requires forall i | 0 <= i < |group| :: group[i].chunk !in bitmap.Present()
      requires pending.Some? ==> Within(pending.value.jobs, 0, group[0].chunk)
      modifies this`tick, this`paused, this`cancelled, this`pending, this`writer, this`late, this`asked, machine, pool
      modifies this`have, this`bytesDone, this`fromServer, this`fromPeers, this`failures, bitmap
      ensures Valid()
      ensures (old(paused) ==> paused) && (old(cancelled) ==> cancelled)
      ensures dropped ==> Flagged()
      ensures !dropped ==> AtBoundary()
      ensures !dropped && pending.Some? ==> Within(pending.value.jobs, 0, group[|group| - 1].chunk + 1)
      ensures Gained(manifest.files, old(machine.files), old(bitmap.Present()), machine.files, bitmap.Present())
      ensures bitmap.Present() <= old(bitmap.Present()) + ChunkBitmap.Below(group[0].chunk)
      ensures have == old(have) + gained
      ensures old(machine.instants) <= machine.instants
      ensures AskedOutside(old(asked), asked, old(bitmap.Present()), |locators|)
      ensures asked == old(asked) + ChunksIn(group)
      ensures !dropped ==> DeliveredChunks(group) <= InFlight()
      ensures !dropped && Faultless() ==> old(InFlight()) <= bitmap.Present()
    {
      hide *;
      BitmapValid();
      ghost var m, files, instants, bits := manifest.files, machine.files, machine.instants, bitmap.Present();
      var jobs: seq<WriteJob>;
      ghost var t;
      gained := 0;
      dropped, jobs, t := FetchGroup(group);
      AskedGroup(old(asked), group, bits, |locators|);
      AdvancedImproves(m, files, instants, machine.files, machine.instants, machine.rows);
      NothingGained(files, bits);
      SameTask();
      if dropped {
        LetGo();
        return;
      }
      ghost var files' := machine.files;
      dropped, gained := JoinPrevious(group[0].chunk);
      BitmapValid();
      GainedTransitive(m, files, bits, files', bits, machine.files, bitmap.Present());
      if dropped {
        return;
      }
      StartTask(group, jobs, t, bits);
    }

    twostate lemma SameTask()
      requires writer == old(writer) && pending.Some? == old(pending).Some?
      requires pending.Some? ==> pending.value.jobs == old(pending).value.jobs
      ensures AtBoundary() == old(AtBoundary()) && InFlight() == old(InFlight())
    {
      hide Verifying;
    }

    /** Spawns the write task of a fetched group, if anything was delivered. */
    method StartTask(group: seq<Scheduler.Assignment>, jobs: seq<WriteJob>, ghost t: nat, ghost before: set<nat>)
      requires Valid() && writer.Some? && pending.None?
      requires group != [] && Ordered(group, 0, |locators|)
      requires jobs == GoodFetches(world, t, group)
      requires forall i | 0 <= i < |group| :: group[i].chunk !in before
      requires bitmap.Present() <= before + ChunkBitmap.Below(group[0].chunk)
      modifies this`pending, this`writer
      ensures Valid() && AtBoundary()
      ensures pending.Some? ==> Within(pending.value.jobs, 0, group[|group| - 1].chunk + 1)
      ensures DeliveredChunks(group) <= InFlight()
    {
      hide Static, Held, Usable, WritesSafe, Locators, DoneOk, GoodFetches, Ordered, Targets, JobsOk, NotIn, Verifying,
          Delivered;
      GoodFetchesOk(world, t, group, 0, |locators|);
      GroupOrder(group, 0, |locators|);
      DeliveredVerify(group, t);
      if jobs != [] {
        BitmapValid();
        FetchedAreNew(group, jobs, before, bitmap.Present());
        hide Valid;
        SpawnWrite(jobs);
      }
    }

    lemma DeliveredVerify(group: seq<Scheduler.Assignment>, t: nat)
      ensures DeliveredChunks(group) <= Verifying(GoodFetches(world, t, group), locators)
      ensures GoodFetches(world, t, group) == [] ==> DeliveredChunks(group) == {}
    {
      hide GoodFetches;
      forall k | 0 <= k < |group| && Delivered(group[k])
        ensures group[k].chunk in Verifying(GoodFetches(world, t, group), locators)
      {
        GoodFetchesIff(world, t, group, WriteJob(group[k].chunk, group[k].source,
          world.fetch(t, group[k].source, group[k].chunk).value));
        var i :| 0 <= i < |GoodFetches(world, t, group)| && GoodFetches(world, t, group)[i] ==
            WriteJob(group[k].chunk, group[k].source, world.fetch(t, group[k].source, group[k].chunk).value);
      }
    }

    /** Leaves a task that may be running to itself. */
    method LetGo()
      requires Valid() && Flagged()
      modifies this`pending, this`late
      ensures Valid() && pending.None?
    {
      hide Valid;
      if pending.Some? {
        DropTask();
      }
    }

    lemma NothingGained(files: Files, bits: set<nat>)
      requires Improves(manifest.files, files, machine.files)
      ensures Gained(manifest.files, files, bits, machine.files, bits)
    {
      hide Improves;
    }

    /** Fetches answered by the server pass verification and no write fails. */
    ghost predicate Honest() {
      ServerHonest(world, locators) && Faultless()
    }

    /** What the loop over the groups has established before group `i`. */
    ghost predicate PassState(plan: seq<Scheduler.Assignment>, i: nat)
      requires i <= |plan|
      reads this, machine, bitmap, pool
    {
      && Valid() && AtBoundary()
      && (pending.Some? ==> Within(pending.value.jobs, 0, if i < |plan| then plan[i].chunk else |locators|))
      && (forall k | i <= k < |plan| :: plan[k].chunk !in bitmap.Present())
      && (Faultless() ==> DeliveredChunks(plan[..i]) <= bitmap.Present() + InFlight())
    }

    /** One step of the pass: the group starting at `i`. */
    method NextGroup(plan: seq<Scheduler.Assignment>, i: nat)
          returns (dropped: bool, gained: nat, next: nat)
      requires i < |plan| && PassState(plan, i) && Ordered(plan, 0, |locators|)
      modifies this`tick, this`paused, this`cancelled, this`pending, this`writer, this`late, this`asked, machine, pool
      modifies this`have, this`bytesDone, this`fromServer, this`fromPeers, this`failures, this`sincePersist, bitmap
      ensures Valid()
      ensures (old(paused) ==> paused) && (old(cancelled) ==> cancelled)
      ensures dropped ==> Flagged()
      ensures i < next <= |plan|
      ensures AskedOutside(old(asked), asked, old(bitmap.Present()), |locators|)
      ensures asked == old(asked) + ChunksIn(plan[i..next])
      ensures !dropped ==> PassState(plan, next)
      ensures Gained(manifest.files, old(machine.files), old(bitmap.Present()), machine.files, bitmap.Present())
      ensures old(machine.instants) <= machine.instants
    {
      hide *;
      Limits();
      next := Min(i + FETCH_CONCURRENCY, |plan|);
      PassEnters(plan, i, next);
      ghost var files, bits, flying := machine.files, bitmap.Present(), InFlight();
      var group := plan[i..next];
      dropped, gained := OneGroup(group);
      if dropped {
        return;
      }
      BitmapValid();
      GainedAdds(manifest.files, files, bits, machine.files, bitmap.Present());
      Noted(gained);
      PassContinues(plan, i, next, bits, flying);
    }

    /** The state before a group, in the form `OneGroup` asks for. */
    lemma PassEnters(plan: seq<Scheduler.Assignment>, i: nat, next: nat)
      requires i < next <= |plan| && PassState(plan, i) && Ordered(plan, 0, |locators|)
      ensures Valid() && AtBoundary() && bitmap.Valid()
      ensures var group := plan[i..next];
              && group != [] && Ordered(group, 0, |locators|)
              && group[0] == plan[i] && group[|group| - 1] == plan[next - 1]
              && (forall k | 0 <= k < |group| :: group[k].chunk !in bitmap.Present())
              && (pending.Some? ==> Within(pending.value.jobs, 0, group[0].chunk))
      ensures forall k | i <= k < |plan| :: plan[k].chunk !in bitmap.Present()
      ensures Faultless() ==> DeliveredChunks(plan[..i]) <= bitmap.Present() + InFlight()
    {
      hide *;
      PassParts(plan, i);
      GroupOk(plan, i, next);
    }

    lemma PassParts(plan: seq<Scheduler.Assignment>, i: nat)
      requires i < |plan| && PassState(plan, i)
      ensures Valid() && AtBoundary() && bitmap.Valid()
      ensures pending.Some? ==> Within(pending.value.jobs, 0, plan[i].chunk)
      ensures forall k | i <= k < |plan| :: plan[k].chunk !in bitmap.Present()
      ensures Faultless() ==> DeliveredChunks(plan[..i]) <= bitmap.Present() + InFlight()
    {
      hide Valid, Within, InFlight, Faultless, AtBoundary, DeliveredChunks;
      BitmapValid();
    }

    /** The state before the next group. */
    lemma PassContinues(plan: seq<Scheduler.Assignment>, i: nat, next: nat, bits: set<nat>, flying: set<nat>)
      requires Valid() && AtBoundary()
      requires i < next <= |plan| && Ordered(plan, 0, |locators|)
      requires pending.Some? ==> Within(pending.value.jobs, 0, plan[next - 1].chunk + 1)
      requires bitmap.Valid() && bitmap.Present() <= bits + ChunkBitmap.Below(plan[i].chunk)
      requires forall k | i <= k < |plan| :: plan[k].chunk !in bits
      requires bits <= bitmap.Present()
      requires Faultless() ==> DeliveredChunks(plan[..i]) <= bits + flying && flying <= bitmap.Present()
      requires DeliveredChunks(plan[i..next]) <= InFlight()
      ensures PassState(plan, next)
    {
      DeliveredUpTo(plan, i, next);
      hide Valid, InFlight, Faultless, DeliveredChunks;
      GroupOk(plan, i, next);
    }

    lemma HonestServer(a: Scheduler.Assignment)
      ensures Honest() ==> Faultless()
      ensures Honest() && a.source == Scheduler.SERVER && a.chunk < |locators| ==> Delivered(a)
    {
    }

    lemma PassBitmap(plan: seq<Scheduler.Assignment>)
      requires PassState(plan, 0)
      ensures bitmap.Valid()
    {
      hide Valid, InFlight, Within, Faultless;
      BitmapValid();
    }

    /** The state after the last group. */
    lemma PassEnds(plan: seq<Scheduler.Assignment>)
      requires PassState(plan, |plan|)
      ensures Valid() && AtBoundary() && (pending.Some? ==> Within(pending.value.jobs, 0, |locators|))
      ensures Faultless() ==> DeliveredChunks(plan) <= bitmap.Present() + InFlight()
    {
      assert plan[..|plan|] == plan;
      hide Valid, InFlight, Within, Faultless, AtBoundary, DeliveredChunks;
      BitmapValid();
    }

    /**
     The groups of one pass, then the drain of the last write. An interrupted pass leaves a task
     that may still run, and with it the writer, to itself.
     */
    method RunGroups(plan: seq<Scheduler.Assignment>)
          returns (dropped: bool, anyOk: bool, gained: nat)
      requires PassState(plan, 0) && pending.None?
      requires Ordered(plan, 0, |locators|)
      modifies this`tick, this`paused, this`cancelled, this`pending, this`writer, this`late, this`asked, machine, pool
      modifies this`have, this`bytesDone, this`fromServer, this`fromPeers, this`failures, this`sincePersist, bitmap
      ensures Valid()
      ensures (old(paused) ==> paused) && (old(cancelled) ==> cancelled)
      ensures dropped ==> Flagged()
      ensures !dropped ==> writer.Some?
      ensures Gained(manifest.files, old(machine.files), old(bitmap.Present()), machine.files, bitmap.Present())
      ensures old(machine.instants) <= machine.instants
      ensures AskedOutside(old(asked), asked, old(bitmap.Present()), |locators|)
      ensures !dropped ==> asked == old(asked) + ChunksIn(plan)
      ensures !dropped && Faultless() ==> DeliveredChunks(plan) <= bitmap.Present()
    {
      hide *;
      PassBitmap(plan);
      NoChunksYet(plan);
      ghost var m, files, bits := manifest.files, machine.files, bitmap.Present();
      GainedReflexive(m, files, bits);
      AskedNothing(asked, bits, |locators|);
      dropped, anyOk, gained := false, false, 0;
      var i := 0;
      while i < |plan|
        invariant i <= |plan| && PassState(plan, i) && bitmap.Valid()
        invariant i == 0 ==> pending.None?
        invariant (old(paused) ==> paused) && (old(cancelled) ==> cancelled)
        invariant Gained(m, files, bits, machine.files, bitmap.Present())
        invariant AskedOutside(old(asked), asked, bits, |locators|)
        invariant asked == old(asked) + ChunksIn(plan[..i])
        invariant old(machine.instants) <= machine.instants
      {
        ghost var j := i;
        ghost var files', bits', asked' := machine.files, bitmap.Present(), asked;
        GainedAdds(m, files, bits, files', bits');
        dropped, gained, i := NextGroup(plan, i);
        MoreChunks(plan, j, i);
        AskedMore(old(asked), asked', asked, bits, bits', |locators|);
        BitmapValid();
        GainedTransitive(m, files, bits, files', bits', machine.files, bitmap.Present());
        if dropped {
          return;
        }
        anyOk := anyOk || gained > 0;
      }
      PassEnds(plan);
      assert plan[..|plan|] == plan;
      ghost var files', bits' := machine.files, bitmap.Present();
      dropped, gained := JoinPrevious(|locators|);
      BitmapValid();
      GainedAdds(m, files', bits', machine.files, bitmap.Present());
      GainedTransitive(m, files, bits, files', bits', machine.files, bitmap.Present());
    }

    /**
     One pass over a batch: assign, fetch and write group by group, drain the last write, save now
     and then, and wait a little when nothing was accepted. Bits are only added and each is true. An
     uninterrupted pass asks for every chunk of the batch and, while no write fails, gets every one
     whose source answers correctly; the first chunk goes to the server.
     */
    method FetchBatch(batch: seq<nat>) returns (ghost plan: seq<Scheduler.Assignment>)
      requires Valid() && writer.Some?
      requires batch != [] && ChunkBitmap.StrictlyIncreasing(batch)
      requires forall g | g in batch :: g < |locators| && g !in bitmap.Present()
      modifies this`tick, this`paused, this`cancelled, this`pending, this`writer, this`late, this`asked, machine, pool
      modifies this`have, this`bytesDone, this`fromServer, this`fromPeers, this`failures, this`sincePersist, bitmap
      ensures Valid()
      ensures (old(paused) ==> paused) && (old(cancelled) ==> cancelled)
      ensures writer.None? ==> Flagged() && SavedAs("active")
      ensures Gained(manifest.files, old(machine.files), old(bitmap.Present()), machine.files, bitmap.Present())
      ensures old(machine.instants) <= machine.instants
      ensures AskedOutside(old(asked), asked, old(bitmap.Present()), |locators|)
      ensures |plan| == |batch| && forall i | 0 <= i < |batch| :: plan[i].chunk == batch[i]
      ensures plan[0].source == Scheduler.SERVER
      ensures OnlyUsable(world.peers(old(tick)), old(failures), plan)
      ensures EveryUsable(world.peers(old(tick)), old(failures), plan)
      ensures !Flagged() ==> asked == old(asked) + set g | g in batch
      ensures Faultless() && !Flagged() ==> DeliveredChunks(plan) <= bitmap.Present()
      ensures Honest() && !Flagged() ==> batch[0] in bitmap.Present()
    {
      hide *;
      BitmapValid();
      ghost var m, files, bits := manifest.files, machine.files, bitmap.Present();
      var sources := Sources(world.peers(tick), failures, batch);
      var assignments := Scheduler.Assign(batch, sources, Scheduler.DefaultConfig());
      plan := assignments;
      AssignmentFacts(batch, Scheduler.Eligible(sources, Scheduler.DefaultConfig()), |locators|);
      PlanFacts(world.peers(tick), failures, batch);
      PlannedChunks(batch, plan);
      assert batch[0] in batch;
      FirstDelivered(plan);
      EnterPass(batch, assignments);
      var dropped, anyOk, gained := RunGroups(assignments);
      BitmapValid();
      if dropped {
        ghost var files' := machine.files;
        SaveLingering("active");
        GainedThenImproved(m, files, bits, files', machine.files, bitmap.Present());
        return;
      }
      ghost var files' := machine.files;
      Settle(gained, anyOk || gained > 0);
      GainedThenImproved(m, files, bits, files', machine.files, bitmap.Present());
    }

    /** Saving after an interrupt, with detached and left-over writes before and after. */
    method SaveLingering(status: string)
      requires Valid()
      modifies this`tick, this`late, machine, pool
      ensures Valid()
      ensures Improves(manifest.files, old(machine.files), machine.files)
      ensures old(machine.instants) <= machine.instants
      ensures SavedAs(status)
    {
      hide *;
      ghost var m, files, instants := manifest.files, machine.files, machine.instants;
      Linger();
      AdvancedImproves(m, files, instants, machine.files, machine.instants, machine.rows);
      Save(status, None);
      ghost var files', instants' := machine.files, machine.instants;
      label Saved:
      Linger();
      AdvancedImproves(m, files', instants', machine.files, machine.instants, machine.rows);
      ImprovesTransitive(m, files, files', machine.files);
      StillSavedAs@Saved(status);
    }

    lemma FirstDelivered(plan: seq<Scheduler.Assignment>)
      requires plan != [] && plan[0].source == Scheduler.SERVER && plan[0].chunk < |locators|
      ensures Honest() ==> Faultless() && plan[0].chunk in DeliveredChunks(plan)
    {
      HonestServer(plan[0]);
      hide Honest, Faultless, Delivered;
    }

    lemma EnterPass(batch: seq<nat>, plan: seq<Scheduler.Assignment>)
      requires Valid() && writer.Some? && bitmap.Valid() && |plan| == |batch|
      requires forall g | g in batch :: g !in bitmap.Present()
      requires forall i | 0 <= i < |batch| :: plan[i].chunk == batch[i]
      ensures PassState(plan, 0) && pending.None?
    {
      hide Static, BitsHeld, SavedSound, TaskOk;
    }

    /** Counts accepted chunks towards the next save. */
    method Noted(gained: nat)
      requires Valid()
      modifies this`sincePersist
      ensures Valid() && sincePersist == old(sincePersist) + gained
    {
      hide Valid;
      sincePersist := sincePersist + gained;
      StillValid();
    }

    /** The end of a pass: save now and then, and save and back off if nothing was accepted. */
    method Settle(gained: nat, anyOk: bool)
      requires Valid() && writer.Some?
      modifies this`tick, this`paused, this`cancelled, this`pending, this`sincePersist, machine, pool
      ensures Valid()
      ensures (old(paused) ==> paused) && (old(cancelled) ==> cancelled)
      ensures Improves(manifest.files, old(machine.files), machine.files)
      ensures old(machine.instants) <= machine.instants
      ensures sincePersist == if old(sincePersist) + gained >= PERSIST_EVERY then 0 else old(sincePersist) + gained
      ensures old(sincePersist) + gained >= PERSIST_EVERY || !anyOk ==> SavedAs("active")
    {
      hide *;
      Limits();
      ImprovesReflexive(manifest.files, machine.files);
      Noted(gained);
      if sincePersist >= PERSIST_EVERY {
        Save("active", None);
        label Saved:
        sincePersist := 0;
        StillValid@Saved();
      }
      if !anyOk {
        Save("active", None);
        ghost var files, instants := machine.files, machine.instants;
        label Waiting:
        var _ := Await();
        AdvancedImproves(manifest.files, files, instants, machine.files, machine.instants, machine.rows);
        StillSavedAs@Waiting("active");
      }
    }

    /** Waiting changes neither the saved row nor the bitmap. */
    twostate lemma StillSavedAs(status: string)
      requires old(SavedAs(status)) && machine.rows == old(machine.rows) && unchanged(bitmap)
      ensures SavedAs(status)
    {
    }

    // ----- finalising and validating -----

    /** After a failed run the saved bitmap is read back and saved again with the error. */
    method RecordFailure(message: string)
      requires Valid()
      modifies machine
      ensures Valid()
      ensures machine.files == old(machine.files) && old(machine.instants) <= machine.instants
      ensures RowBits(machine.rows, key) <= RowBits(old(machine.rows), key)
      ensures key in old(machine.rows) ==> key in machine.rows && machine.rows[key].status == "error"
      ensures key in old(machine.rows) ==>
                var row := old(machine.rows)[key];
                ChunkBitmap.WellFormed(row.chunkCount, row.bitmap) ==>
                  machine.rows == old(machine.rows)[key := row.(status := "error", error := Some(message))]
    {
      hide *;
      DiskFacts();
      if key in machine.rows {
        ghost var claimed := RowBits(machine.rows, key);
        var row := machine.rows[key];
        RowBitsIs(machine.rows, key);
        var saved := new ChunkBitmap.Bitmap.FromBytes(row.chunkCount, row.bitmap);
        ghost var instants := machine.instants;
        machine.SaveRow(key, DownloadRow(saved.len, saved.bytes, "error", row.dest, Some(message)));
        RowBitsIs(machine.rows, key);
        BitmapBits(saved);
        if startSound {
          FewerBitsHeld(manifest.files, machine.files, claimed, saved.Present());
          SavedAfter(instants);
        }
        ResultsNow();
        DiskMoved();
      }
    }

    /** What the row of a key claims. */
    lemma RowBitsIs(rows: Rows, key: Key)
      requires key in rows
      ensures RowBits(rows, key) == ChunkBitmap.Members(ChunkBitmap.Unpack(rows[key].bitmap))
    {
      hide ChunkBitmap.Members, ChunkBitmap.Unpack;
    }

    lemma BitmapBits(bm: ChunkBitmap.Bitmap)
      requires bm.Valid()
      ensures bm.Present() == ChunkBitmap.Members(ChunkBitmap.Unpack(bm.bytes))
    {
      hide ChunkBitmap.Members, ChunkBitmap.Unpack;
    }

    /** A row that claims only what is on disk keeps the history sound. */
    lemma SavedAfter(instants: seq<Instant>)
      requires InstantsSound(manifest.files, key, instants, since)
      requires BitsHeld(manifest.files, machine.files, RowBits(machine.rows, key))
      requires machine.instants == instants + [Instant(machine.files, machine.rows)]
      ensures SavedSound()
    {
      hide BitsHeld, RowBits;
    }

    lemma ResultsNow()
      requires pending.Some? ==>
                 && JobsOk(pending.value.jobs, |Locators(manifest.files)|)
                 && DoneOk(manifest.files, machine.files, pending.value.jobs, pending.value.done, Faultless())
      ensures pending.Some? ==> ResultsTrue(pending.value.jobs, pending.value.done)
    {
      hide JobsOk, DoneOk, Locators;
    }

    /** Closes the kept handles and finalises the layout. */
    method FinalizeAll() returns (ok: bool)
      requires Valid() && writer.Some?
      modifies this`tick, machine, pool
      ensures Valid()
      ensures pool.open == []
      ensures ok ==> machine.files == Finalized(old(machine.files), manifest.files)
      ensures ok || exists k: nat :: world.layoutFault(old(tick), k)
      ensures machine.rows == old(machine.rows) && old(machine.instants) <= machine.instants
    {
      hide *;
      SoundNow();
      DiskFacts();
      StaticParts();
      ghost var files, instants, rows := machine.files, machine.instants, machine.rows;
      var t := tick;
      tick := tick + 1;
      var w := writer.value;
      w.CloseAll();
      var fails := (k: nat) => world.layoutFault(t, k);
      ok := FinalizeLayout(manifest, machine, fails);
      if !ok {
        LayoutRefused(files, fails);
      }
      if startSound {
        SoundnessSurvives(manifest.files, key, files, instants, machine.files, machine.instants, rows, since);
        BitsStayHeld(manifest.files, files, machine.files, bitmap.Present());
        SavedSurvives();
      }
      DiskMoved();
    }

    lemma LayoutRefused(files: Files, fails: nat -> bool)
      requires Usable(manifest.files)
      requires exists k: nat :: StoppedAt(manifest.files, files, machine.files, k, fails)
      ensures exists k: nat :: fails(k)
    {
      hide Finalized, SafeJoin;
    }

    lemma SavedSurvives()
      requires BitsHeld(manifest.files, machine.files, RowBits(machine.rows, key))
      requires InstantsSound(manifest.files, key, machine.instants, since)
      ensures SavedSound()
    {
      hide BitsHeld, InstantsSound, RowBits;
    }

    /** Clears the chunks of the failed files. */
    method ClearFailed(failed: set<string>)
      requires Static() && bitmap.Valid() && bitmap.len == |locators|
      modifies bitmap
      ensures bitmap.Valid() && bitmap.len == old(bitmap.len)
      ensures bitmap.Present() == old(bitmap.Present()) - BitsOfPaths(manifest.files, failed)
    {
      hide *;
      StaticParts();
      PathBitsAre(manifest.files, failed);
      for i := 0 to |locators|
        invariant bitmap.Valid() && bitmap.len == old(bitmap.len)
        invariant bitmap.Present() == old(bitmap.Present()) - PathBits(locators, failed, i)
      {
        LocatorIndex(manifest.files, i);
        PathBitsStep(locators, failed, i);
        if locators[i].relPath in failed {
          bitmap.Clear(locators[i].globalIdx);
        }
      }
    }

    /** Clears the chunks of the files that failed the validation, and counts what is left. */
    method GiveUp(report: seq<CheckDetail>)
      requires Static() && bitmap.Valid() && bitmap.len == |locators|
      requires report == ValidateQuick(manifest, machine.files)
      modifies this`have, bitmap
      ensures bitmap.Valid() && bitmap.len == |locators| && have == |bitmap.Present()|
      ensures bitmap.Present() ==
                old(bitmap.Present()) - BitsOfPaths(manifest.files, FailedPaths(manifest, machine.files))
    {
      hide *;
      FailedPathsAre(manifest, machine.files, report);
      var failed := set k | 0 <= k < |report| && report[k] != CheckOk :: manifest.files[k].relPath;
      ClearFailed(failed);
      have := bitmap.CountSet();
    }

    /**
     A failed validation: the failed files will be fetched again. The progress counter keeps their
     bytes.
     */
    method Retract(report: seq<CheckDetail>)
      requires Valid() && writer.Some? && report == ValidateQuick(manifest, machine.files)
      requires forall g | 0 <= g < |locators| :: g in bitmap.Present()
      modifies this`have, this`validateTries, this`retracted, this`fileFailed, bitmap
      ensures Valid()
      ensures bitmap.Present() ==
                old(bitmap.Present()) - BitsOfPaths(manifest.files, FailedPaths(manifest, machine.files))
      ensures validateTries == old(validateTries) + 1
      ensures fileFailed == (old(fileFailed) || NonEmptyFails(manifest, machine.files))
    {
      hide *;
      SoundNow();
      TallyNow();
      RestingNow();
      ghost var bits, files := bitmap.Present(), machine.files;
      ghost var cleared := BitsOfPaths(manifest.files, FailedPaths(manifest, files));
      BytesOfCleared(bits, files);
      GiveUp(report);
      assert bitmap.Present() == bits - cleared;
      assert HeldBytes(locators, bits) == HeldBytes(locators, bitmap.Present()) + HeldBytes(locators, cleared);
      validateTries, retracted, fileFailed :=
        validateTries + 1, retracted + HeldBytes(locators, cleared), fileFailed || NonEmptyFails(manifest, files);
      RetractedOk(bits, cleared);
    }

    /** The part of `Valid` that a validation does not touch. */
    ghost predicate Resting()
      reads this`writer, this`pending, this`late, this`paused, this`cancelled, pool
    {
      && Static() && pool.Valid() && writer == Some(pool) && pending == None
      && JobsBelow(late, |locators|) && (Quiet() ==> !Flagged())
    }

    lemma RestingNow()
      requires Valid() && writer.Some?
      ensures Resting()
    {
      hide Static, JobsBelow, Tallied, Sound;
    }

    /** What `Valid` amounts to after some chunks were given up. */
    lemma RetractedOk(bits: set<nat>, cleared: set<nat>)
      requires Resting() && bitmap.Valid() && bitmap.len == |locators| && have == |bitmap.Present()|
      requires bytesDone == bytesStart + fromServer + fromPeers && bytesStart == HeldBytes(locators, startBits)
      requires bytesDone == HeldBytes(locators, bitmap.Present()) + retracted
      requires retracted == 0 <==> !fileFailed
      requires bitmap.Present() == bits - cleared
      requires startSound ==> BitsHeld(manifest.files, machine.files, bits) && SavedSound()
      ensures Valid()
    {
      hide Static, JobsBelow, Tallied, Sound, SavedSound, BitsHeld, HeldBytes, Valid;
      TallyIs();
      if startSound {
        FewerBitsHeld(manifest.files, machine.files, bits, bitmap.Present());
      }
      AtRest();
    }

    lemma TallyNow()
      requires bitmap.Valid() && Tallied()
      ensures bytesStart == HeldBytes(locators, startBits)
      ensures bytesDone == HeldBytes(locators, bitmap.Present()) + retracted
      ensures retracted == 0 <==> !fileFailed
    {
      hide HeldBytes;
    }

    lemma TallyIs()
      requires bitmap.Valid()
      requires bytesDone == bytesStart + fromServer + fromPeers && bytesStart == HeldBytes(locators, startBits)
      requires bytesDone == HeldBytes(locators, bitmap.Present()) + retracted
      requires retracted == 0 <==> !fileFailed
      ensures Tallied()
    {
      hide HeldBytes;
    }

    /** What clearing the failed files takes from the bytes of the bitmap. */
    lemma BytesOfCleared(bits: set<nat>, files: Files)
      requires Static() && forall g | 0 <= g < |locators| :: g in bits
      ensures var cleared := BitsOfPaths(manifest.files, FailedPaths(manifest, files));
              && HeldBytes(locators, bits) == HeldBytes(locators, bits - cleared) + HeldBytes(locators, cleared)
              && (HeldBytes(locators, cleared) == 0 <==> !NonEmptyFails(manifest, files))
    {
      StaticParts();
      LocatorsNumbered();
      hide HeldBytes, FailedPaths, NonEmptyFails, Static, BitsOfPaths, Locators, Usable, Numbered;
      ClearedAreChunks(manifest, files);
      ClearedBytes(manifest, files);
      HeldBytesLess(locators, bits, BitsOfPaths(manifest.files, FailedPaths(manifest, files)));
    }

    lemma SoundNow()
      requires Valid()
      ensures startSound ==> BitsHeld(manifest.files, machine.files, bitmap.Present()) && SavedSound()
      ensures bitmap.Valid() && Tallied() && JobsBelow(late, |locators|)
      ensures bytesDone == bytesStart + fromServer + fromPeers && have == |bitmap.Present()|
      ensures Static() && pool.Valid() && bitmap.Valid() && bitmap.len == |locators|
      ensures writer.Some? ==> writer.value == pool && pending.None?
      ensures Quiet() ==> !Flagged()
    {
      hide Static, BitsHeld, SavedSound, HeldBytes, JobsBelow;
    }

    /**
     With every bit set: finalise and validate. Success completes the job; otherwise the chunks of
     the failed files are cleared for another round, and the third failure ends the job.
     */
    method FinishOrRetry() returns (step: Step)
      requires Valid() && writer.Some?
      requires forall g | 0 <= g < |locators| :: g in bitmap.Present()
      modifies this`tick, this`have, this`validateTries, this`retracted, this`fileFailed, machine, pool, bitmap
      ensures Valid()
      ensures old(machine.instants) <= machine.instants
      ensures pool.open == []
      ensures step != Finished(LayoutFailed) ==> machine.files == Finalized(old(machine.files), manifest.files)
      ensures step == Finished(Completed) || step == Again || step == Finished(ValidationFailed) ||
                step == Finished(LayoutFailed)
      ensures step == Finished(LayoutFailed) ==>
                && bitmap.Present() == old(bitmap.Present()) && validateTries == old(validateTries)
                && exists k: nat :: world.layoutFault(old(tick), k)
      ensures fileFailed ==
                (old(fileFailed) || (step != Finished(LayoutFailed) && NonEmptyFails(manifest, machine.files)))
      ensures step == Finished(Completed) ==>
                && AllOk(ValidateQuick(manifest, machine.files))
                && bitmap.Present() == old(bitmap.Present()) && validateTries == old(validateTries)
                && SavedAs("complete")
      ensures step == Finished(ValidationFailed) ==> key in machine.rows && machine.rows[key].status == "error"
      ensures step == Again || step == Finished(ValidationFailed) ==>
                && !AllOk(ValidateQuick(manifest, machine.files))
                && validateTries == old(validateTries) + 1
                && bitmap.Present() ==
                     old(bitmap.Present()) - BitsOfPaths(manifest.files, FailedPaths(manifest, machine.files))
      ensures step == Again ==> validateTries < MAX_TRIES
      ensures step == Finished(ValidationFailed) ==> validateTries >= MAX_TRIES
    {
      hide *;
      Limits();
      var ok := FinalizeAll();
      if !ok {
        RecordFailure("the layout could not be finalised");
        return Finished(LayoutFailed);
      }
      var report := ValidateQuick(manifest, machine.files);
      if AllOk(report) {
        AllOkNoneFails(manifest, machine.files);
        Save("complete", None);
        return Finished(Completed);
      }
      BitmapValid();
      Retract(report);
      if validateTries >= MAX_TRIES {
        Save("error", Some("validation still failing after re-fetch"));
        SavedHasRow("error");
        RecordFailure("quick validation failed after re-fetch");
        return Finished(ValidationFailed);
      }
      Save("active", None);
      return Again;
    }

    // ----- convergence -----

    /**
     What makes a second failed validation impossible: after the first, and from a sound start
     always, every file is settled, so only an occupied empty entry can still fail.
     */
    ghost predicate Converging()
      requires Static() && bitmap.Valid()
      reads this`validateTries, this`asked, this`retracted, machine, bitmap
    {
      && AskedOnlyMissing()
      && noneOccupied == NoneOccupied(manifest.files, machine.files)
      && (startSound || validateTries >= 1 ==> Settled(manifest.files, machine.files, bitmap.Present()))
      && (validateTries >= 2 || (startSound && validateTries >= 1) ==> !noneOccupied)
      && validateTries < MAX_TRIES
    }

    /** From a sound start no chunk that was there is requested, and none is ever given up. */
    ghost predicate AskedOnlyMissing()
      requires bitmap.Valid()
      reads this`asked, this`retracted, bitmap
    {
      && asked <= ChunkBitmap.Below(|locators|)
      && (startSound ==> startBits <= bitmap.Present() && asked !! startBits && retracted == 0)
    }

    lemma PassConverges(files: Files, bits: set<nat>, before: set<nat>)
      requires Static() && bitmap.Valid()
      requires AskedOutside(before, asked, bits, |locators|) && before <= ChunkBitmap.Below(|locators|)
      requires startSound ==> startBits <= bits && before !! startBits && retracted == 0
      requires Gained(manifest.files, files, bits, machine.files, bitmap.Present())
      requires noneOccupied == NoneOccupied(manifest.files, files)
      requires startSound || validateTries >= 1 ==> Settled(manifest.files, files, bits)
      requires validateTries >= 2 || (startSound && validateTries >= 1) ==> !noneOccupied
      requires validateTries < MAX_TRIES
      ensures Converging()
    {
      StaticParts();
      hide Static, Usable, WritesSafe, Held, SafeJoin, Locators;
    }

    /** The outcome of one validation of the finalised files. */
    lemma ValidationConverges(files: Files, bits: set<nat>, tries: nat)
      requires Static() && bitmap.Valid()
      requires machine.files == Finalized(files, manifest.files)
      requires noneOccupied == NoneOccupied(manifest.files, files)
      requires startSound || tries >= 1 ==> Settled(manifest.files, files, bits)
      requires forall g | 0 <= g < |locators| :: g in bits
      ensures noneOccupied == NoneOccupied(manifest.files, machine.files)
      ensures AllOk(ValidateQuick(manifest, machine.files)) ==> noneOccupied
      ensures (startSound || tries >= 1) && noneOccupied ==> AllOk(ValidateQuick(manifest, machine.files))
      ensures Settled(manifest.files, machine.files, bits - BitsOfPaths(manifest.files, FailedPaths(manifest,
                machine.files)))
      ensures startSound ==> !NonEmptyFails(manifest, machine.files)
    {
      hide Held, SafeJoin, NoneOccupied, Settled, Finalized, QuickCheck, BitsOfPaths, FailedPaths, AllOk, Occupied,
          SameEmpties, ValidateQuick;
      FinalizeKeepsEmpties(manifest.files, files);
      SameEmptiesSameOccupied(manifest.files, files, machine.files);
      if AllOk(ValidateQuick(manifest, machine.files)) {
        ValidatedMeansFree(manifest, files);
      }
      if startSound || tries >= 1 {
        SettledValidates(manifest, files, bits);
      }
      ClearingSettles(manifest, machine.files, bits);
    }

    /** The lowest missing chunks, as many as a batch holds. */
    method NextBatch() returns (batch: seq<nat>)
      requires Valid()
      ensures ChunkBitmap.StrictlyIncreasing(batch)
      ensures forall g | g in batch :: g < |locators| && g !in bitmap.Present()
      ensures |batch| <= BATCH_SIZE
      ensures forall g: nat | g < |locators| && g !in bitmap.Present() ::
                g in batch || (|batch| == BATCH_SIZE && forall b | b in batch :: b < g)
      ensures batch == [] ==> forall g | 0 <= g < |locators| :: g in bitmap.Present()
    {
      hide *;
      Limits();
      BitmapValid();
      var missing := bitmap.Missing();
      batch := missing[..Min(BATCH_SIZE, |missing|)];
      PrefixIncreasing(missing, |batch|);
    }

    lemma ConvergingParts()
      requires Static() && bitmap.Valid() && Converging()
      ensures noneOccupied == NoneOccupied(manifest.files, machine.files)
      ensures startSound || validateTries >= 1 ==> Settled(manifest.files, machine.files, bitmap.Present())
      ensures validateTries >= 2 || (startSound && validateTries >= 1) ==> !noneOccupied
      ensures validateTries < MAX_TRIES && AskedOnlyMissing()
      ensures asked <= ChunkBitmap.Below(|locators|)
      ensures startSound ==> startBits <= bitmap.Present() && asked !! startBits && retracted == 0
    {
    }

    /** A validation from a sound start gives nothing up. */
    lemma ValidationAsksNothing(bits: set<nat>)
      requires Static() && bitmap.Valid() && Tallied() && asked <= ChunkBitmap.Below(|locators|)
      requires startSound ==> startBits <= bits && asked !! startBits && !fileFailed
      requires || bitmap.Present() == bits
               || bitmap.Present() == bits - BitsOfPaths(manifest.files, FailedPaths(manifest, machine.files))
      requires startSound && bitmap.Present() != bits ==> !NonEmptyFails(manifest, machine.files)
      ensures AskedOnlyMissing()
    {
      StaticParts();
      hide Static, Usable, WritesSafe, Locators, HeldBytes, FailedPaths, BitsOfPaths, NonEmptyFails;
      if startSound && bitmap.Present() != bits {
        EmptyFailuresClearNothing(manifest, machine.files);
      }
    }

    lemma ConvergingAgain()
      requires Static() && bitmap.Valid() && AskedOnlyMissing()
      requires noneOccupied == NoneOccupied(manifest.files, machine.files)
      requires Settled(manifest.files, machine.files, bitmap.Present())
      requires validateTries >= 2 || (startSound && validateTries >= 1) ==> !noneOccupied
      requires validateTries < MAX_TRIES
      ensures Converging()
    {
    }

    /** A turn with every bit set. */
    method Validation() returns (step: Step)
      requires Valid() && writer.Some?
      requires forall g | 0 <= g < |locators| :: g in bitmap.Present()
      modifies this`tick, this`have, this`validateTries, this`retracted, this`fileFailed, machine, pool, bitmap
      ensures Valid()
      ensures old(machine.instants) <= machine.instants
      ensures match step
              case Again => validateTries == old(validateTries) + 1 < MAX_TRIES
              case Finished(Completed) => CompletedOk() && validateTries == old(validateTries)
              case Finished(ValidationFailed) =>
                && key in machine.rows && machine.rows[key].status == "error"
                && !AllOk(ValidateQuick(manifest, machine.files)) && validateTries == old(validateTries) + 1
              case Finished(LayoutFailed) =>
                (exists k: nat :: world.layoutFault(old(tick), k)) && validateTries == old(validateTries)
              case Finished(Stopped) => false
      ensures old(Converging()) ==>
                && AskedOnlyMissing()
                && (step == Again ==> Converging())
                && (step == Finished(Completed) ==> noneOccupied && validateTries <= (if startSound then 0 else 1))
                && (step == Finished(ValidationFailed) ==> !noneOccupied)
    {
      hide *;
      Limits();
      SoundNow();
      NothingRetracted();
      ghost var files, bits, tries, converging := machine.files, bitmap.Present(), validateTries, Converging();
      if converging {
        ConvergingParts();
      }
      step := FinishOrRetry();
      SoundNow();
      if converging {
        if step != Finished(LayoutFailed) {
          ValidationConverges(files, bits, tries);
        }
        ValidationAsksNothing(bits);
        if step == Again {
          ConvergingAgain();
        }
      }
      if step == Finished(Completed) {
        Complete();
      }
    }

    /**
     One turn of the job's loop, in any world. While the job is converging, completion means that
     no empty entry was occupied, at most one validation failed, and none from a sound start; and a
     job that gives up does so because an entry was occupied.
     */
    method Iterate() returns (step: Step)
      requires Valid() && (writer.None? ==> Flagged())
      modifies this`tick, this`paused, this`cancelled, this`pending, this`writer, this`late, this`asked, machine, pool
      modifies this`have, this`bytesDone, this`fromServer, this`fromPeers, this`failures, this`sincePersist,
          this`validateTries, this`retracted, this`fileFailed, bitmap
      ensures Valid() && (writer.None? ==> Flagged())
      ensures old(machine.instants) <= machine.instants
      ensures step == Finished(Stopped) <==> old(Flagged())
      ensures step == Finished(Stopped) ==>
                && Improves(manifest.files, old(machine.files), machine.files)
                && bitmap.Present() == old(bitmap.Present()) && Flagged() && SavedAs("paused")
      ensures step == Finished(ValidationFailed) ==> key in machine.rows && machine.rows[key].status == "error"
      ensures step == Finished(LayoutFailed) ==> exists t: nat, k: nat :: world.layoutFault(t, k)
      ensures old(validateTries) <= validateTries <= old(validateTries) + 1
      ensures step == Again && old(Converging()) ==> Converging()
      ensures old(Converging()) ==> AskedOnlyMissing()
      ensures step == Again && Honest() ==>
                || validateTries == old(validateTries) + 1 < MAX_TRIES
                || (validateTries == old(validateTries) && (Flagged() || have > old(have)))
      ensures step == Finished(Completed) ==> CompletedOk()
      ensures step == Finished(Completed) && old(Converging()) ==>
                noneOccupied && validateTries <= (if startSound then 0 else 1)
      ensures step == Finished(ValidationFailed) ==> !AllOk(ValidateQuick(manifest, machine.files))
      ensures step == Finished(ValidationFailed) && old(Converging()) ==> !noneOccupied
    {
      hide *;
      Limits();
      BitmapValid();
      FlaggedIs();
      ghost var files, bits, before, converging := machine.files, bitmap.Present(), asked, Converging();
      if converging {
        ConvergingParts();
      }
      if paused || cancelled {
        SaveLingering("paused");
        return Finished(Stopped);
      }
      var batch := NextBatch();
      if batch == [] {
        step := Validation();
      } else {
        var _ := FetchBatch(batch);
        BitmapValid();
        HaveGrows(files, bits, batch[0]);
        assert batch[0] in batch;
        if converging {
          PassConverges(files, bits, before);
          ConvergingParts();
        }
        step := Again;
      }
    }

    lemma NothingRetracted()
      requires bitmap.Valid() && Tallied()
      ensures retracted == 0 <==> !fileFailed
    {
      hide HeldBytes;
    }

    /**
     The progress counter is the bytes of the set bits exactly as long as no non-empty file has
     failed a validation of this job.
     */
    lemma CounterIsHeldBytes()
      requires Valid() && bitmap.Valid()
      ensures bytesDone == HeldBytes(locators, bitmap.Present()) <==> !fileFailed
      ensures bytesDone >= HeldBytes(locators, bitmap.Present())
    {
      SoundNow();
      hide Valid, HeldBytes;
    }

    /** From a sound start, exactly the bytes of the chunks gained have been received. */
    lemma ReceivedIsGained()
      requires Valid() && bitmap.Valid() && startBits <= bitmap.Present() && retracted == 0
      ensures fromServer + fromPeers == HeldBytes(locators, bitmap.Present() - startBits)
    {
      SoundNow();
      hide Valid, HeldBytes;
      HeldBytesUnion(locators, bitmap.Present() - startBits, startBits);
      assert bitmap.Present() - startBits + startBits == bitmap.Present();
    }

    lemma SavedHasRow(status: string)
      requires SavedAs(status)
      ensures key in machine.rows
    {
      hide RowBits;
    }

    lemma FlaggedIs()
      ensures Flagged() <==> paused || cancelled
    {
    }

    lemma Complete()
      requires bitmap.Valid() && forall g | 0 <= g < |locators| :: g in bitmap.Present()
      requires AllOk(ValidateQuick(manifest, machine.files))
      requires SavedAs("complete")
      ensures CompletedOk()
    {
      hide SavedAs, ValidateQuick;
    }

    lemma HaveGrows(files: Files, bits: set<nat>, g: nat)
      requires bitmap.Valid() && Gained(manifest.files, files, bits, machine.files, bitmap.Present())
      requires g !in bits
      ensures g in bitmap.Present() ==> |bits| < |bitmap.Present()|
    {
      hide *;
      GainedAdds(manifest.files, files, bits, machine.files, bitmap.Present());
      ProperSubsetSmaller(bits, bitmap.Present(), g);
    }

    /** What a completed job leaves: every chunk accounted, every length right, and saved as complete. */
    ghost predicate CompletedOk()
      reads this, machine, bitmap
    {
      && bitmap.Valid() && (forall g | 0 <= g < |locators| :: g in bitmap.Present())
      && AllOk(ValidateQuick(manifest, machine.files))
      && SavedAs("complete")
    }

    lemma GroupOk(plan: seq<Scheduler.Assignment>, i: nat, hi: nat)
      requires Ordered(plan, 0, |locators|) && i < hi <= |plan|
      ensures Ordered(plan[i..hi], 0, |locators|)
      ensures forall k | hi <= k < |plan| :: plan[hi - 1].chunk + 1 <= plan[k].chunk
      ensures plan[hi - 1].chunk + 1 <= |locators|
    {
    }
  }

  lemma Limits()
    ensures FETCH_CONCURRENCY > 0 && BATCH_SIZE > 0 && PERSIST_EVERY > 0 && MAX_TRIES == 3
  {
  }

  lemma PrefixIncreasing(s: seq<nat>, n: nat)
    requires n <= |s| && ChunkBitmap.StrictlyIncreasing(s)
    ensures ChunkBitmap.StrictlyIncreasing(s[..n])
    ensures forall g | g in s[..n] :: g in s
    ensures forall g | g in s :: g in s[..n] || (n < |s| && forall b | b in s[..n] :: b < g)
  {
    forall g | g in s
      ensures g in s[..n] || (n < |s| && forall b | b in s[..n] :: b < g)
    {
      var k :| 0 <= k < |s| && s[k] == g;
      if k < n {
        assert s[..n][k] == g;
      }
    }
  }

  lemma CardinalityGrows(bits: set<nat>, g: nat)
    requires g !in bits
    ensures |bits + {g}| == |bits| + 1
  {
  }

  lemma ProperSubsetSmaller(a: set<nat>, b: set<nat>, g: nat)
    requires a <= b && g !in a
    ensures g in b ==> |a| < |b|
  {
    if g in b {
      assert b == a + (b - a) && g in b - a;
    }
  }

  /** The assignment of a batch keeps its order and starts with the server. */
  lemma PlanFacts(peers: seq<Scheduler.PeerSource>, failures: Failures, batch: seq<nat>)
    ensures var cfg := Scheduler.DefaultConfig();
            var plan := Scheduler.AssignAll(batch, Scheduler.Eligible(Sources(peers, failures, batch), cfg), cfg).out;
            OnlyUsable(peers, failures, plan) && EveryUsable(peers, failures, plan)
  {
    hide OnlyUsable, EveryUsable;
    OnlyUsableSources(peers, failures, batch);
    EveryUsablePeerIsAsked(peers, failures, batch);
  }

  lemma PlannedChunks(batch: seq<nat>, plan: seq<Scheduler.Assignment>)
    requires |plan| == |batch| && forall i | 0 <= i < |batch| :: plan[i].chunk == batch[i]
    ensures ChunksIn(plan) == set g | g in batch
  {
    assert forall i | 0 <= i < |plan| :: plan[i] in plan;
  }

  lemma AssignmentFacts(batch: seq<nat>, cands: seq<Scheduler.Candidate>, n: nat)
    requires batch != [] && ChunkBitmap.StrictlyIncreasing(batch)
    requires forall g | g in batch :: g < n
    ensures var plan := Scheduler.AssignAll(batch, cands, Scheduler.DefaultConfig()).out;
            && |plan| == |batch|
            && (forall i | 0 <= i < |batch| :: plan[i].chunk == batch[i])
            && plan[0] == Scheduler.Assignment(batch[0], Scheduler.SERVER)
            && Ordered(plan, 0, n)
  {
    hide Scheduler.AssignAll, Scheduler.DefaultConfig;
    var plan := Scheduler.AssignAll(batch, cands, Scheduler.DefaultConfig()).out;
    forall i | 0 <= i < |batch|
      ensures plan[i].chunk == batch[i]
    {
      Scheduler.AssignKeepsOrder(batch, cands, Scheduler.DefaultConfig(), i);
    }
    Scheduler.FirstGoesToServer(batch, cands, Scheduler.DefaultConfig());
    forall i, j | 0 <= i < j < |plan|
      ensures plan[i].chunk < plan[j].chunk
    {
      assert batch[i] < batch[j];
    }
    forall i | 0 <= i < |plan|
      ensures plan[i].chunk < n
    {
      assert plan[i].chunk == batch[i] && batch[i] in batch;
    }
  }
}
