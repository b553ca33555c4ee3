/**
 Splitting a batch of missing chunks over the server and the usable peers by weighted least
 virtual time. Floating-point numbers are modelled as reals; the comparison slack and the smallest
 weight are fixed positive constants about which nothing else is known.
 */
module Scheduler {
  import opened Hashing

  const SERVER: string := "@server"

  type Positive = r: real | r > 0.0 witness 1.0
  type NonNegative = r: real | r >= 0.0

  const EPSILON: NonNegative
  const MIN_POSITIVE: Positive

  datatype PeerSource = PeerSource(id: string, throughput: Option<real>, reachable: bool, serverOnly: bool,
      have: set<nat>)

  datatype SchedulerConfig = SchedulerConfig(serverWeight: real, peerFloor: real, bootstrapWeight: real)

  datatype Candidate = Candidate(id: string, weight: real, have: set<nat>)

  datatype Assignment = Assignment(chunk: nat, source: string)

  /** An unmeasured peer counts an eighth of the server; below 32 KiB a second a peer is not worth asking. */
  function DefaultConfig(): (cfg: SchedulerConfig)
    ensures cfg.serverWeight == 8.0 * cfg.bootstrapWeight && cfg.peerFloor == 32768.0
  {
    SchedulerConfig(8.0 * 1_572_864.0, 32.0 * 1024.0, 1_572_864.0)
  }

  function MaxReal(a: real, b: real): real {
    if a < b then b else a
  }

  // ----- eligibility -----

  /** An unmeasured peer bootstraps; a peer measured below the floor contributes nothing. */
  function WeightOf(p: PeerSource, cfg: SchedulerConfig): Option<real> {
    if !p.reachable || p.serverOnly then None
    else
      match p.throughput
      case None => Some(MaxReal(cfg.bootstrapWeight, 1.0))
      case Some(bps) => if bps >= cfg.peerFloor then Some(bps) else None
  }

  function Eligible(peers: seq<PeerSource>, cfg: SchedulerConfig): seq<Candidate> {
    if peers == [] then []
    else
      var p := peers[|peers| - 1];
      Eligible(peers[..|peers| - 1], cfg)
      + if WeightOf(p, cfg).Some? then [Candidate(p.id, WeightOf(p, cfg).value, p.have)] else []
  }

  /** Reachable, not server-only, and either not measured yet or measured at the floor or above it. */
  predicate Serviceable(p: PeerSource, cfg: SchedulerConfig) {
    p.reachable && !p.serverOnly && (p.throughput.None? || p.throughput.value >= cfg.peerFloor)
  }

  /** What a peer is to the scheduler: its measured rate, or the bootstrap weight but at least one. */
  ghost predicate StandsFor(c: Candidate, p: PeerSource, cfg: SchedulerConfig) {
    && Serviceable(p, cfg) && c.id == p.id && c.have == p.have
    && match p.throughput
       case Some(bps) => c.weight == bps
       case None => c.weight >= 1.0 && c.weight >= cfg.bootstrapWeight && c.weight in {1.0, cfg.bootstrapWeight}
  }

  /** The candidates are exactly what the serviceable peers stand for; an unmeasured peer is one of them. */
  lemma {:induction false} EligibleIff(peers: seq<PeerSource>, cfg: SchedulerConfig, c: Candidate)
    ensures c in Eligible(peers, cfg) <==> exists p :: p in peers && StandsFor(c, p, cfg)
  {
    if peers != [] {
      var n := |peers| - 1;
      EligibleIff(peers[..n], cfg, c);
      StandsForIs(c, peers[n], cfg);
      assert peers == peers[..n] + [peers[n]];
      hide StandsFor, WeightOf;
    }
  }

  lemma StandsForIs(c: Candidate, p: PeerSource, cfg: SchedulerConfig)
    ensures StandsFor(c, p, cfg) <==> WeightOf(p, cfg).Some? && c == Candidate(p.id, WeightOf(p, cfg).value, p.have)
  {
  }

  /** No two peers share an id, and none has the server's. */
  ghost predicate DistinctPeers(peers: seq<PeerSource>) {
    && (forall i, j | 0 <= i < j < |peers| :: peers[i].id != peers[j].id)
    && (forall p | p in peers :: p.id != SERVER)
  }

  lemma {:induction false} EligibleDistinct(peers: seq<PeerSource>, cfg: SchedulerConfig)
    requires DistinctPeers(peers)
    ensures Distinguishable(Eligible(peers, cfg)) && |Eligible(peers, cfg)| <= |peers|
  {
    if peers != [] {
      var n := |peers| - 1;
      assert peers == peers[..n] + [peers[n]];
      EligibleDistinct(peers[..n], cfg);
      forall c | c in Eligible(peers[..n], cfg)
        ensures c.id != peers[n].id
      {
        EligibleIff(peers[..n], cfg, c);
      }
    }
  }

  // ----- one pick -----

  type Clocks = map<string, real>

  datatype Best = Best(id: string, vt: real, weight: real)

  ghost predicate Covers(clocks: Clocks, cands: seq<Candidate>) {
    SERVER in clocks && forall c | c in cands :: c.id in clocks
  }

  function BestOf(chunk: nat, cands: seq<Candidate>, clocks: Clocks, cfg: SchedulerConfig): Best
    requires Covers(clocks, cands)
  {
    if cands == [] then Best(SERVER, clocks[SERVER], cfg.serverWeight)
    else
      var c := cands[|cands| - 1];
      var best := BestOf(chunk, cands[..|cands| - 1], clocks, cfg);
      if chunk in c.have && clocks[c.id] < best.vt - EPSILON then Best(c.id, clocks[c.id], c.weight) else best
  }

  /** The weight, kept away from zero. */
  function Pace(weight: real): (pace: Positive)
    ensures pace >= weight && pace >= MIN_POSITIVE && pace in {weight, MIN_POSITIVE}
  {
    MaxReal(weight, MIN_POSITIVE)
  }

  function BestWeight(best: Best, cfg: SchedulerConfig): real {
    if best.id == SERVER then cfg.serverWeight else best.weight
  }

  // ----- the whole assignment -----

  datatype Schedule = Schedule(out: seq<Assignment>, clocks: Clocks)

  function StartClocks(cands: seq<Candidate>): (clocks: Clocks)
    ensures Covers(clocks, cands)
    ensures forall id | id in clocks :: clocks[id] == 0.0
    ensures forall id | id in clocks :: id == SERVER || exists c :: c in cands && c.id == id
  {
    if cands == [] then map[SERVER := 0.0]
    else
      var c := cands[|cands| - 1];
      assert cands == cands[..|cands| - 1] + [c];
      StartClocks(cands[..|cands| - 1])[c.id := 0.0]
  }

  function AssignAll(missing: seq<nat>, cands: seq<Candidate>, cfg: SchedulerConfig): (s: Schedule)
    ensures Covers(s.clocks, cands)
    ensures |s.out| == |missing|
    decreases missing
  {
    if missing == [] then Schedule([], StartClocks(cands))
    else
      var n := |missing| - 1;
      var s := AssignAll(missing[..n], cands, cfg);
      AssignOne(s, missing[n], cands, cfg)
  }

  function AssignOne(s: Schedule, chunk: nat, cands: seq<Candidate>, cfg: SchedulerConfig): (t: Schedule)
    requires Covers(s.clocks, cands)
    ensures Covers(t.clocks, cands)
    ensures |t.out| == |s.out| + 1
  {
    var best := BestOf(chunk, cands, s.clocks, cfg);
    Schedule(s.out + [Assignment(chunk, best.id)],
             s.clocks[best.id := best.vt + 1.0 / Pace(BestWeight(best, cfg))])
  }

  /** The inner loop: the source whose clock is least, the server unless a peer is clearly earlier. */
  method PickBest(chunk: nat, cands: seq<Candidate>, clocks: Clocks, cfg: SchedulerConfig) returns (best: Best)
    requires Covers(clocks, cands)
    ensures best == BestOf(chunk, cands, clocks, cfg)
  {
    best := Best(SERVER, clocks[SERVER], cfg.serverWeight);
    for j := 0 to |cands|
      invariant best == BestOf(chunk, cands[..j], clocks, cfg)
    {
      assert cands[..j + 1][..j] == cands[..j];
      if chunk in cands[j].have {
        var v := clocks[cands[j].id];
        if v < best.vt - EPSILON {
          best := Best(cands[j].id, v, cands[j].weight);
        }
      }
    }
    assert cands[..|cands|] == cands;
  }

  /** The loop over the missing chunks, advancing the clock of the chosen source. */
  method Assign(missing: seq<nat>, peers: seq<PeerSource>, cfg: SchedulerConfig) returns (out: seq<Assignment>)
    ensures out == AssignAll(missing, Eligible(peers, cfg), cfg).out
    ensures |out| == |missing| && forall i | 0 <= i < |missing| :: out[i].chunk == missing[i]
    ensures NoneStarves(missing, peers, cfg, out)
  {
    hide *;
    EverybodyServes(missing, peers, cfg);
    var cands := Eligible(peers, cfg);
    AssignedChunks(missing, cands, cfg);
    var clocks := StartClocks(cands);
    out := [];
    NothingAssigned(missing, cands, cfg);
    for i := 0 to |missing|
      invariant Covers(clocks, cands) && Schedule(out, clocks) == AssignAll(missing[..i], cands, cfg)
    {
      AssignNext(missing, i, cands, cfg);
      AssignOneIs(Schedule(out, clocks), missing[i], cands, cfg);
      var best := PickBest(missing[i], cands, clocks, cfg);
      var weight := if best.id == SERVER then cfg.serverWeight else best.weight;
      clocks := clocks[best.id := best.vt + 1.0 / Pace(weight)];
      out := out + [Assignment(missing[i], best.id)];
    }
    assert missing[..|missing|] == missing;
  }

  lemma NothingAssigned(missing: seq<nat>, cands: seq<Candidate>, cfg: SchedulerConfig)
    ensures AssignAll(missing[..0], cands, cfg) == Schedule([], StartClocks(cands))
  {
    hide StartClocks;
  }

  lemma AssignNext(missing: seq<nat>, i: nat, cands: seq<Candidate>, cfg: SchedulerConfig)
    requires i < |missing|
    ensures AssignAll(missing[..i + 1], cands, cfg) ==
              AssignOne(AssignAll(missing[..i], cands, cfg), missing[i], cands, cfg)
  {
    hide AssignOne, StartClocks;
    assert missing[..i + 1][..i] == missing[..i];
  }

  lemma AssignOneIs(s: Schedule, chunk: nat, cands: seq<Candidate>, cfg: SchedulerConfig)
    requires Covers(s.clocks, cands)
    ensures var best := BestOf(chunk, cands, s.clocks, cfg);
            var weight := if best.id == SERVER then cfg.serverWeight else best.weight;
            AssignOne(s, chunk, cands, cfg) == Schedule(s.out + [Assignment(chunk, best.id)],
                                                        s.clocks[best.id := best.vt + 1.0 / Pace(weight)])
  {
    hide BestOf, Pace;
  }

  lemma AssignedChunks(missing: seq<nat>, cands: seq<Candidate>, cfg: SchedulerConfig)
    ensures forall i | 0 <= i < |missing| :: AssignAll(missing, cands, cfg).out[i].chunk == missing[i]
  {
    forall i | 0 <= i < |missing|
      ensures AssignAll(missing, cands, cfg).out[i].chunk == missing[i]
    {
      AssignKeepsOrder(missing, cands, cfg, i);
    }
  }

  // ----- shape of the output -----

  /** The assignment of a prefix is the prefix of the assignment. */
  lemma {:induction false} AssignPrefix(missing: seq<nat>, cands: seq<Candidate>, cfg: SchedulerConfig, k: nat)
    requires k <= |missing|
    ensures AssignAll(missing[..k], cands, cfg).out == AssignAll(missing, cands, cfg).out[..k]
  {
    var n := |missing| - 1;
    if k <= n {
      AssignPrefix(missing[..n], cands, cfg, k);
      assert missing[..n][..k] == missing[..k];
    } else {
      assert missing[..k] == missing;
    }
  }

  lemma {:induction false} BestIsUsable(chunk: nat, cands: seq<Candidate>, clocks: Clocks, cfg: SchedulerConfig)
    requires Covers(clocks, cands)
    ensures var best := BestOf(chunk, cands, clocks, cfg);
            || best == Best(SERVER, clocks[SERVER], cfg.serverWeight)
            || exists c :: c in cands && chunk in c.have && best == Best(c.id, clocks[c.id], c.weight)
                           && clocks[c.id] < clocks[SERVER] - EPSILON
    ensures BestOf(chunk, cands, clocks, cfg).vt <= clocks[SERVER]
  {
    if cands != [] {
      BestIsUsable(chunk, cands[..|cands| - 1], clocks, cfg);
      assert cands[|cands| - 1] in cands;
    }
  }

  /** The output lists the missing chunks once each, in order. */
  lemma {:induction false} AssignKeepsOrder(missing: seq<nat>, cands: seq<Candidate>, cfg: SchedulerConfig, i: nat)
    requires i < |missing|
    ensures AssignAll(missing, cands, cfg).out[i].chunk == missing[i]
  {
    var n := |missing| - 1;
    if i < n {
      AssignKeepsOrder(missing[..n], cands, cfg, i);
    }
  }

  /** A chunk goes to the server or to an eligible peer that holds it. */
  lemma {:induction false} AssignUsesHolders(missing: seq<nat>, cands: seq<Candidate>, cfg: SchedulerConfig, i: nat)
    requires i < |missing|
    ensures var a := AssignAll(missing, cands, cfg).out[i];
            a.source == SERVER || exists c :: c in cands && c.id == a.source && missing[i] in c.have
  {
    var n := |missing| - 1;
    var s := AssignAll(missing[..n], cands, cfg);
    if i < n {
      AssignUsesHolders(missing[..n], cands, cfg, i);
    } else {
      BestIsUsable(missing[n], cands, s.clocks, cfg);
    }
  }

  /** The first chunk of every batch goes to the server, whatever the peers claim to hold. */
  lemma FirstGoesToServer(missing: seq<nat>, cands: seq<Candidate>, cfg: SchedulerConfig)
    requires missing != []
    ensures AssignAll(missing, cands, cfg).out[0] == Assignment(missing[0], SERVER)
  {
    AssignPrefix(missing, cands, cfg, 1);
    var one := missing[..1];
    assert one == [missing[0]] && one[..0] == [];
    var start := StartClocks(cands);
    BestIsUsable(missing[0], cands, start, cfg);
    assert AssignAll(one[..0], cands, cfg) == Schedule([], start);
    assert AssignAll(one, cands, cfg).out[0] == Assignment(missing[0], BestOf(missing[0], cands, start, cfg).id);
  }

  // ----- fairness -----

  function Tally(out: seq<Assignment>, id: string): nat {
    if out == [] then 0
    else Tally(out[..|out| - 1], id) + if out[|out| - 1].source == id then 1 else 0
  }

  /** The time a source has used after `n` chunks at pace `w`. */
  function Clock(n: nat, w: Positive): real {
    n as real / w
  }

  lemma ClockStep(n: nat, w: Positive)
    ensures Clock(n + 1, w) == Clock(n, w) + 1.0 / w
    ensures Clock(n, w) < Clock(n + 1, w)
  {
  }

  lemma ClockMonotone(m: nat, n: nat, w: Positive)
    requires m <= n
    ensures Clock(m, w) <= Clock(n, w)
  {
  }

  /** `a` chunks at weight `v` are fewer, weight for weight, than `b` chunks at weight `w`. */
  ghost predicate FewerPerWeight(a: nat, v: Positive, b: nat, w: Positive) {
    a as real * w < b as real * v
  }

  /** Comparing two clocks is comparing cross products. */
  lemma ClockLess(a: nat, v: Positive, b: nat, w: Positive)
    requires Clock(a, v) < Clock(b, w)
    ensures FewerPerWeight(a, v, b, w)
  {
    var x, y := Clock(a, v), Clock(b, w);
    assert a as real == x * v && b as real == y * w;
    MulLess(x, y, v * w);
    assert a as real * w == x * (v * w) && b as real * v == y * (v * w);
  }

  lemma MulLess(x: real, y: real, z: real)
    requires x < y && z > 0.0
    ensures x * z < y * z
  {
  }

  /** Clocks are kept per id, so ids must tell the candidates and the server apart. */
  ghost predicate Distinguishable(cands: seq<Candidate>) {
    && (forall i, j | 0 <= i < j < |cands| :: cands[i].id != cands[j].id)
    && (forall c | c in cands :: c.id != SERVER)
  }

  ghost predicate ClocksCount(s: Schedule, cands: seq<Candidate>, cfg: SchedulerConfig)
    requires Covers(s.clocks, cands)
  {
    && s.clocks[SERVER] == Clock(Tally(s.out, SERVER), Pace(cfg.serverWeight))
    && forall c | c in cands :: s.clocks[c.id] == Clock(Tally(s.out, c.id), Pace(c.weight))
  }

  lemma TallySnoc(out: seq<Assignment>, a: Assignment, id: string)
    ensures Tally(out + [a], id) == Tally(out, id) + if a.source == id then 1 else 0
  {
    assert (out + [a])[..|out|] == out;
  }

  /** A source's virtual clock is its chunk count divided by its weight. */
  lemma {:induction false} ClocksCountAlways(missing: seq<nat>, cands: seq<Candidate>, cfg: SchedulerConfig)
    requires Distinguishable(cands)
    ensures ClocksCount(AssignAll(missing, cands, cfg), cands, cfg)
  {
    if missing != [] {
      var n := |missing| - 1;
      var s := AssignAll(missing[..n], cands, cfg);
      ClocksCountAlways(missing[..n], cands, cfg);
      ClocksCountStep(s, missing[n], cands, cfg);
    }
  }

  lemma ClocksCountStep(s: Schedule, chunk: nat, cands: seq<Candidate>, cfg: SchedulerConfig)
    requires Distinguishable(cands) && Covers(s.clocks, cands) && ClocksCount(s, cands, cfg)
    ensures ClocksCount(AssignOne(s, chunk, cands, cfg), cands, cfg)
  {
    var best := BestOf(chunk, cands, s.clocks, cfg);
    BestIsUsable(chunk, cands, s.clocks, cfg);
    var a := Assignment(chunk, best.id);
    TallySnoc(s.out, a, SERVER);
    ClockStep(Tally(s.out, SERVER), Pace(cfg.serverWeight));
    forall c | c in cands
      ensures AssignOne(s, chunk, cands, cfg).clocks[c.id] == Clock(Tally(s.out + [a], c.id), Pace(c.weight))
    {
      TallySnoc(s.out, a, c.id);
      ClockStep(Tally(s.out, c.id), Pace(c.weight));
    }
  }

  /** The last chunk a peer was given, it was given while behind the server. */
  ghost predicate BehindServer(s: Schedule, cands: seq<Candidate>, cfg: SchedulerConfig) {
    forall c | c in cands && Tally(s.out, c.id) > 0 ::
      Clock(Tally(s.out, c.id) - 1, Pace(c.weight)) < Clock(Tally(s.out, SERVER), Pace(cfg.serverWeight))
  }

  lemma {:induction false} BehindServerAlways(missing: seq<nat>, cands: seq<Candidate>, cfg: SchedulerConfig)
    requires Distinguishable(cands)
    ensures BehindServer(AssignAll(missing, cands, cfg), cands, cfg)
  {
    if missing != [] {
      var n := |missing| - 1;
      var s := AssignAll(missing[..n], cands, cfg);
      BehindServerAlways(missing[..n], cands, cfg);
      ClocksCountAlways(missing[..n], cands, cfg);
      BehindServerStep(s, missing[n], cands, cfg);
    }
  }

  lemma BehindServerStep(s: Schedule, chunk: nat, cands: seq<Candidate>, cfg: SchedulerConfig)
    requires Distinguishable(cands) && Covers(s.clocks, cands) && ClocksCount(s, cands, cfg) &&
               BehindServer(s, cands, cfg)
    ensures BehindServer(AssignOne(s, chunk, cands, cfg), cands, cfg)
  {
    var best := BestOf(chunk, cands, s.clocks, cfg);
    BestIsUsable(chunk, cands, s.clocks, cfg);
    var a := Assignment(chunk, best.id);
    TallySnoc(s.out, a, SERVER);
    ClockMonotone(Tally(s.out, SERVER), Tally(s.out + [a], SERVER), Pace(cfg.serverWeight));
    forall c | c in cands && Tally(s.out + [a], c.id) > 0
      ensures Clock(Tally(s.out + [a], c.id) - 1, Pace(c.weight)) < Clock(Tally(s.out +
                [a], SERVER), Pace(cfg.serverWeight))
    {
      TallySnoc(s.out, a, c.id);
    }
  }

  /**
   The server takes at least its weighted share: at every prefix of the output a peer that has
   been given `n` chunks is at most one chunk ahead of the server, weight for weight.
   */
  lemma PeersStayBehindServer(missing: seq<nat>, cands: seq<Candidate>, cfg: SchedulerConfig, k: nat, c: Candidate)
    requires Distinguishable(cands) && k <= |missing| && c in cands
    ensures var out := AssignAll(missing, cands, cfg).out[..k];
            var peer, server := Tally(out, c.id), Tally(out, SERVER);
            peer > 0 ==> FewerPerWeight(peer - 1, Pace(c.weight), server, Pace(cfg.serverWeight))
  {
    hide FewerPerWeight, Clock, Pace;
    AssignPrefix(missing, cands, cfg, k);
    var s := AssignAll(missing[..k], cands, cfg);
    BehindServerAlways(missing[..k], cands, cfg);
    if Tally(s.out, c.id) > 0 {
      ClockLess(Tally(s.out, c.id) - 1, Pace(c.weight), Tally(s.out, SERVER), Pace(cfg.serverWeight));
    }
  }

  /** The chosen clock is within the slack of every clock that could have been chosen. */
  lemma {:induction false} BestIsLeast(chunk: nat, cands: seq<Candidate>, clocks: Clocks, cfg: SchedulerConfig,
        c: Candidate)
    requires Covers(clocks, cands)
    requires c in cands && chunk in c.have
    ensures BestOf(chunk, cands, clocks, cfg).vt <= clocks[c.id] + EPSILON
  {
    var n := |cands| - 1;
    assert cands == cands[..n] + [cands[n]];
    if c in cands[..n] {
      BestIsLeast(chunk, cands[..n], clocks, cfg, c);
    }
  }

  /** A source the balance statement is about: the server or a candidate, with its weight. */
  ghost predicate IsSource(id: string, weight: real, cands: seq<Candidate>, cfg: SchedulerConfig) {
    (id == SERVER && weight == cfg.serverWeight) || exists c :: c in cands && c.id == id && c.weight == weight
  }

  ghost predicate HoldsAll(have: set<nat>, missing: seq<nat>) {
    forall j | 0 <= j < |missing| :: missing[j] in have
  }

  /** A source that could be given any of the missing chunks: the server, or a peer that holds them all. */
  ghost predicate CanTakeAny(id: string, weight: real, missing: seq<nat>, cands: seq<Candidate>, cfg: SchedulerConfig) {
    || (id == SERVER && weight == cfg.serverWeight)
    || exists c :: c in cands && c.id == id && c.weight == weight && HoldsAll(c.have, missing)
  }

  /** Nobody is more than one chunk and the slack ahead of this source. */
  ghost predicate NobodyFarAhead(s: Schedule, cands: seq<Candidate>, cfg: SchedulerConfig, b: string, w: real) {
    forall a, v | IsSource(a, v, cands, cfg) && Tally(s.out, a) > 0 ::
      Clock(Tally(s.out, a) - 1, Pace(v)) <= Clock(Tally(s.out, b), Pace(w)) + EPSILON
  }

  lemma NobodyFarAheadStep(s: Schedule, chunk: nat, cands: seq<Candidate>, cfg: SchedulerConfig, b: string, w: real)
    requires Distinguishable(cands) && Covers(s.clocks, cands) && ClocksCount(s, cands, cfg)
    requires IsSource(b, w, cands, cfg) && CanTakeAny(b, w, [chunk], cands, cfg)
    requires NobodyFarAhead(s, cands, cfg, b, w)
    ensures NobodyFarAhead(AssignOne(s, chunk, cands, cfg), cands, cfg, b, w)
  {
    hide Clock, Pace, BestOf, Tally;
    var best := BestOf(chunk, cands, s.clocks, cfg);
    BestIsUsable(chunk, cands, s.clocks, cfg);
    var t := AssignOne(s, chunk, cands, cfg);
    var last := Assignment(chunk, best.id);
    TallySnoc(s.out, last, b);
    ClockMonotone(Tally(s.out, b), Tally(t.out, b), Pace(w));
    SourceClock(s, cands, cfg, b, w);
    if b != SERVER {
      var c :| c in cands && c.id == b && c.weight == w && HoldsAll(c.have, [chunk]);
      assert [chunk][0] in c.have;
      BestIsLeast(chunk, cands, s.clocks, cfg, c);
    }
    forall a, v | IsSource(a, v, cands, cfg) && Tally(t.out, a) > 0
      ensures Clock(Tally(t.out, a) - 1, Pace(v)) <= Clock(Tally(t.out, b), Pace(w)) + EPSILON
    {
      TallySnoc(s.out, last, a);
      if a == best.id {
        SourceClock(s, cands, cfg, a, v);
      }
    }
  }

  lemma SourceClock(s: Schedule, cands: seq<Candidate>, cfg: SchedulerConfig, id: string, weight: real)
    requires Distinguishable(cands) && Covers(s.clocks, cands) && ClocksCount(s, cands, cfg)
    requires IsSource(id, weight, cands, cfg)
    ensures id in s.clocks && s.clocks[id] == Clock(Tally(s.out, id), Pace(weight))
  {
  }

  lemma TakesFewer(missing: seq<nat>, fewer: seq<nat>, cands: seq<Candidate>, cfg: SchedulerConfig, b: string, w: real)
    requires CanTakeAny(b, w, missing, cands, cfg) && forall x | x in fewer :: x in missing
    ensures CanTakeAny(b, w, fewer, cands, cfg) && IsSource(b, w, cands, cfg)
  {
    if !(b == SERVER && w == cfg.serverWeight) {
      var c :| c in cands && c.id == b && c.weight == w && HoldsAll(c.have, missing);
      assert forall j | 0 <= j < |fewer| :: fewer[j] in fewer && fewer[j] in missing;
      assert HoldsAll(c.have, fewer);
    }
  }

  lemma {:induction false} NobodyFarAheadAlways(missing: seq<nat>, cands: seq<Candidate>, cfg: SchedulerConfig,
        b: string, w: real)
    requires Distinguishable(cands) && CanTakeAny(b, w, missing, cands, cfg)
    ensures NobodyFarAhead(AssignAll(missing, cands, cfg), cands, cfg, b, w)
  {
    if missing != [] {
      var n := |missing| - 1;
      TakesFewer(missing, missing[..n], cands, cfg, b, w);
      TakesFewer(missing, [missing[n]], cands, cfg, b, w);
      NobodyFarAheadAlways(missing[..n], cands, cfg, b, w);
      ClocksCountAlways(missing[..n], cands, cfg);
      NobodyFarAheadStep(AssignAll(missing[..n], cands, cfg), missing[n], cands, cfg, b, w);
    }
  }

  /**
   No source gets ahead of one that could take any of the chunks by more than one chunk and the
   slack. So two sources that could both take any are balanced to within one chunk and the slack.
   */
  lemma SourcesBalanced(missing: seq<nat>, cands: seq<Candidate>, cfg: SchedulerConfig, k: nat, a: string, v: real,
        b: string, w: real)
    requires Distinguishable(cands) && k <= |missing|
    requires IsSource(a, v, cands, cfg) && CanTakeAny(b, w, missing, cands, cfg)
    ensures var out := AssignAll(missing, cands, cfg).out[..k];
            Tally(out, a) > 0 ==> Clock(Tally(out, a) - 1, Pace(v)) <= Clock(Tally(out, b), Pace(w)) + EPSILON
  {
    hide Clock, Pace, IsSource, Tally;
    AssignPrefix(missing, cands, cfg, k);
    TakesFewer(missing, missing[..k], cands, cfg, b, w);
    NobodyFarAheadAlways(missing[..k], cands, cfg, b, w);
  }

  // ----- every peer gets its turn -----

  /** The slack is smaller than what one chunk adds to a clock of this weight. */
  predicate Negligible(weight: real) {
    weight <= 0.0 || EPSILON < 1.0 / weight
  }

  ghost predicate SlackIsSmall(cands: seq<Candidate>, cfg: SchedulerConfig) {
    Negligible(MIN_POSITIVE) && Negligible(cfg.serverWeight) && forall c | c in cands :: Negligible(c.weight)
  }

  lemma FirstChunkCounts(weight: real)
    requires Negligible(MIN_POSITIVE) && Negligible(weight)
    ensures EPSILON < Clock(1, Pace(weight))
  {
    assert Pace(weight) == weight || Pace(weight) == MIN_POSITIVE;
  }

  function TallyAll(out: seq<Assignment>, ids: seq<string>): nat {
    if ids == [] then 0 else TallyAll(out, ids[..|ids| - 1]) + Tally(out, ids[|ids| - 1])
  }

  lemma {:induction false} TallyNothing(ids: seq<string>)
    ensures TallyAll([], ids) == 0
  {
    if ids != [] {
      TallyNothing(ids[..|ids| - 1]);
    }
  }

  lemma {:induction false} TallyOneMore(out: seq<Assignment>, a: Assignment, ids: seq<string>)
    requires forall i, j | 0 <= i < j < |ids| :: ids[i] != ids[j]
    ensures TallyAll(out + [a], ids) == TallyAll(out, ids) + if a.source in ids then 1 else 0
  {
    if ids != [] {
      var n := |ids| - 1;
      assert ids == ids[..n] + [ids[n]];
      TallyOneMore(out, a, ids[..n]);
      TallySnoc(out, a, ids[n]);
    }
  }

  /** The chunks of all sources together are all chunks. */
  lemma {:induction false} TallyTotal(out: seq<Assignment>, ids: seq<string>)
    requires forall i, j | 0 <= i < j < |ids| :: ids[i] != ids[j]
    requires forall a | a in out :: a.source in ids
    ensures TallyAll(out, ids) == |out|
  {
    if out == [] {
      TallyNothing(ids);
    } else {
      var n := |out| - 1;
      assert out == out[..n] + [out[n]];
      TallyTotal(out[..n], ids);
      TallyOneMore(out[..n], out[n], ids);
    }
  }

  /** Where nobody has more than one chunk and one source has none, there are fewer chunks than sources. */
  lemma {:induction false} TallyBound(out: seq<Assignment>, ids: seq<string>, none: string)
    requires forall id | id in ids :: Tally(out, id) <= 1
    ensures TallyAll(out, ids) <= |ids|
    ensures none in ids && Tally(out, none) == 0 ==> TallyAll(out, ids) < |ids|
  {
    if ids != [] {
      var n := |ids| - 1;
      assert ids == ids[..n] + [ids[n]];
      TallyBound(out, ids[..n], none);
    }
  }

  function SourceIds(cands: seq<Candidate>): (ids: seq<string>)
    ensures |ids| == |cands| + 1 && ids[0] == SERVER && forall i | 0 <= i < |cands| :: ids[i + 1] == cands[i].id
  {
    [SERVER] + seq(|cands|, i requires 0 <= i < |cands| => cands[i].id)
  }

  /** With more chunks than candidates, no candidate that holds them all goes without one. */
  lemma NobodyStarves(missing: seq<nat>, cands: seq<Candidate>, cfg: SchedulerConfig, c: Candidate)
    requires Distinguishable(cands) && SlackIsSmall(cands, cfg) && |missing| > |cands|
    requires c in cands && HoldsAll(c.have, missing)
    ensures Tally(AssignAll(missing, cands, cfg).out, c.id) > 0
  {
    hide AssignAll, Tally, Pace, Clock, Negligible;
    var out, ids := AssignAll(missing, cands, cfg).out, SourceIds(cands);
    if Tally(out, c.id) == 0 {
      forall id | id in ids
        ensures Tally(out, id) <= 1
      {
        OneAtMost(missing, cands, cfg, c, id);
      }
      forall a | a in out
        ensures a.source in ids
      {
        var i :| 0 <= i < |out| && out[i] == a;
        AssignUsesHolders(missing, cands, cfg, i);
        if a.source != SERVER {
          var d :| d in cands && d.id == a.source;
          var k :| 0 <= k < |cands| && cands[k] == d;
          assert ids[k + 1] == a.source;
        }
      }
      TallyTotal(out, ids);
      var k :| 0 <= k < |cands| && cands[k] == c;
      assert ids[k + 1] == c.id;
      TallyBound(out, ids, c.id);
      assert false;
    }
  }

  lemma OneAtMost(missing: seq<nat>, cands: seq<Candidate>, cfg: SchedulerConfig, c: Candidate, id: string)
    requires Distinguishable(cands) && SlackIsSmall(cands, cfg)
    requires c in cands && HoldsAll(c.have, missing) && id in SourceIds(cands)
    requires Tally(AssignAll(missing, cands, cfg).out, c.id) == 0
    ensures Tally(AssignAll(missing, cands, cfg).out, id) <= 1
  {
    hide AssignAll, Tally, Pace, Clock, HoldsAll, Negligible;
    var out := AssignAll(missing, cands, cfg).out;
    var weight := WeightOfSource(cands, cfg, id);
    if Tally(out, id) > 1 {
      assert out[..|missing|] == out;
      assert CanTakeAny(c.id, c.weight, missing, cands, cfg);
      SourcesBalanced(missing, cands, cfg, |missing|, id, weight, c.id, c.weight);
      FirstChunkCounts(weight);
      ClockMonotone(1, Tally(out, id) - 1, Pace(weight));
      ClockAtNone(Pace(c.weight));
      assert false;
    }
  }

  lemma ClockAtNone(w: Positive)
    ensures Clock(0, w) == 0.0
  {
  }

  lemma WeightOfSource(cands: seq<Candidate>, cfg: SchedulerConfig, id: string) returns (weight: real)
    requires id in SourceIds(cands) && SlackIsSmall(cands, cfg)
    ensures IsSource(id, weight, cands, cfg) && Negligible(MIN_POSITIVE) && Negligible(weight)
  {
    hide Negligible;
    var i :| 0 <= i <= |cands| && SourceIds(cands)[i] == id;
    if i == 0 {
      weight := cfg.serverWeight;
    } else {
      weight := cands[i - 1].weight;
      assert cands[i - 1] in cands;
    }
  }

  /** The slack is small against the server's weight and every weight a peer can stand for. */
  ghost predicate SlackIsSmallFor(peers: seq<PeerSource>, cfg: SchedulerConfig) {
    && Negligible(MIN_POSITIVE) && Negligible(cfg.serverWeight)
    && Negligible(1.0) && Negligible(cfg.bootstrapWeight)
    && forall p | p in peers && p.throughput.Some? :: Negligible(p.throughput.value)
  }

  /**
   No serviceable peer starves, above all none that has not been measured yet: with more missing
   chunks than peers, each one that holds all of them gets one, whatever the others hold.
   */
  lemma EveryPeerServes(missing: seq<nat>, peers: seq<PeerSource>, cfg: SchedulerConfig, p: PeerSource)
    requires DistinctPeers(peers) && SlackIsSmallFor(peers, cfg) && |missing| > |peers|
    requires p in peers && Serviceable(p, cfg) && HoldsAll(p.have, missing)
    ensures exists i :: 0 <= i < |missing| && AssignAll(missing, Eligible(peers, cfg), cfg).out[i].source == p.id
  {
    hide AssignAll, Tally, Eligible, HoldsAll, Negligible;
    var cands := Eligible(peers, cfg);
    EligibleDistinct(peers, cfg);
    forall c | c in cands
      ensures Negligible(c.weight)
    {
      EligibleIff(peers, cfg, c);
    }
    var weight := match p.throughput case Some(bps) => bps case None => MaxReal(cfg.bootstrapWeight, 1.0);
    var c := Candidate(p.id, weight, p.have);
    assert StandsFor(c, p, cfg);
    EligibleIff(peers, cfg, c);
    NobodyStarves(missing, cands, cfg, c);
    TallyFound(AssignAll(missing, cands, cfg).out, p.id);
  }

  /** Every serviceable peer that holds all missing chunks is the source of one. */
  ghost predicate NoneStarves(missing: seq<nat>, peers: seq<PeerSource>, cfg: SchedulerConfig, out: seq<Assignment>) {
    DistinctPeers(peers) && SlackIsSmallFor(peers, cfg) && |missing| > |peers| ==>
      forall p | p in peers && Serviceable(p, cfg) && HoldsAll(p.have, missing) ::
        exists i :: 0 <= i < |out| && out[i].source == p.id
  }

  lemma EverybodyServes(missing: seq<nat>, peers: seq<PeerSource>, cfg: SchedulerConfig)
    ensures NoneStarves(missing, peers, cfg, AssignAll(missing, Eligible(peers, cfg), cfg).out)
  {
    hide AssignAll, Eligible, Negligible, HoldsAll;
    if DistinctPeers(peers) && SlackIsSmallFor(peers, cfg) && |missing| > |peers| {
      forall p | p in peers && Serviceable(p, cfg) && HoldsAll(p.have, missing)
        ensures exists i :: 0 <= i < |missing| && AssignAll(missing, Eligible(peers, cfg), cfg).out[i].source == p.id
      {
        EveryPeerServes(missing, peers, cfg, p);
      }
    }
  }

  lemma {:induction false} TallyFound(out: seq<Assignment>, id: string)
    requires Tally(out, id) > 0
    ensures exists i :: 0 <= i < |out| && out[i].source == id
  {
    var n := |out| - 1;
    if out[n].source != id {
      TallyFound(out[..n], id);
      var i :| 0 <= i < n && out[..n][i].source == id;
      assert out[i].source == id;
    }
  }
}
