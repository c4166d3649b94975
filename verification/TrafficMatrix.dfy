/** The generator as it runs: two lists that every emitter appends to (htsim_runner.py:415-454, 483-529,
    576-577, 598-714, 715-807). Each emitter is tied to the schedule it realises. */
module TrafficMatrix {
  import opened AllToAll
  import opened Chunking
  import opened Counting
  import opened Options
  import opened Sequences
  import opened Servers
  import opened Transfers
  import opened TriggerProgram
  import Schedules
  import ChunkPipeline
  import Rings
  import C = Collectives

  /** _nccl_delta_order, with its list and its set of visited distances. */
  method NcclDeltaOrder(servers: nat) returns (order: seq<nat>)
    ensures order == DeltaOrder(servers)
  {
    order := [];
    var visited: set<int> := {0};
    for d := 0 to servers / 4 + 1
      invariant order == DeltasAfter(servers, d)
      invariant Visited(visited, order)
    {
      var cands: seq<int> := [d, servers - d, servers / 2 - d, servers - (servers / 2 - d)];
      ghost var before := order;
      for i := 0 to 4
        invariant order == TryFirst(before, d, servers, i)
        invariant Visited(visited, order)
      {
        assert cands[i] == CandidateAt(d, servers, i);
        order, visited := VisitDelta(order, visited, cands[i], servers);
      }
    }
  }

  ghost predicate Visited(visited: set<int>, order: seq<nat>)
  {
    forall c :: c in visited <==> c == 0 || c in order
  }

  method VisitDelta(order: seq<nat>, visited: set<int>, cand: int, servers: nat)
    returns (order': seq<nat>, visited': set<int>)
    requires Visited(visited, order)
    ensures order' == TryDelta(order, cand, servers) && Visited(visited', order')
  {
    order', visited' := order, visited;
    if cand !in visited && 0 < cand < servers {
      order' := order + [cand];
      visited' := visited + {cand};
    }
  }

  function PhasesFrom(g: seq<nat>, lo: nat, k: nat, w: Sites): seq<seq<Pair>>
    requires 0 < k && Placed(g, w)
  {
    PairPhases(g, Batches(lo, |g|, k), w)
  }

  lemma NextPhase(g: seq<nat>, lo: nat, k: nat, w: Sites, phases: seq<seq<Pair>>, pairs: seq<Pair>)
    requires 0 < k && lo < |g| && Placed(g, w) && pairs == BatchPairs(g, 0, FirstBatch(lo, |g|, k), w)
    ensures phases + PhasesFrom(g, lo, k, w)
         == (if pairs == [] then phases else phases + [pairs]) + PhasesFrom(g, lo + k, k, w)
  {
    assert Batches(lo, |g|, k)[1..] == Batches(lo + k, |g|, k);
    var rest := PhasesFrom(g, lo + k, k, w);
    assert phases + ([pairs] + rest) == (phases + [pairs]) + rest;
    assert [] + rest == rest;
  }

  /** The phases of pairwise_steps, built batch by batch; empty phases are dropped. */
  method BuildPairPhases(g: seq<nat>, k: nat, w: Sites) returns (phases: seq<seq<Pair>>)
    requires 0 < k && Placed(g, w)
    ensures phases == PairwiseSteps(g, k, w)
  {
    phases := [];
    var lo := 1;
    while lo < |g|
      invariant 1 <= lo
      invariant phases + PhasesFrom(g, lo, k, w) == PairwiseSteps(g, k, w)
    {
      var pairs := BuildBatch(g, FirstBatch(lo, |g|, k), w);
      NextPhase(g, lo, k, w, phases, pairs);
      if pairs != [] { phases := phases + [pairs]; }
      lo := lo + k;
    }
    assert PhasesFrom(g, lo, k, w) == [];
  }

  method BuildBatch(g: seq<nat>, offs: seq<nat>, w: Sites) returns (pairs: seq<Pair>)
    requires Placed(g, w)
    ensures pairs == BatchPairs(g, 0, offs, w)
  {
    pairs := [];
    for i := 0 to |g|
      invariant pairs + BatchPairs(g, i, offs, w) == BatchPairs(g, 0, offs, w)
    {
      var row := BuildRow(g, i, offs, w);
      pairs := pairs + row;
    }
  }

  method BuildRow(g: seq<nat>, i: nat, offs: seq<nat>, w: Sites) returns (pairs: seq<Pair>)
    requires Placed(g, w) && i < |g|
    ensures pairs == Row(g, i, offs, w)
  {
    pairs := [];
    for j := 0 to |offs|
      invariant pairs + Row(g, i, offs[j..], w) == Row(g, i, offs, w)
    {
      var src, dst := g[i], g[Rem(i + offs[j], |g|)];
      NextInRow(g, i, offs, w, j, pairs);
      if w.Skips(src, dst) { continue; }
      pairs := pairs + [Pair(src, dst)];
    }
  }

  lemma NextInRow(g: seq<nat>, i: nat, offs: seq<nat>, w: Sites, j: nat, pairs: seq<Pair>)
    requires Placed(g, w) && i < |g| && j < |offs|
    ensures var x := Pair(g[i], g[Rem(i + offs[j], |g|)]);
      pairs + Row(g, i, offs[j..], w)
        == (if w.Skips(x.src, x.dst) then pairs else pairs + [x]) + Row(g, i, offs[j + 1..], w)
  {
    assert offs[j..][1..] == offs[j + 1..];
  }

  /** The micro-rounds of nccl_pairwise. The intra-server filter never drops a pair, because the distances are
      never a multiple of the number of servers. */
  method BuildMicroRounds(nodesOf: seq<seq<nat>>, lanes: nat, w: Sites) returns (rounds: seq<seq<Pair>>)
    requires Racked(nodesOf, lanes, w)
    ensures rounds == NcclPairwise(nodesOf, lanes)
  {
    var deltas := NcclDeltaOrder(|nodesOf|);
    DeltaFacts(|nodesOf|);
    rounds := [];
    for d := 0 to |deltas|
      invariant rounds + RoundsFor(nodesOf, lanes, deltas[d..]) == RoundsFor(nodesOf, lanes, deltas)
    {
      assert deltas[d] in deltas;
      var subs := BuildSubRounds(nodesOf, lanes, w, deltas[d]);
      NextDelta(nodesOf, lanes, deltas, d, rounds, subs);
      rounds := rounds + subs;
    }
    assert deltas[|deltas|..] == [];
  }

  lemma NextDelta(nodesOf: seq<seq<nat>>, lanes: nat, deltas: seq<nat>, d: nat, rounds: seq<seq<Pair>>,
                  subs: seq<seq<Pair>>)
    requires Uniform(nodesOf, lanes) && d < |deltas| && subs == SubRounds(nodesOf, lanes, deltas[d], 0)
    ensures rounds + RoundsFor(nodesOf, lanes, deltas[d..])
        == (rounds + subs) + RoundsFor(nodesOf, lanes, deltas[d + 1..])
  {
    assert deltas[d..][1..] == deltas[d + 1..];
  }

  method BuildSubRounds(nodesOf: seq<seq<nat>>, lanes: nat, w: Sites, delta: nat) returns (rounds: seq<seq<Pair>>)
    requires Racked(nodesOf, lanes, w) && 0 < delta < |nodesOf|
    ensures rounds == SubRounds(nodesOf, lanes, delta, 0)
  {
    rounds := [];
    for sub := 0 to lanes
      invariant rounds + SubRounds(nodesOf, lanes, delta, sub) == SubRounds(nodesOf, lanes, delta, 0)
    {
      var pairs := BuildRound(nodesOf, lanes, w, delta, sub);
      if pairs != [] { rounds := rounds + [pairs]; }
    }
  }

  method BuildRound(nodesOf: seq<seq<nat>>, lanes: nat, w: Sites, delta: nat, sub: nat) returns (pairs: seq<Pair>)
    requires Racked(nodesOf, lanes, w) && 0 < delta < |nodesOf| && sub < lanes
    ensures pairs == MicroRound(nodesOf, lanes, delta, sub, 0) && pairs != []
  {
    pairs := [];
    for s := 0 to |nodesOf|
      invariant s > 0 ==> pairs != []
      invariant pairs + MicroRound(nodesOf, lanes, delta, sub, s) == MicroRound(nodesOf, lanes, delta, sub, 0)
    {
      var row := BuildServerRow(nodesOf, lanes, w, delta, sub, s);
      NextServer(nodesOf, lanes, delta, sub, s, pairs, row);
      pairs := pairs + row;
    }
  }

  lemma NextServer(nodesOf: seq<seq<nat>>, lanes: nat, delta: nat, sub: nat, s: nat, pairs: seq<Pair>, row: seq<Pair>)
    requires Uniform(nodesOf, lanes) && s < |nodesOf| && row == ServerRow(nodesOf, lanes, delta, sub, s, 0)
    ensures pairs + MicroRound(nodesOf, lanes, delta, sub, s)
        == (pairs + row) + MicroRound(nodesOf, lanes, delta, sub, s + 1)
  {
  }

  method BuildServerRow(nodesOf: seq<seq<nat>>, lanes: nat, w: Sites, delta: nat, sub: nat, s: nat)
    returns (pairs: seq<Pair>)
    requires Racked(nodesOf, lanes, w) && 0 < delta < |nodesOf| && sub < lanes && s < |nodesOf|
    ensures pairs == ServerRow(nodesOf, lanes, delta, sub, s, 0) && pairs != []
  {
    pairs := [];
    var t := Rem(s + delta, |nodesOf|);
    for l := 0 to lanes
      invariant l > 0 ==> pairs != []
      invariant pairs + ServerRow(nodesOf, lanes, delta, sub, s, l) == ServerRow(nodesOf, lanes, delta, sub, s, 0)
    {
      NextLane(nodesOf, lanes, w, delta, sub, s, l, pairs);
      var src, dst := nodesOf[s][l], nodesOf[t][Rem(l + sub, lanes)];
      if w.exclude && w.serverOf[src] == w.serverOf[dst] { continue; }
      pairs := pairs + [Pair(src, dst)];
    }
  }

  /** The lane is kept: its two ends are on different servers. */
  lemma NextLane(nodesOf: seq<seq<nat>>, lanes: nat, w: Sites, delta: nat, sub: nat, s: nat, l: nat, pairs: seq<Pair>)
    requires Racked(nodesOf, lanes, w) && 0 < delta < |nodesOf| && sub < lanes && s < |nodesOf| && l < lanes
    ensures var x := Lane(nodesOf, lanes, delta, sub, s, l);
      && x.src in w.serverOf && x.dst in w.serverOf && w.serverOf[x.src] != w.serverOf[x.dst]
      && pairs + ServerRow(nodesOf, lanes, delta, sub, s, l)
           == (pairs + [x]) + ServerRow(nodesOf, lanes, delta, sub, s, l + 1)
  {
    StepAway(s, delta, |nodesOf|);
  }

  lemma StepAway(s: nat, delta: nat, servers: nat)
    requires 0 < delta < servers && s < servers
    ensures Rem(s + delta, servers) != s
  {
    StepTo(s, delta, s, servers);
    OffsetZero(s, s, servers);
  }

  /** _emit_chunked: one transfer of `total` bytes as chunks that start together. */
  method ChunkPair(x: Pair, total: nat, chunk: nat) returns (xs: seq<Xfer>)
    requires 0 < chunk
    ensures xs == ChunksOf(x, total, chunk)
  {
    var remaining := total;
    xs := [];
    while remaining > 0
      invariant 0 <= remaining <= total
      invariant xs + ChunksOf(x, remaining, chunk) == ChunksOf(x, total, chunk)
    {
      var size := if remaining > chunk then chunk else remaining;
      NextChunk(x, remaining, chunk, xs);
      xs := xs + [Xfer(x.src, x.dst, size)];
      remaining := remaining - size;
    }
  }

  lemma NextChunk(x: Pair, remaining: nat, chunk: nat, xs: seq<Xfer>)
    requires 0 < chunk && 0 < remaining
    ensures var size := if remaining > chunk then chunk else remaining;
      xs + ChunksOf(x, remaining, chunk) == (xs + [Xfer(x.src, x.dst, size)]) + ChunksOf(x, remaining - size, chunk)
  {
    var size := if remaining > chunk then chunk else remaining;
    assert ChunksOf(x, remaining, chunk) == [Xfer(x.src, x.dst, size)] + ChunksOf(x, remaining - size, chunk);
  }

  method ChunkPhase(pairs: seq<Pair>, total: nat, chunk: nat) returns (xs: seq<Xfer>)
    requires 0 < chunk
    ensures xs == Chunked(pairs, total, chunk)
    ensures |xs| == |pairs| * Chunks(total, chunk)
  {
    xs := [];
    for i := 0 to |pairs|
      invariant xs + Chunked(pairs[i..], total, chunk) == Chunked(pairs, total, chunk)
    {
      var ys := ChunkPair(pairs[i], total, chunk);
      assert pairs[i..][1..] == pairs[i + 1..];
      xs := xs + ys;
    }
    ChunkedLength(pairs, total, chunk);
  }

  lemma NextRing(done: seq<seq<seq<Xfer>>>, rings: seq<seq<nat>>, chunk: nat, steps: nat, w: Sites, r: nat)
    requires r < |rings| && forall i :: 0 <= i < |rings| ==> Placed(rings[i], w)
    ensures var front := Schedules.Compile(done + Schedules.RingChains(rings[..r], chunk, steps, w));
      Schedules.Compile(done + Schedules.RingChains(rings[..r + 1], chunk, steps, w))
        == C.Append(front, Schedules.Chain(Schedules.Repeat(Schedules.RingStep(rings[r], chunk, w), steps),
                                           |front.triggers|, None))
  {
    var chain := Schedules.Repeat(Schedules.RingStep(rings[r], chunk, w), steps);
    var front := done + Schedules.RingChains(rings[..r], chunk, steps, w);
    assert done + Schedules.RingChains(rings[..r + 1], chunk, steps, w) == front + [chain];
    assert (front + [chain])[..|front|] == front;
  }

  lemma RepeatBarriers(step: seq<Xfer>, steps: nat, base: nat)
    ensures Schedules.BarriersFor(Schedules.Repeat(step, steps), base)
      == if steps > 1 then seq(steps - 1, i requires 0 <= i => Barrier(base + 1 + i, |step|)) else []
  {
    var b := Schedules.BarriersFor(Schedules.Repeat(step, steps), base);
    Schedules.BarriersAt(Schedules.Repeat(step, steps), base, 0);
    forall i | 0 <= i < |b| ensures b[i] == Barrier(base + 1 + i, |step|) {
      Schedules.BarriersAt(Schedules.Repeat(step, steps), base, i);
    }
  }

  lemma NextPiece(sp: ChunkPipeline.Split, i: nat, remaining: nat)
    requires sp.Ok() && i < sp.Count() && Pieces(sp.total, sp.chunk)[i..] == Pieces(remaining, sp.chunk)
    ensures var size := if remaining > sp.chunk then sp.chunk else remaining;
      && Pieces(sp.total, sp.chunk)[i] == size
      && Pieces(sp.total, sp.chunk)[i + 1..] == Pieces(remaining - size, sp.chunk)
  {
    var ps := Pieces(sp.total, sp.chunk);
    assert ps[i..][0] == ps[i] && ps[i..][1..] == ps[i + 1..];
    assert remaining > 0;
    if remaining <= sp.chunk { assert [remaining][1..] == []; }
  }

  lemma Regroup(p: Program, fs: seq<FlowDef>, ts: seq<TriggerDef>, q: Program)
    ensures C.Append(Program(p.flows + fs, p.triggers + ts), q) == C.Append(p, Program(fs + q.flows, ts + q.triggers))
  {
    assert (p.flows + fs) + q.flows == p.flows + (fs + q.flows);
    assert (p.triggers + ts) + q.triggers == p.triggers + (ts + q.triggers);
  }

  ghost function FirstPhase(phases: seq<seq<Pair>>, sp: ChunkPipeline.Split, base: nat, entry: Option<nat>): Program
    requires phases != [] && 0 < sp.chunk
  {
    if |phases| == 1 then ChunkPipeline.PhaseProgram(phases[0], sp, base, entry, None)
    else ChunkPipeline.PhaseProgram(phases[0], sp, base + 1, entry, Some(base + 1))
  }

  lemma PhaseStep(before: Program, after: Program, phases: seq<seq<Pair>>, sp: ChunkPipeline.Split, entry: Option<nat>)
    requires 0 < sp.chunk && phases != []
    requires var base := |before.triggers|; var first := FirstPhase(phases, sp, base, entry);
      && after.flows == before.flows + first.flows
      && after.triggers == (if |phases| == 1 then before.triggers
           else before.triggers + [Barrier(base + 1, |phases[0]|)]) + first.triggers
    ensures C.Append(after, ChunkPipeline.Phases(phases[1..], sp, |after.triggers|,
                       if |phases| == 1 then None else Some(|before.triggers| + 1)))
         == C.Append(before, ChunkPipeline.Phases(phases, sp, |before.triggers|, entry))
  {
    if |phases| > 1 {
      var base := |before.triggers|;
      var first := FirstPhase(phases, sp, base, entry);
      var rest := ChunkPipeline.Phases(phases[1..], sp, |after.triggers|, Some(base + 1));
      var b := [Barrier(base + 1, |phases[0]|)];
      assert before.triggers + b + first.triggers == before.triggers + (b + first.triggers);
      Regroup(before, first.flows, b + first.triggers, rest);
      assert (b + first.triggers) + rest.triggers == b + first.triggers + rest.triggers;
    }
  }

  lemma NextPairwise(gs: seq<seq<nat>>, r: C.Request, i: nat)
    requires i < |gs| && C.AllPlaced(gs, r.sites)
    ensures var front := C.PairwiseProgram(gs[..i], r);
      C.PairwiseProgram(gs[..i + 1], r) == C.Append(front, C.PlanProgram(C.PairwisePlan(gs[i], r), |front.triggers|))
  {
    C.PairwisePlansOk(gs[..i + 1], r);
    C.CompileSnoc(C.PairwisePlans(gs[..i + 1], r));
    assert C.PairwisePlans(gs[..i + 1], r)[..i] == C.PairwisePlans(gs[..i], r);
  }

  lemma NextNccl(gs: seq<seq<nat>>, r: C.Request, i: nat)
    requires i < |gs| && C.AllPlaced(gs, r.sites)
    ensures var front := C.NcclProgram(gs[..i], r);
      C.NcclProgram(gs[..i + 1], r) == C.Append(front, C.PlanProgram(C.NcclPlan(gs[i], r), |front.triggers|))
  {
    C.NcclPlansOk(gs[..i + 1], r);
    C.CompileSnoc(C.NcclPlans(gs[..i + 1], r));
    assert C.NcclPlans(gs[..i + 1], r)[..i] == C.NcclPlans(gs[..i], r);
  }

  /** Equally large servers have members, and each is a server of its own. */
  ghost predicate Rackable(rows: seq<seq<nat>>, w: Sites)
  {
    Even(rows) ==> rows != [] && Racked(rows, |rows[0]|, w)
  }

  ghost function RoundsProgram(rows: seq<seq<nat>>, w: Sites, total: nat, base: nat): Program
    requires 0 < total && Rackable(rows, w)
  {
    if Even(rows) then Schedules.Chain(C.ChunkedPhases(NcclPairwise(rows, |rows[0]|), total, total), base, None)
    else Program([], [])
  }

  lemma NcclPlanIs(g: seq<nat>, r: C.Request, rows: seq<seq<nat>>, base: nat)
    requires Placed(g, r.sites) && |g| > 1 && rows == ByServer(g, r.sites)
    ensures Rackable(rows, r.sites)
    ensures C.PlanProgram(C.NcclPlan(g, r), base) == RoundsProgram(rows, r.sites, r.PerPeer(|g|), base)
  {
    if Even(rows) {
      EvenServers(g, r.sites);
      EvenIsRacked(g, r.sites);
    }
  }

  ghost function ServerSteps(rows: seq<seq<nat>>, w: Sites, size: nat, n: nat): seq<seq<Xfer>>
    requires rows != [] && Placed(Flat(rows), w) && 0 < n
  {
    if |rows| > 1 then Schedules.Repeat(Schedules.ServerRingStep(rows, 0, size), |rows| - 1)
    else Schedules.Repeat(Schedules.RingStep(Flat(rows), size, w), n - 1)
  }

  lemma ServerChainIs(g: seq<nat>, w: Sites, size: nat, rows: seq<seq<nat>>)
    requires Rings.GroupOk(g, w) && |g| > 1 && rows == ByServer(g, w)
    ensures rows != [] && Placed(Flat(rows), w)
    ensures Rings.ServerChain(g, w, size) == ServerSteps(rows, w, size, |g|)
  {
    var s := RowOf(g, w, g[0]);
    Rings.BaseRing(g, w);
    Rings.RingIsPlaced(Flat(rows), g, w);
  }

  lemma NextRings(gs: seq<seq<nat>>, job: Rings.Job, i: nat)
    requires i < |gs| && Rings.GroupsOk(gs, job.sites)
    ensures Rings.GroupOk(gs[i], job.sites)
    ensures Rings.AllChains(gs[..i + 1], job) == Rings.AllChains(gs[..i], job) + Rings.GroupChains(gs[i], job)
  {
    assert gs[..i + 1][..i] == gs[..i];
  }

  lemma NextServers(gs: seq<seq<nat>>, w: Sites, size: nat, i: nat)
    requires i < |gs| && Rings.GroupsOk(gs, w)
    ensures Rings.GroupOk(gs[i], w)
    ensures var front := Schedules.Compile(Rings.ServerChains(gs[..i], w, size));
      Schedules.Compile(Rings.ServerChains(gs[..i + 1], w, size))
        == C.Append(front, Schedules.Chain(Rings.ServerChain(gs[i], w, size), |front.triggers|, None))
  {
    assert gs[..i + 1][..i] == gs[..i];
    var chains := Rings.ServerChains(gs[..i + 1], w, size);
    assert chains[..i] == Rings.ServerChains(gs[..i], w, size);
  }

  class Generator {
    var flows: seq<FlowDef>
    var triggers: seq<TriggerDef>

    ghost function View(): Program
      reads this
    {
      Program(flows, triggers)
    }

    constructor ()
      ensures View() == Program([], [])
    {
      flows, triggers := [], [];
    }

    /** Appends one flow per transfer, all with the same start and the same report. */
    method EmitPhase(xs: seq<Xfer>, start: Option<nat>, done: Option<nat>)
      modifies this`flows
      ensures flows == old(flows) + Schedules.PhaseFlows(xs, start, done)
    {
      ghost var flows0 := flows;
      for i := 0 to |xs|
        invariant flows == flows0 + Schedules.PhaseFlows(xs, start, done)[..i]
      {
        flows := flows
            + [FlowDef(xs[i].src, xs[i].dst, xs[i].size, if start.None? then Some(0) else None, start, done)];
      }
    }

    method MakeStepBarriers(steps: nat, flowsPerStep: nat, useTriggers: bool) returns (marks: seq<Schedules.Mark>)
      modifies this`triggers
      ensures |marks| == steps
      ensures useTriggers ==> marks == Schedules.StepMarks(|old(triggers)|, steps, None)
      ensures !useTriggers ==> forall s :: 0 <= s < steps ==> marks[s] == (None, None)
      ensures triggers == old(triggers) + (if useTriggers && steps > 1
        then seq(steps - 1, i requires 0 <= i => Barrier(|old(triggers)| + 1 + i, flowsPerStep)) else [])
    {
      ghost var base := |triggers|;
      if !useTriggers || steps <= 1 {
        marks := seq(steps, _ => (None, None));
        return;
      }
      ghost var triggers0 := triggers;
      var barrierIds: seq<nat> := [];
      for s := 0 to steps - 1
        invariant |barrierIds| == s && forall i :: 0 <= i < s ==> barrierIds[i] == base + 1 + i
        invariant triggers == triggers0 + seq(s, i requires 0 <= i => Barrier(base + 1 + i, flowsPerStep))
      {
        var tid := |triggers| + 1;
        triggers := triggers + [Barrier(tid, flowsPerStep)];
        barrierIds := barrierIds + [tid];
      }
      marks := seq(steps, s requires 0 <= s < steps =>
        (if s > 0 then Some(barrierIds[s - 1]) else None, if s < steps - 1 then Some(barrierIds[s]) else None));
      forall s | 0 <= s < steps ensures marks[s] == Schedules.StepMarks(base, steps, None)[s] {
        Schedules.StepMarksAt(base, steps, None, s);
      }
    }

    /** _emit_ring_steps: in each step every member of the ring sends to its successor. */
    method EmitRingSteps(ring: seq<nat>, chunk: nat, marks: seq<Schedules.Mark>, w: Sites)
      requires Placed(ring, w)
      modifies this`flows
      ensures flows == old(flows) +
        Schedules.StepFlows(Schedules.Repeat(Schedules.RingStep(ring, chunk, w), |marks|), marks)
    {
      ghost var step := Schedules.RingStep(ring, chunk, w);
      ghost var flows0 := flows;
      assert Schedules.StepFlows(Schedules.Repeat(step, 0), marks[..0]) == [];
      for s := 0 to |marks|
        invariant flows == flows0 + Schedules.StepFlows(Schedules.Repeat(step, s), marks[..s])
      {
        ghost var before := flows;
        for i := 0 to |ring|
          invariant flows == before + Schedules.PhaseFlows(step, marks[s].0, marks[s].1)[..i]
        {
          var src, dst := ring[i], ring[Rem(i + 1, |ring|)];
          var size := if w.Skips(src, dst) then Schedules.INTRA_SERVER_BYTES else chunk;
          flows := flows
              + [FlowDef(src, dst, size, if marks[s].0.None? then Some(0) else None, marks[s].0, marks[s].1)];
        }
        Schedules.StepFlowsSnoc(Schedules.Repeat(step, s), marks[..s], step, marks[s]);
        assert Schedules.Repeat(step, s) + [step] == Schedules.Repeat(step, s + 1);
        assert marks[..s] + [marks[s]] == marks[..s + 1];
      }
      assert marks[..|marks|] == marks;
    }

    /** The ring collectives with barriers: one chain of `steps` steps per ring. */
    method EmitRings(rings: seq<seq<nat>>, chunk: nat, steps: nat, w: Sites, ghost done: seq<seq<seq<Xfer>>>)
      requires forall r :: 0 <= r < |rings| ==> Placed(rings[r], w)
      requires View() == Schedules.Compile(done)
      modifies this
      ensures View() == Schedules.Compile(done + Schedules.RingChains(rings, chunk, steps, w))
    {
      assert done + [] == done;
      for r := 0 to |rings|
        invariant View() == Schedules.Compile(done + Schedules.RingChains(rings[..r], chunk, steps, w))
      {
        EmitRing(rings[r], chunk, steps, w);
        NextRing(done, rings, chunk, steps, w, r);
      }
      assert rings[..|rings|] == rings;
    }

    /** One ring: all its barriers first, then its steps. */
    method EmitRing(ring: seq<nat>, chunk: nat, steps: nat, w: Sites)
      requires Placed(ring, w)
      modifies this
      ensures View() == C.Append(old(View()), Schedules.Chain(
        Schedules.Repeat(Schedules.RingStep(ring, chunk, w), steps), |old(triggers)|, None))
    {
      ghost var step, base := Schedules.RingStep(ring, chunk, w), |triggers|;
      var marks := MakeStepBarriers(steps, |ring|, true);
      EmitRingSteps(ring, chunk, marks, w);
      Schedules.ChainIsSteps(Schedules.Repeat(step, steps), base, None);
      RepeatBarriers(step, steps, base);
    }

    /** Phases chained by barriers allocated as they are emitted (the NCCL micro-rounds, and the pairwise
        phases outside pipeline mode). */
    method EmitChain(phases: seq<seq<Xfer>>)
      modifies this
      ensures var c := Schedules.Chain(phases, |old(triggers)|, None);
        View() == Program(old(flows) + c.flows, old(triggers) + c.triggers)
    {
      ghost var base := |triggers|;
      ghost var flows0, triggers0 := flows, triggers;
      ghost var marks := Schedules.StepMarks(base, |phases|, None);
      ghost var barriers := Schedules.BarriersFor(phases, base);
      Schedules.BarriersAt(phases, base, 0);
      var prev: Option<nat> := None;
      assert Schedules.StepFlows(phases[..0], marks[..0]) == [];
      for p := 0 to |phases|
        invariant flows == flows0 + Schedules.StepFlows(phases[..p], marks[..p])
        invariant triggers == triggers0 + barriers[..if p < |barriers| then p else |barriers|]
        invariant p < |phases| ==> prev == marks[p].0
      {
        Schedules.StepMarksAt(base, |phases|, None, p);
        Schedules.BarriersAt(phases, base, p);
        var start := prev;
        var done: Option<nat> := None;
        if p < |phases| - 1 {
          var tid := |triggers| + 1;
          triggers := triggers + [Barrier(tid, |phases[p]|)];
          done := Some(tid);
          Schedules.StepMarksAt(base, |phases|, None, p + 1);
        }
        EmitPhase(phases[p], start, done);
        prev := done;
        Schedules.NextStep(phases, marks, p);
      }
      assert phases[..|phases|] == phases && marks[..|phases|] == marks;
      assert barriers[..|barriers|] == barriers;
      Schedules.ChainIsSteps(phases, base, None);
    }

    /** _emit_chunked_pipeline: chunk i waits for the completion of chunk i - inflight; the last chunk reports
        to the phase. The caller has already checked that the transfer splits and that there is a cap. */
    method EmitPipelined(x: Pair, sp: ChunkPipeline.Split, start: Option<nat>, done: Option<nat>)
      requires sp.Ok()
      modifies this
      ensures flows == old(flows) + ChunkPipeline.PairFlows(x, sp, |old(triggers)|, start, done)
      ensures triggers == old(triggers) + ChunkPipeline.PairTriggers(sp, |old(triggers)|)
    {
      ChunksIsCeil(sp.total, sp.chunk);
      var count := (sp.total + sp.chunk - 1) / sp.chunk;
      var startIds := AllocateReleases(sp, count, start);
      EmitChunks(x, sp, |old(triggers)|, startIds, start, done);
    }

    method AllocateReleases(sp: ChunkPipeline.Split, count: nat, start: Option<nat>)
      returns (startIds: seq<Option<nat>>)
      requires sp.Ok() && count == sp.Count()
      modifies this`triggers
      ensures triggers == old(triggers) + ChunkPipeline.PairTriggers(sp, |old(triggers)|)
      ensures startIds == seq(count, i requires 0 <= i => ChunkPipeline.ChunkEntry(sp, i, |old(triggers)|, start))
    {
      ghost var base, triggers0 := |triggers|, triggers;
      startIds := [];
      for i := 0 to count
        invariant startIds == seq(i, j requires 0 <= j => ChunkPipeline.ChunkEntry(sp, j, base, start))
        invariant triggers == triggers0 +
          seq(if i > sp.inflight then i - sp.inflight else 0, k requires 0 <= k => OneShot(base + 1 + k))
      {
        if i < sp.inflight {
          startIds := startIds + [start];
        } else {
          var tid := |triggers| + 1;
          triggers := triggers + [OneShot(tid)];
          startIds := startIds + [Some(tid)];
        }
      }
    }

    method EmitChunks(x: Pair, sp: ChunkPipeline.Split, ghost base: nat, startIds: seq<Option<nat>>,
                      start: Option<nat>, done: Option<nat>)
      requires sp.Ok()
      requires startIds == seq(sp.Count(), i requires 0 <= i => ChunkPipeline.ChunkEntry(sp, i, base, start))
      modifies this`flows
      ensures flows == old(flows) + ChunkPipeline.PairFlows(x, sp, base, start, done)
    {
      ghost var flows0 := flows;
      ghost var all := ChunkPipeline.PairFlows(x, sp, base, start, done);
      var remaining := sp.total;
      for i := 0 to |startIds|
        invariant 0 <= remaining <= sp.total
        invariant Pieces(sp.total, sp.chunk)[i..] == Pieces(remaining, sp.chunk)
        invariant flows == flows0 + all[..i]
      {
        NextPiece(sp, i, remaining);
        var size := if remaining > sp.chunk then sp.chunk else remaining;
        var flow := OneChunk(x, sp, base, startIds, start, done, i, size);
        assert flow == all[i];
        flows := flows + [flow];
        remaining := remaining - size;
      }
    }

    /** Chunk `i`: the first `inflight` ones start with the phase, the others on their own trigger; each but the
        last `inflight` ones releases a later chunk, and the last one reports to the phase. */
    static method OneChunk(x: Pair, sp: ChunkPipeline.Split, ghost base: nat, startIds: seq<Option<nat>>,
                           start: Option<nat>, done: Option<nat>, i: nat, size: nat) returns (flow: FlowDef)
      requires sp.Ok() && i < sp.Count() && Pieces(sp.total, sp.chunk)[i] == size
      requires startIds == seq(sp.Count(), k requires 0 <= k => ChunkPipeline.ChunkEntry(sp, k, base, start))
      ensures flow == ChunkPipeline.ChunkFlow(x, sp, i, base, start, done)
    {
      var trigger := if i < sp.inflight then start else startIds[i];
      var report := if i + sp.inflight < |startIds| then startIds[i + sp.inflight] else None;
      if report.None? && i == |startIds| - 1 { report := done; }
      flow := FlowDef(x.src, x.dst, size, if trigger.None? then Some(0) else None, trigger, report);
    }

    /** One pipelined phase: the pairs side by side. */
    method EmitPipelinePhase(pairs: seq<Pair>, sp: ChunkPipeline.Split, start: Option<nat>, done: Option<nat>)
      requires sp.Ok()
      modifies this
      ensures View() == C.Append(old(View()), ChunkPipeline.PhaseProgram(pairs, sp, |old(triggers)|, start, done))
    {
      ghost var goal := C.Append(View(), ChunkPipeline.PhaseProgram(pairs, sp, |triggers|, start, done));
      for i := 0 to |pairs|
        invariant C.Append(View(), ChunkPipeline.PhaseProgram(pairs[i..], sp, |triggers|, start, done)) == goal
      {
        ghost var before := View();
        assert pairs[i..][1..] == pairs[i + 1..];
        EmitPipelined(pairs[i], sp, start, done);
        Regroup(before, ChunkPipeline.PairFlows(pairs[i], sp, |before.triggers|, start, done),
                ChunkPipeline.PairTriggers(sp, |before.triggers|),
                ChunkPipeline.PhaseProgram(pairs[i + 1..], sp, |triggers|, start, done));
      }
    }

    /** The pipelined phases of a group: each but the last reports to a barrier of one activation per pair. */
    method EmitPipelinePhases(phases: seq<seq<Pair>>, sp: ChunkPipeline.Split)
      requires sp.Ok()
      modifies this
      ensures View() == C.Append(old(View()), ChunkPipeline.Phases(phases, sp, |old(triggers)|, None))
    {
      ghost var goal := C.Append(View(), ChunkPipeline.Phases(phases, sp, |triggers|, None));
      var prev: Option<nat> := None;
      for p := 0 to |phases|
        invariant C.Append(View(), ChunkPipeline.Phases(phases[p..], sp, |triggers|, prev)) == goal
      {
        ghost var before, entry := View(), prev;
        assert phases[p..][0] == phases[p] && phases[p..][1..] == phases[p + 1..];
        var done: Option<nat> := None;
        if p < |phases| - 1 {
          var tid := |triggers| + 1;
          triggers := triggers + [Barrier(tid, |phases[p]|)];
          done := Some(tid);
        }
        EmitPipelinePhase(phases[p], sp, prev, done);
        PhaseStep(before, View(), phases[p..], sp, entry);
        prev := done;
      }
    }

    /** Phases whose chunks all start together, chained by barriers that count every chunk. */
    method EmitChunkedPhases(phases: seq<seq<Pair>>, total: nat, chunk: nat)
      requires 0 < chunk
      modifies this
      ensures View()
          == C.Append(old(View()), Schedules.Chain(C.ChunkedPhases(phases, total, chunk), |old(triggers)|, None))
    {
      var chunked: seq<seq<Xfer>> := [];
      for p := 0 to |phases|
        invariant View() == old(View())
        invariant chunked + C.ChunkedPhases(phases[p..], total, chunk) == C.ChunkedPhases(phases, total, chunk)
      {
        var xs := ChunkPhase(phases[p], total, chunk);
        assert phases[p..][1..] == phases[p + 1..];
        chunked := chunked + [xs];
      }
      assert phases[|phases|..] == [] && chunked + [] == chunked;
      assert chunked == C.ChunkedPhases(phases, total, chunk);
      EmitChain(chunked);
    }

    /** One group of a pairwise all-to-all. */
    method EmitPairwise(g: seq<nat>, r: C.Request)
      requires Placed(g, r.sites)
      modifies this
      ensures View() == C.Append(old(View()), C.PlanProgram(C.PairwisePlan(g, r), |old(triggers)|))
    {
      if |g| <= 1 { return; }
      var total := BytesPerPeer(|g|, r);
      var chunk := if r.chunkBytes <= 0 then total else r.chunkBytes;
      if chunk > total { chunk := total; }
      var phases := BuildPairPhases(g, r.Width(), r.sites);
      if r.inflight > 0 && chunk < total {
        EmitPipelinePhases(phases, ChunkPipeline.Split(total, chunk, r.inflight));
      } else {
        EmitChunkedPhases(phases, total, chunk);
      }
    }

    static method BytesPerPeer(n: nat, r: C.Request) returns (total: nat)
      requires 0 < n
      ensures total == r.PerPeer(n)
    {
      ChunksIsCeil(r.tensor, n);
      var quotient := (r.tensor + n - 1) / n;
      total := if quotient > 1 then quotient else 1;
    }

    /** The pairwise all-to-all over all groups. */
    method EmitAllToAll(groups: seq<seq<nat>>, r: C.Request)
      requires View() == Program([], []) && C.AllPlaced(groups, r.sites)
      modifies this
      ensures View() == C.PairwiseProgram(groups, r) && WellFormed(View())
    {
      for i := 0 to |groups|
        invariant View() == C.PairwiseProgram(groups[..i], r)
      {
        NextPairwise(groups, r, i);
        EmitPairwise(groups[i], r);
      }
      assert groups[..|groups|] == groups;
      C.AllToAllWellFormed(groups, r);
    }

    /** The two-level all-to-all of a group; a group on unequally large servers sends nothing. */
    method EmitNccl(g: seq<nat>, r: C.Request)
      requires Placed(g, r.sites) && Distinct(g)
      modifies this
      ensures View() == C.Append(old(View()), C.PlanProgram(C.NcclPlan(g, r), |old(triggers)|))
    {
      if |g| <= 1 { return; }
      var total := BytesPerPeer(|g|, r);
      var nodesOf := GroupByServer(g, r.sites);
      NcclPlanIs(g, r, nodesOf, |triggers|);
      EmitServerRounds(nodesOf, r.sites, total);
    }

    method EmitServerRounds(nodesOf: seq<seq<nat>>, w: Sites, total: nat)
      requires 0 < total && Rackable(nodesOf, w)
      modifies this
      ensures View() == C.Append(old(View()), RoundsProgram(nodesOf, w, total, |old(triggers)|))
    {
      if !Even(nodesOf) { return; }
      var rounds := BuildMicroRounds(nodesOf, |nodesOf[0]|, w);
      EmitRounds(rounds, total);
    }

    method EmitRounds(rounds: seq<seq<Pair>>, total: nat)
      requires 0 < total
      modifies this
      ensures View()
          == C.Append(old(View()), Schedules.Chain(C.ChunkedPhases(rounds, total, total), |old(triggers)|, None))
    {
      var sized: seq<seq<Xfer>> := [];
      for i := 0 to |rounds|
        invariant View() == old(View())
        invariant sized + C.ChunkedPhases(rounds[i..], total, total) == C.ChunkedPhases(rounds, total, total)
      {
        assert rounds[i..][1..] == rounds[i + 1..];
        SizedIsChunked(rounds[i], total);
        sized := sized + [Sized(rounds[i], total)];
      }
      assert rounds[|rounds|..] == [] && sized + [] == sized;
      assert sized == C.ChunkedPhases(rounds, total, total);
      EmitChain(sized);
    }

    /** The two-level all-to-all over all groups. */
    method EmitNcclAll(groups: seq<seq<nat>>, r: C.Request)
      requires View() == Program([], []) && C.AllPlaced(groups, r.sites)
      requires forall i :: 0 <= i < |groups| ==> Distinct(groups[i])
      modifies this
      ensures View() == C.NcclProgram(groups, r) && WellFormed(View())
    {
      for i := 0 to |groups|
        invariant View() == C.NcclProgram(groups[..i], r)
      {
        NextNccl(groups, r, i);
        EmitNccl(groups[i], r);
      }
      assert groups[..|groups|] == groups;
      C.AllToAllWellFormed(groups, r);
    }

    /** The ring collectives with barriers, over all groups and channels. */
    method EmitRingCollective(groups: seq<seq<nat>>, job: Rings.Job)
      requires View() == Program([], []) && Rings.GroupsOk(groups, job.sites)
      modifies this
      ensures View() == Rings.RingProgram(groups, job) && WellFormed(View())
    {
      for i := 0 to |groups|
        invariant View() == Rings.RingProgram(groups[..i], job)
      {
        NextRings(groups, job, i);
        EmitGroupRings(groups[i], job, Rings.AllChains(groups[..i], job));
      }
      assert groups[..|groups|] == groups;
      Rings.RingProgramWellFormed(groups, job);
    }

    method EmitGroupRings(g: seq<nat>, job: Rings.Job, ghost done: seq<seq<seq<Xfer>>>)
      requires Rings.GroupOk(g, job.sites) && View() == Schedules.Compile(done)
      modifies this
      ensures View() == Schedules.Compile(done + Rings.GroupChains(g, job))
    {
      assert done + [] == done;
      if |g| <= 1 { return; }
      var nodesOf := GroupByServer(g, job.sites);
      var size := PartSize(|g|, job);
      var steps := if job.reduce then 2 * (|g| - 1) else |g| - 1;
      Rings.RingsPlaced(g, job.sites, job.channels);
      EmitRings(Rings.ChannelRings(nodesOf, job.channels), size, steps, job.sites, done);
    }

    static method PartSize(n: nat, job: Rings.Job) returns (size: nat)
      requires 0 < n
      ensures size == job.Part(n)
    {
      if job.channels <= 0 { return 0; }
      var parts := job.Parts(n);
      ChunksIsCeil(job.tensor, parts);
      size := (job.tensor + parts - 1) / parts;
    }

    /** hierarchical_ring over all groups: rings of servers, or of members where there is one server. */
    method EmitServerRings(groups: seq<seq<nat>>, w: Sites, size: nat)
      requires View() == Program([], []) && Rings.GroupsOk(groups, w)
      modifies this
      ensures View() == Schedules.Compile(Rings.ServerChains(groups, w, size)) && WellFormed(View())
    {
      for i := 0 to |groups|
        invariant View() == Schedules.Compile(Rings.ServerChains(groups[..i], w, size))
      {
        NextServers(groups, w, size, i);
        EmitGroupServers(groups[i], w, size);
      }
      assert groups[..|groups|] == groups;
      Rings.ServerRingsWellFormed(groups, w, size);
    }

    method EmitGroupServers(g: seq<nat>, w: Sites, size: nat)
      requires Rings.GroupOk(g, w)
      modifies this
      ensures View() == C.Append(old(View()), Schedules.Chain(Rings.ServerChain(g, w, size), |old(triggers)|, None))
    {
      if |g| <= 1 { return; }
      var nodesOf := GroupByServer(g, w);
      ServerChainIs(g, w, size, nodesOf);
      EmitServerSteps(nodesOf, w, size, |g|);
    }

    method EmitServerSteps(nodesOf: seq<seq<nat>>, w: Sites, size: nat, n: nat)
      requires nodesOf != [] && Placed(Flat(nodesOf), w) && 0 < n
      modifies this
      ensures View() == C.Append(old(View()), Schedules.Chain(ServerSteps(nodesOf, w, size, n), |old(triggers)|, None))
    {
      if |nodesOf| > 1 {
        EmitServerRing(nodesOf, size);
      } else {
        EmitRing(Flat(nodesOf), size, n - 1, w);
      }
    }

    /** _emit_server_ring_steps with its barriers: S - 1 steps round the ring of servers. */
    method EmitServerRing(nodesOf: seq<seq<nat>>, size: nat)
      requires nodesOf != []
      modifies this
      ensures View() == C.Append(old(View()), Schedules.Chain(
        Schedules.Repeat(Schedules.ServerRingStep(nodesOf, 0, size), |nodesOf| - 1), |old(triggers)|, None))
    {
      ghost var step, base := Schedules.ServerRingStep(nodesOf, 0, size), |triggers|;
      var steps := |nodesOf| - 1;
      var flowsPerStep := FlowsPerStep(nodesOf, size);
      var marks := MakeStepBarriers(steps, flowsPerStep, true);
      EmitServerRingSteps(nodesOf, size, marks);
      RepeatBarriers(step, steps, base);
      Schedules.ChainIsSteps(Schedules.Repeat(step, steps), base, None);
    }

    method EmitServerRingSteps(nodesOf: seq<seq<nat>>, size: nat, marks: seq<Schedules.Mark>)
      modifies this`flows
      ensures flows == old(flows) +
        Schedules.StepFlows(Schedules.Repeat(Schedules.ServerRingStep(nodesOf, 0, size), |marks|), marks)
    {
      ghost var step := Schedules.ServerRingStep(nodesOf, 0, size);
      ghost var flows0 := flows;
      assert Schedules.StepFlows(Schedules.Repeat(step, 0), marks[..0]) == [];
      for s := 0 to |marks|
        invariant flows == flows0 + Schedules.StepFlows(Schedules.Repeat(step, s), marks[..s])
      {
        EmitServerRingStep(nodesOf, size, marks[s].0, marks[s].1);
        Schedules.StepFlowsSnoc(Schedules.Repeat(step, s), marks[..s], step, marks[s]);
        assert Schedules.Repeat(step, s) + [step] == Schedules.Repeat(step, s + 1);
        assert marks[..s] + [marks[s]] == marks[..s + 1];
      }
      assert marks[..|marks|] == marks;
    }

    method FlowsPerStep(nodesOf: seq<seq<nat>>, ghost size: nat) returns (n: nat)
      ensures n == |Schedules.ServerRingStep(nodesOf, 0, size)|
    {
      n := 0;
      for i := 0 to |nodesOf|
        invariant n + |Schedules.ServerRingStep(nodesOf, i, size)| == |Schedules.ServerRingStep(nodesOf, 0, size)|
      {
        var next := nodesOf[Rem(i + 1, |nodesOf|)];
        n := n + if |nodesOf[i]| < |next| then |nodesOf[i]| else |next|;
      }
    }

    method EmitServerRingStep(nodesOf: seq<seq<nat>>, size: nat, start: Option<nat>, done: Option<nat>)
      modifies this`flows
      ensures flows == old(flows) + Schedules.PhaseFlows(Schedules.ServerRingStep(nodesOf, 0, size), start, done)
    {
      ghost var goal := flows + Schedules.PhaseFlows(Schedules.ServerRingStep(nodesOf, 0, size), start, done);
      for i := 0 to |nodesOf|
        invariant flows + Schedules.PhaseFlows(Schedules.ServerRingStep(nodesOf, i, size), start, done) == goal
      {
        Schedules.PhaseFlowsConcat(Schedules.Stripe(nodesOf, i, size), Schedules.ServerRingStep(nodesOf, i + 1, size),
                                   start, done);
        EmitPhase(Schedules.Stripe(nodesOf, i, size), start, done);
      }
    }
  }
}
