/** All-to-all from request to program (htsim_runner.py:576-807): every group contributes a plan, and whatever the
    groups, batch widths, chunk sizes and in-flight caps, what is emitted terminates, keeps its phases apart,
    keeps to its caps and carries the right bytes. */
module Collectives {
  import opened AllToAll
  import opened Chunking
  import opened Counting
  import opened Options
  import opened Sequences
  import opened Servers
  import opened Transfers
  import opened TriggerProgram
  import Schedules
  import ChunkPipeline

  datatype Request = Request(tensor: nat, channels: int, chunkBytes: int, inflight: int, sites: Sites)
  {
    /** Bytes per peer in a group of `n`: rounded up, and at least one, because a size of zero means an
        unbounded flow. */
    function PerPeer(n: nat): (total: nat)
      requires 0 < n
      ensures total > 0
      ensures n * total >= tensor && (tensor > 0 ==> n * (total - 1) < tensor)
    {
      CoverIff(Chunks(tensor, n), tensor, n);
      CoverIff(Chunks(tensor, n) - 1, tensor, n);
      if Chunks(tensor, n) == 0 then 1 else Chunks(tensor, n)
    }

    function ChunkSize(n: nat): (chunk: nat)
      requires 0 < n
      ensures 0 < chunk <= PerPeer(n)
    {
      if chunkBytes <= 0 || chunkBytes > PerPeer(n) then PerPeer(n) else chunkBytes
    }

    function Cap(): nat { if inflight < 0 then 0 else inflight }

    function Width(): (k: nat)
      ensures k > 0
    {
      if channels <= 0 then 1 else channels
    }
  }

  /** What one group sends: phases of pairs, and for each pair `total` bytes in chunks; with a cap `inflight` on
      the chunks of a pair in flight if the transfer splits, else all chunks of a phase together. */
  datatype Plan = Plan(phases: seq<seq<Pair>>, total: nat, chunk: nat, inflight: nat)
  {
    ghost predicate Ok() { 0 < chunk <= total && NonEmpty(phases) }

    predicate Pipelined() { inflight > 0 && chunk < total }

    function Split(): ChunkPipeline.Split { ChunkPipeline.Split(total, chunk, inflight) }

    function Chain(): seq<seq<Xfer>>
      requires 0 < chunk
    {
      ChunkedPhases(phases, total, chunk)
    }
  }

  const NOTHING := Plan([], 1, 1, 0)

  function ChunkedPhases(phases: seq<seq<Pair>>, total: nat, chunk: nat): (r: seq<seq<Xfer>>)
    requires 0 < chunk
    ensures |r| == |phases|
  {
    if phases == [] then [] else [Chunked(phases[0], total, chunk)] + ChunkedPhases(phases[1..], total, chunk)
  }

  function PlanProgram(p: Plan, base: nat): Program
    requires 0 < p.chunk
  {
    if p.Pipelined() then ChunkPipeline.Phases(p.phases, p.Split(), base, None)
    else Schedules.Chain(p.Chain(), base, None)
  }

  function Append(p: Program, q: Program): Program
  {
    Program(p.flows + q.flows, p.triggers + q.triggers)
  }

  ghost predicate AllOk(ps: seq<Plan>) { forall i :: 0 <= i < |ps| ==> ps[i].Ok() }

  /** All groups, one after the other. */
  ghost function Compile(ps: seq<Plan>): Program
    requires AllOk(ps)
  {
    if ps == [] then Program([], [])
    else
      var n := |ps| - 1;
      assert ps[n].Ok();
      var front := Compile(ps[..n]);
      Append(front, PlanProgram(ps[n], |front.triggers|))
  }

  // ---------------------------------------------------------------- termination

  lemma {:induction false} ChunkedNonEmpty(phases: seq<seq<Pair>>, total: nat, chunk: nat)
    requires 0 < chunk && 0 < total && NonEmpty(phases)
    ensures NonEmpty(ChunkedPhases(phases, total, chunk))
  {
    if phases != [] {
      assert phases[0] != [] && ChunksOf(phases[0][0], total, chunk) != [];
      assert NonEmpty(phases[1..]) by {
        assert forall i :: 0 <= i < |phases[1..]| ==> phases[1..][i] == phases[i + 1];
      }
      ChunkedNonEmpty(phases[1..], total, chunk);
    }
  }

  lemma PlanPiece(p: Plan, base: nat)
    requires p.Ok()
    ensures Piece(PlanProgram(p, base).flows, PlanProgram(p, base).triggers, base, None, None)
  {
    if p.Pipelined() {
      if p.phases != [] { ChunkPipeline.PhasesPiece(p.phases, p.Split(), base, None); }
    } else {
      ChunkedNonEmpty(p.phases, p.total, p.chunk);
      Schedules.ChainPiece(p.Chain(), base, None);
    }
  }

  /** Whatever the plans, the program is well formed: every run of it finishes every flow
      (TriggerProgram.RunsFinishEverything). */
  lemma {:induction false} CompileWellFormed(ps: seq<Plan>)
    requires AllOk(ps)
    ensures WellFormed(Compile(ps))
  {
    if ps != [] {
      var n := |ps| - 1;
      var front := Compile(ps[..n]);
      CompileWellFormed(ps[..n]);
      assert ps[n].Ok();
      PlanPiece(ps[n], |front.triggers|);
      var last := PlanProgram(ps[n], |front.triggers|);
      Beside(front.flows, front.triggers, last.flows, last.triggers, 0, None, None);
    }
  }

  function ChainsOf(ps: seq<Plan>): seq<seq<seq<Xfer>>>
    requires forall i :: 0 <= i < |ps| ==> 0 < ps[i].chunk
  {
    seq(|ps|, i requires 0 <= i < |ps| => ps[i].Chain())
  }

  /** Without pipelining the program is the groups' chains, one after the other. */
  lemma {:induction false} UnpipelinedIsChains(ps: seq<Plan>)
    requires AllOk(ps) && forall i :: 0 <= i < |ps| ==> ps[i].Ok() && !ps[i].Pipelined()
    ensures Compile(ps) == Schedules.Compile(ChainsOf(ps))
  {
    if ps != [] {
      var n := |ps| - 1;
      UnpipelinedIsChains(ps[..n]);
      assert ChainsOf(ps)[..n] == ChainsOf(ps[..n]);
    }
  }

  // ---------------------------------------------------------------- where a plan stands

  ghost function PlanStart(ps: seq<Plan>, c: nat): nat
    requires AllOk(ps) && c <= |ps|
  {
    |Compile(ps[..c]).flows|
  }

  ghost function PlanBase(ps: seq<Plan>, c: nat): nat
    requires AllOk(ps) && c <= |ps|
  {
    |Compile(ps[..c]).triggers|
  }

  ghost function PlanOf(ps: seq<Plan>, c: nat): Program
    requires AllOk(ps) && c < |ps|
  {
    assert ps[c].Ok();
    PlanProgram(ps[c], PlanBase(ps, c))
  }

  lemma CompileSnoc(ps: seq<Plan>)
    requires AllOk(ps) && ps != []
    ensures AllOk(ps[..|ps| - 1]) && ps[|ps| - 1].Ok()
    ensures Compile(ps) == Append(Compile(ps[..|ps| - 1]), PlanOf(ps, |ps| - 1))
  {
  }

  lemma {:induction false} FrontIsPrefix(ps: seq<Plan>, c: nat)
    requires AllOk(ps) && c <= |ps|
    ensures AllOk(ps[..c]) && Compile(ps[..c]).flows <= Compile(ps).flows
    decreases |ps|
  {
    if c < |ps| {
      CompileSnoc(ps);
      assert ps[..|ps| - 1][..c] == ps[..c];
      FrontIsPrefix(ps[..|ps| - 1], c);
    } else {
      assert ps[..c] == ps;
    }
  }

  lemma PlanStandsLast(ps: seq<Plan>, c: nat)
    requires AllOk(ps) && c < |ps|
    ensures AllOk(ps[..c + 1]) && Compile(ps[..c + 1]).flows == Compile(ps[..c]).flows + PlanOf(ps, c).flows
  {
    var front := ps[..c + 1];
    assert front[..c] == ps[..c] && front[c] == ps[c];
    CompileSnoc(front);
  }

  /** Flow `k` of plan `c` stands `k` places after the plan's start. */
  lemma PlanAt(ps: seq<Plan>, c: nat, k: nat)
    requires AllOk(ps) && c < |ps| && k < |PlanOf(ps, c).flows|
    ensures StandsIn(Compile(ps).flows, PlanStart(ps, c), k, PlanOf(ps, c).flows[k])
  {
    PlanStandsLast(ps, c);
    FrontIsPrefix(ps, c + 1);
    InPrefix(Compile(ps[..c]).flows, PlanOf(ps, c).flows, Compile(ps).flows, k);
  }

  // ---------------------------------------------------------------- separation of phases

  /** Where flow `i` of phase `p` of an unpipelined plan stands. */
  ghost function FlowIndex(ps: seq<Plan>, c: nat, p: nat, i: nat): nat
    requires AllOk(ps) && c < |ps| && p < |ps[c].phases|
  {
    assert ps[c].Ok();
    PlanStart(ps, c) + Schedules.PhaseStart(ps[c].Chain(), p) + i
  }

  ghost predicate FlowIs(fs: seq<FlowDef>, f: nat, trigger: Option<nat>, done: Option<nat>)
  {
    f < |fs| && fs[f].trigger == trigger && fs[f].sendDone == done
  }

  /** What starts phase `r` of a chain, and what it reports to if there are `n` phases. */
  function EntryOf(base: nat, r: nat): Option<nat> { if r == 0 then None else Some(base + r) }

  function ExitOf(base: nat, r: nat, n: nat): Option<nat> { if r + 1 < n then Some(base + r + 1) else None }

  lemma ChainFlow(x: seq<seq<Xfer>>, base: nat, r: nat, i: nat)
    requires r < |x| && i < |x[r]|
    ensures FlowIs(Schedules.Chain(x, base, None).flows, Schedules.PhaseStart(x, r) + i, EntryOf(base, r),
                   ExitOf(base, r, |x|))
  {
    Schedules.ChainAt(x, base, None, r, i);
  }

  lemma PlanFlow(p: Plan, base: nat, r: nat, i: nat)
    requires p.Ok() && !p.Pipelined() && r < |p.phases| && i < |p.Chain()[r]|
    ensures FlowIs(PlanProgram(p, base).flows, Schedules.PhaseStart(p.Chain(), r) + i,
                   EntryOf(base, r), ExitOf(base, r, |p.phases|))
  {
    ChainFlow(p.Chain(), base, r, i);
  }

  lemma FlowIsAt(ps: seq<Plan>, c: nat, k: nat, trigger: Option<nat>, done: Option<nat>)
    requires AllOk(ps) && c < |ps| && FlowIs(PlanOf(ps, c).flows, k, trigger, done)
    ensures FlowIs(Compile(ps).flows, PlanStart(ps, c) + k, trigger, done)
  {
    PlanAt(ps, c, k);
  }

  /** What starts a flow of an unpipelined plan, and what it reports to. */
  lemma FlowAt(ps: seq<Plan>, c: nat, r: nat, i: nat)
    requires AllOk(ps) && c < |ps| && ps[c].Ok() && !ps[c].Pipelined() && r < |ps[c].phases| && i < |ps[c].Chain()[r]|
    ensures FlowIs(Compile(ps).flows, FlowIndex(ps, c, r, i), EntryOf(PlanBase(ps, c), r),
                   ExitOf(PlanBase(ps, c), r, |ps[c].phases|))
  {
    PlanFlow(ps[c], PlanBase(ps, c), r, i);
    FlowIsAt(ps, c, Schedules.PhaseStart(ps[c].Chain(), r) + i, EntryOf(PlanBase(ps, c), r),
             ExitOf(PlanBase(ps, c), r, |ps[c].phases|));
  }

  /** Flow `f` reports to what starts flow `g`. */
  ghost predicate Joined(fs: seq<FlowDef>, f: nat, g: nat)
  {
    f < |fs| && g < |fs| && fs[g].trigger.Some? && fs[f].sendDone == fs[g].trigger
  }

  lemma JoinedBy(fs: seq<FlowDef>, f: nat, g: nat, base: nat, r: nat, n: nat)
    requires r + 1 < n && FlowIs(fs, f, EntryOf(base, r), ExitOf(base, r, n))
    requires FlowIs(fs, g, EntryOf(base, r + 1), ExitOf(base, r + 1, n))
    ensures Joined(fs, f, g)
  {
  }

  /** The two ends of a barrier: what flow `m` of phase `r` reports to starts flow `j` of the next phase. */
  lemma BarrierBetween(ps: seq<Plan>, c: nat, r: nat, m: nat, j: nat)
    requires AllOk(ps) && c < |ps| && ps[c].Ok() && !ps[c].Pipelined() && r + 1 < |ps[c].phases|
    requires m < |ps[c].Chain()[r]| && j < |ps[c].Chain()[r + 1]|
    ensures Joined(Compile(ps).flows, FlowIndex(ps, c, r, m), FlowIndex(ps, c, r + 1, j))
  {
    FlowAt(ps, c, r, m);
    FlowAt(ps, c, r + 1, j);
    JoinedBy(Compile(ps).flows, FlowIndex(ps, c, r, m), FlowIndex(ps, c, r + 1, j), PlanBase(ps, c), r, |ps[c].phases|);
  }

  /** In every reachable state, for every group that is not pipelined, whatever the other groups do: once any
      flow of a phase has started, every flow of every earlier phase of the group has finished. */
  lemma {:induction false} PhasesAreSeparated(ps: seq<Plan>, s: State, c: nat, p: nat, q: nat, i: nat, j: nat)
    requires AllOk(ps) && Inv(Compile(ps), s) && c < |ps| && ps[c].Ok() && !ps[c].Pipelined()
    requires p < q < |ps[c].phases| && i < |ps[c].Chain()[p]| && j < |ps[c].Chain()[q]|
    requires FlowIndex(ps, c, q, j) < |s.status| && !s.status[FlowIndex(ps, c, q, j)].Waiting?
    ensures FlowIndex(ps, c, p, i) < |s.status| && s.status[FlowIndex(ps, c, p, i)].Finished?
    decreases q - p
  {
    var r := q - 1;
    var m := if r == p then i else 0;
    ChunkedNonEmpty(ps[c].phases, ps[c].total, ps[c].chunk);
    assert ps[c].Chain()[r] != [];
    BarrierBetween(ps, c, r, m, j);
    CompileWellFormed(ps);
    StartedMeansFed(Compile(ps), s, FlowIndex(ps, c, r, m), FlowIndex(ps, c, q, j));
    if r > p { PhasesAreSeparated(ps, s, c, p, r, i, m); }
  }

  // ---------------------------------------------------------------- bytes and flows between two nodes

  predicate Matches(f: FlowDef, x: Pair) { f.src == x.src && f.dst == x.dst }

  /** The bytes (or, with `unit`, the flows) that go from `x.src` to `x.dst`. */
  function Carried(fs: seq<FlowDef>, x: Pair, unit: bool): nat
  {
    if fs == [] then 0 else (if Matches(fs[0], x) then Weight(fs[0].size, unit) else 0) + Carried(fs[1..], x, unit)
  }

  lemma {:induction false} CarriedConcat(a: seq<FlowDef>, b: seq<FlowDef>, x: Pair, unit: bool)
    ensures Carried(a + b, x, unit) == Carried(a, x, unit) + Carried(b, x, unit)
  {
    if a == [] {
      assert a + b == b;
    } else {
      assert (a + b)[1..] == a[1..] + b;
      CarriedConcat(a[1..], b, x, unit);
    }
  }

  lemma {:induction false} CarriedByPhase(xs: seq<Xfer>, entry: Option<nat>, exit: Option<nat>, x: Pair, unit: bool)
    ensures Carried(Schedules.PhaseFlows(xs, entry, exit), x, unit) == Between(xs, x, unit)
  {
    if xs != [] {
      assert Schedules.PhaseFlows(xs, entry, exit)[1..] == Schedules.PhaseFlows(xs[1..], entry, exit);
      CarriedByPhase(xs[1..], entry, exit, x, unit);
    }
  }

  lemma TimesOfFlat(phases: seq<seq<Pair>>, x: Pair, total: nat)
    requires phases != []
    ensures Times(Flat(phases), x) * total == Times(phases[0], x) * total + Times(Flat(phases[1..]), x) * total
  {
    TimesConcat(phases[0], Flat(phases[1..]), x);
    Distribute(Times(phases[0], x), Times(Flat(phases[1..]), x), total);
  }

  lemma {:induction false} CarriedByChain(phases: seq<seq<Pair>>, total: nat, chunk: nat, base: nat, entry: Option<nat>,
                                          x: Pair, unit: bool)
    requires 0 < chunk
    ensures Carried(Schedules.Chain(ChunkedPhases(phases, total, chunk), base, entry).flows, x, unit)
         == Times(Flat(phases), x) * Whole(total, chunk, unit)
    decreases |phases|
  {
    if phases != [] {
      var xs, rest := Chunked(phases[0], total, chunk), ChunkedPhases(phases[1..], total, chunk);
      assert ([xs] + rest)[1..] == rest;
      CarriedByChain(phases[1..], total, chunk, base + 1, Some(base + 1), x, unit);
      PairWeighs(phases[0], total, chunk, x, unit);
      CarriedByPhase(xs, entry, if |phases| == 1 then None else Some(base + 1), x, unit);
      TimesOfFlat(phases, x, Whole(total, chunk, unit));
      if |phases| > 1 {
        CarriedConcat(Schedules.PhaseFlows(xs, entry, Some(base + 1)),
                      Schedules.Chain(rest, base + 1, Some(base + 1)).flows, x, unit);
      }
    }
  }

  /** Flows that all go from `x.src` to `x.dst`. */
  lemma {:induction false} CarriedOneWay(fs: seq<FlowDef>, x: Pair, sizes: seq<nat>, y: Pair, unit: bool)
    requires |fs| == |sizes|
    requires forall i :: 0 <= i < |fs| ==> fs[i].src == x.src && fs[i].dst == x.dst && fs[i].size == sizes[i]
    ensures Carried(fs, y, unit) == if x != y then 0 else if unit then |sizes| else SumOf(sizes)
  {
    if fs != [] { CarriedOneWay(fs[1..], x, sizes[1..], y, unit); }
  }

  lemma CarriedByPair(x: Pair, sp: ChunkPipeline.Split, base: nat, entry: Option<nat>, exit: Option<nat>, y: Pair,
                      unit: bool)
    requires sp.Ok()
    ensures Carried(ChunkPipeline.PairFlows(x, sp, base, entry, exit), y, unit)
         == One(x == y) * Whole(sp.total, sp.chunk, unit)
  {
    PiecesAddUp(sp.total, sp.chunk);
    CarriedOneWay(ChunkPipeline.PairFlows(x, sp, base, entry, exit), x, Pieces(sp.total, sp.chunk), y, unit);
  }

  lemma {:induction false} CarriedByPhaseProgram(xs: seq<Pair>, sp: ChunkPipeline.Split, base: nat,
                                                 entry: Option<nat>, exit: Option<nat>, x: Pair, unit: bool)
    requires sp.Ok()
    ensures Carried(ChunkPipeline.PhaseProgram(xs, sp, base, entry, exit).flows, x, unit)
         == Times(xs, x) * Whole(sp.total, sp.chunk, unit)
    decreases |xs|
  {
    if xs != [] {
      var fs := ChunkPipeline.PairFlows(xs[0], sp, base, entry, exit);
      var rest := ChunkPipeline.PhaseProgram(xs[1..], sp, base + ChunkPipeline.Owned(sp), entry, exit);
      CarriedByPair(xs[0], sp, base, entry, exit, x, unit);
      CarriedByPhaseProgram(xs[1..], sp, base + ChunkPipeline.Owned(sp), entry, exit, x, unit);
      CarriedConcat(fs, rest.flows, x, unit);
      Distribute(One(xs[0] == x), Times(xs[1..], x), Whole(sp.total, sp.chunk, unit));
    }
  }

  lemma CarriedByFirst(xs: seq<Pair>, sp: ChunkPipeline.Split, base: nat, entry: Option<nat>, exit: Option<nat>,
                       rest: seq<FlowDef>, x: Pair, unit: bool)
    requires sp.Ok()
    ensures Carried(ChunkPipeline.PhaseProgram(xs, sp, base, entry, exit).flows + rest, x, unit)
         == Times(xs, x) * Whole(sp.total, sp.chunk, unit) + Carried(rest, x, unit)
  {
    CarriedByPhaseProgram(xs, sp, base, entry, exit, x, unit);
    CarriedConcat(ChunkPipeline.PhaseProgram(xs, sp, base, entry, exit).flows, rest, x, unit);
  }

  lemma {:induction false} CarriedByPhases(phases: seq<seq<Pair>>, sp: ChunkPipeline.Split, base: nat,
                                           entry: Option<nat>, x: Pair, unit: bool)
    requires sp.Ok()
    ensures Carried(ChunkPipeline.Phases(phases, sp, base, entry).flows, x, unit)
         == Times(Flat(phases), x) * Whole(sp.total, sp.chunk, unit)
    decreases |phases|
  {
    if phases != [] {
      TimesOfFlat(phases, x, Whole(sp.total, sp.chunk, unit));
      if |phases| == 1 {
        CarriedByPhaseProgram(phases[0], sp, base, entry, None, x, unit);
      } else {
        var next := ChunkPipeline.AfterPhase(phases[0], sp, base, entry);
        var rest := ChunkPipeline.Phases(phases[1..], sp, next, Some(base + 1));
        CarriedByPhases(phases[1..], sp, next, Some(base + 1), x, unit);
        CarriedByFirst(phases[0], sp, base + 1, entry, Some(base + 1), rest.flows, x, unit);
      }
    }
  }

  /** What a plan sends between two nodes does not depend on its mode. */
  function Sends(p: Plan, x: Pair, unit: bool): nat
    requires 0 < p.chunk
  {
    Times(Flat(p.phases), x) * Whole(p.total, p.chunk, unit)
  }

  lemma PlanCarries(p: Plan, base: nat, x: Pair, unit: bool)
    requires p.Ok()
    ensures Carried(PlanProgram(p, base).flows, x, unit) == Sends(p, x, unit)
  {
    if p.Pipelined() {
      CarriedByPhases(p.phases, p.Split(), base, None, x, unit);
    } else {
      CarriedByChain(p.phases, p.total, p.chunk, base, None, x, unit);
    }
  }

  /** No plan other than plan `c` has the pair. */
  ghost predicate OnlyIn(ps: seq<Plan>, c: nat, x: Pair)
  {
    forall i :: 0 <= i < |ps| && i != c ==> x !in Flat(ps[i].phases)
  }

  lemma NextCarries(ps: seq<Plan>, x: Pair, unit: bool)
    requires AllOk(ps) && ps != []
    ensures AllOk(ps[..|ps| - 1]) && ps[|ps| - 1].Ok() && Carried(Compile(ps).flows, x, unit)
         == Carried(Compile(ps[..|ps| - 1]).flows, x, unit) + Sends(ps[|ps| - 1], x, unit)
  {
    var n := |ps| - 1;
    CompileSnoc(ps);
    PlanCarries(ps[n], PlanBase(ps, n), x, unit);
    CarriedConcat(Compile(ps[..n]).flows, PlanOf(ps, n).flows, x, unit);
  }

  lemma SendsNothing(p: Plan, x: Pair, unit: bool)
    requires 0 < p.chunk && x !in Flat(p.phases)
    ensures Sends(p, x, unit) == 0
  {
    TimesZero(Flat(p.phases), x);
  }

  /** What the whole program sends between two nodes that only plan `c` has as a pair is what that plan sends. */
  lemma {:induction false} CompileCarries(ps: seq<Plan>, c: nat, x: Pair, unit: bool)
    requires AllOk(ps) && OnlyIn(ps, c, x)
    ensures c < |ps| ==> ps[c].Ok() && Carried(Compile(ps).flows, x, unit) == Sends(ps[c], x, unit)
    ensures c >= |ps| ==> Carried(Compile(ps).flows, x, unit) == 0
  {
    if ps != [] {
      var n := |ps| - 1;
      NextCarries(ps, x, unit);
      CompileCarries(ps[..n], c, x, unit);
      if c != n { SendsNothing(ps[n], x, unit); }
    }
  }

  // ---------------------------------------------------------------- the cap, for a pair of nodes

  lemma StandsShift(front: seq<FlowDef>, p: Program, all: Program, off: nat, x: Pair, sp: ChunkPipeline.Split, b: nat,
                    en: Option<nat>, ex: Option<nat>)
    requires 0 < sp.chunk && ChunkPipeline.StandsAt(p, off, x, sp, b, en, ex) && front + p.flows <= all.flows
    ensures ChunkPipeline.StandsAt(all, |front| + off, x, sp, b, en, ex)
  {
    forall i | 0 <= i < sp.Count()
      ensures all.flows[|front| + off + i] == ChunkPipeline.ChunkFlow(x, sp, i, b, en, ex)
    {
      assert (front + p.flows)[|front| + (off + i)] == p.flows[off + i];
    }
  }

  /** Where the chunks of pair `q` of phase `p` of a pipelined plan begin. */
  ghost function PairIndex(ps: seq<Plan>, c: nat, p: nat, q: nat): nat
    requires AllOk(ps) && c < |ps| && p < |ps[c].phases|
  {
    assert ps[c].Ok();
    PlanStart(ps, c) + ChunkPipeline.PairOffset(ps[c].phases, ps[c].Split(), p, q)
  }

  /** What starts the phase, and what it reports to. */
  ghost function PhaseEntry(ps: seq<Plan>, c: nat, p: nat): Option<nat>
    requires AllOk(ps) && c < |ps| && p < |ps[c].phases|
  {
    assert ps[c].Ok();
    ChunkPipeline.EntryAt(ps[c].phases, ps[c].Split(), PlanBase(ps, c), None, p)
  }

  ghost function PhaseExit(ps: seq<Plan>, c: nat, p: nat): Option<nat>
    requires AllOk(ps) && c < |ps| && p < |ps[c].phases|
  {
    assert ps[c].Ok();
    ChunkPipeline.ExitAt(ps[c].phases, ps[c].Split(), PlanBase(ps, c), None, p)
  }

  lemma PairStands(ps: seq<Plan>, c: nat, p: nat, q: nat) returns (b: nat)
    requires AllOk(ps) && c < |ps| && ps[c].Ok() && ps[c].Pipelined() && p < |ps[c].phases| && q < |ps[c].phases[p]|
    ensures ChunkPipeline.StandsAt(Compile(ps), PairIndex(ps, c, p, q), ps[c].phases[p][q], ps[c].Split(), b,
                                   PhaseEntry(ps, c, p), PhaseExit(ps, c, p))
  {
    b := ChunkPipeline.PairInPhases(ps[c].phases, ps[c].Split(), PlanBase(ps, c), None, p, q);
    PlanStandsLast(ps, c);
    FrontIsPrefix(ps, c + 1);
    StandsShift(Compile(ps[..c]).flows, PlanOf(ps, c), Compile(ps),
                ChunkPipeline.PairOffset(ps[c].phases, ps[c].Split(), p, q), ps[c].phases[p][q], ps[c].Split(), b,
                PhaseEntry(ps, c, p), PhaseExit(ps, c, p));
  }

  function Matching(fs: seq<FlowDef>, x: Pair): set<nat>
  {
    set i | i in Below(|fs|) && i < |fs| && Matches(fs[i], x)
  }

  lemma {:induction false} MatchingSize(fs: seq<FlowDef>, x: Pair)
    ensures |Matching(fs, x)| == Carried(fs, x, true)
    decreases |fs|
  {
    if fs == [] {
      assert Matching(fs, x) == {};
    } else {
      var n := |fs| - 1;
      assert fs == fs[..n] + [fs[n]];
      MatchingSize(fs[..n], x);
      MatchingSnoc(fs[..n], fs[n], x);
      CarriedSnoc(fs[..n], fs[n], x);
    }
  }

  lemma CarriedSnoc(front: seq<FlowDef>, f: FlowDef, x: Pair)
    ensures Carried(front + [f], x, true) == Carried(front, x, true) + One(Matches(f, x))
  {
    CarriedConcat(front, [f], x, true);
    assert [f][1..] == [];
  }

  lemma MatchingSnoc(front: seq<FlowDef>, f: FlowDef, x: Pair)
    ensures |Matching(front + [f], x)| == |Matching(front, x)| + One(Matches(f, x))
  {
    var fs := front + [f];
    assert forall i :: 0 <= i < |front| ==> fs[i] == front[i];
    assert Matching(fs, x) == Matching(front, x) + (if Matches(f, x) then {|front|} else {});
  }

  /** The flows from `x.src` to `x.dst` that are running. */
  function RunningBetween(p: Program, s: State, x: Pair): set<nat>
  {
    set i | i in Matching(p.flows, x) && i < |s.status| && s.status[i].Running?
  }

  function Shifted(r: set<nat>, off: nat): (t: set<nat>)
    ensures forall y :: y in t <==> off <= y && y - off in r
  {
    set k | k in r :: off + k
  }

  lemma {:induction false} ShiftedSize(r: set<nat>, off: nat)
    ensures |Shifted(r, off)| == |r|
    decreases r
  {
    if k :| k in r {
      ShiftedSize(r - {k}, off);
      assert Shifted(r, off) == Shifted(r - {k}, off) + {off + k};
    }
  }

  lemma ChunkMatches(p: Program, off: nat, x: Pair, sp: ChunkPipeline.Split, b: nat, en: Option<nat>, ex: Option<nat>,
                     i: nat)
    requires sp.Ok() && ChunkPipeline.StandsAt(p, off, x, sp, b, en, ex) && i < sp.Count()
    ensures off + i in Matching(p.flows, x)
  {
    assert p.flows[off + i] == ChunkPipeline.ChunkFlow(x, sp, i, b, en, ex);
  }

  /** If a pair's chunks stand at `off` and there are no other flows between its nodes, all flows between its
      nodes are these chunks. */
  lemma MatchingIsChunks(p: Program, off: nat, x: Pair, sp: ChunkPipeline.Split, b: nat, en: Option<nat>,
                         ex: Option<nat>)
    requires sp.Ok() && ChunkPipeline.StandsAt(p, off, x, sp, b, en, ex) && Carried(p.flows, x, true) == sp.Count()
    ensures Matching(p.flows, x) == Shifted(Below(sp.Count()), off)
  {
    var count := sp.Count();
    forall i | i in Below(count) ensures off + i in Matching(p.flows, x) { ChunkMatches(p, off, x, sp, b, en, ex, i); }
    SameMatches(p.flows, x, off, count);
  }

  lemma SameMatches(fs: seq<FlowDef>, x: Pair, off: nat, count: nat)
    requires Carried(fs, x, true) == count && forall i :: i in Below(count) ==> off + i in Matching(fs, x)
    ensures Matching(fs, x) == Shifted(Below(count), off)
  {
    MatchingSize(fs, x);
    ShiftedSize(Below(count), off);
    forall y | y in Shifted(Below(count), off) ensures y in Matching(fs, x) { assert off + (y - off) == y; }
    FullSubset(Shifted(Below(count), off), Matching(fs, x));
  }

  lemma ChunksRunning(p: Program, s: State, off: nat, x: Pair, sp: ChunkPipeline.Split, b: nat, en: Option<nat>,
                      ex: Option<nat>)
    requires WellFormed(p) && Inv(p, s) && sp.Ok() && ChunkPipeline.StandsAt(p, off, x, sp, b, en, ex)
    requires Carried(p.flows, x, true) == sp.Count()
    ensures |RunningBetween(p, s, x)| <= sp.inflight
  {
    var r := ChunkPipeline.RunningChunks(s, off, sp.Count());
    MatchingIsChunks(p, off, x, sp, b, en, ex);
    ChunkPipeline.InflightBounded(p, s, off, x, sp, b, en, ex);
    ShiftedSize(r, off);
    forall i | i in RunningBetween(p, s, x) ensures i in Shifted(r, off) {
      var k :| k in Below(sp.Count()) && off + k == i;
      assert k in r;
    }
    SubsetSize(RunningBetween(p, s, x), Shifted(r, off));
  }

  lemma {:induction false} FindPair(phases: seq<seq<Pair>>, x: Pair) returns (p: nat, q: nat)
    requires x in Flat(phases)
    ensures p < |phases| && q < |phases[p]| && phases[p][q] == x
    decreases |phases|
  {
    if x in phases[0] {
      p := 0;
      q :| 0 <= q < |phases[0]| && phases[0][q] == x;
    } else {
      p, q := FindPair(phases[1..], x);
      p := p + 1;
    }
  }

  lemma OnePairIsCapped(ps: seq<Plan>, s: State, c: nat, x: Pair)
    requires AllOk(ps) && Inv(Compile(ps), s) && c < |ps| && ps[c].Ok() && ps[c].Pipelined()
    requires x in Flat(ps[c].phases) && Carried(Compile(ps).flows, x, true) == ps[c].Split().Count()
    ensures |RunningBetween(Compile(ps), s, x)| <= ps[c].inflight
  {
    var p, q := FindPair(ps[c].phases, x);
    var b := PairStands(ps, c, p, q);
    CompileWellFormed(ps);
    ChunksRunning(Compile(ps), s, PairIndex(ps, c, p, q), x, ps[c].Split(), b, PhaseEntry(ps, c, p),
                  PhaseExit(ps, c, p));
  }

  /** The in-flight cap, for two nodes: if a pipelined plan has them as a pair at most once, and no other plan
      has them, then in every reachable state at most `inflight` flows between them are running. */
  lemma PairIsCapped(ps: seq<Plan>, s: State, c: nat, x: Pair)
    requires AllOk(ps) && Inv(Compile(ps), s) && c < |ps| && ps[c].Ok() && ps[c].Pipelined()
    requires Times(Flat(ps[c].phases), x) <= 1 && OnlyIn(ps, c, x)
    ensures |RunningBetween(Compile(ps), s, x)| <= ps[c].inflight
  {
    CompileCarries(ps, c, x, true);
    TimesZero(Flat(ps[c].phases), x);
    SendsOnce(ps[c], x, true, x in Flat(ps[c].phases));
    if x in Flat(ps[c].phases) {
      OnePairIsCapped(ps, s, c, x);
    } else {
      FewFlows(ps, s, x);
    }
  }

  // ---------------------------------------------------------------- the pairwise plan

  function PairwisePlan(g: seq<nat>, r: Request): Plan
    requires Placed(g, r.sites)
  {
    if |g| <= 1 then NOTHING
    else Plan(PairwiseSteps(g, r.Width(), r.sites), r.PerPeer(|g|), r.ChunkSize(|g|), r.Cap())
  }

  lemma {:induction false} PhasesNonEmpty(g: seq<nat>, batches: seq<seq<nat>>, w: Sites)
    requires Placed(g, w)
    ensures NonEmpty(PairPhases(g, batches, w))
  {
    if batches != [] { PhasesNonEmpty(g, batches[1..], w); }
  }

  lemma PairwisePlanOk(g: seq<nat>, r: Request)
    requires Placed(g, r.sites)
    ensures PairwisePlan(g, r).Ok()
  {
    if |g| > 1 { PhasesNonEmpty(g, Batches(1, |g|, r.Width()), r.sites); }
  }

  /** Do these two nodes exchange data in an all-to-all over `g`? */
  predicate Exchange(g: seq<nat>, w: Sites, x: Pair)
    requires Placed(g, w)
  {
    && x.src in g && x.dst in g && x.src != x.dst
    && !(w.exclude && w.serverOf[x.src] == w.serverOf[x.dst])
  }

  lemma {:induction false} PhasesWithin(g: seq<nat>, batches: seq<seq<nat>>, w: Sites, x: Pair)
    requires Placed(g, w) && x in Flat(PairPhases(g, batches, w))
    ensures x.src in g && x.dst in g
    decreases |batches|
  {
    var pairs := BatchPairs(g, 0, batches[0], w);
    assert ([pairs] + PairPhases(g, batches[1..], w))[1..] == PairPhases(g, batches[1..], w);
    assert [] + PairPhases(g, batches[1..], w) == PairPhases(g, batches[1..], w);
    if x in pairs {
      var a, k := BatchMember(g, 0, batches[0], w, x);
    } else {
      PhasesWithin(g, batches[1..], w, x);
    }
  }

  /** For any two nodes at all: the pair is emitted once if they exchange data, and never if not. */
  lemma PairwiseTimes(g: seq<nat>, r: Request, x: Pair)
    requires Placed(g, r.sites) && Distinct(g)
    ensures Times(Flat(PairwisePlan(g, r).phases), x) == One(Exchange(g, r.sites, x))
  {
    if |g| <= 1 {
      if x.src in g && x.dst in g { assert x.src == g[0] && x.dst == g[0]; }
    } else if x.src in g && x.dst in g {
      var a :| 0 <= a < |g| && g[a] == x.src;
      var b :| 0 <= b < |g| && g[b] == x.dst;
      PairwiseCoverage(g, r.Width(), r.sites, a, b);
    } else {
      TimesZero(Flat(PairwisePlan(g, r).phases), x);
      if x in Flat(PairwisePlan(g, r).phases) { PhasesWithin(g, Batches(1, |g|, r.Width()), r.sites, x); }
    }
  }

  // ---------------------------------------------------------------- the NCCL plan

  function NcclPlan(g: seq<nat>, r: Request): Plan
    requires Placed(g, r.sites)
  {
    var rows := ByServer(g, r.sites);
    if |g| <= 1 || !Even(rows) then NOTHING
    else
      EvenServers(g, r.sites);
      Plan(NcclPairwise(rows, |rows[0]|), r.PerPeer(|g|), r.PerPeer(|g|), 0)
  }

  lemma NcclPlanOk(g: seq<nat>, r: Request)
    requires Placed(g, r.sites)
    ensures NcclPlan(g, r).Ok()
  {
    var rows := ByServer(g, r.sites);
    if |g| > 1 && Even(rows) {
      EvenServers(g, r.sites);
      RoundsNonEmpty(rows, |rows[0]|);
    }
  }

  lemma RoundsNonEmpty(nodesOf: seq<seq<nat>>, lanes: nat)
    requires Uniform(nodesOf, lanes)
    ensures NonEmpty(NcclPairwise(nodesOf, lanes))
  {
    forall r | 0 <= r < |NcclPairwise(nodesOf, lanes)| ensures NcclPairwise(nodesOf, lanes)[r] != [] {
      NcclBalanced(nodesOf, lanes, r, 0, 0);
    }
  }

  /** Do these two nodes exchange data in a two-level all-to-all over `g`? */
  predicate NcclExchange(g: seq<nat>, w: Sites, x: Pair)
    requires Placed(g, w)
  {
    x.src in g && x.dst in g && w.serverOf[x.src] != w.serverOf[x.dst] && Even(ByServer(g, w))
  }

  lemma RowsAreMembers(g: seq<nat>, w: Sites)
    requires Placed(g, w) && Even(ByServer(g, w)) && ByServer(g, w) != [] && ByServer(g, w)[0] != []
    ensures RowsWithin(ByServer(g, w), |ByServer(g, w)[0]|, Members(g))
  {
    var rows := ByServer(g, w);
    forall s, l | 0 <= s < |rows| && 0 <= l < |rows[s]| ensures rows[s][l] in Members(g) { MemberAt(g, w, s, l); }
    EvenWithin(rows, Members(g));
  }

  lemma MemberAt(g: seq<nat>, w: Sites, s: nat, l: nat)
    requires Placed(g, w) && s < |ByServer(g, w)| && l < |ByServer(g, w)[s]|
    ensures ByServer(g, w)[s][l] in Members(g)
  {
    RowIs(g, w, s, ByServer(g, w)[s][l]);
  }

  lemma EvenWithin(rows: seq<seq<nat>>, ms: set<nat>)
    requires Even(rows) && rows != [] && rows[0] != []
    requires forall s, l :: 0 <= s < |rows| && 0 <= l < |rows[s]| ==> rows[s][l] in ms
    ensures RowsWithin(rows, |rows[0]|, ms)
  {
  }

  lemma NcclInside(g: seq<nat>, w: Sites, x: Pair)
    requires Placed(g, w) && Even(ByServer(g, w)) && ByServer(g, w) != [] && ByServer(g, w)[0] != []
    requires x in Flat(NcclPairwise(ByServer(g, w), |ByServer(g, w)[0]|))
    ensures x.src in g && x.dst in g
  {
    var rows := ByServer(g, w);
    RowsAreMembers(g, w);
    RoundsAreWithin(rows, |rows[0]|, DeltaOrder(|rows|), Members(g));
  }

  lemma NcclTimesOfMembers(g: seq<nat>, w: Sites, x: Pair)
    requires Placed(g, w) && x.src in g && x.dst in g
    requires Even(ByServer(g, w)) && ByServer(g, w) != [] && ByServer(g, w)[0] != []
    ensures Times(Flat(NcclPairwise(ByServer(g, w), |ByServer(g, w)[0]|)), x)
         == One(w.serverOf[x.src] != w.serverOf[x.dst])
  {
    var rows := ByServer(g, w);
    EvenServers(g, w);
    var s := RowOf(g, w, x.src);
    var t := RowOf(g, w, x.dst);
    var l :| 0 <= l < |rows[s]| && rows[s][l] == x.src;
    var m :| 0 <= m < |rows[t]| && rows[t][m] == x.dst;
    NcclCoverage(rows, |rows[0]|, s, l, t, m);
    SameServerIff(g, w, s, t, x.src, x.dst);
  }

  /** For any two nodes at all: the pair is scheduled once if both are members, on different servers, and the
      servers have equally many members; and never if not. */
  lemma NcclTimes(g: seq<nat>, r: Request, x: Pair)
    requires Placed(g, r.sites)
    ensures Times(Flat(NcclPlan(g, r).phases), x) == One(NcclExchange(g, r.sites, x))
  {
    if |g| <= 1 {
      if x.src in g && x.dst in g { assert x.src == g[0] && x.dst == g[0]; }
    } else if Even(ByServer(g, r.sites)) {
      EvenServers(g, r.sites);
      if x.src in g && x.dst in g {
        NcclTimesOfMembers(g, r.sites, x);
      } else {
        TimesZero(Flat(NcclPlan(g, r).phases), x);
        if x in Flat(NcclPlan(g, r).phases) { NcclInside(g, r.sites, x); }
      }
    }
  }

  // ---------------------------------------------------------------- all groups

  ghost predicate AllPlaced(gs: seq<seq<nat>>, w: Sites)
  {
    forall i :: 0 <= i < |gs| ==> Placed(gs[i], w)
  }

  function PairwisePlans(gs: seq<seq<nat>>, r: Request): seq<Plan>
    requires AllPlaced(gs, r.sites)
  {
    seq(|gs|, i requires 0 <= i < |gs| => PairwisePlan(gs[i], r))
  }

  function NcclPlans(gs: seq<seq<nat>>, r: Request): seq<Plan>
    requires AllPlaced(gs, r.sites)
  {
    seq(|gs|, i requires 0 <= i < |gs| => NcclPlan(gs[i], r))
  }

  lemma PairwisePlansOk(gs: seq<seq<nat>>, r: Request)
    requires AllPlaced(gs, r.sites)
    ensures AllOk(PairwisePlans(gs, r))
  {
    forall i | 0 <= i < |gs| ensures PairwisePlans(gs, r)[i].Ok() { PairwisePlanOk(gs[i], r); }
  }

  lemma NcclPlansOk(gs: seq<seq<nat>>, r: Request)
    requires AllPlaced(gs, r.sites)
    ensures AllOk(NcclPlans(gs, r))
  {
    forall i | 0 <= i < |gs| ensures NcclPlans(gs, r)[i].Ok() { NcclPlanOk(gs[i], r); }
  }

  /** The pairwise all-to-all over all groups. */
  ghost function PairwiseProgram(gs: seq<seq<nat>>, r: Request): Program
    requires AllPlaced(gs, r.sites)
  {
    PairwisePlansOk(gs, r);
    Compile(PairwisePlans(gs, r))
  }

  /** The two-level all-to-all over all groups. */
  ghost function NcclProgram(gs: seq<seq<nat>>, r: Request): Program
    requires AllPlaced(gs, r.sites)
  {
    NcclPlansOk(gs, r);
    Compile(NcclPlans(gs, r))
  }

  lemma PairwiseOnlyIn(gs: seq<seq<nat>>, r: Request, x: Pair)
    requires AllPlaced(gs, r.sites) && Apart(gs)
    ensures OnlyIn(PairwisePlans(gs, r), GroupWith(gs, x.src), x)
  {
    forall i | 0 <= i < |gs| && i != GroupWith(gs, x.src) ensures x !in Flat(PairwisePlan(gs[i], r).phases) {
      GroupIsUnique(gs, x.src, i);
      PairwiseTimes(gs[i], r, x);
      TimesZero(Flat(PairwisePlan(gs[i], r).phases), x);
    }
  }

  lemma SendsOnce(p: Plan, x: Pair, unit: bool, once: bool)
    requires 0 < p.chunk && Times(Flat(p.phases), x) == One(once)
    ensures Sends(p, x, unit) == if once then Whole(p.total, p.chunk, unit) else 0
  {
  }

  lemma PairwiseSends(g: seq<nat>, r: Request, x: Pair, unit: bool)
    requires Placed(g, r.sites) && Distinct(g)
    ensures Exchange(g, r.sites, x) ==> |g| > 1
    ensures PairwisePlan(g, r).Ok() && Sends(PairwisePlan(g, r), x, unit)
         == if Exchange(g, r.sites, x) then Whole(r.PerPeer(|g|), r.ChunkSize(|g|), unit) else 0
  {
    PairwisePlanOk(g, r);
    PairwiseTimes(g, r, x);
    SendsOnce(PairwisePlan(g, r), x, unit, Exchange(g, r.sites, x));
    TwoMembers(g, x.src, x.dst);
  }

  lemma TwoMembers(g: seq<nat>, x: nat, y: nat)
    ensures x in g && y in g && x != y ==> |g| > 1
  {
    assert |g| == 1 && x in g ==> x == g[0];
    assert |g| == 1 && y in g ==> y == g[0];
  }

  lemma PairwiseCarries(gs: seq<seq<nat>>, r: Request, x: Pair, unit: bool)
    requires AllPlaced(gs, r.sites) && Apart(gs)
    ensures var c := GroupWith(gs, x.src);
      (c < |gs| && Exchange(gs[c], r.sites, x) ==> |gs[c]| > 1)
      && Carried(PairwiseProgram(gs, r).flows, x, unit)
         == if c < |gs| && Exchange(gs[c], r.sites, x) then Whole(r.PerPeer(|gs[c]|), r.ChunkSize(|gs[c]|), unit) else 0
  {
    var c := GroupWith(gs, x.src);
    PairwisePlansOk(gs, r);
    PairwiseOnlyIn(gs, r, x);
    CompileCarries(PairwisePlans(gs, r), c, x, unit);
    if c < |gs| { PairwiseSends(gs[c], r, x, unit); }
  }

  /** The whole matrix: between any two nodes, for any groups without a common member, the program moves the
      bytes per peer if the two exchange data in a group, and nothing if not. */
  lemma PairwiseMoves(gs: seq<seq<nat>>, r: Request, x: Pair)
    requires AllPlaced(gs, r.sites) && Apart(gs)
    ensures var c := GroupWith(gs, x.src);
      Carried(PairwiseProgram(gs, r).flows, x, false)
        == if c < |gs| && Exchange(gs[c], r.sites, x) then r.PerPeer(|gs[c]|) else 0
  {
    PairwiseCarries(gs, r, x, false);
  }

  lemma FewFlows(ps: seq<Plan>, s: State, x: Pair)
    requires AllOk(ps) && Inv(Compile(ps), s)
    ensures |RunningBetween(Compile(ps), s, x)| <= Carried(Compile(ps).flows, x, true)
  {
    MatchingSize(Compile(ps).flows, x);
    SubsetSize(RunningBetween(Compile(ps), s, x), Matching(Compile(ps).flows, x));
  }

  lemma PairwiseHasOne(g: seq<nat>, r: Request, x: Pair)
    requires Placed(g, r.sites) && Distinct(g)
    ensures Times(Flat(PairwisePlan(g, r).phases), x) <= 1
  {
    PairwiseTimes(g, r, x);
  }

  lemma OneChunk(total: nat)
    requires 0 < total
    ensures Chunks(total, total) == 1
  {
  }

  lemma UnsplitIsOne(gs: seq<seq<nat>>, r: Request, x: Pair)
    requires AllPlaced(gs, r.sites) && Apart(gs) && r.inflight > 0
    requires var c := GroupWith(gs, x.src); c < |gs| ==> !PairwisePlan(gs[c], r).Pipelined()
    ensures Carried(PairwiseProgram(gs, r).flows, x, true) <= 1
  {
    var c := GroupWith(gs, x.src);
    PairwiseCarries(gs, r, x, true);
    if c < |gs| && Exchange(gs[c], r.sites, x) { OneChunk(r.PerPeer(|gs[c]|)); }
  }

  /** With a cap on the chunks in flight, in every reachable state and between any two nodes: no more flows
      than the cap allows are running. */
  lemma PairwiseIsCapped(gs: seq<seq<nat>>, r: Request, s: State, x: Pair)
    requires AllPlaced(gs, r.sites) && Apart(gs) && r.inflight > 0 && Inv(PairwiseProgram(gs, r), s)
    ensures |RunningBetween(PairwiseProgram(gs, r), s, x)| <= r.inflight
  {
    var ps, c := PairwisePlans(gs, r), GroupWith(gs, x.src);
    PairwisePlansOk(gs, r);
    if c < |gs| && PairwisePlan(gs[c], r).Pipelined() {
      PairwiseOnlyIn(gs, r, x);
      PairwiseHasOne(gs[c], r, x);
      PairIsCapped(ps, s, c, x);
    } else {
      UnsplitIsOne(gs, r, x);
      FewFlows(ps, s, x);
    }
  }

  lemma NcclOnlyIn(gs: seq<seq<nat>>, r: Request, x: Pair)
    requires AllPlaced(gs, r.sites) && Apart(gs)
    ensures OnlyIn(NcclPlans(gs, r), GroupWith(gs, x.src), x)
  {
    forall i | 0 <= i < |gs| && i != GroupWith(gs, x.src) ensures x !in Flat(NcclPlan(gs[i], r).phases) {
      GroupIsUnique(gs, x.src, i);
      NcclTimes(gs[i], r, x);
      TimesZero(Flat(NcclPlan(gs[i], r).phases), x);
    }
  }

  lemma NcclSends(g: seq<nat>, r: Request, x: Pair, unit: bool)
    requires Placed(g, r.sites)
    ensures NcclExchange(g, r.sites, x) ==> |g| > 1
    ensures NcclPlan(g, r).Ok() && Sends(NcclPlan(g, r), x, unit)
         == if NcclExchange(g, r.sites, x) then Whole(r.PerPeer(|g|), r.PerPeer(|g|), unit) else 0
  {
    NcclPlanOk(g, r);
    NcclTimes(g, r, x);
    SendsOnce(NcclPlan(g, r), x, unit, NcclExchange(g, r.sites, x));
    TwoMembers(g, x.src, x.dst);
  }

  /** The same for the two-level all-to-all: between any two nodes, the bytes per peer if they are in one group
      on different servers and the group's servers are equally large, and nothing if not. */
  lemma NcclMoves(gs: seq<seq<nat>>, r: Request, x: Pair)
    requires AllPlaced(gs, r.sites) && Apart(gs)
    ensures var c := GroupWith(gs, x.src);
      Carried(NcclProgram(gs, r).flows, x, false)
        == if c < |gs| && NcclExchange(gs[c], r.sites, x) then r.PerPeer(|gs[c]|) else 0
  {
    var c := GroupWith(gs, x.src);
    NcclPlansOk(gs, r);
    NcclOnlyIn(gs, r, x);
    CompileCarries(NcclPlans(gs, r), c, x, false);
    if c < |gs| { NcclSends(gs[c], r, x, false); }
  }

  /** The micro-rounds of every group are separated, whatever the other groups do. */
  lemma NcclRoundsAreSeparated(gs: seq<seq<nat>>, r: Request, s: State, c: nat, p: nat, q: nat, i: nat, j: nat)
    requires AllPlaced(gs, r.sites) && Inv(NcclProgram(gs, r), s) && AllOk(NcclPlans(gs, r)) && c < |gs|
    requires p < q < |NcclPlan(gs[c], r).phases|
    requires NcclPlan(gs[c], r).Ok() && i < |NcclPlan(gs[c], r).Chain()[p]| && j < |NcclPlan(gs[c], r).Chain()[q]|
    requires var g := FlowIndex(NcclPlans(gs, r), c, q, j); g < |s.status| && !s.status[g].Waiting?
    ensures var f := FlowIndex(NcclPlans(gs, r), c, p, i); f < |s.status| && s.status[f].Finished?
  {
    PhasesAreSeparated(NcclPlans(gs, r), s, c, p, q, i, j);
  }

  /** Neither can deadlock: every run of them finishes every flow. */
  lemma AllToAllWellFormed(gs: seq<seq<nat>>, r: Request)
    requires AllPlaced(gs, r.sites)
    ensures WellFormed(PairwiseProgram(gs, r)) && WellFormed(NcclProgram(gs, r))
  {
    PairwisePlansOk(gs, r);
    CompileWellFormed(PairwisePlans(gs, r));
    NcclPlansOk(gs, r);
    CompileWellFormed(NcclPlans(gs, r));
  }
}
