/** What the parameters of an all-to-all mean for the program that comes out (htsim_runner.py:589-626, 754-778):
    `channels` the offsets served in a phase, `chunkBytes` the size of the flows. */
module RequestShape {
  import opened AllToAll
  import opened Chunking
  import opened ChunkPipeline
  import opened Collectives
  import opened Counting
  import opened Options
  import opened Sequences
  import opened Servers
  import opened Transfers
  import opened TriggerProgram
  import Schedules

  // ---------------------------------------------------------------- the size of flows

  ghost predicate AtMost(fs: seq<FlowDef>, most: nat) { forall f :: f in fs ==> 0 < f.size <= most }

  ghost predicate XfersAtMost(ts: seq<Xfer>, most: nat) { forall t :: t in ts ==> 0 < t.size <= most }

  lemma ChunksAtMost(x: Pair, total: nat, chunk: nat)
    requires 0 < chunk
    ensures XfersAtMost(ChunksOf(x, total, chunk), chunk)
  {
    PiecesAddUp(total, chunk);
  }

  lemma {:induction false} ChunkedAtMost(xs: seq<Pair>, total: nat, chunk: nat)
    requires 0 < chunk
    ensures XfersAtMost(Chunked(xs, total, chunk), chunk)
  {
    if xs != [] {
      ChunksAtMost(xs[0], total, chunk);
      ChunkedAtMost(xs[1..], total, chunk);
    }
  }

  lemma PhaseAtMost(xs: seq<Xfer>, entry: Option<nat>, exit: Option<nat>, most: nat)
    requires XfersAtMost(xs, most)
    ensures AtMost(Schedules.PhaseFlows(xs, entry, exit), most)
  {
  }

  lemma {:induction false} ChainAtMost(phases: seq<seq<Pair>>, total: nat, chunk: nat, base: nat, entry: Option<nat>)
    requires 0 < chunk
    ensures AtMost(Schedules.Chain(ChunkedPhases(phases, total, chunk), base, entry).flows, chunk)
    decreases |phases|
  {
    if phases != [] {
      var xs, rest := Chunked(phases[0], total, chunk), ChunkedPhases(phases[1..], total, chunk);
      assert ([xs] + rest)[1..] == rest;
      ChunkedAtMost(phases[0], total, chunk);
      PhaseAtMost(xs, entry, None, chunk);
      PhaseAtMost(xs, entry, Some(base + 1), chunk);
      ChainAtMost(phases[1..], total, chunk, base + 1, Some(base + 1));
    }
  }

  lemma PairAtMost(x: Pair, sp: Split, base: nat, entry: Option<nat>, exit: Option<nat>)
    requires 0 < sp.chunk
    ensures AtMost(PairFlows(x, sp, base, entry, exit), sp.chunk)
  {
    PiecesAddUp(sp.total, sp.chunk);
  }

  lemma {:induction false} PhaseProgramAtMost(xs: seq<Pair>, sp: Split, base: nat, entry: Option<nat>,
                                              exit: Option<nat>)
    requires 0 < sp.chunk
    ensures AtMost(PhaseProgram(xs, sp, base, entry, exit).flows, sp.chunk)
    decreases |xs|
  {
    if xs != [] {
      PairAtMost(xs[0], sp, base, entry, exit);
      PhaseProgramAtMost(xs[1..], sp, base + Owned(sp), entry, exit);
    }
  }

  lemma {:induction false} PhasesAtMost(phases: seq<seq<Pair>>, sp: Split, base: nat, entry: Option<nat>)
    requires 0 < sp.chunk
    ensures AtMost(Phases(phases, sp, base, entry).flows, sp.chunk)
    decreases |phases|
  {
    if |phases| == 1 {
      PhaseProgramAtMost(phases[0], sp, base, entry, None);
    } else if phases != [] {
      PhasesStep(phases, sp, base, entry);
      PhaseProgramAtMost(phases[0], sp, base + 1, entry, Some(base + 1));
      PhasesAtMost(phases[1..], sp, AfterPhase(phases[0], sp, base, entry), Some(base + 1));
    }
  }

  lemma PlanAtMost(p: Plan, base: nat)
    requires p.Ok()
    ensures AtMost(PlanProgram(p, base).flows, p.chunk)
  {
    if p.Pipelined() { PhasesAtMost(p.phases, p.Split(), base, None); }
    else { ChainAtMost(p.phases, p.total, p.chunk, base, None); }
  }

  /** The flows between two nodes are no larger than `most`. */
  ghost predicate SmallBetween(fs: seq<FlowDef>, x: Pair, most: nat)
  {
    forall f :: f in fs && Matches(f, x) ==> 0 < f.size <= most
  }

  lemma {:induction false} NoneBetween(fs: seq<FlowDef>, x: Pair, most: nat)
    requires Carried(fs, x, true) == 0
    ensures SmallBetween(fs, x, most)
  {
    if fs != [] { NoneBetween(fs[1..], x, most); }
  }

  /** Only one plan has the pair, so only its chunk size matters. */
  lemma {:induction false} CompileSmall(ps: seq<Plan>, c: nat, x: Pair, most: nat)
    requires AllOk(ps) && OnlyIn(ps, c, x) && (c < |ps| ==> ps[c].chunk <= most)
    ensures SmallBetween(Compile(ps).flows, x, most)
  {
    if ps != [] {
      var n := |ps| - 1;
      CompileSnoc(ps);
      CompileSmall(ps[..n], c, x, most);
      if c == n {
        PlanAtMost(ps[n], PlanBase(ps, n));
      } else {
        PlanCarries(ps[n], PlanBase(ps, n), x, true);
        SendsNothing(ps[n], x, true);
        NoneBetween(PlanOf(ps, n).flows, x, most);
      }
    }
  }

  /** `count` flows of at most `chunk` bytes are just enough for `total` bytes. */
  ghost predicate JustEnough(count: nat, chunk: nat, total: nat)
  {
    count * chunk >= total && (count - 1) * chunk < total
  }

  lemma ChunksJustEnough(total: nat, chunk: nat)
    requires 0 < chunk && 0 < total
    ensures JustEnough(Chunks(total, chunk), chunk, total)
  {
    CoverIff(Chunks(total, chunk), total, chunk);
    CoverIff(Chunks(total, chunk) - 1, total, chunk);
  }

  /** The `total` bytes between two nodes are split as asked: if the chunk size is positive and at most the total, the
      flows are no larger than it and just enough of them; otherwise there is one flow. */
  ghost predicate SplitAs(fs: seq<FlowDef>, x: Pair, chunkBytes: int, total: nat)
  {
    if 0 < chunkBytes <= total
    then JustEnough(Carried(fs, x, true), chunkBytes, total) && SmallBetween(fs, x, chunkBytes)
    else Carried(fs, x, true) == 1
  }

  /** Between two nodes that exchange data the bytes per peer are split as asked. */
  lemma PairwiseSplits(gs: seq<seq<nat>>, r: Request, x: Pair)
    requires AllPlaced(gs, r.sites) && Apart(gs)
    requires var c := GroupWith(gs, x.src); c < |gs| && Exchange(gs[c], r.sites, x)
    ensures |gs[GroupWith(gs, x.src)]| > 1
    ensures SplitAs(PairwiseProgram(gs, r).flows, x, r.chunkBytes, r.PerPeer(|gs[GroupWith(gs, x.src)]|))
  {
    var c := GroupWith(gs, x.src);
    PairwiseCarries(gs, r, x, true);
    PairwiseOnlyIn(gs, r, x);
    PairwisePlansOk(gs, r);
    var total := r.PerPeer(|gs[c]|);
    ChunksJustEnough(total, r.ChunkSize(|gs[c]|));
    if 0 < r.chunkBytes <= total {
      CompileSmall(PairwisePlans(gs, r), c, x, r.chunkBytes);
    } else {
      OneChunk(total);
    }
  }

  // ---------------------------------------------------------------- the width of phases

  lemma BatchNonEmpty(g: seq<nat>, offs: seq<nat>, w: Sites)
    requires Placed(g, w) && g != [] && offs != [] && !w.exclude
    ensures BatchPairs(g, 0, offs, w) != []
  {
    assert Row(g, 0, offs, w) != [];
  }

  lemma FirstPhase(g: seq<nat>, lo: nat, k: nat, w: Sites)
    requires 0 < k && Placed(g, w) && !w.exclude && lo < |g|
    ensures PairPhases(g, Batches(lo, |g|, k), w)
         == [BatchPairs(g, 0, FirstBatch(lo, |g|, k), w)] + PairPhases(g, Batches(lo + k, |g|, k), w)
  {
    assert Batches(lo, |g|, k)[1..] == Batches(lo + k, |g|, k);
    BatchNonEmpty(g, FirstBatch(lo, |g|, k), w);
  }

  lemma FirstPhaseHolds(g: seq<nat>, lo: nat, k: nat, w: Sites, a: nat, b: nat)
    requires 0 < k && 1 <= lo < |g| && Distinct(g) && Placed(g, w) && !w.exclude && a < |g| && b < |g|
    ensures Pair(g[a], g[b]) in BatchPairs(g, 0, FirstBatch(lo, |g|, k), w) <==> lo <= Rem(b - a, |g|) < lo + k
  {
    BatchCount(g, 0, FirstBatch(lo, |g|, k), w, a, b);
    TimesZero(BatchPairs(g, 0, FirstBatch(lo, |g|, k), w), Pair(g[a], g[b]));
    InRange(lo, if lo + k < |g| then lo + k else |g|, Rem(b - a, |g|));
  }

  /** The phases from offset `lo` on: phase `p` holds the pairs whose distance is one of the `k` from lo + p * k on. */
  lemma {:induction false} PhaseHolds(g: seq<nat>, lo: nat, k: nat, w: Sites, p: nat, a: nat, b: nat)
    requires 0 < k && 1 <= lo && Distinct(g) && Placed(g, w) && !w.exclude && a < |g| && b < |g|
    requires p < |PairPhases(g, Batches(lo, |g|, k), w)|
    ensures Pair(g[a], g[b]) in PairPhases(g, Batches(lo, |g|, k), w)[p]
       <==> lo + p * k <= Rem(b - a, |g|) < lo + p * k + k
    decreases |g| - lo
  {
    FirstPhase(g, lo, k, w);
    if p == 0 {
      FirstPhaseHolds(g, lo, k, w, a, b);
    } else {
      PhaseHolds(g, lo + k, k, w, p - 1, a, b);
      OneMore(p - 1, k);
    }
  }

  lemma {:induction false} PhaseCount(g: seq<nat>, lo: nat, k: nat, w: Sites)
    requires 0 < k && Placed(g, w) && !w.exclude && g != []
    ensures |PairPhases(g, Batches(lo, |g|, k), w)| == Chunks(if lo < |g| then |g| - lo else 0, k)
    decreases |g| - lo
  {
    if lo < |g| {
      FirstPhase(g, lo, k, w);
      PhaseCount(g, lo + k, k, w);
    }
  }

  /** With `channels` of at least one and nothing left out, a group of n takes (n - 1) / channels phases, rounded up,
      and in phase `p` a member sends to exactly the members p * channels + 1 to (p + 1) * channels places on. Other
      values of `channels` count as one. */
  lemma ChannelsAreWidth(g: seq<nat>, r: Request, p: nat, a: nat, b: nat)
    requires Distinct(g) && Placed(g, r.sites) && !r.sites.exclude && |g| > 1 && a < |g| && b < |g|
    ensures var k := if r.channels < 1 then 1 else r.channels; var phases := PairwisePlan(g, r).phases;
      && |phases| == Chunks(|g| - 1, k)
      && (p < |phases| ==>
            (Pair(g[a], g[b]) in phases[p] <==> 1 + p * k <= Rem(b - a, |g|) < 1 + p * k + k))
  {
    PhaseCount(g, 1, r.Width(), r.sites);
    if p < |PairwisePlan(g, r).phases| { PhaseHolds(g, 1, r.Width(), r.sites, p, a, b); }
  }

  // ---------------------------------------------------------------- the cap is used

  /** The chunks of a pair of the first phase that start at once. */
  lemma ChunksBegin(p: Program, off: nat, x: Pair, sp: Split, b: nat, ex: Option<nat>, k: nat)
    requires sp.Ok() && StandsAt(p, off, x, sp, b, None, ex) && k <= sp.Count() && k <= sp.inflight
    ensures Shifted(Below(k), off) <= RunningBetween(p, Initial(p), x)
  {
    forall y | y in Shifted(Below(k), off) ensures y in RunningBetween(p, Initial(p), x) {
      ChunkMatches(p, off, x, sp, b, None, ex, y - off);
      assert p.flows[off + (y - off)] == ChunkFlow(x, sp, y - off, b, None, ex);
    }
  }

  lemma PairBegins(ps: seq<Plan>, c: nat, x: Pair, k: nat)
    requires AllOk(ps) && c < |ps| && ps[c].Ok() && ps[c].Pipelined() && ps[c].phases != [] && x in ps[c].phases[0]
    requires k <= ps[c].Split().Count() && k <= ps[c].inflight
    ensures |RunningBetween(Compile(ps), Initial(Compile(ps)), x)| >= k
  {
    var q :| 0 <= q < |ps[c].phases[0]| && ps[c].phases[0][q] == x;
    var b := PairStands(ps, c, 0, q);
    var off := PairIndex(ps, c, 0, q);
    ChunksBegin(Compile(ps), off, x, ps[c].Split(), b, PhaseExit(ps, c, 0), k);
    ShiftedSize(Below(k), off);
    SubsetSize(Shifted(Below(k), off), RunningBetween(Compile(ps), Initial(Compile(ps)), x));
  }

  /** The cap is no lower than asked for: at the start, between two nodes of a group's first phase whose transfer
      splits, as many flows are running as the cap allows, or all of them if there are fewer. */
  lemma CapIsReached(gs: seq<seq<nat>>, r: Request, x: Pair)
    requires AllPlaced(gs, r.sites) && Apart(gs) && r.inflight > 0
    requires var c := GroupWith(gs, x.src);
      && c < |gs| && Exchange(gs[c], r.sites, x) && |gs[c]| > 1 && 0 < r.chunkBytes < r.PerPeer(|gs[c]|)
      && PairwisePlan(gs[c], r).phases != [] && x in PairwisePlan(gs[c], r).phases[0]
    ensures var p := PairwiseProgram(gs, r); var all := Carried(p.flows, x, true);
      |RunningBetween(p, Initial(p), x)| == if r.inflight < all then r.inflight else all
  {
    var ps, c := PairwisePlans(gs, r), GroupWith(gs, x.src);
    PairwisePlansOk(gs, r);
    PairwiseCarries(gs, r, x, true);
    var count := ps[c].Split().Count();
    PairBegins(ps, c, x, if r.inflight < count then r.inflight else count);
    AllToAllWellFormed(gs, r);
    InitialInv(Compile(ps));
    PairwiseIsCapped(gs, r, Initial(Compile(ps)), x);
    FewFlows(ps, Initial(Compile(ps)), x);
  }
}
