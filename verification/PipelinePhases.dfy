/** The phases of a pipelined all-to-all (htsim_runner.py:780-807): what has finished when a phase starts. */
module PipelinePhases {
  import opened ChunkPipeline
  import opened Chunking
  import opened Collectives
  import opened Counting
  import opened TriggerProgram

  /** There is such a chunk. */
  predicate IsChunk(ps: seq<Plan>, c: nat, p: nat, q: nat, i: nat)
  {
    c < |ps| && 0 < ps[c].chunk && p < |ps[c].phases| && q < |ps[c].phases[p]| && i < ps[c].Split().Count()
  }

  /** Chunk `i` of pair `q` of phase `p` of plan `c`. */
  ghost function ChunkIndex(ps: seq<Plan>, c: nat, p: nat, q: nat, i: nat): nat
    requires AllOk(ps) && IsChunk(ps, c, p, q, i)
  {
    PairIndex(ps, c, p, q) + i
  }

  ghost predicate ChunkStarted(ps: seq<Plan>, s: State, c: nat, p: nat, q: nat, i: nat)
    requires AllOk(ps) && IsChunk(ps, c, p, q, i)
  {
    ChunkIndex(ps, c, p, q, i) < |s.status| && !s.status[ChunkIndex(ps, c, p, q, i)].Waiting?
  }

  ghost predicate ChunkFinished(ps: seq<Plan>, s: State, c: nat, p: nat, q: nat, i: nat)
    requires AllOk(ps) && IsChunk(ps, c, p, q, i)
  {
    ChunkIndex(ps, c, p, q, i) < |s.status| && s.status[ChunkIndex(ps, c, p, q, i)].Finished?
  }

  /** What starts and ends a chunk. */
  lemma ChunkAt(ps: seq<Plan>, c: nat, p: nat, q: nat, i: nat) returns (b: nat)
    requires AllOk(ps) && IsChunk(ps, c, p, q, i) && ps[c].Pipelined()
    ensures FlowIs(Compile(ps).flows, ChunkIndex(ps, c, p, q, i), ChunkEntry(ps[c].Split(), i, b, PhaseEntry(ps, c, p)),
                   ChunkExit(ps[c].Split(), i, b, PhaseExit(ps, c, p)))
  {
    assert ps[c].Ok();
    b := PairStands(ps, c, p, q);
    assert Compile(ps).flows[PairIndex(ps, c, p, q) + i]
        == ChunkFlow(ps[c].phases[p][q], ps[c].Split(), i, b, PhaseEntry(ps, c, p), PhaseExit(ps, c, p));
  }

  lemma SplitHasChunks(p: Plan)
    requires p.Ok() && p.Pipelined()
    ensures p.Split().Ok() && p.Split().Count() >= 2
  {
    assert Chunks(p.total - p.chunk, p.chunk) >= 1;
  }

  /** A started chunk of a pair has every chunk a multiple of `inflight` before it finished. */
  lemma EarlierChunk(ps: seq<Plan>, s: State, c: nat, p: nat, q: nat, i: nat, j: nat)
    requires AllOk(ps) && Inv(Compile(ps), s) && IsChunk(ps, c, p, q, j) && ps[c].Pipelined()
    requires i < j && Rem(i, ps[c].inflight) == Rem(j, ps[c].inflight) && ChunkStarted(ps, s, c, p, q, j)
    ensures ChunkFinished(ps, s, c, p, q, i)
  {
    assert ps[c].Ok();
    var b := PairStands(ps, c, p, q);
    CompileWellFormed(ps);
    ClassFinished(Compile(ps), s, PairIndex(ps, c, p, q), ps[c].phases[p][q], ps[c].Split(), b,
                  PhaseEntry(ps, c, p), PhaseExit(ps, c, p), i, j);
  }

  /** If any chunk of a pair has started, so has one that started with the phase. */
  lemma FirstStarted(ps: seq<Plan>, s: State, c: nat, p: nat, q: nat, j: nat) returns (i: nat)
    requires AllOk(ps) && Inv(Compile(ps), s) && IsChunk(ps, c, p, q, j) && ps[c].Pipelined()
    requires ChunkStarted(ps, s, c, p, q, j)
    ensures i < ps[c].inflight && IsChunk(ps, c, p, q, i) && ChunkStarted(ps, s, c, p, q, i)
  {
    i := Rem(j, ps[c].inflight);
    DivModUnique(0, i, ps[c].inflight);
    if i < j { EarlierChunk(ps, s, c, p, q, i, j); } else { RemAtMost(j, ps[c].inflight); }
  }

  lemma RemAtMost(j: nat, m: nat)
    requires 0 < m
    ensures Rem(j, m) <= j
  {
    assert j == (j / m) * m + j % m;
  }

  /** Once a chunk of the next phase has started, the last chunk of every pair of a phase has finished. */
  lemma LastFinished(ps: seq<Plan>, s: State, c: nat, p: nat, a: nat, b: nat, j: nat)
    requires AllOk(ps) && Inv(Compile(ps), s)
    requires IsChunk(ps, c, p, a, 0) && IsChunk(ps, c, p + 1, b, j) && ps[c].Pipelined()
    requires ChunkStarted(ps, s, c, p + 1, b, j)
    ensures ps[c].Split().Count() > 0 && ChunkFinished(ps, s, c, p, a, ps[c].Split().Count() - 1)
  {
    assert ps[c].Ok();
    SplitHasChunks(ps[c]);
    var i := FirstStarted(ps, s, c, p + 1, b, j);
    var base0 := ChunkAt(ps, c, p, a, ps[c].Split().Count() - 1);
    var base1 := ChunkAt(ps, c, p + 1, b, i);
    CompileWellFormed(ps);
    StartedMeansFed(Compile(ps), s, ChunkIndex(ps, c, p, a, ps[c].Split().Count() - 1), ChunkIndex(ps, c, p + 1, b, i));
  }

  /** In every reachable state, for every pipelined plan: once any chunk of a phase has started, the last chunk of
      every pair of every earlier phase has finished, and with it every chunk a multiple of `inflight` before it. */
  lemma {:induction false} LastChunksAreDone(ps: seq<Plan>, s: State, c: nat, p: nat, a: nat, i: nat, q: nat, b: nat,
                                             j: nat)
    requires AllOk(ps) && Inv(Compile(ps), s) && IsChunk(ps, c, p, a, i) && IsChunk(ps, c, q, b, j) && ps[c].Pipelined()
    requires p < q && ChunkStarted(ps, s, c, q, b, j)
    requires Rem(i, ps[c].inflight) == Rem(ps[c].Split().Count() - 1, ps[c].inflight)
    ensures ChunkFinished(ps, s, c, p, a, i)
    decreases q - p
  {
    assert ps[c].Ok();
    SplitHasChunks(ps[c]);
    var last := ps[c].Split().Count() - 1;
    if p + 1 == q {
      LastFinished(ps, s, c, p, a, b, j);
      if i < last { EarlierChunk(ps, s, c, p, a, i, last); }
    } else {
      assert ps[c].phases[q - 1] != [];
      LastFinished(ps, s, c, q - 1, 0, b, j);
      LastChunksAreDone(ps, s, c, p, a, i, q - 1, 0, last);
    }
  }

  /** Strict separation: once any chunk of a phase has started, every chunk of every earlier phase has finished. */
  ghost predicate Separated(ps: seq<Plan>, s: State, c: nat)
    requires AllOk(ps)
  {
    forall p, a, i, q, b, j | IsChunk(ps, c, p, a, i) && IsChunk(ps, c, q, b, j) && p < q ::
      ChunkStarted(ps, s, c, q, b, j) ==> ChunkFinished(ps, s, c, p, a, i)
  }

  ghost predicate AlwaysSeparated(ps: seq<Plan>, c: nat)
    requires AllOk(ps) && WellFormed(Compile(ps))
  {
    forall run :: CanRun(Compile(ps), Launch(Compile(ps)), run) ==>
      Separated(ps, After(Compile(ps), Launch(Compile(ps)), run), c)
  }

  lemma OneAtATime(ps: seq<Plan>, s: State, c: nat)
    requires AllOk(ps) && Inv(Compile(ps), s) && c < |ps| && ps[c].Ok() && ps[c].Pipelined() && ps[c].inflight == 1
    ensures Separated(ps, s, c)
  {
    forall p, a, i, q, b, j | IsChunk(ps, c, p, a, i) && IsChunk(ps, c, q, b, j) && p < q &&
        ChunkStarted(ps, s, c, q, b, j)
      ensures ChunkFinished(ps, s, c, p, a, i)
    {
      LastChunksAreDone(ps, s, c, p, a, i, q, b, j);
    }
  }

  /** With two or more chunks in flight, the last but one chunk of a pair holds nothing up: there is a run that
      finishes every flow of the whole program but that one. */
  lemma ChunkCanLag(ps: seq<Plan>, c: nat, p: nat, q: nat) returns (run: seq<nat>)
    requires AllOk(ps) && IsChunk(ps, c, p, q, 0) && ps[c].Pipelined() && ps[c].inflight >= 2
    ensures WellFormed(Compile(ps)) && CanRun(Compile(ps), Launch(Compile(ps)), run)
    ensures ps[c].Split().Count() >= 2
    ensures FinishedBut(After(Compile(ps), Launch(Compile(ps)), run),
                        {ChunkIndex(ps, c, p, q, ps[c].Split().Count() - 2)},
                        |Compile(ps).flows|)
  {
    assert ps[c].Ok();
    SplitHasChunks(ps[c]);
    CompileWellFormed(ps);
    var i := ps[c].Split().Count() - 2;
    var b := ChunkAt(ps, c, p, q, i);
    run := AllBut(Compile(ps), {ChunkIndex(ps, c, p, q, i)}, |Compile(ps).flows|);
  }

  /** A later phase stands behind the first pair of the first phase. */
  lemma NextPhaseBehind(ps: seq<Plan>, c: nat, i: nat)
    requires AllOk(ps) && IsChunk(ps, c, 0, 0, i) && |ps[c].phases| > 1 && ps[c].phases[1] != []
    ensures IsChunk(ps, c, 1, 0, 0) && ChunkIndex(ps, c, 0, 0, i) < ChunkIndex(ps, c, 1, 0, 0)
  {
    var sp := ps[c].Split();
    assert PairStart(sp, |ps[c].phases[0]|) >= sp.Count();
  }

  lemma LagBreaksSeparation(ps: seq<Plan>, c: nat)
    requires AllOk(ps) && c < |ps| && ps[c].Ok() && ps[c].Pipelined() && ps[c].inflight >= 2 && |ps[c].phases| > 1
    ensures WellFormed(Compile(ps)) && !AlwaysSeparated(ps, c)
  {
    SplitHasChunks(ps[c]);
    assert ps[c].phases[0] != [] && ps[c].phases[1] != [];
    var i := ps[c].Split().Count() - 2;
    assert IsChunk(ps, c, 0, 0, 0) && IsChunk(ps, c, 0, 0, i);
    var run := ChunkCanLag(ps, c, 0, 0);
    NextPhaseBehind(ps, c, i);
    var b := ChunkAt(ps, c, 1, 0, 0);
    var s := After(Compile(ps), Launch(Compile(ps)), run);
    assert ChunkStarted(ps, s, c, 1, 0, 0) && !ChunkFinished(ps, s, c, 0, 0, i);
  }

  /** The phases of a pipelined plan are strictly separated in every run if and only if one chunk of a pair is in
      flight at a time. */
  lemma SeparatedIff(ps: seq<Plan>, c: nat)
    requires AllOk(ps) && c < |ps| && ps[c].Ok() && ps[c].Pipelined() && |ps[c].phases| > 1
    ensures WellFormed(Compile(ps))
    ensures AlwaysSeparated(ps, c) <==> ps[c].inflight == 1
  {
    CompileWellFormed(ps);
    if ps[c].inflight == 1 {
      forall run | CanRun(Compile(ps), Launch(Compile(ps)), run)
        ensures Separated(ps, After(Compile(ps), Launch(Compile(ps)), run), c)
      {
        OneAtATime(ps, After(Compile(ps), Launch(Compile(ps)), run), c);
      }
    } else {
      LagBreaksSeparation(ps, c);
    }
  }
}
