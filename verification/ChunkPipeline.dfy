/** The chunked all-to-all with a cap on the chunks in flight per (source, destination) pair
    (htsim_runner.py:628-714, 780-807): chunk i starts when chunk i - inflight finishes, and the last chunk
    of every pair reports to the barrier of its phase. */
module ChunkPipeline {
  import opened Chunking
  import opened Counting
  import opened Options
  import opened Sequences
  import opened Transfers
  import opened TriggerProgram

  /** How one group splits its transfers: `total` bytes per pair, in chunks, at most `inflight` at a time. */
  datatype Split = Split(total: nat, chunk: nat, inflight: nat)
  {
    ghost predicate Ok() { 0 < chunk < total && 0 < inflight }
    function Count(): nat requires 0 < chunk { Chunks(total, chunk) }
  }

  function Owned(sp: Split): nat
    requires 0 < sp.chunk
  {
    if sp.Count() > sp.inflight then sp.Count() - sp.inflight else 0
  }

  function ChunkEntry(sp: Split, i: nat, base: nat, entry: Option<nat>): Option<nat>
  {
    if i < sp.inflight then entry else Some(base + 1 + (i - sp.inflight))
  }

  function ChunkExit(sp: Split, i: nat, base: nat, exit: Option<nat>): Option<nat>
    requires 0 < sp.chunk
  {
    if i + sp.inflight < sp.Count() then Some(base + 1 + i)
    else if i == sp.Count() - 1 then exit else None
  }

  function ChunkFlow(x: Pair, sp: Split, i: nat, base: nat, entry: Option<nat>, exit: Option<nat>): FlowDef
    requires 0 < sp.chunk && i < sp.Count()
  {
    var trigger := ChunkEntry(sp, i, base, entry);
    FlowDef(x.src, x.dst, Pieces(sp.total, sp.chunk)[i],
            if trigger.None? then Some(0) else None, trigger, ChunkExit(sp, i, base, exit))
  }

  function PairFlows(x: Pair, sp: Split, base: nat, entry: Option<nat>, exit: Option<nat>): seq<FlowDef>
    requires 0 < sp.chunk
  {
    seq(sp.Count(), i requires 0 <= i < sp.Count() => ChunkFlow(x, sp, i, base, entry, exit))
  }

  function PairTriggers(sp: Split, base: nat): seq<TriggerDef>
    requires 0 < sp.chunk
  {
    seq(Owned(sp), k requires 0 <= k => OneShot(base + 1 + k))
  }

  lemma {:induction false} OneFeeder(fs: seq<FlowDef>, t: nat, k: nat)
    requires k < |fs| && fs[k].sendDone == Some(t)
    requires forall i :: 0 <= i < |fs| && i != k ==> fs[i].sendDone != Some(t)
    ensures Feeders(fs, t) == 1
  {
    if k == 0 {
      assert forall i :: 0 <= i < |fs[1..]| ==> fs[1..][i] == fs[i + 1];
      NoFeeders(fs[1..], t);
    } else {
      assert fs[0].sendDone != Some(t);
      OneFeeder(fs[1..], t, k - 1);
    }
  }

  lemma CountTwo(sp: Split)
    requires sp.Ok()
    ensures sp.Count() >= 2
  {
    assert Chunks(sp.total, sp.chunk) == 1 + Chunks(sp.total - sp.chunk, sp.chunk);
  }

  /** Each release trigger is fed by exactly one chunk, and releases a later one. */
  lemma ReleaseOk(x: Pair, sp: Split, base: nat, entry: Option<nat>, exit: Option<nat>, k: nat)
    requires sp.Ok() && k < Owned(sp)
    requires (entry.Some? ==> entry.value <= base) && (exit.Some? ==> exit.value <= base)
    ensures TriggerOk(PairFlows(x, sp, base, entry, exit), OneShot(base + 1 + k), base + 1 + k)
  {
    var fs := PairFlows(x, sp, base, entry, exit);
    assert fs[k].sendDone == Some(base + 1 + k);
    OneFeeder(fs, base + 1 + k, k);
    assert fs[k + sp.inflight].trigger == Some(base + 1 + k);
  }

  /** A pair's chunks form a piece that contributes exactly one activation to its phase's barrier. */
  lemma PairPiece(x: Pair, sp: Split, base: nat, entry: Option<nat>, exit: Option<nat>)
    requires sp.Ok()
    requires (entry.Some? ==> entry.value <= base) && (exit.Some? ==> exit.value <= base)
    ensures var fs := PairFlows(x, sp, base, entry, exit);
      && Piece(fs, PairTriggers(sp, base), base, entry, exit)
      && (exit.Some? ==> Feeders(fs, exit.value) == 1)
      && (entry.Some? ==> Waits(fs, entry.value))
  {
    var fs, ts := PairFlows(x, sp, base, entry, exit), PairTriggers(sp, base);
    CountTwo(sp);
    forall k | 0 <= k < |ts| ensures TriggerOk(fs, ts[k], base + 1 + k) {
      ReleaseOk(x, sp, base, entry, exit, k);
    }
    forall i | 0 <= i < |fs| ensures RefsOk(fs[i], base, |ts|, entry, exit) {
    }
    if exit.Some? { OneFeeder(fs, exit.value, sp.Count() - 1); }
    if entry.Some? { assert fs[0].trigger == entry; }
  }

  /** One phase: the pairs side by side. */
  function PhaseProgram(xs: seq<Pair>, sp: Split, base: nat, entry: Option<nat>, exit: Option<nat>): Program
    requires 0 < sp.chunk
  {
    if xs == [] then Program([], [])
    else
      var rest := PhaseProgram(xs[1..], sp, base + Owned(sp), entry, exit);
      Program(PairFlows(xs[0], sp, base, entry, exit) + rest.flows, PairTriggers(sp, base) + rest.triggers)
  }

  /** A piece that contributes `n` activations to its exit, and waits for its entry unless it is empty. */
  ghost predicate PhaseOk(c: Program, n: nat, base: nat, entry: Option<nat>, exit: Option<nat>)
  {
    && Piece(c.flows, c.triggers, base, entry, exit)
    && (exit.Some? ==> Feeders(c.flows, exit.value) == n)
    && (entry.Some? && n > 0 ==> Waits(c.flows, entry.value))
  }

  lemma {:induction false} PhaseProgramPiece(xs: seq<Pair>, sp: Split, base: nat, entry: Option<nat>, exit: Option<nat>)
    requires sp.Ok()
    requires (entry.Some? ==> entry.value <= base) && (exit.Some? ==> exit.value <= base)
    ensures PhaseOk(PhaseProgram(xs, sp, base, entry, exit), |xs|, base, entry, exit)
    decreases |xs|
  {
    if xs != [] {
      PhaseProgramPiece(xs[1..], sp, base + Owned(sp), entry, exit);
      FirstPairJoins(xs[0], sp, base, entry, exit, PhaseProgram(xs[1..], sp, base + Owned(sp), entry, exit), |xs| - 1);
    }
  }

  lemma FirstPairJoins(x: Pair, sp: Split, base: nat, entry: Option<nat>, exit: Option<nat>, rest: Program, n: nat)
    requires sp.Ok() && PhaseOk(rest, n, base + Owned(sp), entry, exit)
    requires (entry.Some? ==> entry.value <= base) && (exit.Some? ==> exit.value <= base)
    ensures PhaseOk(Program(PairFlows(x, sp, base, entry, exit) + rest.flows, PairTriggers(sp, base) + rest.triggers),
                    n + 1, base, entry, exit)
  {
    PairPiece(x, sp, base, entry, exit);
    PairJoins(PairFlows(x, sp, base, entry, exit), PairTriggers(sp, base), rest, base, entry, exit);
  }

  lemma PairJoins(first: seq<FlowDef>, ts: seq<TriggerDef>, rest: Program, base: nat, entry: Option<nat>,
                  exit: Option<nat>)
    requires Piece(first, ts, base, entry, exit) && Piece(rest.flows, rest.triggers, base + |ts|, entry, exit)
    requires entry.Some? ==> Waits(first, entry.value)
    ensures Piece(first + rest.flows, ts + rest.triggers, base, entry, exit)
    ensures exit.Some? ==>
        Feeders(first + rest.flows, exit.value) == Feeders(first, exit.value) + Feeders(rest.flows, exit.value)
    ensures entry.Some? ==> Waits(first + rest.flows, entry.value)
  {
    Beside(first, ts, rest.flows, rest.triggers, base, entry, exit);
    if exit.Some? { FeedersConcat(first, rest.flows, exit.value); }
    if entry.Some? { WaitsConcat(first, rest.flows, entry.value); }
  }

  lemma WaitsConcat(a: seq<FlowDef>, b: seq<FlowDef>, t: nat)
    requires Waits(a, t)
    ensures Waits(a + b, t)
  {
    var i :| 0 <= i < |a| && a[i].trigger == Some(t);
    assert (a + b)[i].trigger == Some(t);
  }

  /** The phases of one group: each but the last reports to a barrier that expects one activation per pair. */
  function Phases(phases: seq<seq<Pair>>, sp: Split, base: nat, entry: Option<nat>): Program
    requires 0 < sp.chunk
  {
    if phases == [] then Program([], [])
    else if |phases| == 1 then PhaseProgram(phases[0], sp, base, entry, None)
    else
      var first := PhaseProgram(phases[0], sp, base + 1, entry, Some(base + 1));
      var rest := Phases(phases[1..], sp, base + 1 + |first.triggers|, Some(base + 1));
      Program(first.flows + rest.flows, [Barrier(base + 1, |phases[0]|)] + first.triggers + rest.triggers)
  }

  /** A piece that reports to nobody, and that waits for its entry if it has one. */
  ghost predicate Entered(c: Program, base: nat, entry: Option<nat>)
  {
    Piece(c.flows, c.triggers, base, entry, None) && (entry.Some? ==> Waits(c.flows, entry.value))
  }

  lemma {:induction false} PhasesPiece(phases: seq<seq<Pair>>, sp: Split, base: nat, entry: Option<nat>)
    requires sp.Ok() && phases != [] && (entry.Some? ==> entry.value <= base)
    requires NonEmpty(phases)
    ensures Entered(Phases(phases, sp, base, entry), base, entry)
    decreases |phases|
  {
    if |phases| == 1 {
      LastPhasePiece(phases[0], sp, base, entry);
    } else {
      TailNonEmpty(phases);
      var next := AfterPhase(phases[0], sp, base, entry);
      PhasesPiece(phases[1..], sp, next, Some(base + 1));
      FirstPhaseLinks(phases[0], sp, base, entry, Phases(phases[1..], sp, next, Some(base + 1)));
      PhasesStep(phases, sp, base, entry);
    }
  }

  /** The last trigger number used by a phase that follows its barrier. */
  function AfterPhase(xs: seq<Pair>, sp: Split, base: nat, entry: Option<nat>): nat
    requires 0 < sp.chunk
  {
    base + 1 + |PhaseProgram(xs, sp, base + 1, entry, Some(base + 1)).triggers|
  }

  /** A phase with the barrier it reports to, and what comes after it. */
  function Linked(xs: seq<Pair>, sp: Split, base: nat, entry: Option<nat>, rest: Program): Program
    requires 0 < sp.chunk
  {
    var first := PhaseProgram(xs, sp, base + 1, entry, Some(base + 1));
    Program(first.flows + rest.flows, [Barrier(base + 1, |xs|)] + first.triggers + rest.triggers)
  }

  lemma PhasesStep(phases: seq<seq<Pair>>, sp: Split, base: nat, entry: Option<nat>)
    requires 0 < sp.chunk && |phases| > 1
    ensures Phases(phases, sp, base, entry) == Linked(phases[0], sp, base, entry,
      Phases(phases[1..], sp, AfterPhase(phases[0], sp, base, entry), Some(base + 1)))
  {
  }

  lemma TailNonEmpty(phases: seq<seq<Pair>>)
    requires phases != [] && NonEmpty(phases)
    ensures phases[0] != [] && NonEmpty(phases[1..])
  {
  }

  lemma LastPhasePiece(xs: seq<Pair>, sp: Split, base: nat, entry: Option<nat>)
    requires sp.Ok() && xs != [] && (entry.Some? ==> entry.value <= base)
    ensures Entered(PhaseProgram(xs, sp, base, entry, None), base, entry)
  {
    PhaseProgramPiece(xs, sp, base, entry, None);
  }

  lemma FirstPhaseLinks(xs: seq<Pair>, sp: Split, base: nat, entry: Option<nat>, rest: Program)
    requires sp.Ok() && xs != [] && (entry.Some? ==> entry.value <= base)
    requires Entered(rest, AfterPhase(xs, sp, base, entry), Some(base + 1))
    ensures Entered(Linked(xs, sp, base, entry, rest), base, entry)
  {
    PhaseProgramPiece(xs, sp, base + 1, entry, Some(base + 1));
    LinkPhases(PhaseProgram(xs, sp, base + 1, entry, Some(base + 1)), rest, base, entry, |xs|);
  }

  lemma LinkPhases(first: Program, rest: Program, base: nat, entry: Option<nat>, count: nat)
    requires entry.Some? ==> entry.value <= base && Waits(first.flows, entry.value)
    requires Piece(first.flows, first.triggers, base + 1, entry, Some(base + 1))
    requires Feeders(first.flows, base + 1) == count > 0
    requires Piece(rest.flows, rest.triggers, base + 1 + |first.triggers|, Some(base + 1), None)
    requires Waits(rest.flows, base + 1)
    ensures Piece(first.flows + rest.flows, [Barrier(base + 1, count)] + first.triggers + rest.triggers, base, entry,
                  None)
    ensures entry.Some? ==> Waits(first.flows + rest.flows, entry.value)
  {
    InSequence(first.flows, first.triggers, rest.flows, rest.triggers, base, entry, None, count);
    if entry.Some? { WaitsConcat(first.flows, rest.flows, entry.value); }
  }

  // ---------------------------------------------------------------- the in-flight cap

  /** The chunks of pair `x` stand at `off` in the program, with release triggers from `base + 1`. */
  ghost predicate StandsAt(p: Program, off: nat, x: Pair, sp: Split, base: nat, entry: Option<nat>, exit: Option<nat>)
    requires 0 < sp.chunk
  {
    off + sp.Count() <= |p.flows| && forall i :: 0 <= i < sp.Count() ==>
      p.flows[off + i] == ChunkFlow(x, sp, i, base, entry, exit)
  }

  predicate ChunkRuns(s: State, off: nat, i: nat)
  {
    off + i < |s.status| && s.status[off + i].Running?
  }

  function RunningChunks(s: State, off: nat, n: nat): set<nat>
  {
    set i | i in Below(n) && ChunkRuns(s, off, i)
  }

  /** A started chunk has every chunk a multiple of `inflight` before it finished. */
  lemma {:induction false} ClassFinished(p: Program, s: State, off: nat, x: Pair, sp: Split, base: nat,
                                        entry: Option<nat>, exit: Option<nat>, i: nat, j: nat)
    requires WellFormed(p) && Inv(p, s) && sp.Ok() && StandsAt(p, off, x, sp, base, entry, exit)
    requires i < j < sp.Count() && Rem(i, sp.inflight) == Rem(j, sp.inflight) && !s.status[off + j].Waiting?
    ensures s.status[off + i].Finished?
    decreases j
  {
    var k := j - sp.inflight;
    SameClass(i, j, sp.inflight);
    assert p.flows[off + j] == ChunkFlow(x, sp, j, base, entry, exit);
    assert p.flows[off + k] == ChunkFlow(x, sp, k, base, entry, exit);
    StartedMeansFed(p, s, off + k, off + j);
    if i < k {
      ClassFinished(p, s, off, x, sp, base, entry, exit, i, k);
    }
  }

  /** In every reachable state a pair has at most `inflight` chunks running. */
  lemma InflightBounded(p: Program, s: State, off: nat, x: Pair, sp: Split, base: nat, entry: Option<nat>,
                        exit: Option<nat>)
    requires WellFormed(p) && Inv(p, s) && sp.Ok() && StandsAt(p, off, x, sp, base, entry, exit)
    ensures |RunningChunks(s, off, sp.Count())| <= sp.inflight
  {
    var r := RunningChunks(s, off, sp.Count());
    forall i, j | i in r && j in r && i != j ensures Rem(i, sp.inflight) != Rem(j, sp.inflight) {
      if Rem(i, sp.inflight) == Rem(j, sp.inflight) {
        ClassFinished(p, s, off, x, sp, base, entry, exit, if i < j then i else j, if i < j then j else i);
      }
    }
    DistinctClasses(r, sp.inflight);
  }

  // ---------------------------------------------------------------- where the chunks of a pair stand

  /** The chunks of `q` pairs. */
  function PairStart(sp: Split, q: nat): nat
    requires 0 < sp.chunk
  {
    if q == 0 then 0 else sp.Count() + PairStart(sp, q - 1)
  }

  /** Pair `q` of phase `p` of a group stands right after everything before it. */
  function PairOffset(phases: seq<seq<Pair>>, sp: Split, p: nat, q: nat): nat
    requires 0 < sp.chunk && p < |phases|
  {
    if p == 0 then PairStart(sp, q) else PairStart(sp, |phases[0]|) + PairOffset(phases[1..], sp, p - 1, q)
  }

  lemma {:induction false} PhaseLength(xs: seq<Pair>, sp: Split, base: nat, entry: Option<nat>, exit: Option<nat>)
    requires 0 < sp.chunk
    ensures |PhaseProgram(xs, sp, base, entry, exit).flows| == PairStart(sp, |xs|)
  {
    if xs != [] { PhaseLength(xs[1..], sp, base + Owned(sp), entry, exit); }
  }

  lemma StandsAfter(front: seq<FlowDef>, p: Program, q: Program, off: nat, x: Pair, sp: Split, base: nat,
                    entry: Option<nat>, exit: Option<nat>)
    requires 0 < sp.chunk && StandsAt(p, off, x, sp, base, entry, exit) && q.flows == front + p.flows
    ensures StandsAt(q, |front| + off, x, sp, base, entry, exit)
  {
  }

  lemma {:induction false} PairInPhase(xs: seq<Pair>, sp: Split, base: nat, entry: Option<nat>, exit: Option<nat>,
                                       q: nat)
    returns (b: nat)
    requires 0 < sp.chunk && q < |xs|
    ensures StandsAt(PhaseProgram(xs, sp, base, entry, exit), PairStart(sp, q), xs[q], sp, b, entry, exit)
  {
    if q == 0 {
      b := base;
    } else {
      b := PairInPhase(xs[1..], sp, base + Owned(sp), entry, exit, q - 1);
      StandsAfter(PairFlows(xs[0], sp, base, entry, exit), PhaseProgram(xs[1..], sp, base + Owned(sp), entry, exit),
                  PhaseProgram(xs, sp, base, entry, exit), PairStart(sp, q - 1), xs[q], sp, b, entry, exit);
    }
  }

  lemma StandsBefore(p: Program, back: seq<FlowDef>, q: Program, off: nat, x: Pair, sp: Split, base: nat,
                     entry: Option<nat>, exit: Option<nat>)
    requires 0 < sp.chunk && StandsAt(p, off, x, sp, base, entry, exit) && q.flows == p.flows + back
    ensures StandsAt(q, off, x, sp, base, entry, exit)
  {
  }

  /** What starts phase `p`: the first one `entry`, every other one its barrier. */
  function EntryAt(phases: seq<seq<Pair>>, sp: Split, base: nat, entry: Option<nat>, p: nat): (en: Option<nat>)
    requires 0 < sp.chunk && p < |phases|
    ensures p > 0 ==> en.Some?
    decreases |phases|
  {
    if p == 0 then entry
    else EntryAt(phases[1..], sp, AfterPhase(phases[0], sp, base, entry), Some(base + 1), p - 1)
  }

  /** What a phase reports to: what starts the next one. */
  function ExitAt(phases: seq<seq<Pair>>, sp: Split, base: nat, entry: Option<nat>, p: nat): Option<nat>
    requires 0 < sp.chunk && p < |phases|
  {
    if p + 1 < |phases| then EntryAt(phases, sp, base, entry, p + 1) else None
  }

  lemma FirstPhaseMarks(phases: seq<seq<Pair>>, sp: Split, base: nat, entry: Option<nat>)
    requires 0 < sp.chunk && phases != []
    ensures EntryAt(phases, sp, base, entry, 0) == entry
    ensures ExitAt(phases, sp, base, entry, 0) == if |phases| == 1 then None else Some(base + 1)
  {
    if |phases| > 1 {
      assert EntryAt(phases, sp, base, entry, 1)
          == EntryAt(phases[1..], sp, AfterPhase(phases[0], sp, base, entry), Some(base + 1), 0);
    }
  }

  lemma LaterPhaseMarks(phases: seq<seq<Pair>>, sp: Split, base: nat, entry: Option<nat>, p: nat)
    requires 0 < sp.chunk && 0 < p < |phases|
    ensures var next := AfterPhase(phases[0], sp, base, entry);
      && EntryAt(phases, sp, base, entry, p) == EntryAt(phases[1..], sp, next, Some(base + 1), p - 1)
      && ExitAt(phases, sp, base, entry, p) == ExitAt(phases[1..], sp, next, Some(base + 1), p - 1)
  {
  }

  lemma AfterFirstPhase(xs: seq<Pair>, sp: Split, base: nat, entry: Option<nat>, rest: Program, all: Program,
                        off: nat, x: Pair, b: nat, en: Option<nat>, ex: Option<nat>)
    requires 0 < sp.chunk && StandsAt(rest, off, x, sp, b, en, ex)
    requires all.flows == PhaseProgram(xs, sp, base + 1, entry, Some(base + 1)).flows + rest.flows
    ensures StandsAt(all, PairStart(sp, |xs|) + off, x, sp, b, en, ex)
  {
    PhaseLength(xs, sp, base + 1, entry, Some(base + 1));
    StandsAfter(PhaseProgram(xs, sp, base + 1, entry, Some(base + 1)).flows, rest, all, off, x, sp, b, en, ex);
  }

  lemma PairInFirst(phases: seq<seq<Pair>>, sp: Split, base: nat, entry: Option<nat>, q: nat) returns (b: nat)
    requires 0 < sp.chunk && |phases| > 1 && q < |phases[0]|
    ensures StandsAt(Phases(phases, sp, base, entry), PairStart(sp, q), phases[0][q], sp, b, entry, Some(base + 1))
  {
    var rest := Phases(phases[1..], sp, AfterPhase(phases[0], sp, base, entry), Some(base + 1));
    b := PairInPhase(phases[0], sp, base + 1, entry, Some(base + 1), q);
    PhasesStep(phases, sp, base, entry);
    StandsBefore(PhaseProgram(phases[0], sp, base + 1, entry, Some(base + 1)), rest.flows,
                 Phases(phases, sp, base, entry), PairStart(sp, q), phases[0][q], sp, b, entry, Some(base + 1));
  }

  lemma PairInLater(phases: seq<seq<Pair>>, sp: Split, base: nat, entry: Option<nat>, off: nat, x: Pair, b: nat,
                    en: Option<nat>, ex: Option<nat>)
    requires 0 < sp.chunk && |phases| > 1
    requires StandsAt(Phases(phases[1..], sp, AfterPhase(phases[0], sp, base, entry), Some(base + 1)), off, x, sp, b,
                      en, ex)
    ensures StandsAt(Phases(phases, sp, base, entry), PairStart(sp, |phases[0]|) + off, x, sp, b, en, ex)
  {
    PhasesStep(phases, sp, base, entry);
    AfterFirstPhase(phases[0], sp, base, entry,
                    Phases(phases[1..], sp, AfterPhase(phases[0], sp, base, entry), Some(base + 1)),
                    Phases(phases, sp, base, entry), off, x, b, en, ex);
  }

  lemma {:induction false} PairInPhases(phases: seq<seq<Pair>>, sp: Split, base: nat, entry: Option<nat>, p: nat,
                                        q: nat)
    returns (b: nat)
    requires 0 < sp.chunk && p < |phases| && q < |phases[p]|
    ensures StandsAt(Phases(phases, sp, base, entry), PairOffset(phases, sp, p, q), phases[p][q], sp, b,
                     EntryAt(phases, sp, base, entry, p), ExitAt(phases, sp, base, entry, p))
    decreases |phases|
  {
    FirstPhaseMarks(phases, sp, base, entry);
    if |phases| == 1 {
      b := PairInPhase(phases[0], sp, base, entry, None, q);
    } else if p == 0 {
      b := PairInFirst(phases, sp, base, entry, q);
    } else {
      LaterPhaseMarks(phases, sp, base, entry, p);
      b := PairInPhases(phases[1..], sp, AfterPhase(phases[0], sp, base, entry), Some(base + 1), p - 1, q);
      PairInLater(phases, sp, base, entry, PairOffset(phases[1..], sp, p - 1, q), phases[p][q], b,
                  EntryAt(phases, sp, base, entry, p), ExitAt(phases, sp, base, entry, p));
    }
  }
}
