/** The schedules htsim_runner.py compiles collectives into, as functions from phases of transfers to
    flow-and-trigger programs, and the proof that each is well formed (htsim_runner.py:431-454, 483-529,
    598-714, 738-752, 780-807). */
module Schedules {
  import opened AllToAll
  import opened Counting
  import opened Options
  import opened Sequences
  import opened Transfers
  import opened TriggerProgram

  function FlowOf(x: Xfer, entry: Option<nat>, exit: Option<nat>): FlowDef
  {
    FlowDef(x.src, x.dst, x.size, if entry.None? then Some(0) else None, entry, exit)
  }

  function PhaseFlows(xs: seq<Xfer>, entry: Option<nat>, exit: Option<nat>): seq<FlowDef>
  {
    seq(|xs|, i requires 0 <= i < |xs| => FlowOf(xs[i], entry, exit))
  }

  lemma {:induction false} PhaseFeeders(xs: seq<Xfer>, entry: Option<nat>, exit: Option<nat>, t: nat)
    ensures Feeders(PhaseFlows(xs, entry, exit), t) == if exit == Some(t) then |xs| else 0
  {
    if xs != [] {
      assert PhaseFlows(xs, entry, exit)[1..] == PhaseFlows(xs[1..], entry, exit);
      PhaseFeeders(xs[1..], entry, exit, t);
    }
  }

  lemma PhasePiece(xs: seq<Xfer>, base: nat, entry: Option<nat>, exit: Option<nat>)
    requires (entry.Some? ==> entry.value <= base) && (exit.Some? ==> exit.value <= base)
    ensures Piece(PhaseFlows(xs, entry, exit), [], base, entry, exit)
    ensures xs != [] && entry.Some? ==> Waits(PhaseFlows(xs, entry, exit), entry.value)
  {
    if xs != [] && entry.Some? {
      assert PhaseFlows(xs, entry, exit)[0].trigger == entry;
    }
  }

  // ---------------------------------------------------------------- chains of phases

  /** Phases one after the other: each but the last reports to a barrier that starts the next. */
  function Chain(phases: seq<seq<Xfer>>, base: nat, entry: Option<nat>): Program
  {
    if phases == [] then Program([], [])
    else if |phases| == 1 then Program(PhaseFlows(phases[0], entry, None), [])
    else
      var rest := Chain(phases[1..], base + 1, Some(base + 1));
      Program(PhaseFlows(phases[0], entry, Some(base + 1)) + rest.flows,
              [Barrier(base + 1, |phases[0]|)] + rest.triggers)
  }

  lemma ChainLink(xs: seq<Xfer>, rest: Program, base: nat, entry: Option<nat>)
    requires xs != [] && (entry.Some? ==> entry.value <= base)
    requires Piece(rest.flows, rest.triggers, base + 1, Some(base + 1), None) && Waits(rest.flows, base + 1)
    ensures Piece(PhaseFlows(xs, entry, Some(base + 1)) + rest.flows,
                  [Barrier(base + 1, |xs|)] + rest.triggers, base, entry, None)
  {
    PhasePiece(xs, base + 1, entry, Some(base + 1));
    PhaseFeeders(xs, entry, Some(base + 1), base + 1);
    LinkPieces(PhaseFlows(xs, entry, Some(base + 1)), rest, base, entry, |xs|);
  }

  lemma LinkPieces(first: seq<FlowDef>, rest: Program, base: nat, entry: Option<nat>, count: nat)
    requires entry.Some? ==> entry.value <= base
    requires Piece(first, [], base + 1, entry, Some(base + 1)) && Feeders(first, base + 1) == count > 0
    requires Piece(rest.flows, rest.triggers, base + 1, Some(base + 1), None) && Waits(rest.flows, base + 1)
    ensures Piece(first + rest.flows, [Barrier(base + 1, count)] + rest.triggers, base, entry, None)
  {
    assert [Barrier(base + 1, count)] + [] + rest.triggers == [Barrier(base + 1, count)] + rest.triggers;
    InSequence(first, [], rest.flows, rest.triggers, base, entry, None, count);
  }

  lemma {:induction false} ChainPiece(phases: seq<seq<Xfer>>, base: nat, entry: Option<nat>)
    requires NonEmpty(phases) && (entry.Some? ==> entry.value <= base)
    ensures var c := Chain(phases, base, entry);
      && Piece(c.flows, c.triggers, base, entry, None)
      && (phases != [] && entry.Some? ==> Waits(c.flows, entry.value))
      && |c.triggers| == (if phases == [] then 0 else |phases| - 1)
  {
    if phases != [] {
      assert phases[0] != [];
      if |phases| == 1 {
        PhasePiece(phases[0], base, entry, None);
      } else {
        ChainPiece(phases[1..], base + 1, Some(base + 1));
        ChainLink(phases[0], Chain(phases[1..], base + 1, Some(base + 1)), base, entry);
        if entry.Some? {
          assert Chain(phases, base, entry).flows[0].trigger == entry;
        }
      }
    }
  }

  /** A whole program: chains emitted one after the other (one per group, ring or channel). */
  function Compile(chains: seq<seq<seq<Xfer>>>): Program
  {
    if chains == [] then Program([], [])
    else
      var front := Compile(chains[..|chains| - 1]);
      var last := Chain(chains[|chains| - 1], |front.triggers|, None);
      Program(front.flows + last.flows, front.triggers + last.triggers)
  }

  /** Every program of barrier-chained phases is well formed, so by RunsFinishEverything it cannot deadlock. */
  lemma {:induction false} CompileWellFormed(chains: seq<seq<seq<Xfer>>>)
    requires forall i :: 0 <= i < |chains| ==> NonEmpty(chains[i])
    ensures WellFormed(Compile(chains))
  {
    if chains != [] {
      var n := |chains| - 1;
      var front := Compile(chains[..n]);
      CompileWellFormed(chains[..n]);
      ChainPiece(chains[n], |front.triggers|, None);
      var last := Chain(chains[n], |front.triggers|, None);
      Beside(front.flows, front.triggers, last.flows, last.triggers, 0, None, None);
    }
  }

  // ---------------------------------------------------------------- where the flows of a phase are

  function PhaseStart<T>(phases: seq<seq<T>>, p: nat): nat
    requires p <= |phases|
  {
    if p == 0 then 0 else |phases[0]| + PhaseStart(phases[1..], p - 1)
  }

  /** Flow `i` of phase `p`: where it stands, what starts it, and what it reports to. */
  lemma {:induction false} ChainAt(phases: seq<seq<Xfer>>, base: nat, entry: Option<nat>, p: nat, i: nat)
    requires p < |phases| && i < |phases[p]|
    ensures var c := Chain(phases, base, entry);
      && PhaseStart(phases, p) + i < |c.flows|
      && c.flows[PhaseStart(phases, p) + i] ==
           FlowOf(phases[p][i], if p == 0 then entry else Some(base + p),
                  if p + 1 < |phases| then Some(base + p + 1) else None)
    decreases |phases|
  {
    if p > 0 { ChainAt(phases[1..], base + 1, Some(base + 1), p - 1, i); }
  }

  /** Where chain `c` of a compiled program begins. */
  function ChainOffset(chains: seq<seq<seq<Xfer>>>, c: nat): nat
    requires c <= |chains|
  {
    |Compile(chains[..c]).flows|
  }

  lemma {:induction false} CompileAt(chains: seq<seq<seq<Xfer>>>, c: nat, k: nat)
    requires c < |chains|
    requires k < |Chain(chains[c], |Compile(chains[..c]).triggers|, None).flows|
    ensures ChainOffset(chains, c) + k < |Compile(chains).flows|
    ensures Compile(chains).flows[ChainOffset(chains, c) + k]
         == Chain(chains[c], |Compile(chains[..c]).triggers|, None).flows[k]
    decreases |chains|
  {
    var n := |chains| - 1;
    if c < n {
      assert chains[..n][..c] == chains[..c];
      CompileAt(chains[..n], c, k);
    }
  }

  function FlowIndex(chains: seq<seq<seq<Xfer>>>, c: nat, p: nat, i: nat): nat
    requires c < |chains| && p < |chains[c]|
  {
    ChainOffset(chains, c) + PhaseStart(chains[c], p) + i
  }

  /** Flow `i` of phase `p` of chain `c`, in the whole program. */
  lemma FlowAt(chains: seq<seq<seq<Xfer>>>, c: nat, p: nat, i: nat, base: nat)
    requires c < |chains| && p < |chains[c]| && i < |chains[c][p]| && base == |Compile(chains[..c]).triggers|
    ensures FlowIndex(chains, c, p, i) < |Compile(chains).flows|
    ensures Compile(chains).flows[FlowIndex(chains, c, p, i)]
         == FlowOf(chains[c][p][i], if p == 0 then None else Some(base + p),
                   if p + 1 < |chains[c]| then Some(base + p + 1) else None)
  {
    ChainAt(chains[c], base, None, p, i);
    CompileAt(chains, c, PhaseStart(chains[c], p) + i);
  }

  /** A started flow of a phase has every flow of the phase before it finished. */
  lemma PreviousPhaseIsDone(chains: seq<seq<seq<Xfer>>>, s: State, c: nat, r: nat, m: nat, j: nat)
    requires WellFormed(Compile(chains)) && Inv(Compile(chains), s)
    requires c < |chains| && r + 1 < |chains[c]| && m < |chains[c][r]| && j < |chains[c][r + 1]|
    requires FlowIndex(chains, c, r + 1, j) < |s.status| && !s.status[FlowIndex(chains, c, r + 1, j)].Waiting?
    ensures FlowIndex(chains, c, r, m) < |s.status| && s.status[FlowIndex(chains, c, r, m)].Finished?
  {
    var base := |Compile(chains[..c]).triggers|;
    FlowAt(chains, c, r, m, base);
    FlowAt(chains, c, r + 1, j, base);
    StartedMeansFed(Compile(chains), s, FlowIndex(chains, c, r, m), FlowIndex(chains, c, r + 1, j));
  }

  /** Phase separation: in every run, once any flow of phase `p + 1` of a chain has started, every flow of
      phase `p` of that chain has finished; and so on down to phase 0. */
  lemma {:induction false} PhasesAreSeparated(chains: seq<seq<seq<Xfer>>>, s: State, c: nat, p: nat, q: nat, i: nat,
                                              j: nat)
    requires forall k :: 0 <= k < |chains| ==> NonEmpty(chains[k])
    requires WellFormed(Compile(chains)) && Inv(Compile(chains), s)
    requires c < |chains| && p < q < |chains[c]| && i < |chains[c][p]| && j < |chains[c][q]|
    requires FlowIndex(chains, c, q, j) < |s.status| && !s.status[FlowIndex(chains, c, q, j)].Waiting?
    ensures FlowIndex(chains, c, p, i) < |s.status| && s.status[FlowIndex(chains, c, p, i)].Finished?
    decreases q - p
  {
    if q - 1 == p {
      PreviousPhaseIsDone(chains, s, c, p, i, j);
    } else {
      assert chains[c][q - 1] != [];
      PreviousPhaseIsDone(chains, s, c, q - 1, 0, j);
      PhasesAreSeparated(chains, s, c, p, q - 1, i, 0);
    }
  }

  // ---------------------------------------------------------------- the same chains, step by step

  type Mark = (Option<nat>, Option<nat>)   // what starts a step, and what its flows report to

  /** What _make_step_barriers returns for `n` chained steps. */
  function StepMarks(base: nat, n: nat, entry: Option<nat>): (marks: seq<Mark>)
    ensures |marks| == n
    decreases n
  {
    if n == 0 then [] else if n == 1 then [(entry, None)]
    else [(entry, Some(base + 1))] + StepMarks(base + 1, n - 1, Some(base + 1))
  }

  lemma {:induction false} StepMarksAt(base: nat, n: nat, entry: Option<nat>, s: nat)
    requires s < n
    ensures StepMarks(base, n, entry)[s] ==
      (if s == 0 then entry else Some(base + s), if s + 1 < n then Some(base + s + 1) else None)
    decreases n
  {
    if s > 0 { StepMarksAt(base + 1, n - 1, Some(base + 1), s - 1); }
  }

  function StepFlows(phases: seq<seq<Xfer>>, marks: seq<Mark>): seq<FlowDef>
    requires |phases| == |marks|
  {
    if phases == [] then []
    else PhaseFlows(phases[0], marks[0].0, marks[0].1) + StepFlows(phases[1..], marks[1..])
  }

  lemma {:induction false} StepFlowsSnoc(phases: seq<seq<Xfer>>, marks: seq<Mark>, xs: seq<Xfer>, m: Mark)
    requires |phases| == |marks|
    ensures StepFlows(phases + [xs], marks + [m]) == StepFlows(phases, marks) + PhaseFlows(xs, m.0, m.1)
  {
    if phases == [] {
      assert StepFlows([], []) == [];
      assert (phases + [xs])[1..] == [] && (marks + [m])[1..] == [];
    } else {
      assert (phases + [xs])[1..] == phases[1..] + [xs];
      assert (marks + [m])[1..] == marks[1..] + [m];
      StepFlowsSnoc(phases[1..], marks[1..], xs, m);
    }
  }

  lemma NextStep(phases: seq<seq<Xfer>>, marks: seq<Mark>, p: nat)
    requires |phases| == |marks| && p < |phases|
    ensures StepFlows(phases[..p + 1], marks[..p + 1])
         == StepFlows(phases[..p], marks[..p]) + PhaseFlows(phases[p], marks[p].0, marks[p].1)
  {
    StepFlowsSnoc(phases[..p], marks[..p], phases[p], marks[p]);
    assert phases[..p] + [phases[p]] == phases[..p + 1] && marks[..p] + [marks[p]] == marks[..p + 1];
  }

  function BarriersFor(phases: seq<seq<Xfer>>, base: nat): seq<TriggerDef>
  {
    if |phases| <= 1 then [] else [Barrier(base + 1, |phases[0]|)] + BarriersFor(phases[1..], base + 1)
  }

  /** Allocating all barriers first and then emitting the steps gives the chain. */
  lemma {:induction false} ChainIsSteps(phases: seq<seq<Xfer>>, base: nat, entry: Option<nat>)
    ensures Chain(phases, base, entry)
         == Program(StepFlows(phases, StepMarks(base, |phases|, entry)), BarriersFor(phases, base))
    decreases |phases|
  {
    if |phases| == 1 {
      assert StepFlows(phases[1..], StepMarks(base, 1, entry)[1..]) == [];
    } else if |phases| > 1 {
      ChainIsSteps(phases[1..], base + 1, Some(base + 1));
      assert StepMarks(base, |phases|, entry)[1..] == StepMarks(base + 1, |phases| - 1, Some(base + 1));
    }
  }

  lemma {:induction false} BarriersAt(phases: seq<seq<Xfer>>, base: nat, i: nat)
    ensures |BarriersFor(phases, base)| == (if phases == [] then 0 else |phases| - 1)
    ensures i + 1 < |phases| ==> BarriersFor(phases, base)[i] == Barrier(base + 1 + i, |phases[i]|)
    decreases |phases|
  {
    if |phases| > 1 { BarriersAt(phases[1..], base + 1, if i == 0 then 0 else i - 1); }
  }

  function Repeat(xs: seq<Xfer>, n: nat): seq<seq<Xfer>> { seq(n, _ => xs) }

  // ---------------------------------------------------------------- ring steps

  const INTRA_SERVER_BYTES: nat := 1

  /** One step of a ring: every member sends to its successor; pairs inside a server may carry a token byte. */
  function RingStep(ring: seq<nat>, chunk: nat, w: Sites): seq<Xfer>
    requires Placed(ring, w)
  {
    seq(|ring|, i requires 0 <= i < |ring| => RingXfer(ring, chunk, w, i))
  }

  function RingXfer(ring: seq<nat>, chunk: nat, w: Sites, i: nat): Xfer
    requires Placed(ring, w) && i < |ring|
  {
    var dst := ring[Rem(i + 1, |ring|)];
    Xfer(ring[i], dst, if w.Skips(ring[i], dst) then INTRA_SERVER_BYTES else chunk)
  }

  /** In a ring step every member sends exactly once and hears exactly once. */
  lemma RingStepBalanced(ring: seq<nat>, chunk: nat, w: Sites, a: nat)
    requires Placed(ring, w) && Distinct(ring) && a < |ring|
    ensures forall i :: 0 <= i < |ring| ==> (RingStep(ring, chunk, w)[i].src == ring[a] <==> i == a)
    ensures forall i :: 0 <= i < |ring| ==> (RingStep(ring, chunk, w)[i].dst == ring[a] <==> i == Rem(a - 1, |ring|))
  {
    forall i | 0 <= i < |ring| ensures RingStep(ring, chunk, w)[i].dst == ring[a] <==> i == Rem(a - 1, |ring|) {
      if |ring| > 1 { RingPredecessor(i, a, |ring|); }
      assert ring[Rem(i + 1, |ring|)] == ring[a] <==> Rem(i + 1, |ring|) == a;
    }
  }

  lemma RingPredecessor(i: nat, a: nat, n: nat)
    requires i < n && a < n && 1 < n
    ensures Rem(i + 1, n) == a <==> i == Rem(a - 1, n)
  {
    StepTo(1, i, a, n);
  }

  /** Rings compiled one after the other, each with its own chain of `steps` steps. */
  function RingChains(rings: seq<seq<nat>>, chunk: nat, steps: nat, w: Sites): seq<seq<seq<Xfer>>>
    requires forall r :: 0 <= r < |rings| ==> Placed(rings[r], w)
  {
    seq(|rings|, r requires 0 <= r < |rings| => Repeat(RingStep(rings[r], chunk, w), steps))
  }

  // ---------------------------------------------------------------- rings of servers

  /** What server `i` sends to the next one: member by member, as far as both have members. */
  function Stripe(nodesOf: seq<seq<nat>>, i: nat, size: nat): seq<Xfer>
    requires i < |nodesOf|
  {
    var next := nodesOf[Rem(i + 1, |nodesOf|)];
    seq(if |nodesOf[i]| < |next| then |nodesOf[i]| else |next|, x requires 0 <= x < |nodesOf[i]| && x < |next| =>
      Xfer(nodesOf[i][x], next[x], size))
  }

  function ServerRingStep(nodesOf: seq<seq<nat>>, i: nat, size: nat): seq<Xfer>
    requires i <= |nodesOf|
    decreases |nodesOf| - i
  {
    if i == |nodesOf| then [] else Stripe(nodesOf, i, size) + ServerRingStep(nodesOf, i + 1, size)
  }

  lemma PhaseFlowsConcat(a: seq<Xfer>, b: seq<Xfer>, entry: Option<nat>, exit: Option<nat>)
    ensures PhaseFlows(a + b, entry, exit) == PhaseFlows(a, entry, exit) + PhaseFlows(b, entry, exit)
  {
    var l, r := PhaseFlows(a + b, entry, exit), PhaseFlows(a, entry, exit) + PhaseFlows(b, entry, exit);
    forall i | 0 <= i < |l| ensures l[i] == r[i] {
      if i >= |a| { assert (a + b)[i] == b[i - |a|]; }
    }
  }

  /** A step of a ring of servers that all have members is not empty, even if they have differently many. */
  lemma ServerRingStepNonEmpty(nodesOf: seq<seq<nat>>, size: nat)
    requires nodesOf != [] && NonEmpty(nodesOf)
    ensures ServerRingStep(nodesOf, 0, size) != []
  {
    assert nodesOf[0] != [] && nodesOf[Rem(1, |nodesOf|)] != [];
    assert Stripe(nodesOf, 0, size) != [];
  }
}
