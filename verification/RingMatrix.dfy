/** The traffic matrix of ring collectives: the bytes between any two nodes (htsim_runner.py:457-529, 817-912). */
module RingMatrix {
  import opened AllToAll
  import opened Counting
  import opened Options
  import opened Sequences
  import opened Servers
  import opened Transfers
  import opened Schedules
  import opened Rings
  import C = Collectives

  // ---------------------------------------------------------------- chains of transfers

  lemma {:induction false} CarriedByChain(phases: seq<seq<Xfer>>, base: nat, entry: Option<nat>, x: Pair)
    ensures C.Carried(Chain(phases, base, entry).flows, x, false) == Between(Flat(phases), x, false)
    decreases |phases|
  {
    if phases != [] {
      BetweenConcat(phases[0], Flat(phases[1..]), x, false);
      if |phases| == 1 {
        C.CarriedByPhase(phases[0], entry, None, x, false);
      } else {
        var rest := Chain(phases[1..], base + 1, Some(base + 1));
        C.CarriedByPhase(phases[0], entry, Some(base + 1), x, false);
        CarriedByChain(phases[1..], base + 1, Some(base + 1), x);
        C.CarriedConcat(PhaseFlows(phases[0], entry, Some(base + 1)), rest.flows, x, false);
      }
    }
  }

  /** What a list of chains carries is what each carries. */
  function ChainsCarry(chains: seq<seq<seq<Xfer>>>, x: Pair): nat
  {
    if chains == [] then 0
    else ChainsCarry(chains[..|chains| - 1], x) + Between(Flat(chains[|chains| - 1]), x, false)
  }

  lemma {:induction false} CarriedByChains(chains: seq<seq<seq<Xfer>>>, x: Pair)
    ensures C.Carried(Compile(chains).flows, x, false) == ChainsCarry(chains, x)
  {
    if chains != [] {
      var n := |chains| - 1;
      var front := Compile(chains[..n]);
      CarriedByChains(chains[..n], x);
      CarriedByChain(chains[n], |front.triggers|, None, x);
      C.CarriedConcat(front.flows, Chain(chains[n], |front.triggers|, None).flows, x, false);
    }
  }

  lemma {:induction false} ChainsCarryConcat(a: seq<seq<seq<Xfer>>>, b: seq<seq<seq<Xfer>>>, x: Pair)
    ensures ChainsCarry(a + b, x) == ChainsCarry(a, x) + ChainsCarry(b, x)
    decreases |b|
  {
    if b == [] {
      assert a + b == a;
    } else {
      var n := |b| - 1;
      assert (a + b)[..|a + b| - 1] == a + b[..n] && (a + b)[|a + b| - 1] == b[n];
      ChainsCarryConcat(a, b[..n], x);
    }
  }

  lemma {:induction false} RepeatCarries(xs: seq<Xfer>, n: nat, x: Pair)
    ensures Between(Flat(Repeat(xs, n)), x, false) == n * Between(xs, x, false)
  {
    if n > 0 {
      assert Repeat(xs, n)[1..] == Repeat(xs, n - 1);
      RepeatCarries(xs, n - 1, x);
      BetweenConcat(xs, Flat(Repeat(xs, n - 1)), x, false);
      OneMore(n - 1, Between(xs, x, false));
    }
  }

  // ---------------------------------------------------------------- one ring

  predicate Joins(t: Xfer, x: Pair) { t.src == x.src && t.dst == x.dst }

  lemma {:induction false} JoinedByNone(ts: seq<Xfer>, x: Pair)
    requires forall i :: 0 <= i < |ts| ==> !Joins(ts[i], x)
    ensures Between(ts, x, false) == 0
  {
    if ts != [] {
      assert !Joins(ts[0], x);
      JoinedByNone(ts[1..], x);
    }
  }

  lemma {:induction false} JoinedByOne(ts: seq<Xfer>, k: nat, x: Pair)
    requires k < |ts| && forall i :: 0 <= i < |ts| ==> (Joins(ts[i], x) <==> i == k)
    ensures Between(ts, x, false) == ts[k].size
  {
    if k == 0 {
      JoinedByNone(ts[1..], x);
    } else {
      assert !Joins(ts[0], x);
      JoinedByOne(ts[1..], k - 1, x);
    }
  }

  /** Does the second node come right after the first in the ring? */
  predicate Follows(ring: seq<nat>, x: Pair)
  {
    exists i :: 0 <= i < |ring| && ring[i] == x.src && ring[Rem(i + 1, |ring|)] == x.dst
  }

  /** A part, or one token byte if the pair is left out. */
  function EdgeBytes(w: Sites, x: Pair, size: nat): nat
  {
    if w.exclude && x.src in w.serverOf && x.dst in w.serverOf && w.serverOf[x.src] == w.serverOf[x.dst]
    then 1 else size
  }

  /** What one channel carries over all its steps. */
  function ChannelBytes(w: Sites, x: Pair, size: nat, steps: nat): nat { Product(steps, EdgeBytes(w, x, size)) }

  lemma StepCarries(ring: seq<nat>, size: nat, w: Sites, x: Pair)
    requires Placed(ring, w) && Distinct(ring)
    ensures Between(RingStep(ring, size, w), x, false) == if Follows(ring, x) then EdgeBytes(w, x, size) else 0
  {
    var step := RingStep(ring, size, w);
    if Follows(ring, x) {
      var k :| 0 <= k < |ring| && ring[k] == x.src && ring[Rem(k + 1, |ring|)] == x.dst;
      forall i | 0 <= i < |step| ensures Joins(step[i], x) <==> i == k { assert ring[i] == ring[k] <==> i == k; }
      JoinedByOne(step, k, x);
    } else {
      forall i | 0 <= i < |step| ensures !Joins(step[i], x) { assert step[i].dst == ring[Rem(i + 1, |ring|)]; }
      JoinedByNone(step, x);
    }
  }

  lemma ChainCarries(ring: seq<nat>, size: nat, steps: nat, w: Sites, x: Pair)
    requires Placed(ring, w) && Distinct(ring)
    ensures Between(Flat(Repeat(RingStep(ring, size, w), steps)), x, false)
         == if Follows(ring, x) then ChannelBytes(w, x, size, steps) else 0
  {
    StepCarries(ring, size, w, x);
    RepeatCarries(RingStep(ring, size, w), steps, x);
  }

  // ---------------------------------------------------------------- all channels of a group

  /** In how many rings the second node follows the first. */
  function FollowCount(rings: seq<seq<nat>>, x: Pair): nat
  {
    if rings == [] then 0
    else FollowCount(rings[..|rings| - 1], x) + One(Follows(rings[|rings| - 1], x))
  }

  lemma OneFollows(count: nat, follows: bool, each: nat)
    ensures Product(count + One(follows), each) == Product(count, each) + if follows then each else 0
  {
  }

  lemma {:induction false} RingsCarry(rings: seq<seq<nat>>, g: seq<nat>, size: nat, steps: nat, w: Sites, x: Pair,
                                      each: nat)
    requires AllThrough(rings, g, w) && each == ChannelBytes(w, x, size, steps)
    ensures ChainsCarry(RingChains(rings, size, steps, w), x) == Product(FollowCount(rings, x), each)
  {
    if rings != [] {
      var n := |rings| - 1;
      var chains := RingChains(rings, size, steps, w);
      assert chains[..n] == RingChains(rings[..n], size, steps, w);
      assert RingThrough(rings[n], g);
      RingsCarry(rings[..n], g, size, steps, w, x, each);
      ChainCarries(rings[n], size, steps, w, x);
      OneFollows(FollowCount(rings[..n], x), Follows(rings[n], x), each);
    }
  }

  lemma {:induction false} OutsidersFollowNobody(rings: seq<seq<nat>>, g: seq<nat>, w: Sites, x: Pair)
    requires AllThrough(rings, g, w) && x.src !in g
    ensures FollowCount(rings, x) == 0
  {
    if rings != [] {
      assert RingThrough(rings[|rings| - 1], g);
      OutsidersFollowNobody(rings[..|rings| - 1], g, w, x);
    }
  }

  /** What a group owes to a pair of nodes. */
  ghost function GroupShare(g: seq<nat>, job: Job, x: Pair): nat
    requires GroupOk(g, job.sites)
  {
    if |g| <= 1 then 0
    else Product(Channels(g, job, x), ChannelBytes(job.sites, x, job.Part(|g|), job.Steps(|g|)))
  }

  /** In how many channels the second node follows the first. */
  function Channels(g: seq<nat>, job: Job, x: Pair): nat
    requires Placed(g, job.sites)
  {
    FollowCount(ChannelRings(ByServer(g, job.sites), job.channels), x)
  }

  lemma OutsidersShareNothing(g: seq<nat>, job: Job, x: Pair)
    requires GroupOk(g, job.sites) && x.src !in g
    ensures GroupShare(g, job, x) == 0
  {
    ThroughGroup(g, job.sites, job.channels);
    OutsidersFollowNobody(ChannelRings(ByServer(g, job.sites), job.channels), g, job.sites, x);
  }

  lemma GroupCarries(g: seq<nat>, job: Job, x: Pair)
    requires GroupOk(g, job.sites)
    ensures ChainsCarry(GroupChains(g, job), x) == GroupShare(g, job, x)
  {
    if |g| > 1 {
      ThroughGroup(g, job.sites, job.channels);
      var size, steps := job.Part(|g|), job.Steps(|g|);
      RingsCarry(ChannelRings(ByServer(g, job.sites), job.channels), g, size, steps, job.sites, x,
                 ChannelBytes(job.sites, x, size, steps));
    }
  }

  // ---------------------------------------------------------------- all groups

  ghost function PairShare(gs: seq<seq<nat>>, job: Job, x: Pair): nat
    requires GroupsOk(gs, job.sites)
  {
    var c := GroupWith(gs, x.src);
    if c < |gs| then InGroup(gs, job.sites, c); GroupShare(gs[c], job, x) else 0
  }

  lemma ShareBefore(gs: seq<seq<nat>>, job: Job, x: Pair)
    requires GroupsOk(gs, job.sites) && Apart(gs) && gs != []
    ensures GroupOk(gs[|gs| - 1], job.sites)
    ensures PairShare(gs, job, x) == PairShare(gs[..|gs| - 1], job, x) + GroupShare(gs[|gs| - 1], job, x)
  {
    InGroup(gs, job.sites, |gs| - 1);
    GroupIsUnique(gs, x.src, |gs| - 1);
    GroupBefore(gs, x.src);
    if x.src !in gs[|gs| - 1] { OutsidersShareNothing(gs[|gs| - 1], job, x); }
  }

  lemma {:induction false} AllCarry(gs: seq<seq<nat>>, job: Job, x: Pair)
    requires GroupsOk(gs, job.sites) && Apart(gs)
    ensures ChainsCarry(AllChains(gs, job), x) == PairShare(gs, job, x)
  {
    if gs != [] {
      var n := |gs| - 1;
      ShareBefore(gs, job, x);
      AllCarry(gs[..n], job, x);
      GroupCarries(gs[n], job, x);
      ChainsCarryConcat(AllChains(gs[..n], job), GroupChains(gs[n], job), x);
    }
  }

  /** The matrix, for any groups without a common member: between any two nodes, for every channel in which the
      second follows the first, one part per step (or one token byte per step if the pair is left out); between
      others nothing. */
  lemma RingProgramCarries(gs: seq<seq<nat>>, job: Job, x: Pair)
    requires GroupsOk(gs, job.sites) && Apart(gs)
    ensures C.Carried(RingProgram(gs, job).flows, x, false) == PairShare(gs, job, x)
  {
    CarriedByChains(AllChains(gs, job), x);
    AllCarry(gs, job, x);
  }

  lemma {:induction false} StrangersFollowNobody(rings: seq<seq<nat>>, g: seq<nat>, w: Sites, x: Pair)
    requires AllThrough(rings, g, w) && x.dst !in g
    ensures FollowCount(rings, x) == 0
  {
    if rings != [] {
      var ring := rings[|rings| - 1];
      assert RingThrough(ring, g);
      assert !Follows(ring, x);
      StrangersFollowNobody(rings[..|rings| - 1], g, w, x);
    }
  }

  /** Nothing goes to a node outside the sender's group. */
  lemma StrangersShareNothing(gs: seq<seq<nat>>, job: Job, x: Pair)
    requires GroupsOk(gs, job.sites) && GroupWith(gs, x.src) < |gs| && x.dst !in gs[GroupWith(gs, x.src)]
    ensures PairShare(gs, job, x) == 0
  {
    var g := gs[GroupWith(gs, x.src)];
    InGroup(gs, job.sites, GroupWith(gs, x.src));
    ThroughGroup(g, job.sites, job.channels);
    StrangersFollowNobody(ChannelRings(ByServer(g, job.sites), job.channels), g, job.sites, x);
  }

  // ---------------------------------------------------------------- rings of servers

  /** Does the second node stand at the same place of its server as the first, on the next server? */
  predicate Crosses(rows: seq<seq<nat>>, s: nat, x: Pair)
    requires s < |rows|
  {
    var next := rows[Rem(s + 1, |rows|)];
    exists l :: 0 <= l < |rows[s]| && l < |next| && rows[s][l] == x.src && next[l] == x.dst
  }

  predicate CrossesFrom(rows: seq<seq<nat>>, i: nat, x: Pair) { exists s :: i <= s < |rows| && Crosses(rows, s, x) }

  lemma StripeCarries(rows: seq<seq<nat>>, s: nat, size: nat, x: Pair)
    requires s < |rows| && Distinct(rows[s])
    ensures Between(Stripe(rows, s, size), x, false) == if Crosses(rows, s, x) then size else 0
  {
    var stripe, next := Stripe(rows, s, size), rows[Rem(s + 1, |rows|)];
    if Crosses(rows, s, x) {
      var l :| 0 <= l < |rows[s]| && l < |next| && rows[s][l] == x.src && next[l] == x.dst;
      forall i | 0 <= i < |stripe| ensures Joins(stripe[i], x) <==> i == l {
        assert rows[s][i] == rows[s][l] <==> i == l;
      }
      JoinedByOne(stripe, l, x);
    } else {
      forall i | 0 <= i < |stripe| ensures !Joins(stripe[i], x) { assert stripe[i].dst == next[i]; }
      JoinedByNone(stripe, x);
    }
  }

  lemma SourceIn(rows: seq<seq<nat>>, s: nat, x: Pair)
    requires s < |rows| && Crosses(rows, s, x)
    ensures x.src in rows[s] && x.dst in rows[Rem(s + 1, |rows|)]
  {
  }

  lemma CrossesOnce(rows: seq<seq<nat>>, i: nat, x: Pair)
    requires Apart(rows) && i < |rows|
    ensures CrossesFrom(rows, i, x) <==> Crosses(rows, i, x) || CrossesFrom(rows, i + 1, x)
    ensures Crosses(rows, i, x) ==> !CrossesFrom(rows, i + 1, x)
  {
    forall s | i + 1 <= s < |rows| && Crosses(rows, i, x) ensures !Crosses(rows, s, x) { SourceIn(rows, i, x); }
  }

  lemma {:induction false} ServerStepCarries(rows: seq<seq<nat>>, i: nat, size: nat, x: Pair)
    requires Apart(rows) && i <= |rows|
    ensures Between(ServerRingStep(rows, i, size), x, false) == if CrossesFrom(rows, i, x) then size else 0
    decreases |rows| - i
  {
    if i < |rows| {
      CrossesOnce(rows, i, x);
      StripeCarries(rows, i, size, x);
      ServerStepCarries(rows, i + 1, size, x);
      BetweenConcat(Stripe(rows, i, size), ServerRingStep(rows, i + 1, size), x, false);
    }
  }

  /** What a group owes to a pair of nodes: the tensor once per step if the second is the first's counterpart on the
      next server; on a single server, if it follows it in the ring of members. */
  ghost function ServerShare(g: seq<nat>, w: Sites, size: nat, x: Pair): nat
    requires GroupOk(g, w)
  {
    var rows := ByServer(g, w);
    if |g| <= 1 then 0
    else if |rows| > 1 then Product(|rows| - 1, if CrossesFrom(rows, 0, x) then size else 0)
    else Product(|g| - 1, if Follows(Flat(rows), x) then EdgeBytes(w, x, size) else 0)
  }

  lemma ServerChainCarries(g: seq<nat>, w: Sites, size: nat, x: Pair)
    requires GroupOk(g, w)
    ensures Between(Flat(ServerChain(g, w, size)), x, false) == ServerShare(g, w, size, x)
  {
    var rows := ByServer(g, w);
    if |g| > 1 {
      if |rows| > 1 {
        RowsApart(g, w);
        ServerStepCarries(rows, 0, size, x);
        RepeatCarries(ServerRingStep(rows, 0, size), |rows| - 1, x);
      } else {
        BaseRing(g, w);
        RingIsPlaced(Flat(rows), g, w);
        StepCarries(Flat(rows), size, w, x);
        RepeatCarries(RingStep(Flat(rows), size, w), |g| - 1, x);
      }
    }
  }

  lemma CrossingIsInside(rows: seq<seq<nat>>, x: Pair)
    requires CrossesFrom(rows, 0, x)
    ensures x.src in Flat(rows) && x.dst in Flat(rows)
  {
    var s :| 0 <= s < |rows| && Crosses(rows, s, x);
    SourceIn(rows, s, x);
    FlatHas(rows, x.src);
    FlatHas(rows, x.dst);
  }

  lemma FollowingIsInside(ring: seq<nat>, x: Pair)
    requires Follows(ring, x)
    ensures x.src in ring && x.dst in ring
  {
  }

  /** Both ends of an edge are members. */
  lemma EdgeIsInside(g: seq<nat>, w: Sites, size: nat, x: Pair)
    requires GroupOk(g, w) && ServerShare(g, w, size, x) > 0
    ensures x.src in g && x.dst in g
  {
    var rows := ByServer(g, w);
    if CrossesFrom(rows, 0, x) { CrossingIsInside(rows, x); } else { FollowingIsInside(Flat(rows), x); }
    BaseHas(g, w, x.src);
    BaseHas(g, w, x.dst);
  }

  ghost function PairServerShare(gs: seq<seq<nat>>, w: Sites, size: nat, x: Pair): nat
    requires GroupsOk(gs, w)
  {
    var c := GroupWith(gs, x.src);
    if c < |gs| then InGroup(gs, w, c); ServerShare(gs[c], w, size, x) else 0
  }

  lemma ServerShareBefore(gs: seq<seq<nat>>, w: Sites, size: nat, x: Pair)
    requires GroupsOk(gs, w) && Apart(gs) && gs != []
    ensures GroupOk(gs[|gs| - 1], w)
    ensures PairServerShare(gs, w, size, x)
         == PairServerShare(gs[..|gs| - 1], w, size, x) + ServerShare(gs[|gs| - 1], w, size, x)
  {
    InGroup(gs, w, |gs| - 1);
    GroupIsUnique(gs, x.src, |gs| - 1);
    GroupBefore(gs, x.src);
    if ServerShare(gs[|gs| - 1], w, size, x) > 0 { EdgeIsInside(gs[|gs| - 1], w, size, x); }
  }

  /** The matrix of rings of servers, for any groups without a common member. */
  lemma {:induction false} ServerProgramCarries(gs: seq<seq<nat>>, w: Sites, size: nat, x: Pair)
    requires GroupsOk(gs, w) && Apart(gs)
    ensures C.Carried(Compile(ServerChains(gs, w, size)).flows, x, false) == PairServerShare(gs, w, size, x)
  {
    CarriedByChains(ServerChains(gs, w, size), x);
    ServerChainsCarry(gs, w, size, x);
  }

  lemma {:induction false} ServerChainsCarry(gs: seq<seq<nat>>, w: Sites, size: nat, x: Pair)
    requires GroupsOk(gs, w) && Apart(gs)
    ensures ChainsCarry(ServerChains(gs, w, size), x) == PairServerShare(gs, w, size, x)
  {
    if gs != [] {
      ServerShareBefore(gs, w, size, x);
      ServerChainsCarry(gs[..|gs| - 1], w, size, x);
      ServerChainCarries(gs[|gs| - 1], w, size, x);
    }
  }

  lemma StrangersGetNothing(gs: seq<seq<nat>>, w: Sites, size: nat, x: Pair)
    requires GroupsOk(gs, w) && GroupWith(gs, x.src) < |gs| && x.dst !in gs[GroupWith(gs, x.src)]
    ensures PairServerShare(gs, w, size, x) == 0
  {
    var g := gs[GroupWith(gs, x.src)];
    InGroup(gs, w, GroupWith(gs, x.src));
    if ServerShare(g, w, size, x) > 0 { EdgeIsInside(g, w, size, x); }
  }
}
