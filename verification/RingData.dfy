/** What the steps of a ring collective achieve (htsim_runner.py:483-506, 817-912). The generator emits only sizes and
    barriers; here the flows carry the parts a ring collective sends in them: in step `s` a member passes on the part
    whose number is its own place less `s`. */
module RingData {
  import opened AllToAll
  import opened Counting
  import opened Options
  import opened Rings
  import opened Schedules
  import opened Sequences
  import opened Servers
  import opened Transfers

  // ---------------------------------------------------------------- places on a ring

  function Pred(i: nat, n: nat): (j: nat)
    requires i < n
    ensures j < n
  {
    if i == 0 then n - 1 else i - 1
  }

  /** How many places `i` lies after `p`. */
  function Dist(i: nat, p: nat, n: nat): (d: nat)
    requires i < n && p < n
    ensures d < n
  {
    if i >= p then i - p else i + n - p
  }

  /** The part that the member at place `i` passes on in step `s`. */
  function PartSent(i: nat, s: nat, n: nat): (p: nat)
    requires 0 < n
    ensures p < n
  {
    Rem(i - s, n)
  }

  lemma RemIs(a: int, n: nat)
    requires 0 < n && 0 <= a + n && a < n
    ensures Rem(a, n) == if a < 0 then a + n else a
  {
    if a < 0 { DivModUnique(-1, a + n, n); } else { DivModUnique(0, a, n); }
  }

  lemma SentIff(i: nat, s: nat, p: nat, n: nat)
    requires i < n && p < n && s < 2 * n
    ensures PartSent(i, s, n) == p <==> Dist(i, p, n) == if s < n then s else s - n
  {
    var e := if s < n then s else s - n;
    if s >= n { ModShift(i - s, 1, n); }
    RemIs(i - e, n);
  }

  lemma PredIs(i: nat, n: nat)
    requires i < n
    ensures Rem(i - 1, n) == Pred(i, n)
  {
    RemIs(i - 1, n);
  }

  // ---------------------------------------------------------------- what the flows of a chain carry

  ghost function Place(ring: seq<nat>, y: nat): (i: nat)
    requires y in ring
    ensures i < |ring| && ring[i] == y
  {
    var i :| 0 <= i < |ring| && ring[i] == y;
    i
  }

  /** The node that `x` hears from in a step. */
  function HeardFrom(step: seq<Xfer>, x: nat): Option<nat>
  {
    if step == [] then None else if step[0].dst == x then Some(step[0].src) else HeardFrom(step[1..], x)
  }

  lemma {:induction false} HeardFromOne(step: seq<Xfer>, k: nat)
    requires k < |step| && forall i :: 0 <= i < |step| ==> (step[i].dst == step[k].dst <==> i == k)
    ensures HeardFrom(step, step[k].dst) == Some(step[k].src)
  {
    if k > 0 {
      assert step[0].dst != step[k].dst;
      assert forall i :: 0 <= i < |step[1..]| ==> step[1..][i] == step[i + 1];
      HeardFromOne(step[1..], k - 1);
    }
  }

  lemma HearsPredecessor(ring: seq<nat>, size: nat, w: Sites, i: nat)
    requires Placed(ring, w) && Distinct(ring) && i < |ring|
    ensures HeardFrom(RingStep(ring, size, w), ring[i]) == Some(ring[Pred(i, |ring|)])
  {
    PredIs(i, |ring|);
    RingStepBalanced(ring, size, w, i);
    var step, k := RingStep(ring, size, w), Pred(i, |ring|);
    assert step[k].dst == ring[i];
    HeardFromOne(step, k);
  }

  /** Does `y` pass on part `p` in step `s`? */
  ghost predicate Passes(ring: seq<nat>, s: nat, y: nat, p: nat)
  {
    y in ring && PartSent(Place(ring, y), s, |ring|) == p
  }

  /** Whose contributions to part `p` node `x` has summed up after `s` steps. In the first n - 1 steps what arrives is
      added to what is there, after that it replaces it. */
  ghost function Summed(chain: seq<seq<Xfer>>, ring: seq<nat>, s: nat, x: nat, p: nat): multiset<nat>
    requires s <= |chain|
  {
    if s == 0 then multiset{x}
    else
      var mine := Summed(chain, ring, s - 1, x, p);
      match HeardFrom(chain[s - 1], x)
      case None => mine
      case Some(y) =>
        if !Passes(ring, s - 1, y, p) then mine
        else if s < |ring| then mine + Summed(chain, ring, s - 1, y, p)
        else Summed(chain, ring, s - 1, y, p)
  }

  /** Whose blocks node `x` has after `s` steps of an all-gather: a block arrives if the sender has it. */
  ghost function Gathered(chain: seq<seq<Xfer>>, ring: seq<nat>, s: nat, x: nat): set<nat>
    requires s <= |chain|
  {
    if s == 0 then {x}
    else
      var mine := Gathered(chain, ring, s - 1, x);
      match HeardFrom(chain[s - 1], x)
      case None => mine
      case Some(y) =>
        mine + set z | z in Gathered(chain, ring, s - 1, y) && z in ring && Passes(ring, s - 1, y, Place(ring, z))
  }

  /** A chain of ring steps. */
  ghost predicate IsRing(chain: seq<seq<Xfer>>, ring: seq<nat>, size: nat, w: Sites)
  {
    Placed(ring, w) && Distinct(ring) && forall s :: 0 <= s < |chain| ==> chain[s] == RingStep(ring, size, w)
  }

  lemma PlaceIs(ring: seq<nat>, i: nat)
    requires Distinct(ring) && i < |ring|
    ensures Place(ring, ring[i]) == i
  {
  }

  // ---------------------------------------------------------------- reduce-scatter

  /** The contributions of place `i` and the `d` places before it. */
  ghost function Arc(ring: seq<nat>, i: nat, d: nat): multiset<nat>
    requires i < |ring|
    decreases d
  {
    if d == 0 then multiset{ring[i]} else multiset{ring[i]} + Arc(ring, Pred(i, |ring|), d - 1)
  }

  lemma SummedStep(chain: seq<seq<Xfer>>, ring: seq<nat>, size: nat, w: Sites, s: nat, i: nat, p: nat)
    requires IsRing(chain, ring, size, w) && 0 < s <= |chain| && i < |ring| && p < |ring| && s <= 2 * |ring|
    ensures var n := |ring|; var y := ring[Pred(i, n)]; var mine := Summed(chain, ring, s - 1, ring[i], p);
      Summed(chain, ring, s, ring[i], p)
        == if Dist(Pred(i, n), p, n) != (if s - 1 < n then s - 1 else s - 1 - n) then mine
           else if s < n then mine + Summed(chain, ring, s - 1, y, p)
           else Summed(chain, ring, s - 1, y, p)
  {
    var n := |ring|;
    HearsPredecessor(ring, size, w, i);
    PlaceIs(ring, Pred(i, n));
    SentIff(Pred(i, n), s - 1, p, n);
  }

  lemma DistPred(i: nat, p: nat, n: nat)
    requires i < n && p < n
    ensures Dist(Pred(i, n), p, n) == if Dist(i, p, n) == 0 then n - 1 else Dist(i, p, n) - 1
  {
  }

  /** In the first n - 1 steps a member hears part `p` in the step given by its distance from place `p`. */
  lemma SummedHop(chain: seq<seq<Xfer>>, ring: seq<nat>, size: nat, w: Sites, s: nat, i: nat, p: nat)
    requires IsRing(chain, ring, size, w) && 0 < s <= |chain| && s < |ring| && i < |ring| && p < |ring|
    ensures var mine := Summed(chain, ring, s - 1, ring[i], p);
      Summed(chain, ring, s, ring[i], p)
        == if Dist(i, p, |ring|) == s then mine + Summed(chain, ring, s - 1, ring[Pred(i, |ring|)], p) else mine
  {
    DistPred(i, p, |ring|);
    SummedStep(chain, ring, size, w, s, i, p);
  }

  function Reached(i: nat, p: nat, n: nat, s: nat): nat
    requires i < n && p < n
  {
    if Dist(i, p, n) <= s then Dist(i, p, n) else 0
  }

  lemma ArcStep(ring: seq<nat>, i: nat, d: nat)
    requires i < |ring| && 0 < d
    ensures Arc(ring, i, 0) + Arc(ring, Pred(i, |ring|), d - 1) == Arc(ring, i, d)
  {
  }

  lemma ReduceHop(chain: seq<seq<Xfer>>, ring: seq<nat>, size: nat, w: Sites, s: nat, i: nat, p: nat)
    requires IsRing(chain, ring, size, w) && 0 < s <= |chain| && s < |ring| && i < |ring| && p < |ring|
    requires Dist(i, p, |ring|) == s && Summed(chain, ring, s - 1, ring[i], p) == Arc(ring, i, 0)
    requires Summed(chain, ring, s - 1, ring[Pred(i, |ring|)], p) == Arc(ring, Pred(i, |ring|), s - 1)
    ensures Summed(chain, ring, s, ring[i], p) == Arc(ring, i, s)
  {
    SummedHop(chain, ring, size, w, s, i, p);
    ArcStep(ring, i, s);
  }

  lemma ReduceKept(chain: seq<seq<Xfer>>, ring: seq<nat>, size: nat, w: Sites, s: nat, i: nat, p: nat)
    requires IsRing(chain, ring, size, w) && 0 < s <= |chain| && s < |ring| && i < |ring| && p < |ring|
    requires Dist(i, p, |ring|) != s
    ensures Summed(chain, ring, s, ring[i], p) == Summed(chain, ring, s - 1, ring[i], p)
  {
    SummedHop(chain, ring, size, w, s, i, p);
  }

  /** The first n - 1 steps: the sum of part `p` grows by one contribution at every place it passes. */
  lemma {:induction false} ReducePhase(chain: seq<seq<Xfer>>, ring: seq<nat>, size: nat, w: Sites, s: nat, i: nat,
                                       p: nat)
    requires IsRing(chain, ring, size, w) && s <= |chain| && s < |ring| && i < |ring| && p < |ring|
    ensures Summed(chain, ring, s, ring[i], p) == Arc(ring, i, Reached(i, p, |ring|, s))
    decreases s
  {
    if s == 0 {
      SummedFirst(chain, ring, i, p);
    } else {
      ReducePhase(chain, ring, size, w, s - 1, i, p);
      if Dist(i, p, |ring|) == s {
        DistPred(i, p, |ring|);
        ReducePhase(chain, ring, size, w, s - 1, Pred(i, |ring|), p);
        ReduceHop(chain, ring, size, w, s, i, p);
      } else {
        ReduceKept(chain, ring, size, w, s, i, p);
      }
    }
  }

  lemma SummedFirst(chain: seq<seq<Xfer>>, ring: seq<nat>, i: nat, p: nat)
    requires i < |ring|
    ensures Summed(chain, ring, 0, ring[i], p) == Arc(ring, i, 0)
  {
  }

  lemma SliceGrows(ring: seq<nat>, a: nat, i: nat)
    requires a <= i < |ring|
    ensures multiset(ring[a..i + 1]) == multiset(ring[a..i]) + multiset{ring[i]}
  {
    assert ring[a..i + 1] == ring[a..i] + [ring[i]];
  }

  lemma {:induction false} ArcWithin(ring: seq<nat>, i: nat, d: nat)
    requires d <= i < |ring|
    ensures Arc(ring, i, d) == multiset(ring[i - d..i + 1])
    decreases d
  {
    SliceGrows(ring, i - d, i);
    if d > 0 {
      ArcWithin(ring, i - 1, d - 1);
      assert ring[i - 1 - (d - 1)..i - 1 + 1] == ring[i - d..i];
    }
  }

  lemma ArcFromFirst(ring: seq<nat>, k: nat)
    requires 0 < k < |ring|
    ensures Arc(ring, 0, k) == multiset(ring[0..1]) + multiset(ring[|ring| - k..])
  {
    ArcWithin(ring, |ring| - 1, k - 1);
    assert ring[|ring| - k..|ring|] == ring[|ring| - k..] && ring[0..1] == [ring[0]];
  }

  lemma ArcLonger(ring: seq<nat>, i: nat, d: nat, back: multiset<nat>)
    requires 0 < i < |ring| && 0 < d && Arc(ring, i - 1, d - 1) == multiset(ring[0..i]) + back
    ensures Arc(ring, i, d) == multiset(ring[0..i + 1]) + back
  {
    SliceGrows(ring, 0, i);
  }

  lemma {:induction false} ArcAround(ring: seq<nat>, i: nat, k: nat)
    requires 0 < k && i + k < |ring|
    ensures Arc(ring, i, i + k) == multiset(ring[0..i + 1]) + multiset(ring[|ring| - k..])
    decreases i
  {
    if i == 0 {
      ArcFromFirst(ring, k);
    } else {
      ArcAround(ring, i - 1, k);
      var back := multiset(ring[|ring| - k..]);
      assert Arc(ring, i - 1, i + k - 1) == multiset(ring[0..i]) + back;
      ArcLonger(ring, i, i + k, back);
    }
  }

  /** All the way round is everybody, once. */
  lemma ArcIsAll(ring: seq<nat>, i: nat)
    requires i < |ring|
    ensures Arc(ring, i, |ring| - 1) == multiset(ring)
  {
    var n := |ring|;
    if i == n - 1 {
      ArcWithin(ring, i, n - 1);
      assert ring[0..n] == ring;
    } else {
      ArcAround(ring, i, n - 1 - i);
      assert ring == ring[0..i + 1] + ring[i + 1..];
    }
  }

  /** Reduce-scatter: after n - 1 steps every member has the sum of all contributions to the part after its own
      place. */
  lemma ReduceScatterCompletes(chain: seq<seq<Xfer>>, ring: seq<nat>, size: nat, w: Sites, i: nat)
    requires IsRing(chain, ring, size, w) && |chain| == |ring| - 1 && i < |ring|
    ensures Summed(chain, ring, |chain|, ring[i], Rem(i + 1, |ring|)) == multiset(ring)
  {
    var n := |ring|;
    NextPlace(i, n);
    ReducePhase(chain, ring, size, w, n - 1, i, Rem(i + 1, n));
    ArcIsAll(ring, i);
  }

  lemma NextPlace(i: nat, n: nat)
    requires i < n
    ensures Dist(i, Rem(i + 1, n), n) == n - 1
  {
    RemIs(i + 1 - n, n);
    ModShift(i + 1 - n, 1, n);
  }

  // ---------------------------------------------------------------- all-reduce

  lemma HopIff(i: nat, p: nat, n: nat, u: nat)
    requires i < n && p < n && 0 < u < n
    ensures var s := n - 2 + u;
      Dist(Pred(i, n), p, n) == (if s < n then s else s - n) <==> Dist(i, p, n) == u - 1
  {
    DistPred(i, p, n);
  }

  /** In the later steps a finished sum replaces what the next member has. */
  lemma GatherHop(chain: seq<seq<Xfer>>, ring: seq<nat>, size: nat, w: Sites, u: nat, i: nat, p: nat)
    requires IsRing(chain, ring, size, w) && 0 < u < |ring| && |ring| - 1 + u <= |chain| && i < |ring| && p < |ring|
    ensures var s := |ring| - 1 + u;
      Summed(chain, ring, s, ring[i], p)
        == Summed(chain, ring, s - 1, ring[if Dist(i, p, |ring|) == u - 1 then Pred(i, |ring|) else i], p)
  {
    HopIff(i, p, |ring|, u);
    SummedStep(chain, ring, size, w, |ring| - 1 + u, i, p);
  }

  /** After `u` more steps the finished sums have been passed on `u` places. */
  lemma {:induction false} GatherPhase(chain: seq<seq<Xfer>>, ring: seq<nat>, size: nat, w: Sites, u: nat, i: nat,
                                       p: nat)
    requires IsRing(chain, ring, size, w) && u < |ring| && |ring| - 1 + u <= |chain| && i < |ring| && p < |ring|
    requires Dist(i, p, |ring|) == |ring| - 1 || Dist(i, p, |ring|) < u
    ensures Summed(chain, ring, |ring| - 1 + u, ring[i], p) == multiset(ring)
    decreases u
  {
    if u == 0 {
      ReducePhase(chain, ring, size, w, |ring| - 1, i, p);
      ArcIsAll(ring, i);
    } else {
      GatherHop(chain, ring, size, w, u, i, p);
      DistPred(i, p, |ring|);
      GatherPhase(chain, ring, size, w, u - 1, if Dist(i, p, |ring|) == u - 1 then Pred(i, |ring|) else i, p);
    }
  }

  /** All-reduce: after 2(n - 1) steps every member has the sum of all contributions to every part. */
  lemma AllReduceCompletes(chain: seq<seq<Xfer>>, ring: seq<nat>, size: nat, w: Sites, i: nat, p: nat)
    requires IsRing(chain, ring, size, w) && |chain| == 2 * (|ring| - 1) && i < |ring| && p < |ring|
    ensures Summed(chain, ring, |chain|, ring[i], p) == multiset(ring)
  {
    GatherPhase(chain, ring, size, w, |ring| - 1, i, p);
  }

  // ---------------------------------------------------------------- all-gather

  /** After `s` steps a member has the blocks of the `s` members before it. */
  lemma {:induction false} GatherStep(chain: seq<seq<Xfer>>, ring: seq<nat>, size: nat, w: Sites, s: nat, i: nat,
                                      j: nat)
    requires IsRing(chain, ring, size, w) && s <= |chain| && s < |ring| && i < |ring| && j < |ring|
    requires Dist(i, j, |ring|) <= s
    ensures ring[j] in Gathered(chain, ring, s, ring[i])
    decreases s
  {
    var n := |ring|;
    if s > 0 {
      HearsPredecessor(ring, size, w, i);
      if Dist(i, j, n) < s {
        GatherStep(chain, ring, size, w, s - 1, i, j);
      } else {
        GatherStep(chain, ring, size, w, s - 1, Pred(i, n), j);
        PlaceIs(ring, Pred(i, n));
        PlaceIs(ring, j);
        SentIff(Pred(i, n), s - 1, j, n);
      }
    }
  }

  /** All-gather: after n - 1 steps every member has every block. */
  lemma AllGatherCompletes(chain: seq<seq<Xfer>>, ring: seq<nat>, size: nat, w: Sites, i: nat)
    requires IsRing(chain, ring, size, w) && |chain| == |ring| - 1 && i < |ring|
    ensures forall z :: z in ring ==> z in Gathered(chain, ring, |chain|, ring[i])
  {
    forall z | z in ring ensures z in Gathered(chain, ring, |chain|, ring[i]) {
      var j :| 0 <= j < |ring| && ring[j] == z;
      GatherStep(chain, ring, size, w, |ring| - 1, i, j);
    }
  }

  // ---------------------------------------------------------------- the emitted program

  lemma ChannelIsRing(gs: seq<seq<nat>>, job: Job, c: nat, ch: nat)
    requires GroupsOk(gs, job.sites) && c < |gs| && |gs[c]| > 1 && ch < job.channels
    ensures GroupOk(gs[c], job.sites) && ch < |ChannelRings(ByServer(gs[c], job.sites), job.channels)|
    ensures ChainOf(gs, job, c, ch) < |AllChains(gs, job)|
    ensures var ring := ChannelRings(ByServer(gs[c], job.sites), job.channels)[ch];
      var chain := AllChains(gs, job)[ChainOf(gs, job, c, ch)];
      && RingThrough(ring, gs[c]) && IsRing(chain, ring, job.Part(|gs[c]|), job.sites)
      && |chain| == job.Steps(|gs[c]|)
  {
    InGroup(gs, job.sites, c);
    ChannelChain(gs[c], job, ch);
    ChainStands(gs, job, c, ch);
    ChannelRingsAreRings(gs[c], job.sites, job.channels, ch);
    RingsPlaced(gs[c], job.sites, job.channels);
  }

  lemma {:induction false} OnceEach(s: seq<nat>, x: nat)
    requires Distinct(s)
    ensures multiset(s)[x] == if x in s then 1 else 0
  {
    if s != [] {
      var n := |s| - 1;
      assert s == s[..n] + [s[n]] && Distinct(s[..n]);
      OnceEach(s[..n], x);
    }
  }

  lemma SameMembers(ring: seq<nat>, g: seq<nat>)
    requires RingThrough(ring, g) && Distinct(g)
    ensures multiset(ring) == multiset(g)
  {
    forall x ensures multiset(ring)[x] == multiset(g)[x] {
      OnceEach(ring, x);
      OnceEach(g, x);
    }
  }

  /** Every channel of every group does its collective: in the program for an all-reduce, each member ends with the sum
      of all contributions to every part; in the one for an all-gather or reduce-scatter, with every block, or with
      the sum for the part after its own place. */
  lemma CollectiveCompletes(gs: seq<seq<nat>>, job: Job, c: nat, ch: nat, i: nat, p: nat)
    requires GroupsOk(gs, job.sites) && c < |gs| && |gs[c]| > 1 && ch < job.channels && i < |gs[c]| && p < |gs[c]|
    ensures GroupOk(gs[c], job.sites) && ch < |ChannelRings(ByServer(gs[c], job.sites), job.channels)|
    ensures ChainOf(gs, job, c, ch) < |AllChains(gs, job)|
    ensures var ring := ChannelRings(ByServer(gs[c], job.sites), job.channels)[ch];
      var chain := AllChains(gs, job)[ChainOf(gs, job, c, ch)];
      && RingThrough(ring, gs[c])
      && (job.reduce ==> Summed(chain, ring, |chain|, ring[i], p) == multiset(gs[c]))
      && (!job.reduce ==> Summed(chain, ring, |chain|, ring[i], Rem(i + 1, |ring|)) == multiset(gs[c]))
      && (!job.reduce ==> forall z :: z in gs[c] ==> z in Gathered(chain, ring, |chain|, ring[i]))
  {
    ChannelIsRing(gs, job, c, ch);
    var ring := ChannelRings(ByServer(gs[c], job.sites), job.channels)[ch];
    var chain, size := AllChains(gs, job)[ChainOf(gs, job, c, ch)], job.Part(|gs[c]|);
    SameMembers(ring, gs[c]);
    if job.reduce {
      AllReduceCompletes(chain, ring, size, job.sites, i, p);
    } else {
      ReduceScatterCompletes(chain, ring, size, job.sites, i);
      AllGatherCompletes(chain, ring, size, job.sites, i);
    }
  }
}
