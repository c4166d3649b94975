/** No schedule on a ring is shorter than the emitted ones (htsim_runner.py:817-912). A schedule says which part each
    member passes on to its successor in each step; whatever it says, an all-reduce takes 2(n - 1) steps, an
    all-gather and a reduce-scatter n - 1. */
module RingBound {
  import opened Counting
  import opened RingData
  import R = Rings

  /** `plan(s, i)`: the part that place `i` passes on in step `s`. */
  type Plan = (nat, nat) -> nat

  function Next(i: nat, n: nat): (j: nat)
    requires i < n
    ensures j < n && Pred(j, n) == i
  {
    if i + 1 == n then 0 else i + 1
  }

  // ---------------------------------------------------------------- what can be known

  /** Whose contributions to part `p` place `i` can have after `t` steps, if nothing is ever lost. */
  function Knows(n: nat, plan: Plan, t: nat, i: nat, p: nat): set<nat>
    requires i < n
  {
    if t == 0 then {i}
    else
      var mine := Knows(n, plan, t - 1, i, p);
      if plan(t - 1, Pred(i, n)) == p then mine + Knows(n, plan, t - 1, Pred(i, n), p) else mine
  }

  /** Everybody has everybody's contribution to every part. */
  ghost predicate AllReduced(n: nat, plan: Plan, t: nat)
  {
    forall i: nat, p: nat :: i < n && p < n ==> Below(n) <= Knows(n, plan, t, i, p)
  }

  /** Whose blocks place `i` can have after `t` steps of passing one block on in each. */
  function Blocks(n: nat, plan: Plan, t: nat, i: nat): set<nat>
    requires i < n
  {
    if t == 0 then {i}
    else
      var mine, b := Blocks(n, plan, t - 1, i), plan(t - 1, Pred(i, n));
      if b in Blocks(n, plan, t - 1, Pred(i, n)) then mine + {b} else mine
  }

  // ---------------------------------------------------------------- all-gather and reduce-scatter

  lemma {:induction false} OneBlockAStep(n: nat, plan: Plan, t: nat, i: nat)
    requires i < n
    ensures |Blocks(n, plan, t, i)| <= t + 1
    decreases t
  {
    if t > 0 { OneBlockAStep(n, plan, t - 1, i); }
  }

  /** Nothing travels more than one place a step. */
  lemma {:induction false} KnownIsNear(n: nat, plan: Plan, t: nat, i: nat, p: nat, j: nat)
    requires i < n && j < n && j in Knows(n, plan, t, i, p)
    ensures Dist(i, j, n) <= t
    decreases t
  {
    if t > 0 {
      if j in Knows(n, plan, t - 1, i, p) {
        KnownIsNear(n, plan, t - 1, i, p, j);
      } else {
        KnownIsNear(n, plan, t - 1, Pred(i, n), p, j);
      }
    }
  }

  lemma GatherNeeds(n: nat, plan: Plan, t: nat, i: nat)
    requires i < n && Below(n) <= Blocks(n, plan, t, i)
    ensures t + 1 >= n
  {
    OneBlockAStep(n, plan, t, i);
    SubsetSize(Below(n), Blocks(n, plan, t, i));
  }

  lemma ScatterNeeds(n: nat, plan: Plan, t: nat, i: nat, p: nat)
    requires i < n && Below(n) <= Knows(n, plan, t, i, p)
    ensures t + 1 >= n
  {
    KnownIsNear(n, plan, t, i, p, Next(i, n));
  }

  // ---------------------------------------------------------------- one part, passed on one member at a time

  /** The part's state when its passes are taken one after the other: what each place has, who has passed it on, and
      how often it was passed on. */
  datatype Gossip = Gossip(knows: seq<set<nat>>, sent: set<nat>, used: nat)

  function Pass(g: Gossip, i: nat): Gossip
    requires i < |g.knows|
  {
    var j := Next(i, |g.knows|);
    Gossip(g.knows[j := g.knows[j] + g.knows[i]], g.sent + {i}, g.used + 1)
  }

  ghost function Complete(g: Gossip): set<nat> { set i: nat | i < |g.knows| && Below(|g.knows|) <= g.knows[i] }

  ghost predicate Traced(g: Gossip)
  {
    && g.sent <= Below(|g.knows|)
    && (forall i: nat :: i < |g.knows| ==> i in g.knows[i])
    && (forall i: nat, j: nat :: i < |g.knows| && j in g.knows[i] && j != i ==> j in g.sent)
  }

  /** Until somebody has everything, a pass can at best make one more member a sender; after that, one more member
      complete. Only the first complete member can still be new as a sender. */
  ghost predicate Paid(g: Gossip)
  {
    if Complete(g) == {} then g.used >= |g.sent|
    else g.used + (if |g.sent| == |g.knows| then 2 else 1) >= |g.sent| + |Complete(g)|
  }

  lemma CompleteSent(g: Gossip, i: nat)
    requires Traced(g) && i in Complete(g)
    ensures |g.sent| + 1 >= |g.knows| && |g.sent| <= |g.knows|
  {
    var n := |g.knows|;
    forall j | j in Below(n) - {i} ensures j in g.sent { assert j in g.knows[i]; }
    SubsetSize(Below(n) - {i}, g.sent);
    SubsetSize(g.sent, Below(n));
  }

  lemma PassTraced(g: Gossip, i: nat)
    requires Traced(g) && i < |g.knows|
    ensures Traced(Pass(g, i))
  {
  }

  lemma PassCompletes(g: Gossip, i: nat)
    requires i < |g.knows|
    ensures Complete(g) <= Complete(Pass(g, i)) <= Complete(g) + {Next(i, |g.knows|)}
    ensures |Complete(g)| <= |Complete(Pass(g, i))| <= |Complete(g)| + 1
  {
    SubsetSize(Complete(g), Complete(Pass(g, i)));
    SubsetSize(Complete(Pass(g, i)), Complete(g) + {Next(i, |g.knows|)});
  }

  lemma PassPaid(g: Gossip, i: nat)
    requires Traced(g) && Paid(g) && i < |g.knows|
    ensures Paid(Pass(g, i))
  {
    var h := Pass(g, i);
    PassTraced(g, i);
    PassCompletes(g, i);
    if k :| k in Complete(g) { CompleteSent(g, k); }
    if k :| k in Complete(h) { CompleteSent(h, k); }
  }

  // ---------------------------------------------------------------- a step, its passes one after the other

  /** The passes of part `p` that the first `k` places make in step `s`. */
  function Round(n: nat, plan: Plan, s: nat, p: nat, g: Gossip, k: nat): (h: Gossip)
    requires k <= n == |g.knows|
    ensures |h.knows| == n
  {
    if k == 0 then g
    else
      var h := Round(n, plan, s, p, g, k - 1);
      if plan(s, k - 1) == p then Pass(h, k - 1) else h
  }

  function Begin(n: nat): Gossip { Gossip(seq(n, i => {i}), {}, 0) }

  function Rounds(n: nat, plan: Plan, p: nat, t: nat): (g: Gossip)
    ensures |g.knows| == n
  {
    if t == 0 then Begin(n)
    else Round(n, plan, t - 1, p, Rounds(n, plan, p, t - 1), n)
  }

  ghost predicate Good(g: Gossip) { Traced(g) && Paid(g) }

  lemma PassGood(g: Gossip, i: nat)
    requires Good(g) && i < |g.knows|
    ensures Good(Pass(g, i))
  {
    PassTraced(g, i);
    PassPaid(g, i);
  }

  lemma NextGood(plan: Plan, s: nat, p: nat, h: Gossip, k: nat)
    requires Good(h) && k < |h.knows|
    ensures Good(if plan(s, k) == p then Pass(h, k) else h)
  {
    PassGood(h, k);
  }

  lemma {:induction false} RoundGood(n: nat, plan: Plan, s: nat, p: nat, g: Gossip, k: nat, h: Gossip)
    requires k <= n == |g.knows| && Good(g) && h == Round(n, plan, s, p, g, k)
    ensures Good(h)
    decreases k
  {
    if k > 0 {
      var before := Round(n, plan, s, p, g, k - 1);
      RoundGood(n, plan, s, p, g, k - 1, before);
      NextGood(plan, s, p, before, k - 1);
    }
  }

  lemma BeginGood(n: nat)
    requires 1 < n
    ensures Good(Begin(n))
  {
    var g := Begin(n);
    forall i: nat | i < n ensures i !in Complete(g) {
      assert g.knows[i] == {i};
      assert Next(i, n) in Below(n) && Next(i, n) !in {i};
    }
    assert Complete(g) == {};
  }

  lemma {:induction false} RoundsGood(n: nat, plan: Plan, p: nat, t: nat)
    requires 1 < n
    ensures Good(Rounds(n, plan, p, t))
  {
    if t == 0 {
      BeginGood(n);
    } else {
      RoundsGood(n, plan, p, t - 1);
      RoundGood(n, plan, t - 1, p, Rounds(n, plan, p, t - 1), n, Rounds(n, plan, p, t));
    }
  }

  /** One after the other, everybody learns at least what they learn all at once. */
  lemma {:induction false} RoundCovers(n: nat, plan: Plan, s: nat, p: nat, g: Gossip, k: nat, i: nat)
    requires k <= n == |g.knows| && i < n
    ensures g.knows[i] <= Round(n, plan, s, p, g, k).knows[i]
    ensures Pred(i, n) < k && plan(s, Pred(i, n)) == p ==> g.knows[Pred(i, n)] <= Round(n, plan, s, p, g, k).knows[i]
  {
    if k > 0 {
      RoundCovers(n, plan, s, p, g, k - 1, i);
      if Pred(i, n) == k - 1 { RoundCovers(n, plan, s, p, g, k - 1, k - 1); }
    }
  }

  lemma {:induction false} RoundsCover(n: nat, plan: Plan, p: nat, t: nat, i: nat)
    requires i < n
    ensures Knows(n, plan, t, i, p) <= Rounds(n, plan, p, t).knows[i]
    decreases t
  {
    if t > 0 {
      RoundsCover(n, plan, p, t - 1, i);
      RoundsCover(n, plan, p, t - 1, Pred(i, n));
      RoundCovers(n, plan, t - 1, p, Rounds(n, plan, p, t - 1), n, i);
    }
  }

  /** For everybody to have everybody's contribution to a part, it has to be passed on 2(n - 1) times. */
  lemma PartNeeds(n: nat, plan: Plan, p: nat, t: nat)
    requires 1 < n && forall i: nat :: i < n ==> Below(n) <= Knows(n, plan, t, i, p)
    ensures Rounds(n, plan, p, t).used >= 2 * (n - 1)
  {
    var g := Rounds(n, plan, p, t);
    RoundsGood(n, plan, p, t);
    forall i: nat | i < n ensures i in Complete(g) { RoundsCover(n, plan, p, t, i); }
    EverybodySent(g);
  }

  lemma EverybodySent(g: Gossip)
    requires Good(g) && 1 < |g.knows| && forall i: nat :: i < |g.knows| ==> i in Complete(g)
    ensures g.used >= 2 * (|g.knows| - 1)
  {
    var n := |g.knows|;
    assert Complete(g) == Below(n);
    forall j: nat | j < n ensures j in g.sent { assert Next(j, n) in Complete(g); }
    assert g.sent == Below(n);
  }

  // ---------------------------------------------------------------- all parts together

  /** How many of the first `k` places pass on a part below `q` in step `s`. */
  function Hits(plan: Plan, s: nat, k: nat, q: nat): (h: nat)
    ensures h <= k
  {
    if k == 0 then 0 else Hits(plan, s, k - 1, q) + if plan(s, k - 1) < q then 1 else 0
  }

  lemma {:induction false} HitsGrow(n: nat, plan: Plan, s: nat, p: nat, g: Gossip, k: nat)
    requires k <= n == |g.knows|
    ensures Round(n, plan, s, p, g, k).used - g.used == Hits(plan, s, k, p + 1) - Hits(plan, s, k, p)
  {
    if k > 0 { HitsGrow(n, plan, s, p, g, k - 1); }
  }

  function AllHits(n: nat, plan: Plan, t: nat, q: nat): nat
  {
    if t == 0 then 0 else AllHits(n, plan, t - 1, q) + Hits(plan, t - 1, n, q)
  }

  lemma {:induction false} AllHitsBounded(n: nat, plan: Plan, t: nat, q: nat)
    ensures AllHits(n, plan, t, q) <= t * n
  {
    if t > 0 {
      AllHitsBounded(n, plan, t - 1, q);
      OneMore(t - 1, n);
    }
  }

  lemma {:induction false} AllHitsGrow(n: nat, plan: Plan, t: nat, p: nat)
    ensures AllHits(n, plan, t, p + 1) == AllHits(n, plan, t, p) + Rounds(n, plan, p, t).used
  {
    if t > 0 {
      AllHitsGrow(n, plan, t - 1, p);
      HitsGrow(n, plan, t - 1, p, Rounds(n, plan, p, t - 1), n);
    }
  }

  lemma {:induction false} PartsNeed(n: nat, plan: Plan, t: nat, q: nat)
    requires 1 < n && q <= n && AllReduced(n, plan, t)
    ensures AllHits(n, plan, t, q) >= q * (2 * (n - 1))
    decreases q
  {
    if q > 0 {
      PartsNeed(n, plan, t, q - 1);
      PartNeeds(n, plan, q - 1, t);
      AllHitsGrow(n, plan, t, q - 1);
      OneMore(q - 1, 2 * (n - 1));
    }
  }

  lemma CancelFactor(a: nat, b: nat, n: nat)
    requires 0 < n && n * a <= b * n
    ensures a <= b
  {
    if b < a { MulStep(b, a, n); }
  }

  lemma ReduceNeeds(n: nat, plan: Plan, t: nat)
    requires 1 < n && AllReduced(n, plan, t)
    ensures t >= 2 * (n - 1)
  {
    PartsNeed(n, plan, t, n);
    AllHitsBounded(n, plan, t, n);
    CancelFactor(2 * (n - 1), t, n);
  }

  // ---------------------------------------------------------------- the emitted schedules are shortest

  /** Whatever the schedule, fewer steps than the generator emits do not do: an all-reduce leaves some member without
      somebody's contribution to some part; an all-gather leaves every member without some block; a reduce-scatter
      leaves every member without some contribution to any part. (RingData.CollectiveCompletes: the emitted steps
      do.) */
  lemma StepsAreLeast(job: R.Job, n: nat, plan: Plan, t: nat)
    requires 1 < n && t < job.Steps(n)
    ensures job.reduce ==> !AllReduced(n, plan, t)
    ensures !job.reduce ==> forall i: nat :: i < n ==> !(Below(n) <= Blocks(n, plan, t, i))
    ensures !job.reduce ==> forall i: nat, p: nat :: i < n ==> !(Below(n) <= Knows(n, plan, t, i, p))
  {
    if job.reduce {
      if AllReduced(n, plan, t) { ReduceNeeds(n, plan, t); }
    } else {
      forall i: nat | i < n ensures !(Below(n) <= Blocks(n, plan, t, i)) {
        if Below(n) <= Blocks(n, plan, t, i) { GatherNeeds(n, plan, t, i); }
      }
      forall i: nat, p: nat | i < n ensures !(Below(n) <= Knows(n, plan, t, i, p)) {
        if Below(n) <= Knows(n, plan, t, i, p) { ScatterNeeds(n, plan, t, i, p); }
      }
    }
  }
}
