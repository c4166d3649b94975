/** Which pairs an all-to-all emits, and when: the batched pairwise schedule (htsim_runner.py:754-778) and
    the two-level NCCL schedule (htsim_runner.py:415-428, 715-737). */
module AllToAll {
  import opened Counting
  import opened Sequences
  import opened Transfers

  /** Going `off` places round a ring of `n` from `a` leads to `b` for exactly one `off`. */
  lemma StepTo(a: nat, off: nat, b: nat, n: nat)
    requires a < n && off < n && b < n
    ensures Rem(a + off, n) == b <==> off == Rem(b - a, n)
  {
    if a + off < n { DivModUnique(0, a + off, n); } else { DivModUnique(1, a + off - n, n); }
    if a <= b { DivModUnique(0, b - a, n); } else { DivModUnique(-1, b - a + n, n); }
  }

  // ---------------------------------------------------------------- pairwise steps

  function Range(lo: nat, hi: nat): (r: seq<nat>)
    requires lo <= hi
    ensures |r| == hi - lo && forall i :: 0 <= i < |r| ==> r[i] == lo + i
  {
    seq(hi - lo, i requires 0 <= i => lo + i)
  }

  /** The offsets lo .. n-1 in batches of `k`. */
  function Batches(lo: nat, n: nat, k: nat): seq<seq<nat>>
    requires 0 < k
    decreases n - lo
  {
    if n <= lo then [] else [Range(lo, if lo + k < n then lo + k else n)] + Batches(lo + k, n, k)
  }

  /** Who is on which server, and whether pairs inside a server are left out. */
  datatype Sites = Sites(serverOf: map<nat, nat>, exclude: bool)
  {
    predicate Skips(a: nat, b: nat)
      requires a in serverOf && b in serverOf
    {
      exclude && serverOf[a] == serverOf[b]
    }
  }

  ghost predicate Placed(g: seq<nat>, w: Sites)
  {
    forall i :: 0 <= i < |g| ==> g[i] in w.serverOf
  }

  function Row(g: seq<nat>, i: nat, offs: seq<nat>, w: Sites): seq<Pair>
    requires i < |g| && Placed(g, w)
  {
    if offs == [] then []
    else
      var dst := g[Rem(i + offs[0], |g|)];
      (if w.Skips(g[i], dst) then [] else [Pair(g[i], dst)]) + Row(g, i, offs[1..], w)
  }

  function BatchPairs(g: seq<nat>, i: nat, offs: seq<nat>, w: Sites): seq<Pair>
    requires i <= |g| && Placed(g, w)
    decreases |g| - i
  {
    if i == |g| then [] else Row(g, i, offs, w) + BatchPairs(g, i + 1, offs, w)
  }

  /** Phases without pairs are dropped. */
  function PairPhases(g: seq<nat>, batches: seq<seq<nat>>, w: Sites): seq<seq<Pair>>
    requires Placed(g, w)
  {
    if batches == [] then []
    else
      var pairs := BatchPairs(g, 0, batches[0], w);
      (if pairs == [] then [] else [pairs]) + PairPhases(g, batches[1..], w)
  }

  function PairwiseSteps(g: seq<nat>, k: nat, w: Sites): seq<seq<Pair>>
    requires 0 < k && Placed(g, w)
  {
    PairPhases(g, Batches(1, |g|, k), w)
  }

  ghost predicate OffsetsOk(offs: seq<nat>, n: nat)
  {
    Distinct(offs) && forall i :: 0 <= i < |offs| ==> 1 <= offs[i] < n
  }

  /** Does the pair of members `a` and `b` belong to an all-to-all over `g`? */
  predicate Wanted(g: seq<nat>, a: nat, b: nat, w: Sites)
    requires a < |g| && b < |g| && Placed(g, w)
  {
    a != b && !w.Skips(g[a], g[b])
  }

  lemma RowHead(g: seq<nat>, i: nat, offs: seq<nat>, w: Sites, a: nat, b: nat)
    requires Distinct(g) && Placed(g, w) && i < |g| && a < |g| && b < |g| && offs != []
    ensures Times(Row(g, i, offs, w), Pair(g[a], g[b]))
         == One(i == a && Rem(i + offs[0], |g|) == b && !w.Skips(g[a], g[b]))
          + Times(Row(g, i, offs[1..], w), Pair(g[a], g[b]))
  {
    var j := Rem(i + offs[0], |g|);
    assert g[i] == g[a] <==> i == a;
    assert g[j] == g[b] <==> j == b;
    var head := if w.Skips(g[i], g[j]) then [] else [Pair(g[i], g[j])];
    assert Row(g, i, offs, w) == head + Row(g, i, offs[1..], w);
    TimesConcat(head, Row(g, i, offs[1..], w), Pair(g[a], g[b]));
    assert head != [] ==> head[1..] == [];
  }

  lemma {:induction false} RowCount(g: seq<nat>, i: nat, offs: seq<nat>, w: Sites, a: nat, b: nat)
    requires Distinct(g) && Placed(g, w) && i < |g| && a < |g| && b < |g| && OffsetsOk(offs, |g|)
    ensures Times(Row(g, i, offs, w), Pair(g[a], g[b]))
         == One(i == a && Rem(b - a, |g|) in offs && !w.Skips(g[a], g[b]))
    decreases |offs|
  {
    if offs != [] {
      assert offs == [offs[0]] + offs[1..];
      RowCount(g, i, offs[1..], w, a, b);
      RowHead(g, i, offs, w, a, b);
      StepTo(i, offs[0], b, |g|);
    }
  }

  lemma {:induction false} BatchCount(g: seq<nat>, i: nat, offs: seq<nat>, w: Sites, a: nat, b: nat)
    requires Distinct(g) && Placed(g, w) && i <= |g| && a < |g| && b < |g| && OffsetsOk(offs, |g|)
    ensures Times(BatchPairs(g, i, offs, w), Pair(g[a], g[b]))
         == One(i <= a && Rem(b - a, |g|) in offs && !w.Skips(g[a], g[b]))
    decreases |g| - i
  {
    if i < |g| {
      RowCount(g, i, offs, w, a, b);
      BatchCount(g, i + 1, offs, w, a, b);
      TimesConcat(Row(g, i, offs, w), BatchPairs(g, i + 1, offs, w), Pair(g[a], g[b]));
    }
  }

  /** In every batch the pair `x` stands exactly if it is kept and the batch has its distance `d`. */
  ghost predicate CountsAs(g: seq<nat>, w: Sites, x: Pair, d: nat, kept: bool)
    requires Placed(g, w)
  {
    forall offs :: OffsetsOk(offs, |g|) ==> Times(BatchPairs(g, 0, offs, w), x) == One(d in offs && kept)
  }

  lemma {:induction false} BatchesCount(g: seq<nat>, lo: nat, k: nat, w: Sites, x: Pair, d: nat, kept: bool)
    requires 0 < k && 1 <= lo && Placed(g, w) && d < |g| && CountsAs(g, w, x, d, kept)
    ensures Times(Flat(PairPhases(g, Batches(lo, |g|, k), w)), x) == One(lo <= d && kept)
    decreases |g| - lo
  {
    if lo < |g| {
      OneSplits(d, lo, |g|, k, kept);
      BatchesCount(g, lo + k, k, w, x, d, kept);
      FirstBatchSplits(g, lo, k, w, x);
    }
  }

  function FirstBatch(lo: nat, n: nat, k: nat): (offs: seq<nat>)
    requires lo < n
    ensures 1 <= lo ==> OffsetsOk(offs, n)
  {
    Range(lo, if lo + k < n then lo + k else n)
  }

  lemma OneSplits(d: nat, lo: nat, n: nat, k: nat, kept: bool)
    requires d < n && lo < n && 0 < k
    ensures One(lo <= d && kept) == One(d in FirstBatch(lo, n, k) && kept) + One(lo + k <= d && kept)
  {
    InRange(lo, if lo + k < n then lo + k else n, d);
  }

  lemma FirstBatchSplits(g: seq<nat>, lo: nat, k: nat, w: Sites, x: Pair)
    requires 0 < k && lo < |g| && Placed(g, w)
    ensures Times(Flat(PairPhases(g, Batches(lo, |g|, k), w)), x)
         == Times(BatchPairs(g, 0, FirstBatch(lo, |g|, k), w), x)
             + Times(Flat(PairPhases(g, Batches(lo + k, |g|, k), w)), x)
  {
    assert Batches(lo, |g|, k)[1..] == Batches(lo + k, |g|, k);
    FlatPhases(g, Batches(lo, |g|, k), w, x);
  }

  lemma InRange(lo: nat, hi: nat, d: nat)
    requires lo <= hi
    ensures d in Range(lo, hi) <==> lo <= d < hi
  {
    if lo <= d < hi { assert Range(lo, hi)[d - lo] == d; }
  }

  lemma FlatPhases(g: seq<nat>, batches: seq<seq<nat>>, w: Sites, x: Pair)
    requires Placed(g, w) && batches != []
    ensures Times(Flat(PairPhases(g, batches, w)), x)
         == Times(BatchPairs(g, 0, batches[0], w), x) + Times(Flat(PairPhases(g, batches[1..], w)), x)
  {
    var pairs, rest := BatchPairs(g, 0, batches[0], w), PairPhases(g, batches[1..], w);
    if pairs != [] {
      assert ([pairs] + rest)[1..] == rest;
      TimesConcat(pairs, Flat(rest), x);
    } else {
      assert [] + rest == rest;
    }
  }

  lemma OffsetZero(a: nat, b: nat, n: nat)
    requires a < n && b < n
    ensures Rem(b - a, n) == 0 <==> a == b
  {
    StepTo(a, 0, b, n);
    DivModUnique(0, a, n);
  }

  /** Coverage: for every batch width, each ordered pair of distinct members that is not left out is emitted
      exactly once over all phases, and no other pair of members at all. */
  lemma PairwiseCoverage(g: seq<nat>, k: nat, w: Sites, a: nat, b: nat)
    requires 0 < k && Distinct(g) && Placed(g, w) && a < |g| && b < |g|
    ensures Times(Flat(PairwiseSteps(g, k, w)), Pair(g[a], g[b])) == One(Wanted(g, a, b, w))
  {
    forall offs | OffsetsOk(offs, |g|) ensures Times(BatchPairs(g, 0, offs, w), Pair(g[a], g[b]))
      == One(Rem(b - a, |g|) in offs && !w.Skips(g[a], g[b]))
    {
      BatchCount(g, 0, offs, w, a, b);
    }
    BatchesCount(g, 1, k, w, Pair(g[a], g[b]), Rem(b - a, |g|), !w.Skips(g[a], g[b]));
    OffsetZero(a, b, |g|);
  }

  // ---------------------------------------------------------------- fan-out of a phase

  lemma {:induction false} RowMember(g: seq<nat>, i: nat, offs: seq<nat>, w: Sites, x: Pair) returns (k: nat)
    requires i < |g| && Placed(g, w) && x in Row(g, i, offs, w)
    ensures k < |offs| && x == Pair(g[i], g[Rem(i + offs[k], |g|)]) && !w.Skips(x.src, x.dst)
    decreases |offs|
  {
    var j := Rem(i + offs[0], |g|);
    if x == Pair(g[i], g[j]) && !w.Skips(g[i], g[j]) {
      k := 0;
    } else {
      var m := RowMember(g, i, offs[1..], w, x);
      k := m + 1;
    }
  }

  lemma {:induction false} BatchMember(g: seq<nat>, i: nat, offs: seq<nat>, w: Sites, x: Pair) returns (a: nat, k: nat)
    requires i <= |g| && Placed(g, w) && x in BatchPairs(g, i, offs, w)
    ensures a < |g| && k < |offs| && x == Pair(g[a], g[Rem(a + offs[k], |g|)]) && !w.Skips(x.src, x.dst)
    decreases |g| - i
  {
    if x in Row(g, i, offs, w) {
      a := i;
      k := RowMember(g, i, offs, w, x);
    } else {
      a, k := BatchMember(g, i + 1, offs, w, x);
    }
  }

  function SendsTo(xs: seq<Pair>, r: nat): set<nat> { set x | x in xs && x.src == r :: x.dst }

  function HearsFrom(xs: seq<Pair>, r: nat): set<nat> { set x | x in xs && x.dst == r :: x.src }

  /** The members at the given distances after `a` on the ring. */
  function Following(g: seq<nat>, a: nat, offs: seq<nat>): (s: set<nat>)
    requires a < |g|
    ensures |s| <= |offs|
    ensures forall k :: 0 <= k < |offs| ==> g[Rem(a + offs[k], |g|)] in s
  {
    if offs == [] then {} else {g[Rem(a + offs[0], |g|)]} + Following(g, a, offs[1..])
  }

  /** The members at the given distances before `a` on the ring. */
  function Preceding(g: seq<nat>, a: nat, offs: seq<nat>): (s: set<nat>)
    requires a < |g|
    ensures |s| <= |offs|
    ensures forall k :: 0 <= k < |offs| ==> g[Rem(a - offs[k], |g|)] in s
  {
    if offs == [] then {} else {g[Rem(a - offs[0], |g|)]} + Preceding(g, a, offs[1..])
  }

  lemma BackTo(a: nat, off: nat, b: nat, n: nat)
    requires a < n && off < n && b == Rem(a + off, n)
    ensures a == Rem(b - off, n)
  {
    if a + off < n { DivModUnique(0, a + off, n); DivModUnique(0, a, n); }
    else { DivModUnique(1, a + off - n, n); DivModUnique(-1, a, n); }
  }

  lemma SentIsFollowing(g: seq<nat>, offs: seq<nat>, w: Sites, a: nat, x: Pair)
    requires Distinct(g) && Placed(g, w) && a < |g| && x in BatchPairs(g, 0, offs, w) && x.src == g[a]
    ensures x.dst in Following(g, a, offs)
  {
    var i, k := BatchMember(g, 0, offs, w, x);
    SamePlace(g, i, a);
    PlaceAfter(g, offs, a, k);
  }

  lemma PlaceAfter(g: seq<nat>, offs: seq<nat>, a: nat, k: nat)
    requires a < |g| && k < |offs|
    ensures g[Rem(a + offs[k], |g|)] in Following(g, a, offs)
  {
  }

  lemma BatchFanOut(g: seq<nat>, offs: seq<nat>, w: Sites, a: nat)
    requires Distinct(g) && Placed(g, w) && OffsetsOk(offs, |g|) && a < |g|
    ensures |SendsTo(BatchPairs(g, 0, offs, w), g[a])| <= |offs|
  {
    var xs := BatchPairs(g, 0, offs, w);
    forall x | x in xs && x.src == g[a] ensures x.dst in Following(g, a, offs) {
      SentIsFollowing(g, offs, w, a, x);
    }
    SubsetSize(SendsTo(xs, g[a]), Following(g, a, offs));
  }

  lemma HeardIsPreceding(g: seq<nat>, offs: seq<nat>, w: Sites, a: nat, x: Pair)
    requires Distinct(g) && Placed(g, w) && OffsetsOk(offs, |g|) && a < |g|
    requires x in BatchPairs(g, 0, offs, w) && x.dst == g[a]
    ensures x.src in Preceding(g, a, offs)
  {
    var i, k := BatchMember(g, 0, offs, w, x);
    SamePlace(g, Rem(i + offs[k], |g|), a);
    PlaceBefore(g, offs, a, i, k);
  }

  lemma PlaceBefore(g: seq<nat>, offs: seq<nat>, a: nat, i: nat, k: nat)
    requires a < |g| && i < |g| && k < |offs| && offs[k] < |g| && Rem(i + offs[k], |g|) == a
    ensures g[i] in Preceding(g, a, offs)
  {
    BackTo(i, offs[k], a, |g|);
    assert g[Rem(a - offs[k], |g|)] in Preceding(g, a, offs);
  }

  lemma SamePlace(g: seq<nat>, i: nat, j: nat)
    requires Distinct(g) && i < |g| && j < |g| && g[i] == g[j]
    ensures i == j
  {
  }

  lemma BatchFanIn(g: seq<nat>, offs: seq<nat>, w: Sites, a: nat)
    requires Distinct(g) && Placed(g, w) && OffsetsOk(offs, |g|) && a < |g|
    ensures |HearsFrom(BatchPairs(g, 0, offs, w), g[a])| <= |offs|
  {
    var xs := BatchPairs(g, 0, offs, w);
    forall x | x in xs && x.dst == g[a] ensures x.src in Preceding(g, a, offs) {
      HeardIsPreceding(g, offs, w, a, x);
    }
    SubsetSize(HearsFrom(xs, g[a]), Preceding(g, a, offs));
  }

  lemma {:induction false} PhaseBatch(g: seq<nat>, lo: nat, k: nat, w: Sites, p: nat) returns (offs: seq<nat>)
    requires 0 < k && 1 <= lo && Placed(g, w) && p < |PairPhases(g, Batches(lo, |g|, k), w)|
    ensures OffsetsOk(offs, |g|) && |offs| <= k
    ensures PairPhases(g, Batches(lo, |g|, k), w)[p] == BatchPairs(g, 0, offs, w) != []
    decreases |g| - lo
  {
    var batches := Batches(lo, |g|, k);
    assert batches[1..] == Batches(lo + k, |g|, k);
    var head := BatchPairs(g, 0, batches[0], w);
    if head != [] && p == 0 {
      offs := batches[0];
    } else {
      offs := PhaseBatch(g, lo + k, k, w, if head == [] then p else p - 1);
    }
  }

  /** In every phase no member sends to, or hears from, more than `k` others; and no phase is empty. */
  lemma PairwiseFanOut(g: seq<nat>, k: nat, w: Sites, p: nat, a: nat)
    requires 0 < k && Distinct(g) && Placed(g, w) && a < |g| && p < |PairwiseSteps(g, k, w)|
    ensures PairwiseSteps(g, k, w)[p] != []
    ensures |SendsTo(PairwiseSteps(g, k, w)[p], g[a])| <= k
    ensures |HearsFrom(PairwiseSteps(g, k, w)[p], g[a])| <= k
  {
    var offs := PhaseBatch(g, 1, k, w, p);
    BatchFanOut(g, offs, w, a);
    BatchFanIn(g, offs, w, a);
  }

  // ---------------------------------------------------------------- the NCCL schedule

  function TryDelta(order: seq<nat>, c: int, servers: nat): seq<nat>
  {
    if c !in order && 0 < c < servers then order + [c] else order
  }

  /** The four distances tried in round `d`. */
  function CandidateAt(d: nat, servers: nat, i: nat): int
  {
    if i == 0 then d else if i == 1 then servers - d
    else if i == 2 then servers / 2 - d else servers - (servers / 2 - d)
  }

  function TryFirst(order: seq<nat>, d: nat, servers: nat, n: nat): seq<nat>
  {
    if n == 0 then order else TryDelta(TryFirst(order, d, servers, n - 1), CandidateAt(d, servers, n - 1), servers)
  }

  function Zigzag(order: seq<nat>, d: nat, servers: nat): seq<nat> { TryFirst(order, d, servers, 4) }

  /** The first `rounds` rounds of the zigzag over server distances. */
  function DeltasAfter(servers: nat, rounds: nat): seq<nat>
  {
    if rounds == 0 then [] else Zigzag(DeltasAfter(servers, rounds - 1), rounds - 1, servers)
  }

  function DeltaOrder(servers: nat): seq<nat> { DeltasAfter(servers, servers / 4 + 1) }

  ghost predicate DeltasOk(order: seq<nat>, servers: nat)
  {
    Distinct(order) && forall i :: 0 <= i < |order| ==> 0 < order[i] < servers
  }

  lemma TryDeltaOk(order: seq<nat>, c: int, servers: nat)
    requires DeltasOk(order, servers)
    ensures DeltasOk(TryDelta(order, c, servers), servers)
    ensures 0 < c < servers ==> c in TryDelta(order, c, servers)
    ensures forall x :: x in order ==> x in TryDelta(order, c, servers)
  {
    if c !in order && 0 < c < servers { assert (order + [c])[|order|] == c; }
  }

  /** Distance `c` is a candidate of round `d`. */
  predicate Candidate(c: nat, d: nat, servers: nat)
  {
    0 < c < servers && (c == d || c == servers - d || c == servers / 2 - d || c == servers - (servers / 2 - d))
  }

  lemma {:induction false} TryFirstOk(order: seq<nat>, d: nat, servers: nat, n: nat, i: nat)
    requires DeltasOk(order, servers) && i < n
    ensures var r := TryFirst(order, d, servers, n);
      && DeltasOk(r, servers)
      && (forall x :: x in order ==> x in r)
      && (0 < CandidateAt(d, servers, i) < servers ==> CandidateAt(d, servers, i) in r)
    decreases n
  {
    if n > 1 { TryFirstOk(order, d, servers, n - 1, if i < n - 1 then i else 0); }
    TryDeltaOk(TryFirst(order, d, servers, n - 1), CandidateAt(d, servers, n - 1), servers);
  }

  lemma ZigzagOk(order: seq<nat>, d: nat, servers: nat)
    requires DeltasOk(order, servers)
    ensures var r := Zigzag(order, d, servers);
      && DeltasOk(r, servers)
      && (forall x :: x in order ==> x in r)
      && (forall c: nat :: Candidate(c, d, servers) ==> c in r)
  {
    TryFirstOk(order, d, servers, 4, 0);
    TryFirstOk(order, d, servers, 4, 1);
    TryFirstOk(order, d, servers, 4, 2);
    TryFirstOk(order, d, servers, 4, 3);
  }

  lemma {:induction false} DeltasAfterOk(servers: nat, rounds: nat, d: nat)
    ensures DeltasOk(DeltasAfter(servers, rounds), servers)
    ensures d < rounds ==> forall c: nat :: Candidate(c, d, servers) ==> c in DeltasAfter(servers, rounds)
    decreases rounds
  {
    if rounds > 0 {
      DeltasAfterOk(servers, rounds - 1, d);
      ZigzagOk(DeltasAfter(servers, rounds - 1), rounds - 1, servers);
    }
  }

  /** Every distance is visited: it, or its mirror image, lies within a quarter of 0 or of one half. */
  lemma DeltaVisited(servers: nat, c: nat)
    requires 0 < c < servers
    ensures c in DeltaOrder(servers)
  {
    var m := if 2 * c <= servers then c else servers - c;
    var d := if m <= servers / 4 then m else servers / 2 - m;
    assert 0 <= d <= servers / 4;
    assert Candidate(c, d, servers);
    DeltasAfterOk(servers, servers / 4 + 1, d);
  }

  /** For every number of servers the zigzag order is a permutation of the distances 1 .. servers-1. */
  lemma DeltaOrderIsPermutation(servers: nat)
    ensures Distinct(DeltaOrder(servers))
    ensures forall c: nat :: c in DeltaOrder(servers) <==> 0 < c < servers
    ensures servers > 0 ==> |DeltaOrder(servers)| == servers - 1
  {
    var order := DeltaOrder(servers);
    DeltasAfterOk(servers, servers / 4 + 1, 0);
    forall c: nat | 0 < c < servers ensures c in order { DeltaVisited(servers, c); }
    if servers > 0 { EnumerationSize(order, servers); }
  }

  lemma EnumerationSize(order: seq<nat>, n: nat)
    requires 0 < n && Distinct(order) && forall c: nat :: c in order <==> 0 < c < n
    ensures |order| == n - 1
  {
    DistinctSize(order);
    PositiveBelow(Members(order), n);
  }

  lemma PositiveBelow(s: set<nat>, n: nat)
    requires 0 < n && forall c: nat :: c in s <==> 0 < c < n
    ensures |s| == n - 1
  {
    assert s == Below(n) - {0};
  }

  /** A cluster of servers with equally many members each, all different. */
  ghost predicate Uniform(nodesOf: seq<seq<nat>>, lanes: nat)
  {
    && 0 < lanes && 0 < |nodesOf|
    && (forall s :: 0 <= s < |nodesOf| ==> |nodesOf[s]| == lanes)
    && (forall s, l, t, m |
          0 <= s < |nodesOf| && 0 <= l < lanes && 0 <= t < |nodesOf| && 0 <= m < lanes &&
          nodesOf[s][l] == nodesOf[t][m] ::
          s == t && l == m)
  }

  function Lane(nodesOf: seq<seq<nat>>, lanes: nat, delta: nat, sub: nat, s: nat, l: nat): Pair
    requires 0 < lanes && s < |nodesOf| && l < lanes && forall t :: 0 <= t < |nodesOf| ==> |nodesOf[t]| == lanes
  {
    Pair(nodesOf[s][l], nodesOf[Rem(s + delta, |nodesOf|)][Rem(l + sub, lanes)])
  }

  /** What server `s` sends in one micro-round: member `l` to member `l + sub` of the server `delta` further on. */
  function ServerRow(nodesOf: seq<seq<nat>>, lanes: nat, delta: nat, sub: nat, s: nat, l: nat): seq<Pair>
    requires 0 < lanes && s < |nodesOf| && l <= lanes && forall t :: 0 <= t < |nodesOf| ==> |nodesOf[t]| == lanes
    decreases lanes - l
  {
    if l == lanes then []
    else [Lane(nodesOf, lanes, delta, sub, s, l)] + ServerRow(nodesOf, lanes, delta, sub, s, l + 1)
  }

  function MicroRound(nodesOf: seq<seq<nat>>, lanes: nat, delta: nat, sub: nat, s: nat): seq<Pair>
    requires 0 < lanes && s <= |nodesOf| && forall t :: 0 <= t < |nodesOf| ==> |nodesOf[t]| == lanes
    decreases |nodesOf| - s
  {
    if s == |nodesOf| then []
    else ServerRow(nodesOf, lanes, delta, sub, s, 0) + MicroRound(nodesOf, lanes, delta, sub, s + 1)
  }

  function SubRounds(nodesOf: seq<seq<nat>>, lanes: nat, delta: nat, sub: nat): seq<seq<Pair>>
    requires 0 < lanes && sub <= lanes && forall t :: 0 <= t < |nodesOf| ==> |nodesOf[t]| == lanes
    decreases lanes - sub
  {
    if sub == lanes then [] else [MicroRound(nodesOf, lanes, delta, sub, 0)] + SubRounds(nodesOf, lanes, delta, sub + 1)
  }

  function RoundsFor(nodesOf: seq<seq<nat>>, lanes: nat, deltas: seq<nat>): seq<seq<Pair>>
    requires 0 < lanes && forall t :: 0 <= t < |nodesOf| ==> |nodesOf[t]| == lanes
  {
    if deltas == [] then [] else SubRounds(nodesOf, lanes, deltas[0], 0) + RoundsFor(nodesOf, lanes, deltas[1..])
  }

  function NcclPairwise(nodesOf: seq<seq<nat>>, lanes: nat): seq<seq<Pair>>
    requires 0 < lanes && forall t :: 0 <= t < |nodesOf| ==> |nodesOf[t]| == lanes
  {
    RoundsFor(nodesOf, lanes, DeltaOrder(|nodesOf|))
  }

  lemma LaneIs(nodesOf: seq<seq<nat>>, lanes: nat, delta: nat, sub: nat, s: nat, l: nat, a: nat, i: nat, b: nat, j: nat)
    requires Uniform(nodesOf, lanes) && delta < |nodesOf| && sub < lanes
    requires s < |nodesOf| && l < lanes && a < |nodesOf| && i < lanes && b < |nodesOf| && j < lanes
    ensures Lane(nodesOf, lanes, delta, sub, s, l) == Pair(nodesOf[a][i], nodesOf[b][j])
       <==> s == a && l == i && delta == Rem(b - a, |nodesOf|) && sub == Rem(j - i, lanes)
  {
    StepTo(a, delta, b, |nodesOf|);
    StepTo(i, sub, j, lanes);
    var t, m := Rem(s + delta, |nodesOf|), Rem(l + sub, lanes);
    assert nodesOf[s][l] == nodesOf[a][i] ==> s == a && l == i;
    assert nodesOf[t][m] == nodesOf[b][j] ==> t == b && m == j;
  }

  lemma {:induction false} ServerRowTimes(nodesOf: seq<seq<nat>>, lanes: nat, delta: nat, sub: nat, s: nat, l: nat,
                                         a: nat, i: nat, b: nat, j: nat)
    requires Uniform(nodesOf, lanes) && delta < |nodesOf| && sub < lanes
    requires s < |nodesOf| && l <= lanes && a < |nodesOf| && i < lanes && b < |nodesOf| && j < lanes
    ensures Times(ServerRow(nodesOf, lanes, delta, sub, s, l), Pair(nodesOf[a][i], nodesOf[b][j]))
         == One(s == a && l <= i && delta == Rem(b - a, |nodesOf|) && sub == Rem(j - i, lanes))
    decreases lanes - l
  {
    if l < lanes {
      var rest := ServerRow(nodesOf, lanes, delta, sub, s, l + 1);
      assert ([Lane(nodesOf, lanes, delta, sub, s, l)] + rest)[1..] == rest;
      LaneIs(nodesOf, lanes, delta, sub, s, l, a, i, b, j);
      ServerRowTimes(nodesOf, lanes, delta, sub, s, l + 1, a, i, b, j);
    }
  }

  lemma {:induction false} MicroRoundTimes(nodesOf: seq<seq<nat>>, lanes: nat, delta: nat, sub: nat, s: nat,
                                          a: nat, i: nat, b: nat, j: nat)
    requires Uniform(nodesOf, lanes) && delta < |nodesOf| && sub < lanes
    requires s <= |nodesOf| && a < |nodesOf| && i < lanes && b < |nodesOf| && j < lanes
    ensures Times(MicroRound(nodesOf, lanes, delta, sub, s), Pair(nodesOf[a][i], nodesOf[b][j]))
         == One(s <= a && delta == Rem(b - a, |nodesOf|) && sub == Rem(j - i, lanes))
    decreases |nodesOf| - s
  {
    if s < |nodesOf| {
      ServerRowTimes(nodesOf, lanes, delta, sub, s, 0, a, i, b, j);
      MicroRoundTimes(nodesOf, lanes, delta, sub, s + 1, a, i, b, j);
      TimesConcat(ServerRow(nodesOf, lanes, delta, sub, s, 0), MicroRound(nodesOf, lanes, delta, sub, s + 1),
                  Pair(nodesOf[a][i], nodesOf[b][j]));
    }
  }

  lemma FirstSubRound(nodesOf: seq<seq<nat>>, lanes: nat, delta: nat, sub: nat, x: Pair)
    requires Uniform(nodesOf, lanes) && delta < |nodesOf| && sub < lanes
    ensures Times(Flat(SubRounds(nodesOf, lanes, delta, sub)), x)
         == Times(MicroRound(nodesOf, lanes, delta, sub, 0), x)
             + Times(Flat(SubRounds(nodesOf, lanes, delta, sub + 1)), x)
  {
    var first, rest := MicroRound(nodesOf, lanes, delta, sub, 0), SubRounds(nodesOf, lanes, delta, sub + 1);
    assert ([first] + rest)[1..] == rest;
    TimesConcat(first, Flat(rest), x);
  }

  lemma {:induction false} SubRoundsTimes(nodesOf: seq<seq<nat>>, lanes: nat, delta: nat, sub: nat,
                                         a: nat, i: nat, b: nat, j: nat)
    requires Uniform(nodesOf, lanes) && delta < |nodesOf| && sub <= lanes
    requires a < |nodesOf| && i < lanes && b < |nodesOf| && j < lanes
    ensures Times(Flat(SubRounds(nodesOf, lanes, delta, sub)), Pair(nodesOf[a][i], nodesOf[b][j]))
         == One(delta == Rem(b - a, |nodesOf|) && sub <= Rem(j - i, lanes))
    decreases lanes - sub
  {
    if sub < lanes {
      FirstSubRound(nodesOf, lanes, delta, sub, Pair(nodesOf[a][i], nodesOf[b][j]));
      MicroRoundTimes(nodesOf, lanes, delta, sub, 0, a, i, b, j);
      SubRoundsTimes(nodesOf, lanes, delta, sub + 1, a, i, b, j);
    }
  }

  lemma {:induction false} RoundsTimes(nodesOf: seq<seq<nat>>, lanes: nat, deltas: seq<nat>, a: nat, i: nat, b: nat,
                                       j: nat)
    requires Uniform(nodesOf, lanes) && DeltasOk(deltas, |nodesOf|)
    requires a < |nodesOf| && i < lanes && b < |nodesOf| && j < lanes
    ensures Times(Flat(RoundsFor(nodesOf, lanes, deltas)), Pair(nodesOf[a][i], nodesOf[b][j]))
        == One(Rem(b - a, |nodesOf|) in deltas)
    decreases |deltas|
  {
    if deltas != [] {
      var first, rest := SubRounds(nodesOf, lanes, deltas[0], 0), RoundsFor(nodesOf, lanes, deltas[1..]);
      assert deltas == [deltas[0]] + deltas[1..] && deltas[0] !in deltas[1..];
      FlatConcat(first, rest);
      SubRoundsTimes(nodesOf, lanes, deltas[0], 0, a, i, b, j);
      RoundsTimes(nodesOf, lanes, deltas[1..], a, i, b, j);
      TimesConcat(Flat(first), Flat(rest), Pair(nodesOf[a][i], nodesOf[b][j]));
    }
  }

  /** Coverage: each ordered pair of members of different servers is scheduled exactly once, and no pair
      within a server at all. */
  lemma NcclCoverage(nodesOf: seq<seq<nat>>, lanes: nat, a: nat, i: nat, b: nat, j: nat)
    requires Uniform(nodesOf, lanes) && a < |nodesOf| && i < lanes && b < |nodesOf| && j < lanes
    ensures Times(Flat(NcclPairwise(nodesOf, lanes)), Pair(nodesOf[a][i], nodesOf[b][j])) == One(a != b)
  {
    DeltasAfterOk(|nodesOf|, |nodesOf| / 4 + 1, 0);
    DeltaOrderIsPermutation(|nodesOf|);
    RoundsTimes(nodesOf, lanes, DeltaOrder(|nodesOf|), a, i, b, j);
    OffsetZero(a, b, |nodesOf|);
  }

  /** All pairs are between nodes of `ms`. */
  ghost predicate Within(xs: seq<Pair>, ms: set<nat>)
  {
    forall x :: x in xs ==> x.src in ms && x.dst in ms
  }

  ghost predicate RowsWithin(nodesOf: seq<seq<nat>>, lanes: nat, ms: set<nat>)
  {
    && 0 < lanes && (forall s :: 0 <= s < |nodesOf| ==> |nodesOf[s]| == lanes)
    && (forall s, l :: 0 <= s < |nodesOf| && 0 <= l < lanes ==> nodesOf[s][l] in ms)
  }

  lemma {:induction false} ServerRowWithin(nodesOf: seq<seq<nat>>, lanes: nat, delta: nat, sub: nat, s: nat, l: nat,
                                           ms: set<nat>)
    requires RowsWithin(nodesOf, lanes, ms) && s < |nodesOf| && l <= lanes
    ensures Within(ServerRow(nodesOf, lanes, delta, sub, s, l), ms)
    decreases lanes - l
  {
    if l < lanes { ServerRowWithin(nodesOf, lanes, delta, sub, s, l + 1, ms); }
  }

  lemma {:induction false} MicroRoundWithin(nodesOf: seq<seq<nat>>, lanes: nat, delta: nat, sub: nat, s: nat,
                                            ms: set<nat>)
    requires RowsWithin(nodesOf, lanes, ms) && s <= |nodesOf|
    ensures Within(MicroRound(nodesOf, lanes, delta, sub, s), ms)
    decreases |nodesOf| - s
  {
    if s < |nodesOf| {
      ServerRowWithin(nodesOf, lanes, delta, sub, s, 0, ms);
      MicroRoundWithin(nodesOf, lanes, delta, sub, s + 1, ms);
    }
  }

  lemma WithinFlat(first: seq<Pair>, rest: seq<seq<Pair>>, ms: set<nat>)
    requires Within(first, ms) && Within(Flat(rest), ms)
    ensures Within(Flat([first] + rest), ms)
  {
    assert ([first] + rest)[1..] == rest;
  }

  lemma {:induction false} SubRoundsWithin(nodesOf: seq<seq<nat>>, lanes: nat, delta: nat, sub: nat, ms: set<nat>)
    requires RowsWithin(nodesOf, lanes, ms) && sub <= lanes
    ensures Within(Flat(SubRounds(nodesOf, lanes, delta, sub)), ms)
    decreases lanes - sub
  {
    if sub < lanes {
      MicroRoundWithin(nodesOf, lanes, delta, sub, 0, ms);
      SubRoundsWithin(nodesOf, lanes, delta, sub + 1, ms);
      WithinFlat(MicroRound(nodesOf, lanes, delta, sub, 0), SubRounds(nodesOf, lanes, delta, sub + 1), ms);
    }
  }

  /** The micro-rounds are among the members. */
  lemma {:induction false} RoundsAreWithin(nodesOf: seq<seq<nat>>, lanes: nat, deltas: seq<nat>, ms: set<nat>)
    requires RowsWithin(nodesOf, lanes, ms)
    ensures Within(Flat(RoundsFor(nodesOf, lanes, deltas)), ms)
  {
    if deltas != [] {
      FlatConcat(SubRounds(nodesOf, lanes, deltas[0], 0), RoundsFor(nodesOf, lanes, deltas[1..]));
      SubRoundsWithin(nodesOf, lanes, deltas[0], 0, ms);
      RoundsAreWithin(nodesOf, lanes, deltas[1..], ms);
    }
  }

  // ---------------------------------------------------------------- balance of a micro-round

  function SendCount(xs: seq<Pair>, r: nat): nat
  {
    if xs == [] then 0 else One(xs[0].src == r) + SendCount(xs[1..], r)
  }

  function HearCount(xs: seq<Pair>, r: nat): nat
  {
    if xs == [] then 0 else One(xs[0].dst == r) + HearCount(xs[1..], r)
  }

  lemma {:induction false} CountsConcat(a: seq<Pair>, b: seq<Pair>, r: nat)
    ensures SendCount(a + b, r) == SendCount(a, r) + SendCount(b, r)
    ensures HearCount(a + b, r) == HearCount(a, r) + HearCount(b, r)
  {
    if a == [] {
      assert a + b == b;
    } else {
      assert (a + b)[1..] == a[1..] + b;
      CountsConcat(a[1..], b, r);
    }
  }

  lemma {:induction false} ServerRowCounts(nodesOf: seq<seq<nat>>, lanes: nat, delta: nat, sub: nat, s: nat, l: nat,
                                           a: nat, i: nat)
    requires Uniform(nodesOf, lanes) && delta < |nodesOf| && sub < lanes
    requires s < |nodesOf| && l <= lanes && a < |nodesOf| && i < lanes
    ensures SendCount(ServerRow(nodesOf, lanes, delta, sub, s, l), nodesOf[a][i]) == One(s == a && l <= i)
    ensures HearCount(ServerRow(nodesOf, lanes, delta, sub, s, l), nodesOf[a][i])
         == One(s == Rem(a - delta, |nodesOf|) && l <= Rem(i - sub, lanes))
    decreases lanes - l
  {
    if l < lanes {
      var rest := ServerRow(nodesOf, lanes, delta, sub, s, l + 1);
      assert ([Lane(nodesOf, lanes, delta, sub, s, l)] + rest)[1..] == rest;
      ServerRowCounts(nodesOf, lanes, delta, sub, s, l + 1, a, i);
      StepTo(delta, s, a, |nodesOf|);
      StepTo(sub, l, i, lanes);
      var t, m := Rem(s + delta, |nodesOf|), Rem(l + sub, lanes);
      assert nodesOf[s][l] == nodesOf[a][i] ==> s == a && l == i;
      assert nodesOf[t][m] == nodesOf[a][i] ==> t == a && m == i;
    }
  }

  /** Node `x` sends in the row of server `a` only, and hears in the row of server `t` only. */
  ghost predicate RowsCountAs(nodesOf: seq<seq<nat>>, lanes: nat, delta: nat, sub: nat, x: nat, a: nat, t: nat)
    requires Uniform(nodesOf, lanes)
  {
    forall s :: 0 <= s < |nodesOf| ==>
      && SendCount(ServerRow(nodesOf, lanes, delta, sub, s, 0), x) == One(s == a)
      && HearCount(ServerRow(nodesOf, lanes, delta, sub, s, 0), x) == One(s == t)
  }

  lemma {:induction false} MicroRoundCounts(nodesOf: seq<seq<nat>>, lanes: nat, delta: nat, sub: nat, s: nat, x: nat,
                                            a: nat, t: nat)
    requires Uniform(nodesOf, lanes) && s <= |nodesOf| && a < |nodesOf| && t < |nodesOf|
    requires RowsCountAs(nodesOf, lanes, delta, sub, x, a, t)
    ensures SendCount(MicroRound(nodesOf, lanes, delta, sub, s), x) == One(s <= a)
    ensures HearCount(MicroRound(nodesOf, lanes, delta, sub, s), x) == One(s <= t)
    decreases |nodesOf| - s
  {
    if s < |nodesOf| {
      MicroRoundCounts(nodesOf, lanes, delta, sub, s + 1, x, a, t);
      CountsConcat(ServerRow(nodesOf, lanes, delta, sub, s, 0), MicroRound(nodesOf, lanes, delta, sub, s + 1), x);
    }
  }

  lemma MicroRoundBalanced(nodesOf: seq<seq<nat>>, lanes: nat, delta: nat, sub: nat, a: nat, i: nat)
    requires Uniform(nodesOf, lanes) && delta < |nodesOf| && sub < lanes && a < |nodesOf| && i < lanes
    ensures Balanced(MicroRound(nodesOf, lanes, delta, sub, 0), nodesOf[a][i])
  {
    var t := Rem(a - delta, |nodesOf|);
    forall s | 0 <= s < |nodesOf| ensures
      && SendCount(ServerRow(nodesOf, lanes, delta, sub, s, 0), nodesOf[a][i]) == One(s == a)
      && HearCount(ServerRow(nodesOf, lanes, delta, sub, s, 0), nodesOf[a][i]) == One(s == t)
    {
      ServerRowCounts(nodesOf, lanes, delta, sub, s, 0, a, i);
    }
    MicroRoundCounts(nodesOf, lanes, delta, sub, 0, nodesOf[a][i], a, t);
  }

  /** Node `x` sends exactly once and hears exactly once in the round. */
  ghost predicate Balanced(round: seq<Pair>, x: nat)
  {
    round != [] && SendCount(round, x) == 1 && HearCount(round, x) == 1
  }

  lemma {:induction false} SubRoundsBalanced(nodesOf: seq<seq<nat>>, lanes: nat, delta: nat, sub: nat, r: nat, a: nat,
                                             i: nat)
    requires Uniform(nodesOf, lanes) && delta < |nodesOf| && sub <= lanes && a < |nodesOf| && i < lanes
    requires r < |SubRounds(nodesOf, lanes, delta, sub)|
    ensures Balanced(SubRounds(nodesOf, lanes, delta, sub)[r], nodesOf[a][i])
    decreases lanes - sub
  {
    if r == 0 {
      MicroRoundBalanced(nodesOf, lanes, delta, sub, a, i);
    } else {
      SubRoundsBalanced(nodesOf, lanes, delta, sub + 1, r - 1, a, i);
    }
  }

  lemma {:induction false} RoundsLength(nodesOf: seq<seq<nat>>, lanes: nat, deltas: seq<nat>)
    requires Uniform(nodesOf, lanes) && DeltasOk(deltas, |nodesOf|)
    ensures |RoundsFor(nodesOf, lanes, deltas)| == |deltas| * lanes
  {
    if deltas != [] {
      SubRoundsLength(nodesOf, lanes, deltas[0], 0);
      RoundsLength(nodesOf, lanes, deltas[1..]);
      OneMore(|deltas| - 1, lanes);
    }
  }

  lemma {:induction false} SubRoundsLength(nodesOf: seq<seq<nat>>, lanes: nat, delta: nat, sub: nat)
    requires Uniform(nodesOf, lanes) && sub <= lanes
    ensures |SubRounds(nodesOf, lanes, delta, sub)| == lanes - sub
    decreases lanes - sub
  {
    if sub < lanes { SubRoundsLength(nodesOf, lanes, delta, sub + 1); }
  }

  lemma {:induction false} RoundsBalanced(nodesOf: seq<seq<nat>>, lanes: nat, deltas: seq<nat>, r: nat, a: nat, i: nat)
    requires Uniform(nodesOf, lanes) && DeltasOk(deltas, |nodesOf|) && a < |nodesOf| && i < lanes
    requires r < |RoundsFor(nodesOf, lanes, deltas)|
    ensures Balanced(RoundsFor(nodesOf, lanes, deltas)[r], nodesOf[a][i])
    decreases |deltas|
  {
    SubRoundsLength(nodesOf, lanes, deltas[0], 0);
    if r < lanes {
      SubRoundsBalanced(nodesOf, lanes, deltas[0], 0, r, a, i);
    } else {
      RoundsBalanced(nodesOf, lanes, deltas[1..], r - lanes, a, i);
    }
  }

  /** (S-1)*G micro-rounds, in each of which every node sends exactly once and hears exactly once. */
  lemma NcclBalanced(nodesOf: seq<seq<nat>>, lanes: nat, r: nat, a: nat, i: nat)
    requires Uniform(nodesOf, lanes) && a < |nodesOf| && i < lanes
    ensures |NcclPairwise(nodesOf, lanes)| == (|nodesOf| - 1) * lanes
    ensures r < |NcclPairwise(nodesOf, lanes)| ==> Balanced(NcclPairwise(nodesOf, lanes)[r], nodesOf[a][i])
  {
    DeltaFacts(|nodesOf|);
    RoundsLength(nodesOf, lanes, DeltaOrder(|nodesOf|));
    if r < |NcclPairwise(nodesOf, lanes)| { RoundsBalanced(nodesOf, lanes, DeltaOrder(|nodesOf|), r, a, i); }
  }

  lemma DeltaFacts(servers: nat)
    requires 0 < servers
    ensures DeltasOk(DeltaOrder(servers), servers) && |DeltaOrder(servers)| == servers - 1
  {
    DeltasAfterOk(servers, servers / 4 + 1, 0);
    DeltaOrderIsPermutation(servers);
  }
}
