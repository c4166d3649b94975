/** The order in which the two-level all-to-all visits server distances (htsim_runner.py:415-428), told without the
    loop: by how near a distance is to nothing or to half way round, and on which side. */
module ZigzagOrder {
  import opened AllToAll
  import opened Counting
  import opened Transfers

  /** How far a distance is from nothing, going round the shorter way. */
  function Near(c: nat, servers: nat): nat
    requires c <= servers
  {
    if 2 * c <= servers then c else servers - c
  }

  /** Distances close to nothing, or close to half way round, come first. */
  function RoundOf(c: nat, servers: nat): nat
    requires c <= servers
  {
    var m := Near(c, servers);
    if m <= servers / 2 - m then m else servers / 2 - m
  }

  /** In a round: the short distance, its mirror image, then the one short of half way, and its mirror image. */
  function PlaceOf(c: nat, servers: nat): (i: nat)
    requires c <= servers
    ensures i < 4
  {
    var m := Near(c, servers);
    if m <= servers / 2 - m then (if c == m then 0 else 1) else if c <= servers / 2 then 2 else 3
  }

  function Rank(c: nat, servers: nat): nat
    requires c <= servers
  {
    4 * RoundOf(c, servers) + PlaceOf(c, servers)
  }

  lemma RankIsCandidate(c: nat, servers: nat)
    requires 0 < c < servers
    ensures CandidateAt(RoundOf(c, servers), servers, PlaceOf(c, servers)) == c
    ensures RoundOf(c, servers) <= servers / 4
  {
  }

  lemma RankIsLeast(c: nat, servers: nat, d: nat, i: nat)
    requires 0 < c < servers && d <= servers / 4 && i < 4 && CandidateAt(d, servers, i) == c
    ensures Rank(c, servers) <= 4 * d + i
  {
  }

  /** The distances of rank below `k`, in order of rank. */
  ghost predicate Ranked(order: seq<nat>, servers: nat, k: nat)
  {
    && (forall i :: 0 <= i < |order| ==> 0 < order[i] < servers)
    && (forall i, j :: 0 <= i < j < |order| ==> Rank(order[i], servers) < Rank(order[j], servers))
    && (forall c: nat :: 0 < c < servers ==> (c in order <==> Rank(c, servers) < k))
  }

  lemma RankHas(c: nat, servers: nat, d: nat, i: nat)
    requires 0 < c < servers && i < 4 && Rank(c, servers) == 4 * d + i
    ensures CandidateAt(d, servers, i) == c
  {
    RankIsCandidate(c, servers);
  }

  lemma TryRanked(order: seq<nat>, servers: nat, d: nat, i: nat)
    requires Ranked(order, servers, 4 * d + i) && d <= servers / 4 && i < 4
    ensures Ranked(TryDelta(order, CandidateAt(d, servers, i), servers), servers, 4 * d + i + 1)
  {
    var c := CandidateAt(d, servers, i);
    var next := TryDelta(order, c, servers);
    forall x: nat | 0 < x < servers ensures x in next <==> Rank(x, servers) < 4 * d + i + 1 {
      if Rank(x, servers) == 4 * d + i { RankHas(x, servers, d, i); }
      if x == c { RankIsLeast(x, servers, d, i); }
    }
    if 0 < c < servers { RankIsLeast(c, servers, d, i); }
    forall k | 0 <= k < |order| ensures Rank(order[k], servers) < 4 * d + i { assert order[k] in order; }
  }

  lemma NextTry(order: seq<nat>, before: seq<nat>, after: seq<nat>, servers: nat, d: nat, n: nat)
    requires 0 < n <= 4 && before == TryFirst(order, d, servers, n - 1) && after == TryFirst(order, d, servers, n)
    requires d <= servers / 4 && Ranked(before, servers, 4 * d + (n - 1))
    ensures Ranked(after, servers, 4 * d + n)
  {
    TryRanked(before, servers, d, n - 1);
  }

  lemma {:induction false} RoundRanked(order: seq<nat>, tried: seq<nat>, servers: nat, d: nat, n: nat)
    requires Ranked(order, servers, 4 * d) && d <= servers / 4 && n <= 4 && tried == TryFirst(order, d, servers, n)
    ensures Ranked(tried, servers, 4 * d + n)
    decreases n
  {
    if n > 0 {
      var before := TryFirst(order, d, servers, n - 1);
      RoundRanked(order, before, servers, d, n - 1);
      NextTry(order, before, tried, servers, d, n);
    }
  }

  lemma NextRound(before: seq<nat>, servers: nat, rounds: nat)
    requires 0 < rounds <= servers / 4 + 1 && before == DeltasAfter(servers, rounds - 1)
    requires Ranked(before, servers, 4 * (rounds - 1))
    ensures Ranked(DeltasAfter(servers, rounds), servers, 4 * rounds)
  {
    RoundRanked(before, DeltasAfter(servers, rounds), servers, rounds - 1, 4);
  }

  lemma {:induction false} RoundsRanked(servers: nat, rounds: nat)
    requires rounds <= servers / 4 + 1
    ensures Ranked(DeltasAfter(servers, rounds), servers, 4 * rounds)
  {
    if rounds > 0 {
      RoundsRanked(servers, rounds - 1);
      NextRound(DeltasAfter(servers, rounds - 1), servers, rounds);
    }
  }

  /** For every number of servers the order visits the distances by rank. */
  lemma DeltaOrderIsByRank(servers: nat)
    ensures forall i :: 0 <= i < |DeltaOrder(servers)| ==> 0 < DeltaOrder(servers)[i] < servers
    ensures forall i, j :: 0 <= i < j < |DeltaOrder(servers)| ==>
      Rank(DeltaOrder(servers)[i], servers) < Rank(DeltaOrder(servers)[j], servers)
  {
    RoundsRanked(servers, servers / 4 + 1);
  }

  // ---------------------------------------------------------------- which pairs a round holds

  ghost predicate Rectangle(nodesOf: seq<seq<nat>>, lanes: nat)
  {
    0 < lanes && forall t :: 0 <= t < |nodesOf| ==> |nodesOf[t]| == lanes
  }

  lemma {:induction false} SubRoundsLength(nodesOf: seq<seq<nat>>, lanes: nat, delta: nat, sub: nat)
    requires Rectangle(nodesOf, lanes) && sub <= lanes
    ensures |SubRounds(nodesOf, lanes, delta, sub)| == lanes - sub
    decreases lanes - sub
  {
    if sub < lanes { SubRoundsLength(nodesOf, lanes, delta, sub + 1); }
  }

  lemma NextSubRound(nodesOf: seq<seq<nat>>, lanes: nat, delta: nat, sub: nat, q: nat)
    requires Rectangle(nodesOf, lanes) && sub < lanes && 0 < q < lanes - sub
    ensures |SubRounds(nodesOf, lanes, delta, sub)| == lanes - sub
    ensures |SubRounds(nodesOf, lanes, delta, sub + 1)| == lanes - sub - 1
    ensures SubRounds(nodesOf, lanes, delta, sub)[q] == SubRounds(nodesOf, lanes, delta, sub + 1)[q - 1]
  {
    SubRoundsLength(nodesOf, lanes, delta, sub);
    SubRoundsLength(nodesOf, lanes, delta, sub + 1);
  }

  lemma {:induction false} SubRoundIs(nodesOf: seq<seq<nat>>, lanes: nat, delta: nat, sub: nat, q: nat)
    requires Rectangle(nodesOf, lanes) && sub <= lanes && q < lanes - sub
    ensures |SubRounds(nodesOf, lanes, delta, sub)| == lanes - sub
    ensures SubRounds(nodesOf, lanes, delta, sub)[q] == MicroRound(nodesOf, lanes, delta, sub + q, 0)
    decreases q
  {
    SubRoundsLength(nodesOf, lanes, delta, sub);
    if q > 0 {
      NextSubRound(nodesOf, lanes, delta, sub, q);
      SubRoundIs(nodesOf, lanes, delta, sub + 1, q - 1);
    }
  }

  lemma FirstRounds(nodesOf: seq<seq<nat>>, lanes: nat, deltas: seq<nat>, sub: nat)
    requires Uniform(nodesOf, lanes) && deltas != [] && sub < lanes
    ensures sub < |RoundsFor(nodesOf, lanes, deltas)|
    ensures RoundsFor(nodesOf, lanes, deltas)[sub] == MicroRound(nodesOf, lanes, deltas[0], sub, 0)
  {
    SubRoundIs(nodesOf, lanes, deltas[0], 0, sub);
  }

  lemma LaterRounds(nodesOf: seq<seq<nat>>, lanes: nat, deltas: seq<nat>, m: nat)
    requires Uniform(nodesOf, lanes) && deltas != [] && m < |RoundsFor(nodesOf, lanes, deltas[1..])|
    ensures lanes + m < |RoundsFor(nodesOf, lanes, deltas)|
    ensures RoundsFor(nodesOf, lanes, deltas)[lanes + m] == RoundsFor(nodesOf, lanes, deltas[1..])[m]
  {
    SubRoundIs(nodesOf, lanes, deltas[0], 0, 0);
  }

  /** k * lanes + sub. */
  function RoundIndex(k: nat, lanes: nat, sub: nat): nat
    decreases k
  {
    if k == 0 then sub else lanes + RoundIndex(k - 1, lanes, sub)
  }

  lemma {:induction false} RoundIndexIs(k: nat, lanes: nat, sub: nat)
    ensures RoundIndex(k, lanes, sub) == k * lanes + sub
    decreases k
  {
    if k > 0 {
      RoundIndexIs(k - 1, lanes, sub);
      OneMore(k - 1, lanes);
    }
  }

  lemma {:induction false} RoundIs(nodesOf: seq<seq<nat>>, lanes: nat, deltas: seq<nat>, k: nat, sub: nat)
    requires Uniform(nodesOf, lanes) && k < |deltas| && sub < lanes
    ensures RoundIndex(k, lanes, sub) < |RoundsFor(nodesOf, lanes, deltas)|
    ensures RoundsFor(nodesOf, lanes, deltas)[RoundIndex(k, lanes, sub)]
         == MicroRound(nodesOf, lanes, deltas[k], sub, 0)
    decreases k
  {
    if k == 0 {
      FirstRounds(nodesOf, lanes, deltas, sub);
    } else {
      RoundIs(nodesOf, lanes, deltas[1..], k - 1, sub);
      LaterRounds(nodesOf, lanes, deltas, RoundIndex(k - 1, lanes, sub));
    }
  }

  /** The rounds go through the server distances in their order, and for each through the lane offsets: round
      k * G + sub holds exactly the pairs whose servers are the k-th distance apart and whose lanes `sub`. */
  lemma RoundHolds(nodesOf: seq<seq<nat>>, lanes: nat, k: nat, sub: nat, a: nat, i: nat, b: nat, j: nat)
    requires Uniform(nodesOf, lanes) && sub < lanes && k < |DeltaOrder(|nodesOf|)|
    requires a < |nodesOf| && i < lanes && b < |nodesOf| && j < lanes
    ensures k * lanes + sub < |NcclPairwise(nodesOf, lanes)|
    ensures Pair(nodesOf[a][i], nodesOf[b][j]) in NcclPairwise(nodesOf, lanes)[k * lanes + sub]
       <==> Rem(b - a, |nodesOf|) == DeltaOrder(|nodesOf|)[k] && Rem(j - i, lanes) == sub
  {
    var deltas := DeltaOrder(|nodesOf|);
    DeltaFacts(|nodesOf|);
    RoundIs(nodesOf, lanes, deltas, k, sub);
    RoundIndexIs(k, lanes, sub);
    MicroRoundTimes(nodesOf, lanes, deltas[k], sub, 0, a, i, b, j);
    TimesZero(MicroRound(nodesOf, lanes, deltas[k], sub, 0), Pair(nodesOf[a][i], nodesOf[b][j]));
  }
}
