/** The permuted destination list of the train-to-gen generator (htsim_runner.py:1031-1095). A node's server is
    its number divided by the GPUs per server, its local id the remainder; `srvs` and `lids` are the shuffled
    servers and local ids. */
module Destinations {
  import opened Counting
  import opened OrderedMaps
  import opened Sequences

  function Server(x: nat, gpus: nat): nat
    requires 0 < gpus
  {
    x / gpus
  }

  lemma SameNode(x: nat, y: nat, gpus: nat)
    requires 0 < gpus && Server(x, gpus) == Server(y, gpus) && Rem(x, gpus) == Rem(y, gpus)
    ensures x == y
  {
    assert x == (x / gpus) * gpus + x % gpus && y == (y / gpus) * gpus + y % gpus;
  }

  /** The gen nodes of one server, by local id. */
  ghost predicate IsLocals(m: map<nat, nat>, gen: seq<nat>, srv: nat, gpus: nat)
    requires 0 < gpus
  {
    && (forall l :: l in m ==> m[l] in gen && Server(m[l], gpus) == srv && Rem(m[l], gpus) == l)
    && (forall x :: x in gen && Server(x, gpus) == srv ==> Rem(x, gpus) in m && m[Rem(x, gpus)] == x)
  }

  /** The shuffles are permutations of the servers that have gen nodes, and of the local ids. */
  ghost predicate Setting(gen: seq<nat>, gpus: nat, srvs: seq<nat>, lids: seq<nat>)
  {
    && 0 < gpus && Distinct(gen) && Distinct(srvs)
    && (forall s :: s in srvs ==> exists x :: x in gen && Server(x, gpus) == s)
    && (forall x :: x in gen ==> Server(x, gpus) in srvs)
    && |lids| == gpus && (forall l: nat :: l < gpus ==> l in lids)
  }

  method LocalIds(gen: seq<nat>, srv: nat, gpus: nat) returns (m: map<nat, nat>)
    requires 0 < gpus
    ensures IsLocals(m, gen, srv, gpus)
  {
    m := map[];
    for i := 0 to |gen|
      invariant IsLocals(m, gen[..i], srv, gpus)
    {
      ghost var before, seen := m, gen[..i];
      assert gen[..i + 1] == seen + [gen[i]];
      if Server(gen[i], gpus) == srv {
        m := m[Rem(gen[i], gpus) := gen[i]];
        forall x | x in gen[..i + 1] && Server(x, gpus) == srv ensures Rem(x, gpus) in m && m[Rem(x, gpus)] == x {
          if Rem(x, gpus) == Rem(gen[i], gpus) { SameNode(x, gen[i], gpus); } else { assert x in seen; }
        }
      }
    }
    assert gen[..|gen|] == gen;
  }

  /** The wanted node, or the `used`-th one of the server if the wanted one is no gen node. */
  function Pick(m: map<nat, nat>, lid: nat, used: nat): (x: nat)
    requires m != map[]
    ensures exists l :: l in m && m[l] == x
    ensures lid in m ==> x == m[lid]
  {
    if lid in m then m[lid]
    else
      assert m.Keys != {} && |m.Keys| > 0;
      var k := Sorted(m.Keys)[Rem(used, |m.Keys|)];
      assert k in Sorted(m.Keys);
      m[k]
  }

  lemma LocalsNonEmpty(m: map<nat, nat>, gen: seq<nat>, gpus: nat, srvs: seq<nat>, lids: seq<nat>, i: nat)
    requires Setting(gen, gpus, srvs, lids) && i < |srvs| && IsLocals(m, gen, srvs[i], gpus)
    ensures m != map[]
  {
    assert srvs[i] in srvs;
    var x :| x in gen && Server(x, gpus) == srvs[i];
    assert Rem(x, gpus) in m;
  }

  /** Node `x` is the one to pick for a server and a local id: the gen node with that local id, or, if the server has
      none, the one with the least local id. */
  ghost predicate Preferred(x: nat, gen: seq<nat>, gpus: nat, srv: nat, lid: nat)
    requires 0 < gpus
  {
    && x in gen && Server(x, gpus) == srv
    && (forall y :: y in gen && Server(y, gpus) == srv && Rem(y, gpus) == lid ==> y == x)
    && (Rem(x, gpus) == lid || forall y :: y in gen && Server(y, gpus) == srv ==> Rem(x, gpus) <= Rem(y, gpus))
  }

  /** One destination on each of the first `n` servers, in their order, the local ids going round. */
  ghost predicate Spread(dst: seq<nat>, gen: seq<nat>, gpus: nat, srvs: seq<nat>, lids: seq<nat>, n: nat)
    requires 0 < gpus && lids != [] && n <= |srvs|
  {
    n <= |dst| && forall i :: 0 <= i < n ==> Preferred(dst[i], gen, gpus, srvs[i], lids[Rem(i, |lids|)])
  }

  lemma SpreadSnoc(dst: seq<nat>, gen: seq<nat>, gpus: nat, srvs: seq<nat>, lids: seq<nat>, x: nat)
    requires 0 < gpus && lids != [] && |dst| < |srvs| && Spread(dst, gen, gpus, srvs, lids, |dst|)
    requires Preferred(x, gen, gpus, srvs[|dst|], lids[Rem(|dst|, |lids|)])
    ensures Spread(dst + [x], gen, gpus, srvs, lids, |dst| + 1)
  {
  }

  lemma PickPreferred(m: map<nat, nat>, gen: seq<nat>, gpus: nat, srv: nat, lid: nat)
    requires 0 < gpus && IsLocals(m, gen, srv, gpus) && m != map[]
    ensures Preferred(Pick(m, lid, 0), gen, gpus, srv, lid)
  {
    if lid !in m {
      assert m.Keys != {} && |m.Keys| > 0;
      DivModUnique(0, 0, |m.Keys|);
      var k := Sorted(m.Keys)[0];
      forall l | l in m ensures k <= l {
        var i :| 0 <= i < |m.Keys| && Sorted(m.Keys)[i] == l;
      }
    }
  }

  method FirstPick(gen: seq<nat>, gpus: nat, srvs: seq<nat>, lids: seq<nat>, i: nat) returns (x: nat)
    requires Setting(gen, gpus, srvs, lids) && i < |srvs|
    ensures Preferred(x, gen, gpus, srvs[i], lids[Rem(i, |lids|)])
  {
    var m := LocalIds(gen, srvs[i], gpus);
    LocalsNonEmpty(m, gen, gpus, srvs, lids, i);
    PickPreferred(m, gen, gpus, srvs[i], lids[Rem(i, |lids|)]);
    x := Pick(m, lids[Rem(i, |lids|)], 0);
  }

  method FirstRound(gen: seq<nat>, gpus: nat, srvs: seq<nat>, lids: seq<nat>) returns (dst: seq<nat>)
    requires Setting(gen, gpus, srvs, lids)
    ensures |dst| == |srvs| && Spread(dst, gen, gpus, srvs, lids, |srvs|)
  {
    dst := [];
    while |dst| < |srvs|
      invariant |dst| <= |srvs| && Spread(dst, gen, gpus, srvs, lids, |dst|)
    {
      var x := FirstPick(gen, gpus, srvs, lids, |dst|);
      SpreadSnoc(dst, gen, gpus, srvs, lids, x);
      dst := dst + [x];
    }
  }

  // ---------------------------------------------------------------- every node gets its turn

  /** The step, counted round the cycle of all (server, local id) pairs, at which a node has its turn. */
  function Turn(a: nat, b: nat, servers: nat): nat { b * servers + a }

  lemma TurnBelow(a: nat, b: nat, servers: nat, locals: nat)
    requires a < servers && b < locals
    ensures Turn(a, b, servers) < locals * servers
  {
    MulStep(b, locals, servers);
  }

  lemma TurnComes(j: nat, a: nat, b: nat, servers: nat, locals: nat)
    requires a < servers && b < locals && 0 < locals * servers && Rem(j, locals * servers) == Turn(a, b, servers)
    ensures Rem(j, servers) == a && Rem(j / servers, locals) == b
  {
    var n := locals * servers;
    var q := j / n;
    assert j == q * n + Turn(a, b, servers);
    assert q * n == (q * locals) * servers;
    assert j == (q * locals + b) * servers + a;
    DivModUnique(q * locals + b, a, servers);
    DivModUnique(q, b, locals);
  }

  lemma Nearer(t: int, j: int, n: nat)
    requires 0 < n
    ensures Rem(t - j, n) > 0 ==> Rem(t - (j + 1), n) == Rem(t - j, n) - 1
    ensures 0 <= t < n && Rem(t - j, n) == 0 ==> Rem(j, n) == t
  {
    var q, r := (t - j) / n, (t - j) % n;
    assert t - j == q * n + r;
    if r > 0 { DivModUnique(q, r - 1, n); }
    if 0 <= t < n && r == 0 {
      assert j == (-q) * n + t;
      DivModUnique(-q, t, n);
    }
  }

  lemma MissingExists(dst: seq<nat>, gen: seq<nat>)
    requires Distinct(gen) && |dst| < |gen|
    ensures exists x :: x in gen && x !in dst
  {
    DistinctSize(gen);
    AtMost(dst);
    if forall x :: x in gen ==> x in dst { SubsetSize(Members(gen), Members(dst)); }
  }

  lemma {:induction false} AtMost(s: seq<nat>)
    ensures |Members(s)| <= |s|
  {
    if s != [] { AtMost(s[1..]); }
  }

  /** As many different gen nodes as there are gen nodes: all of them. */
  lemma Enumerates(dst: seq<nat>, gen: seq<nat>)
    requires Distinct(gen) && Distinct(dst) && |dst| == |gen| && forall x :: x in dst ==> x in gen
    ensures forall x :: x in gen ==> x in dst
  {
    DistinctSize(gen);
    DistinctSize(dst);
    FullSubset(Members(dst), Members(gen));
  }

  ghost predicate Sound(dst: seq<nat>, gen: seq<nat>) { Distinct(dst) && forall x :: x in dst ==> x in gen }

  /** Node `x` is still missing, and its turn comes round at `turn`. */
  ghost predicate Awaits(x: nat, turn: nat, dst: seq<nat>, gen: seq<nat>, gpus: nat, srvs: seq<nat>, lids: seq<nat>)
    requires 0 < gpus
  {
    && x in gen && x !in dst
    && (exists a, b | 0 <= a < |srvs| && 0 <= b < |lids| ::
          srvs[a] == Server(x, gpus) && lids[b] == Rem(x, gpus) && turn == Turn(a, b, |srvs|))
  }

  lemma NextMissing(dst: seq<nat>, gen: seq<nat>, gpus: nat, srvs: seq<nat>, lids: seq<nat>) returns (x: nat, turn: nat)
    requires Setting(gen, gpus, srvs, lids) && |dst| < |gen|
    ensures Awaits(x, turn, dst, gen, gpus, srvs, lids) && turn < |lids| * |srvs|
  {
    MissingExists(dst, gen);
    x :| x in gen && x !in dst;
    assert Server(x, gpus) in srvs && Rem(x, gpus) in lids;
    var a :| 0 <= a < |srvs| && srvs[a] == Server(x, gpus);
    var b :| 0 <= b < |lids| && lids[b] == Rem(x, gpus);
    turn := Turn(a, b, |srvs|);
    TurnBelow(a, b, |srvs|, |lids|);
  }

  /** When its turn comes, the missing node is the one that is picked. */
  lemma TurnPicks(x: nat, turn: nat, dst: seq<nat>, gen: seq<nat>, gpus: nat, srvs: seq<nat>, lids: seq<nat>, j: nat,
                  m: map<nat, nat>)
    requires Setting(gen, gpus, srvs, lids) && srvs != [] && Awaits(x, turn, dst, gen, gpus, srvs, lids)
    requires 0 < |lids| * |srvs| && Rem(j, |lids| * |srvs|) == turn && IsLocals(m, gen, srvs[Rem(j, |srvs|)], gpus)
    ensures lids[Rem(j / |srvs|, |lids|)] in m && m[lids[Rem(j / |srvs|, |lids|)]] == x
  {
    var a, b :| 0 <= a < |srvs| && 0 <= b < |lids| && srvs[a] == Server(x, gpus) && lids[b] == Rem(x, gpus)
       && turn == Turn(a, b, |srvs|);
    TurnComes(j, a, b, |srvs|, |lids|);
  }

  lemma Added(dst: seq<nat>, gen: seq<nat>, x: nat)
    requires Distinct(gen) && Sound(dst, gen) && x in gen && x !in dst
    ensures Sound(dst + [x], gen) && |dst| < |gen|
  {
    DistinctSize(dst);
    DistinctSize(gen);
    SubsetSize(Members(dst) + {x}, Members(gen));
  }

  /** What step `j` of the cycle picks: a gen node, and the missing one if it is its turn. */
  method PickAt(gen: seq<nat>, gpus: nat, srvs: seq<nat>, lids: seq<nat>, j: nat, used: nat,
                ghost dst: seq<nat>, ghost x: nat, ghost turn: nat) returns (nid: nat)
    requires Setting(gen, gpus, srvs, lids) && srvs != [] && 0 < |lids| * |srvs|
    requires Awaits(x, turn, dst, gen, gpus, srvs, lids) && turn < |lids| * |srvs|
    ensures nid in gen && (Rem(turn - j, |lids| * |srvs|) == 0 ==> nid == x)
  {
    var m := LocalIds(gen, srvs[Rem(j, |srvs|)], gpus);
    LocalsNonEmpty(m, gen, gpus, srvs, lids, Rem(j, |srvs|));
    nid := Pick(m, lids[Rem(j / |srvs|, |lids|)], used);
    Nearer(turn, j, |lids| * |srvs|);
    if Rem(turn - j, |lids| * |srvs|) == 0 { TurnPicks(x, turn, dst, gen, gpus, srvs, lids, j, m); }
  }

  /** One step of the cycle: a node is added, or the missing node's turn is one step nearer. */
  method FillStep(gen: seq<nat>, gpus: nat, srvs: seq<nat>, lids: seq<nat>, dst: seq<nat>, j: nat, used: nat,
                  ghost x: nat, ghost turn: nat, ghost n: nat) returns (dst': seq<nat>, ghost x': nat, ghost turn': nat)
    requires Setting(gen, gpus, srvs, lids) && srvs != [] && Sound(dst, gen) && |dst| < |gen|
    requires 0 < n == |lids| * |srvs| && Awaits(x, turn, dst, gen, gpus, srvs, lids) && turn < n
    ensures dst <= dst' && Sound(dst', gen) && |dst'| <= |gen|
    ensures |dst'| < |gen| ==> Awaits(x', turn', dst', gen, gpus, srvs, lids) && turn' < n
    ensures |dst| < |dst'| || (dst' == dst && turn' == turn && Rem(turn - (j + 1), n) < Rem(turn - j, n))
  {
    dst', x', turn' := dst, x, turn;
    var nid := PickAt(gen, gpus, srvs, lids, j, used, dst, x, turn);
    Nearer(turn, j, n);
    if nid !in dst {
      Added(dst, gen, nid);
      dst' := dst + [nid];
      if |dst'| < |gen| { x', turn' := NextMissing(dst', gen, gpus, srvs, lids); }
    }
  }

  /** Cycling through servers and local ids until every gen node is listed. The loop ends because each node
      has its turn once in every cycle. */
  method Fill(gen: seq<nat>, gpus: nat, srvs: seq<nat>, lids: seq<nat>, start: seq<nat>) returns (dst: seq<nat>)
    requires Setting(gen, gpus, srvs, lids) && srvs != [] && Sound(start, gen) && |start| <= |gen|
    ensures start <= dst && Sound(dst, gen) && |dst| == |gen|
  {
    dst := start;
    var used: map<nat, nat> := map s | s in srvs :: 1;
    var j: nat := |start|;
    ghost var n := |lids| * |srvs|;
    CycleNonEmpty(|lids|, |srvs|);
    ghost var x: nat, turn: nat := 0, 0;
    if |dst| < |gen| { x, turn := NextMissing(dst, gen, gpus, srvs, lids); }
    while |dst| < |gen|
      invariant start <= dst && Sound(dst, gen) && |dst| <= |gen| && (forall s :: s in srvs ==> s in used)
      invariant |dst| < |gen| ==> Awaits(x, turn, dst, gen, gpus, srvs, lids) && turn < n
      decreases |gen| - |dst|, Rem(turn - j, n)
    {
      var srv := srvs[Rem(j, |srvs|)];
      assert srv in srvs;
      dst, x, turn := FillStep(gen, gpus, srvs, lids, dst, j, used[srv], x, turn, n);
      used := used[srv := used[srv] + 1];
      j := j + 1;
    }
  }

  lemma CycleNonEmpty(locals: nat, servers: nat)
    requires 0 < locals && 0 < servers
    ensures 0 < locals * servers
  {
  }

  /** The destination list for `groups` sender groups: no destination twice; first one on every server, the local ids
      going round; and all of them if one per server is not enough. */
  method PermutedDestinations(gen: seq<nat>, gpus: nat, srvs: seq<nat>, lids: seq<nat>, groups: nat)
    returns (dst: seq<nat>)
    requires Setting(gen, gpus, srvs, lids) && srvs != []
    ensures Sound(dst, gen) && dst != [] && Spread(dst, gen, gpus, srvs, lids, |srvs|)
    ensures groups <= |dst| || forall x :: x in gen ==> x in dst
  {
    dst := FirstRound(gen, gpus, srvs, lids);
    assert Sound(dst, gen) by {
      forall i, k | 0 <= i < k < |dst| ensures dst[i] != dst[k] { assert srvs[i] != srvs[k]; }
    }
    if groups > |dst| {
      NotMore(dst, gen);
      dst := Fill(gen, gpus, srvs, lids, dst);
      Enumerates(dst, gen);
    }
  }

  lemma NotMore(dst: seq<nat>, gen: seq<nat>)
    requires Distinct(gen) && Sound(dst, gen)
    ensures |dst| <= |gen|
  {
    DistinctSize(dst);
    DistinctSize(gen);
    SubsetSize(Members(dst), Members(gen));
  }

  /** Sender groups closer together than the list is long get different destinations; so all of them do, until
      the list is exhausted. */
  lemma UniqueUntilExhausted(dst: seq<nat>, i: nat, j: nat)
    requires Distinct(dst) && dst != [] && i < j < i + |dst|
    ensures dst[Rem(i, |dst|)] != dst[Rem(j, |dst|)]
  {
    var a, b := Rem(i, |dst|), Rem(j, |dst|);
    if a == b { SameClass(i, j, |dst|); }
    assert dst[if a < b then a else b] != dst[if a < b then b else a];
  }
}
