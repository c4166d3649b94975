/** Ring collectives over all groups: the rings of the channels, the chains of their steps, and rings of servers
    (htsim_runner.py:457-529, 817-912). */
module Rings {
  import opened AllToAll
  import opened Chunking
  import opened Counting
  import opened Options
  import opened Sequences
  import opened Servers
  import opened Transfers
  import opened TriggerProgram
  import opened Schedules

  // ---------------------------------------------------------------- the rings of the channels

  /** A server's members from the one that channel `ch` starts with. */
  function Rotate(row: seq<nat>, ch: nat): (r: seq<nat>)
    ensures |r| == |row|
  {
    seq(|row|, j requires 0 <= j < |row| => row[Rem(Rem(ch, |row|) + j, |row|)])
  }

  function Rotated(rows: seq<seq<nat>>, ch: nat): (r: seq<seq<nat>>)
    ensures |r| == |rows|
  {
    seq(|rows|, i requires 0 <= i < |rows| => Rotate(rows[i], ch))
  }

  function ChannelRing(rows: seq<seq<nat>>, ch: nat): seq<nat> { Flat(Rotated(rows, ch)) }

  /** _build_channel_rings: one ring per channel, rotated if there are several and the servers are equally large. */
  function ChannelRings(rows: seq<seq<nat>>, channels: int): (rings: seq<seq<nat>>)
    ensures |rings| == if channels < 0 then 0 else channels
  {
    if channels == 1 then [Flat(rows)]
    else
      seq(if channels < 0 then 0 else channels, ch requires 0 <= ch =>
        if Even(rows) then ChannelRing(rows, ch) else Flat(rows))
  }

  lemma RotatePlace(row: seq<nat>, ch: nat, i: nat, j: nat)
    requires i < |row| && j < |row|
    ensures Rem(Rem(ch, |row|) + j, |row|) == i <==> j == Rem(i - Rem(ch, |row|), |row|)
  {
    StepTo(Rem(ch, |row|), j, i, |row|);
  }

  lemma RotateHas(row: seq<nat>, ch: nat, x: nat)
    ensures x in Rotate(row, ch) <==> x in row
  {
    if x in row {
      var i :| 0 <= i < |row| && row[i] == x;
      var j := Rem(i - Rem(ch, |row|), |row|);
      RotatePlace(row, ch, i, j);
      assert Rotate(row, ch)[j] == x;
    }
    if x in Rotate(row, ch) {
      var j :| 0 <= j < |row| && Rotate(row, ch)[j] == x;
      assert row[Rem(Rem(ch, |row|) + j, |row|)] == x;
    }
  }

  lemma RotateDistinct(row: seq<nat>, ch: nat)
    requires Distinct(row)
    ensures Distinct(Rotate(row, ch))
  {
    forall i, j | 0 <= i < j < |row| ensures Rotate(row, ch)[i] != Rotate(row, ch)[j] {
      var a := Rem(Rem(ch, |row|) + i, |row|);
      RotatePlace(row, ch, a, i);
      RotatePlace(row, ch, a, j);
    }
  }

  lemma RotatedApart(rows: seq<seq<nat>>, ch: nat)
    requires Apart(rows)
    ensures Apart(Rotated(rows, ch))
  {
    forall i | 0 <= i < |rows| ensures Distinct(Rotated(rows, ch)[i]) { RotateDistinct(rows[i], ch); }
    forall i, j, x | 0 <= i < |rows| && 0 <= j < |rows| && x in Rotated(rows, ch)[i] && x in Rotated(rows, ch)[j]
      ensures i == j
    {
      RotateHas(rows[i], ch, x);
      RotateHas(rows[j], ch, x);
    }
  }

  lemma RotatedHas(rows: seq<seq<nat>>, ch: nat, x: nat)
    ensures x in ChannelRing(rows, ch) <==> x in Flat(rows)
  {
    FlatHas(rows, x);
    FlatHas(Rotated(rows, ch), x);
    forall i | 0 <= i < |rows| ensures x in Rotated(rows, ch)[i] <==> x in rows[i] { RotateHas(rows[i], ch, x); }
  }

  /** A ring through exactly the members of the group, each once. */
  ghost predicate RingThrough(ring: seq<nat>, g: seq<nat>)
  {
    Distinct(ring) && |ring| == |g| && forall x :: x in ring <==> x in g
  }

  lemma BaseHas(g: seq<nat>, w: Sites, x: nat)
    requires Placed(g, w)
    ensures x in Flat(ByServer(g, w)) <==> x in g
  {
    FlatHas(ByServer(g, w), x);
    if x in g {
      var s := RowOf(g, w, x);
    }
    if s :| 0 <= s < |ByServer(g, w)| && x in ByServer(g, w)[s] { RowIs(g, w, s, x); }
  }

  lemma BaseRing(g: seq<nat>, w: Sites)
    requires Placed(g, w) && Distinct(g)
    ensures RingThrough(Flat(ByServer(g, w)), g)
  {
    RowsApart(g, w);
    FlatDistinct(ByServer(g, w));
    forall x ensures x in Flat(ByServer(g, w)) <==> x in g { BaseHas(g, w, x); }
    SameSize(Flat(ByServer(g, w)), g);
  }

  lemma RotatedRing(g: seq<nat>, w: Sites, ch: nat)
    requires Placed(g, w) && Distinct(g)
    ensures RingThrough(ChannelRing(ByServer(g, w), ch), g)
  {
    RowsApart(g, w);
    RotatedApart(ByServer(g, w), ch);
    FlatDistinct(Rotated(ByServer(g, w), ch));
    forall x ensures x in ChannelRing(ByServer(g, w), ch) <==> x in g {
      BaseHas(g, w, x);
      RotatedHas(ByServer(g, w), ch, x);
    }
    SameSize(ChannelRing(ByServer(g, w), ch), g);
  }

  lemma RingOfChannel(rows: seq<seq<nat>>, channels: int, ch: nat)
    requires ch < |ChannelRings(rows, channels)|
    ensures ChannelRings(rows, channels)[ch] == Flat(rows) || ChannelRings(rows, channels)[ch] == ChannelRing(rows, ch)
  {
  }

  /** Whatever the group, its servers and the number of channels: every channel's ring goes through every member
      once, and through no other node. */
  lemma ChannelRingsAreRings(g: seq<nat>, w: Sites, channels: int, ch: nat)
    requires Placed(g, w) && Distinct(g) && ch < |ChannelRings(ByServer(g, w), channels)|
    ensures RingThrough(ChannelRings(ByServer(g, w), channels)[ch], g)
  {
    BaseRing(g, w);
    RotatedRing(g, w, ch);
    RingOfChannel(ByServer(g, w), channels, ch);
  }

  lemma {:induction false} FlatAt(rows: seq<seq<nat>>, lanes: nat, i: nat, j: nat)
    requires i < |rows| && j < lanes && forall s :: 0 <= s < |rows| ==> |rows[s]| == lanes
    ensures i * lanes + j < |Flat(rows)| == |rows| * lanes && Flat(rows)[i * lanes + j] == rows[i][j]
    decreases |rows|
  {
    var rest := rows[1..];
    OneMore(|rest|, lanes);
    if |rest| == 0 {
    } else if i == 0 {
      FlatAt(rest, lanes, 0, j);
    } else {
      FlatAt(rest, lanes, i - 1, j);
      OneMore(i - 1, lanes);
    }
  }

  lemma RotatedRail(rows: seq<seq<nat>>, lanes: nat, ch: nat, i: nat, j: nat)
    requires i < |rows| && j < lanes && forall s :: 0 <= s < |rows| ==> |rows[s]| == lanes
    ensures var ring := ChannelRing(rows, ch); var n := |ring|; var k := i * lanes + j;
      && k < n && ring[k] == rows[i][Rem(ch + j, lanes)]
      && ring[Rem(k + 1, n)] == (if j + 1 < lanes then rows[i][Rem(ch + j + 1, lanes)]
                                 else rows[Rem(i + 1, |rows|)][Rem(ch, lanes)])
  {
    RailAt(rows, lanes, ch, i, j);
    var n := |rows| * lanes;
    if j + 1 < lanes {
      RailAt(rows, lanes, ch, i, j + 1);
      DivModUnique(0, i * lanes + j + 1, n);
    } else {
      OneMore(i, lanes);
      NextServerAt(|rows|, lanes, i);
      RailAt(rows, lanes, ch, Rem(i + 1, |rows|), 0);
    }
  }

  lemma SmallRem(j: nat, n: nat)
    requires j < n
    ensures Rem(j, n) == j
  {
    DivModUnique(0, j, n);
  }

  lemma NotRotated(rows: seq<seq<nat>>)
    ensures Rotated(rows, 0) == rows
  {
    forall i | 0 <= i < |rows| ensures Rotate(rows[i], 0) == rows[i] {
      forall j | 0 <= j < |rows[i]| ensures Rotate(rows[i], 0)[j] == rows[i][j] {
        SmallRem(0, |rows[i]|);
        SmallRem(j, |rows[i]|);
      }
    }
  }

  lemma EvenChannel(rows: seq<seq<nat>>, channels: int, ch: nat)
    requires Even(rows) && ch < |ChannelRings(rows, channels)|
    ensures ChannelRings(rows, channels)[ch] == ChannelRing(rows, ch)
  {
    NotRotated(rows);
  }

  /** The rails of the emitted rings, for servers with equally many members: the ring of channel `ch` enters each
      server at member ch mod G, goes through its members in order, and leaves for the next server from the last, so
      it crosses from member ch - 1 to member ch. */
  lemma ChannelRail(rows: seq<seq<nat>>, lanes: nat, channels: int, ch: nat, i: nat, j: nat)
    requires i < |rows| && j < lanes && forall s :: 0 <= s < |rows| ==> |rows[s]| == lanes
    requires ch < |ChannelRings(rows, channels)|
    ensures var ring := ChannelRings(rows, channels)[ch]; var n := |ring|; var k := i * lanes + j;
      && k < n && ring[k] == rows[i][Rem(ch + j, lanes)]
      && ring[Rem(k + 1, n)] == (if j + 1 < lanes then rows[i][Rem(ch + j + 1, lanes)]
                                 else rows[Rem(i + 1, |rows|)][Rem(ch, lanes)])
  {
    EvenChannel(rows, channels, ch);
    RotatedRail(rows, lanes, ch, i, j);
  }

  /** By server, and on a server by number. */
  ghost predicate Precedes(w: Sites, x: nat, y: nat)
  {
    && x in w.serverOf && y in w.serverOf
    && (w.serverOf[x] < w.serverOf[y] || (w.serverOf[x] == w.serverOf[y] && x < y))
  }

  ghost predicate InServerOrder(ring: seq<nat>, w: Sites)
  {
    forall i, j :: 0 <= i < j < |ring| ==> Precedes(w, ring[i], ring[j])
  }

  ghost predicate OrderedRows(rows: seq<seq<nat>>, w: Sites)
  {
    && (forall s :: 0 <= s < |rows| ==> InServerOrder(rows[s], w))
    && (forall s, t, x, y :: 0 <= s < t < |rows| && x in rows[s] && y in rows[t] ==> Precedes(w, x, y))
  }

  lemma {:induction false} RowsInOrder(rows: seq<seq<nat>>, w: Sites)
    requires OrderedRows(rows, w)
    ensures InServerOrder(Flat(rows), w)
  {
    if rows != [] {
      var first, rest := rows[0], rows[1..];
      assert forall s :: 0 <= s < |rest| ==> rest[s] == rows[s + 1];
      RowsInOrder(rest, w);
      forall x, y | x in first && y in Flat(rest) ensures Precedes(w, x, y) { FlatHas(rest, y); }
      assert forall j :: 0 <= j < |Flat(rest)| ==> Flat(rest)[j] in Flat(rest);
    }
  }

  /** If the servers have differently many members, every channel's ring is the plain one: server by server in
      increasing order, on each its members in increasing order. */
  lemma PlainRing(g: seq<nat>, w: Sites, channels: int, ch: nat)
    requires Placed(g, w) && ch < |ChannelRings(ByServer(g, w), channels)| && !Even(ByServer(g, w))
    ensures InServerOrder(ChannelRings(ByServer(g, w), channels)[ch], w)
  {
    UnevenChannel(ByServer(g, w), channels, ch);
    BaseInOrder(g, w);
  }

  lemma BaseInOrder(g: seq<nat>, w: Sites)
    requires Placed(g, w)
    ensures InServerOrder(Flat(ByServer(g, w)), w)
  {
    ServersOrdered(g, w);
    RowsInOrder(ByServer(g, w), w);
  }

  lemma UnevenChannel(rows: seq<seq<nat>>, channels: int, ch: nat)
    requires !Even(rows) && ch < |ChannelRings(rows, channels)|
    ensures ChannelRings(rows, channels)[ch] == Flat(rows)
  {
  }

  lemma ServersOrdered(g: seq<nat>, w: Sites)
    requires Placed(g, w)
    ensures OrderedRows(ByServer(g, w), w)
  {
    var rows := ByServer(g, w);
    forall s | 0 <= s < |rows| ensures InServerOrder(rows[s], w) { RowInOrder(g, w, s); }
    forall s, t, x, y | 0 <= s < t < |rows| && x in rows[s] && y in rows[t] ensures Precedes(w, x, y) {
      RowsPrecede(g, w, s, t, x, y);
    }
  }

  lemma RowsPrecede(g: seq<nat>, w: Sites, s: nat, t: nat, x: nat, y: nat)
    requires Placed(g, w) && s < t < |ByServer(g, w)| && x in ByServer(g, w)[s] && y in ByServer(g, w)[t]
    ensures Precedes(w, x, y)
  {
    RowIs(g, w, s, x);
    RowIs(g, w, t, y);
  }

  lemma RowInOrder(g: seq<nat>, w: Sites, s: nat)
    requires Placed(g, w) && s < |ByServer(g, w)|
    ensures InServerOrder(ByServer(g, w)[s], w)
  {
    forall i, j | 0 <= i < j < |ByServer(g, w)[s]| ensures Precedes(w, ByServer(g, w)[s][i], ByServer(g, w)[s][j]) {
      RowIs(g, w, s, ByServer(g, w)[s][i]);
      RowIs(g, w, s, ByServer(g, w)[s][j]);
    }
  }

  lemma NextServerAt(servers: nat, lanes: nat, i: nat)
    requires i < servers && 0 < lanes
    ensures 0 < servers * lanes && Rem((i + 1) * lanes, servers * lanes) == Rem(i + 1, servers) * lanes
  {
    MulStep(0, servers, lanes);
    if i + 1 < servers {
      DivModUnique(0, i + 1, servers);
      MulStep(i + 1, servers, lanes);
      DivModUnique(0, (i + 1) * lanes, servers * lanes);
    } else {
      DivModUnique(1, 0, servers);
      DivModUnique(1, 0, servers * lanes);
    }
  }

  lemma RailAt(rows: seq<seq<nat>>, lanes: nat, ch: nat, i: nat, j: nat)
    requires i < |rows| && j < lanes && forall s :: 0 <= s < |rows| ==> |rows[s]| == lanes
    ensures var ring := ChannelRing(rows, ch);
      i * lanes + j < |ring| == |rows| * lanes && ring[i * lanes + j] == rows[i][Rem(ch + j, lanes)]
  {
    FlatAt(Rotated(rows, ch), lanes, i, j);
    AddRem(ch, j, lanes);
  }

  lemma AddRem(a: nat, j: nat, m: nat)
    requires 0 < m
    ensures Rem(Rem(a, m) + j, m) == Rem(a + j, m)
  {
    assert a == (a / m) * m + a % m;
    ModShift(a % m + j, a / m, m);
  }

  // ---------------------------------------------------------------- ring collectives over all groups

  /** All-reduce (`reduce`), or all-gather and reduce-scatter, on rings; one channel is the single-ring model. */
  datatype Job = Job(tensor: nat, channels: int, reduce: bool, sites: Sites)
  {
    function Steps(n: nat): nat
      requires 0 < n
    {
      if reduce then 2 * (n - 1) else n - 1
    }

    /** Into how many parts the tensor is cut. */
    function Parts(n: nat): (parts: nat)
      requires 0 < n && 0 < channels
      ensures 0 < parts
    {
      MulStep(0, n, channels);
      if reduce then n * channels else channels
    }

    /** The size of a part, rounded up: the parts cover the tensor, and smaller ones would not. */
    function Part(n: nat): (size: nat)
      requires 0 < n
      ensures 0 < channels ==> size * Parts(n) >= tensor && (tensor > 0 ==> (size - 1) * Parts(n) < tensor)
    {
      if channels <= 0 then 0
      else
        CoverIff(Chunks(tensor, Parts(n)), tensor, Parts(n));
        CoverIff(Chunks(tensor, Parts(n)) - 1, tensor, Parts(n));
        Chunks(tensor, Parts(n))
    }

    function Count(): nat { if channels < 0 then 0 else channels }
  }

  ghost predicate GroupOk(g: seq<nat>, w: Sites) { Placed(g, w) && Distinct(g) }

  ghost predicate GroupsOk(gs: seq<seq<nat>>, w: Sites)
  {
    forall i :: 0 <= i < |gs| ==> GroupOk(gs[i], w)
  }

  lemma RingsPlaced(g: seq<nat>, w: Sites, channels: int)
    requires GroupOk(g, w)
    ensures forall r :: 0 <= r < |ChannelRings(ByServer(g, w), channels)| ==>
        Placed(ChannelRings(ByServer(g, w), channels)[r], w)
  {
    forall r | 0 <= r < |ChannelRings(ByServer(g, w), channels)|
      ensures Placed(ChannelRings(ByServer(g, w), channels)[r], w)
    {
      ChannelRingsAreRings(g, w, channels, r);
      RingIsPlaced(ChannelRings(ByServer(g, w), channels)[r], g, w);
    }
  }

  lemma RingIsPlaced(ring: seq<nat>, g: seq<nat>, w: Sites)
    requires Placed(g, w) && RingThrough(ring, g)
    ensures Placed(ring, w)
  {
    forall i | 0 <= i < |ring| ensures ring[i] in w.serverOf { assert ring[i] in g; }
  }

  /** What one group contributes: for each channel a chain of equal steps. Groups of one member send nothing. */
  ghost function GroupChains(g: seq<nat>, job: Job): seq<seq<seq<Xfer>>>
    requires GroupOk(g, job.sites)
  {
    if |g| <= 1 then []
    else
      RingsPlaced(g, job.sites, job.channels);
      RingChains(ChannelRings(ByServer(g, job.sites), job.channels), job.Part(|g|), job.Steps(|g|), job.sites)
  }

  ghost function AllChains(gs: seq<seq<nat>>, job: Job): seq<seq<seq<Xfer>>>
    requires GroupsOk(gs, job.sites)
  {
    if gs == [] then [] else AllChains(gs[..|gs| - 1], job) + GroupChains(gs[|gs| - 1], job)
  }

  ghost function RingProgram(gs: seq<seq<nat>>, job: Job): Program
    requires GroupsOk(gs, job.sites)
  {
    Compile(AllChains(gs, job))
  }

  ghost predicate NoEmptyPhase(chains: seq<seq<seq<Xfer>>>)
  {
    forall c :: 0 <= c < |chains| ==> NonEmpty(chains[c])
  }

  lemma GroupChainsNonEmpty(g: seq<nat>, job: Job)
    requires GroupOk(g, job.sites)
    ensures NoEmptyPhase(GroupChains(g, job))
  {
    forall c | 0 <= c < |GroupChains(g, job)| ensures NonEmpty(GroupChains(g, job)[c]) {
      ChannelRingsAreRings(g, job.sites, job.channels, c);
    }
  }

  lemma {:induction false} AllChainsNonEmpty(gs: seq<seq<nat>>, job: Job)
    requires GroupsOk(gs, job.sites)
    ensures NoEmptyPhase(AllChains(gs, job))
  {
    if gs != [] {
      AllChainsNonEmpty(gs[..|gs| - 1], job);
      GroupChainsNonEmpty(gs[|gs| - 1], job);
    }
  }

  /** Ring collectives over any groups, with any number of channels, cannot deadlock. */
  lemma RingProgramWellFormed(gs: seq<seq<nat>>, job: Job)
    requires GroupsOk(gs, job.sites)
    ensures NoEmptyPhase(AllChains(gs, job)) && WellFormed(RingProgram(gs, job))
  {
    AllChainsNonEmpty(gs, job);
    CompileWellFormed(AllChains(gs, job));
  }

  lemma InGroup(gs: seq<seq<nat>>, w: Sites, c: nat)
    requires GroupsOk(gs, w) && c < |gs|
    ensures GroupOk(gs[c], w)
  {
  }

  /** The chain of channel `ch` of group `c` in the whole program. */
  ghost function ChainOf(gs: seq<seq<nat>>, job: Job, c: nat, ch: nat): nat
    requires GroupsOk(gs, job.sites) && c <= |gs|
  {
    |AllChains(gs[..c], job)| + ch
  }

  lemma AllChainsSnoc(gs: seq<seq<nat>>, job: Job)
    requires GroupsOk(gs, job.sites) && gs != []
    ensures GroupsOk(gs[..|gs| - 1], job.sites) && GroupOk(gs[|gs| - 1], job.sites)
    ensures AllChains(gs, job) == AllChains(gs[..|gs| - 1], job) + GroupChains(gs[|gs| - 1], job)
  {
    InGroup(gs, job.sites, |gs| - 1);
  }

  lemma {:induction false} FrontIsPrefix(gs: seq<seq<nat>>, job: Job, c: nat)
    requires GroupsOk(gs, job.sites) && c <= |gs|
    ensures GroupsOk(gs[..c], job.sites) && AllChains(gs[..c], job) <= AllChains(gs, job)
    decreases |gs|
  {
    if c == |gs| {
      assert gs[..c] == gs;
    } else {
      AllChainsSnoc(gs, job);
      assert gs[..|gs| - 1][..c] == gs[..c];
      FrontIsPrefix(gs[..|gs| - 1], job, c);
    }
  }

  lemma ChainStands(gs: seq<seq<nat>>, job: Job, c: nat, ch: nat)
    requires GroupsOk(gs, job.sites) && c < |gs| && GroupOk(gs[c], job.sites) && ch < |GroupChains(gs[c], job)|
    ensures ChainOf(gs, job, c, ch) < |AllChains(gs, job)|
    ensures AllChains(gs, job)[ChainOf(gs, job, c, ch)] == GroupChains(gs[c], job)[ch]
  {
    FrontIsPrefix(gs, job, c + 1);
    AllChainsSnoc(gs[..c + 1], job);
    assert gs[..c + 1][..c] == gs[..c];
    InPrefix(AllChains(gs[..c], job), GroupChains(gs[c], job), AllChains(gs, job), ch);
  }

  /** Every channel of a group has its chain: one phase per step, one flow per member in each. */
  lemma ChannelChain(g: seq<nat>, job: Job, ch: nat)
    requires GroupOk(g, job.sites) && |g| > 1 && ch < job.Count()
    ensures ch < |GroupChains(g, job)| && |GroupChains(g, job)[ch]| == job.Steps(|g|)
    ensures forall p :: 0 <= p < job.Steps(|g|) ==> |GroupChains(g, job)[ch][p]| == |g|
  {
    ChannelRingsAreRings(g, job.sites, job.channels, ch);
  }

  ghost predicate InSteps(gs: seq<seq<nat>>, job: Job, c: nat, ch: nat, p: nat, i: nat)
    requires GroupsOk(gs, job.sites)
  {
    c < |gs| && |gs[c]| > 1 && ch < job.Count() && p < job.Steps(|gs[c]|) && i < |gs[c]|
  }

  /** Where the flow of the member at place `i` of the ring of channel `ch` stands in step `p`. */
  ghost function StepFlow(gs: seq<seq<nat>>, job: Job, c: nat, ch: nat, p: nat, i: nat): nat
    requires GroupsOk(gs, job.sites) && InSteps(gs, job, c, ch, p, i)
  {
    InGroup(gs, job.sites, c);
    ChannelChain(gs[c], job, ch);
    ChainStands(gs, job, c, ch);
    Schedules.FlowIndex(AllChains(gs, job), ChainOf(gs, job, c, ch), p, i)
  }

  /** In every reachable state, for every group and channel: once any member has started a step, every member has
      finished every earlier step. */
  lemma RingStepsAreSeparated(gs: seq<seq<nat>>, job: Job, s: State, c: nat, ch: nat, p: nat, q: nat, i: nat, j: nat)
    requires GroupsOk(gs, job.sites) && Inv(RingProgram(gs, job), s)
    requires p < q && InSteps(gs, job, c, ch, p, i) && InSteps(gs, job, c, ch, q, j)
    requires var g := StepFlow(gs, job, c, ch, q, j); g < |s.status| && !s.status[g].Waiting?
    ensures var f := StepFlow(gs, job, c, ch, p, i); f < |s.status| && s.status[f].Finished?
  {
    InGroup(gs, job.sites, c);
    ChannelChain(gs[c], job, ch);
    ChainStands(gs, job, c, ch);
    RingProgramWellFormed(gs, job);
    Schedules.PhasesAreSeparated(AllChains(gs, job), s, ChainOf(gs, job, c, ch), p, q, i, j);
  }

  // ---------------------------------------------------------------- what a member sends and hears

  /** The bytes of the flows that node `x` sends, or (`hears`) receives. */
  function Moved(fs: seq<FlowDef>, x: nat, hears: bool): nat
  {
    if fs == [] then 0
    else (if (if hears then fs[0].dst else fs[0].src) == x then fs[0].size else 0) + Moved(fs[1..], x, hears)
  }

  predicate Touches(t: Xfer, x: nat, hears: bool) { (if hears then t.dst else t.src) == x }

  function Moves(ts: seq<Xfer>, x: nat, hears: bool): nat
  {
    if ts == [] then 0 else (if Touches(ts[0], x, hears) then ts[0].size else 0) + Moves(ts[1..], x, hears)
  }

  lemma {:induction false} MovedConcat(a: seq<FlowDef>, b: seq<FlowDef>, x: nat, hears: bool)
    ensures Moved(a + b, x, hears) == Moved(a, x, hears) + Moved(b, x, hears)
  {
    if a == [] {
      assert a + b == b;
    } else {
      assert (a + b)[1..] == a[1..] + b;
      MovedConcat(a[1..], b, x, hears);
    }
  }

  lemma {:induction false} MovesConcat(a: seq<Xfer>, b: seq<Xfer>, x: nat, hears: bool)
    ensures Moves(a + b, x, hears) == Moves(a, x, hears) + Moves(b, x, hears)
  {
    if a == [] {
      assert a + b == b;
    } else {
      assert (a + b)[1..] == a[1..] + b;
      MovesConcat(a[1..], b, x, hears);
    }
  }

  lemma {:induction false} MovedByPhase(xs: seq<Xfer>, entry: Option<nat>, exit: Option<nat>, x: nat, hears: bool)
    ensures Moved(PhaseFlows(xs, entry, exit), x, hears) == Moves(xs, x, hears)
  {
    if xs != [] {
      assert PhaseFlows(xs, entry, exit)[1..] == PhaseFlows(xs[1..], entry, exit);
      MovedByPhase(xs[1..], entry, exit, x, hears);
    }
  }

  lemma {:induction false} MovedByChain(phases: seq<seq<Xfer>>, base: nat, entry: Option<nat>, x: nat, hears: bool)
    ensures Moved(Chain(phases, base, entry).flows, x, hears) == Moves(Flat(phases), x, hears)
    decreases |phases|
  {
    if phases != [] {
      MovesConcat(phases[0], Flat(phases[1..]), x, hears);
      if |phases| == 1 {
        MovedByPhase(phases[0], entry, None, x, hears);
      } else {
        MovedByPhase(phases[0], entry, Some(base + 1), x, hears);
        MovedByChain(phases[1..], base + 1, Some(base + 1), x, hears);
        MovedConcat(PhaseFlows(phases[0], entry, Some(base + 1)), Chain(phases[1..], base + 1, Some(base + 1)).flows,
                    x, hears);
      }
    }
  }

  /** What a list of chains moves is what each moves. */
  function ChainsMove(chains: seq<seq<seq<Xfer>>>, x: nat, hears: bool): nat
  {
    if chains == [] then 0
    else ChainsMove(chains[..|chains| - 1], x, hears) + Moves(Flat(chains[|chains| - 1]), x, hears)
  }

  lemma {:induction false} MovedByProgram(chains: seq<seq<seq<Xfer>>>, x: nat, hears: bool)
    ensures Moved(Compile(chains).flows, x, hears) == ChainsMove(chains, x, hears)
  {
    if chains != [] {
      var front := Compile(chains[..|chains| - 1]);
      MovedByProgram(chains[..|chains| - 1], x, hears);
      MovedByChain(chains[|chains| - 1], |front.triggers|, None, x, hears);
      MovedConcat(front.flows, Chain(chains[|chains| - 1], |front.triggers|, None).flows, x, hears);
    }
  }

  lemma {:induction false} ChainsMoveConcat(a: seq<seq<seq<Xfer>>>, b: seq<seq<seq<Xfer>>>, x: nat, hears: bool)
    ensures ChainsMove(a + b, x, hears) == ChainsMove(a, x, hears) + ChainsMove(b, x, hears)
    decreases |b|
  {
    if b == [] {
      assert a + b == a;
    } else {
      var n := |b| - 1;
      assert (a + b)[..|a + b| - 1] == a + b[..n] && (a + b)[|a + b| - 1] == b[n];
      ChainsMoveConcat(a, b[..n], x, hears);
    }
  }

  lemma {:induction false} MovesNothing(ts: seq<Xfer>, x: nat, hears: bool)
    requires forall i :: 0 <= i < |ts| ==> !Touches(ts[i], x, hears)
    ensures Moves(ts, x, hears) == 0
  {
    if ts != [] { MovesNothing(ts[1..], x, hears); }
  }

  lemma {:induction false} MovesOnce(ts: seq<Xfer>, k: nat, x: nat, hears: bool)
    requires k < |ts| && forall i :: 0 <= i < |ts| ==> (Touches(ts[i], x, hears) <==> i == k)
    ensures Moves(ts, x, hears) == ts[k].size
  {
    if k == 0 {
      MovesNothing(ts[1..], x, hears);
    } else {
      assert !Touches(ts[0], x, hears);
      MovesOnce(ts[1..], k - 1, x, hears);
    }
  }

  /** What a member sends in a step of the ring, or hears: a part, or one token byte inside a server. */
  ghost function EdgeSize(ring: seq<nat>, size: nat, w: Sites, x: nat, hears: bool): nat
    requires Placed(ring, w) && x in ring
  {
    var a :| 0 <= a < |ring| && ring[a] == x;
    RingXfer(ring, size, w, if hears then Rem(a - 1, |ring|) else a).size
  }

  /** In a step of a ring every member sends one flow and hears one flow, and nobody else does. */
  lemma StepMoves(ring: seq<nat>, size: nat, w: Sites, x: nat, hears: bool)
    requires Placed(ring, w) && Distinct(ring)
    ensures Moves(RingStep(ring, size, w), x, hears) == if x in ring then EdgeSize(ring, size, w, x, hears) else 0
  {
    var step := RingStep(ring, size, w);
    if x in ring {
      var a :| 0 <= a < |ring| && ring[a] == x && EdgeSize(ring, size, w, x, hears)
                 == RingXfer(ring, size, w, if hears then Rem(a - 1, |ring|) else a).size;
      RingStepBalanced(ring, size, w, a);
      MovesOnce(step, if hears then Rem(a - 1, |ring|) else a, x, hears);
    } else {
      forall i | 0 <= i < |ring| ensures !Touches(step[i], x, hears) {
        assert ring[i] in ring && ring[Rem(i + 1, |ring|)] in ring;
      }
      MovesNothing(step, x, hears);
    }
  }

  lemma {:induction false} RepeatMoves(xs: seq<Xfer>, n: nat, x: nat, hears: bool)
    ensures Moves(Flat(Repeat(xs, n)), x, hears) == n * Moves(xs, x, hears)
  {
    if n > 0 {
      assert Repeat(xs, n)[1..] == Repeat(xs, n - 1);
      RepeatMoves(xs, n - 1, x, hears);
      MovesConcat(xs, Flat(Repeat(xs, n - 1)), x, hears);
      OneMore(n - 1, Moves(xs, x, hears));
    }
  }

  /** Rings through the group. */
  ghost predicate AllThrough(rings: seq<seq<nat>>, g: seq<nat>, w: Sites)
  {
    forall r :: 0 <= r < |rings| ==> RingThrough(rings[r], g) && Placed(rings[r], w)
  }

  /** What a member sends, or hears, in one step of every ring together. */
  ghost function EdgeSum(rings: seq<seq<nat>>, g: seq<nat>, size: nat, w: Sites, x: nat, hears: bool): nat
    requires AllThrough(rings, g, w) && x in g
  {
    if rings == [] then 0
    else
      var ring := rings[|rings| - 1];
      assert RingThrough(ring, g);
      EdgeSum(rings[..|rings| - 1], g, size, w, x, hears) + EdgeSize(ring, size, w, x, hears)
  }

  lemma RingMoves(ring: seq<nat>, g: seq<nat>, size: nat, steps: nat, w: Sites, x: nat, hears: bool)
    requires RingThrough(ring, g) && Placed(ring, w)
    ensures Moves(Flat(Repeat(RingStep(ring, size, w), steps)), x, hears)
         == if x in g then steps * EdgeSize(ring, size, w, x, hears) else 0
  {
    StepMoves(ring, size, w, x, hears);
    RepeatMoves(RingStep(ring, size, w), steps, x, hears);
  }

  lemma {:induction false} RingsMove(rings: seq<seq<nat>>, g: seq<nat>, size: nat, steps: nat, w: Sites, x: nat,
                                     hears: bool)
    requires AllThrough(rings, g, w)
    ensures ChainsMove(RingChains(rings, size, steps, w), x, hears)
         == if x in g then steps * EdgeSum(rings, g, size, w, x, hears) else 0
  {
    if rings != [] {
      var n := |rings| - 1;
      var chains := RingChains(rings, size, steps, w);
      assert chains[..n] == RingChains(rings[..n], size, steps, w);
      assert RingThrough(rings[n], g);
      RingsMove(rings[..n], g, size, steps, w, x, hears);
      RingMoves(rings[n], g, size, steps, w, x, hears);
      if x in g { AddUp(steps, EdgeSum(rings[..n], g, size, w, x, hears), EdgeSize(rings[n], size, w, x, hears)); }
    }
  }

  lemma AddUp(a: nat, b: nat, c: nat)
    ensures a * (b + c) == a * b + a * c
  {
  }

  lemma ThroughGroup(g: seq<nat>, w: Sites, channels: int)
    requires GroupOk(g, w)
    ensures AllThrough(ChannelRings(ByServer(g, w), channels), g, w)
  {
    RingsPlaced(g, w, channels);
    forall r | 0 <= r < |ChannelRings(ByServer(g, w), channels)|
      ensures RingThrough(ChannelRings(ByServer(g, w), channels)[r], g)
    {
      ChannelRingsAreRings(g, w, channels, r);
    }
  }

  /** The bytes a member sends, or hears, over all channels and steps. */
  ghost function Share(g: seq<nat>, job: Job, x: nat, hears: bool): nat
    requires GroupOk(g, job.sites) && x in g
  {
    ThroughGroup(g, job.sites, job.channels);
    Product(job.Steps(|g|),
            EdgeSum(ChannelRings(ByServer(g, job.sites), job.channels), g, job.Part(|g|), job.sites, x, hears))
  }

  function Product(a: nat, b: nat): nat { a * b }

  lemma LonelyShare(g: seq<nat>, job: Job, x: nat, hears: bool)
    requires GroupOk(g, job.sites) && x in g && |g| == 1
    ensures Share(g, job, x, hears) == 0
  {
    assert job.Steps(|g|) == 0;
  }

  lemma GroupMoves(g: seq<nat>, job: Job, x: nat, hears: bool)
    requires GroupOk(g, job.sites)
    ensures ChainsMove(GroupChains(g, job), x, hears) == if x in g then Share(g, job, x, hears) else 0
  {
    if |g| > 1 {
      ThroughGroup(g, job.sites, job.channels);
      RingsMove(ChannelRings(ByServer(g, job.sites), job.channels), g, job.Part(|g|), job.Steps(|g|), job.sites, x,
                hears);
    } else if x in g {
      LonelyShare(g, job, x, hears);
    }
  }

  /** The bytes any node sends, or hears. */
  ghost function Due(gs: seq<seq<nat>>, job: Job, x: nat, hears: bool): nat
    requires GroupsOk(gs, job.sites)
  {
    var c := GroupWith(gs, x);
    if c < |gs| then InGroup(gs, job.sites, c); Share(gs[c], job, x, hears) else 0
  }

  lemma DueBefore(gs: seq<seq<nat>>, job: Job, x: nat, hears: bool)
    requires GroupsOk(gs, job.sites) && Apart(gs) && gs != []
    ensures GroupOk(gs[|gs| - 1], job.sites)
    ensures Due(gs, job, x, hears) == Due(gs[..|gs| - 1], job, x, hears)
                                    + if x in gs[|gs| - 1] then Share(gs[|gs| - 1], job, x, hears) else 0
  {
    InGroup(gs, job.sites, |gs| - 1);
    GroupIsUnique(gs, x, |gs| - 1);
    GroupBefore(gs, x);
  }

  lemma {:induction false} AllMove(gs: seq<seq<nat>>, job: Job, x: nat, hears: bool)
    requires GroupsOk(gs, job.sites) && Apart(gs)
    ensures ChainsMove(AllChains(gs, job), x, hears) == Due(gs, job, x, hears)
  {
    if gs != [] {
      var n := |gs| - 1;
      DueBefore(gs, job, x, hears);
      AllMove(gs[..n], job, x, hears);
      GroupMoves(gs[n], job, x, hears);
      ChainsMoveConcat(AllChains(gs[..n], job), GroupChains(gs[n], job), x, hears);
    }
  }

  /** What every node sends and hears, for any groups without a common member: nothing outside them; a member
      one flow per step of every channel, which carries a part, or one token byte inside a server. */
  lemma MembersMove(gs: seq<seq<nat>>, job: Job, x: nat, hears: bool)
    requires GroupsOk(gs, job.sites) && Apart(gs)
    ensures Moved(RingProgram(gs, job).flows, x, hears) == Due(gs, job, x, hears)
  {
    MovedByProgram(AllChains(gs, job), x, hears);
    AllMove(gs, job, x, hears);
  }

  lemma {:induction false} FullEdges(rings: seq<seq<nat>>, g: seq<nat>, size: nat, w: Sites, x: nat, hears: bool)
    requires AllThrough(rings, g, w) && x in g && !w.exclude
    ensures EdgeSum(rings, g, size, w, x, hears) == |rings| * size
  {
    if rings != [] {
      FullEdges(rings[..|rings| - 1], g, size, w, x, hears);
      assert RingThrough(rings[|rings| - 1], g);
      OneMore(|rings| - 1, size);
    }
  }

  /** The smallest size of which `parts` cover the whole. */
  ghost predicate Smallest(size: nat, parts: nat, whole: nat)
  {
    size * parts >= whole && forall s: nat :: Product(s, parts) >= whole ==> size <= s
  }

  lemma PartIsSmallest(job: Job, n: nat)
    requires 0 < n && 0 < job.channels
    ensures Smallest(job.Part(n), if job.reduce then Product(n, job.channels) else job.channels, job.tensor)
  {
    var parts := job.Parts(n);
    forall s: nat | Product(s, parts) >= job.tensor ensures job.Part(n) <= s {
      CoverIff(s, job.tensor, parts);
    }
  }

  /** Conservation: if no pair is left out, a member of a group of `n` sends exactly, and hears exactly, one part per
      step of every channel: in an all-reduce 2(n - 1) * channels * size bytes, where `size` is the smallest of which
      n * channels cover the tensor; in an all-gather or reduce-scatter (n - 1) * channels * size bytes, where
      `channels` of that size cover it. */
  lemma MembersShareAlike(gs: seq<seq<nat>>, job: Job, c: nat, x: nat, hears: bool) returns (size: nat)
    requires GroupsOk(gs, job.sites) && Apart(gs) && !job.sites.exclude && c < |gs| && x in gs[c]
    ensures var n := |gs[c]|; var k := if job.channels < 0 then 0 else job.channels;
      Moved(RingProgram(gs, job).flows, x, hears) == (if job.reduce then 2 * (n - 1) else n - 1) * (k * size)
    ensures 0 < job.channels ==>
      Smallest(size, if job.reduce then Product(|gs[c]|, job.channels) else job.channels, job.tensor)
  {
    MembersMove(gs, job, x, hears);
    GroupIsUnique(gs, x, c);
    InGroup(gs, job.sites, c);
    ThroughGroup(gs[c], job.sites, job.channels);
    size := job.Part(|gs[c]|);
    FullEdges(ChannelRings(ByServer(gs[c], job.sites), job.channels), gs[c], size, job.sites, x, hears);
    if 0 < job.channels { PartIsSmallest(job, |gs[c]|); }
  }

  lemma GroupBefore(gs: seq<seq<nat>>, x: nat)
    requires Apart(gs) && gs != []
    ensures var n := |gs| - 1; GroupWith(gs[..n], x) == if GroupWith(gs, x) < n then GroupWith(gs, x) else n
  {
    var n := |gs| - 1;
    var c := GroupWith(gs, x);
    if c < n { assert gs[..n][c] == gs[c]; }
    forall i | 0 <= i < n && i < c ensures x !in gs[..n][i] { assert gs[..n][i] == gs[i]; }
  }

  // ---------------------------------------------------------------- rings of servers

  /** hierarchical_ring: S - 1 steps round the servers of the group; on one server, n - 1 steps round its members. */
  ghost function ServerChain(g: seq<nat>, w: Sites, size: nat): seq<seq<Xfer>>
    requires GroupOk(g, w)
  {
    var rows := ByServer(g, w);
    if |g| <= 1 then []
    else if |rows| > 1 then Repeat(ServerRingStep(rows, 0, size), |rows| - 1)
    else
      BaseRing(g, w);
      RingIsPlaced(Flat(rows), g, w);
      Repeat(RingStep(Flat(rows), size, w), |g| - 1)
  }

  ghost function ServerChains(gs: seq<seq<nat>>, w: Sites, size: nat): (chains: seq<seq<seq<Xfer>>>)
    requires GroupsOk(gs, w)
    ensures |chains| == |gs|
  {
    if gs == [] then []
    else
      assert GroupOk(gs[|gs| - 1], w);
      ServerChains(gs[..|gs| - 1], w, size) + [ServerChain(gs[|gs| - 1], w, size)]
  }

  lemma ServersNonEmpty(g: seq<nat>, w: Sites, size: nat)
    requires Placed(g, w) && g != []
    ensures ServerRingStep(ByServer(g, w), 0, size) != []
  {
    var s := RowOf(g, w, g[0]);
    forall r | 0 <= r < |ByServer(g, w)| ensures ByServer(g, w)[r] != [] { RowNonEmpty(g, w, r); }
    ServerRingStepNonEmpty(ByServer(g, w), size);
  }

  lemma RepeatNonEmpty(step: seq<Xfer>, n: nat)
    requires step != []
    ensures NonEmpty(Repeat(step, n))
  {
  }

  lemma ServerChainNonEmpty(g: seq<nat>, w: Sites, size: nat)
    requires GroupOk(g, w)
    ensures NonEmpty(ServerChain(g, w, size))
  {
    if |g| > 1 {
      var rows := ByServer(g, w);
      if |rows| > 1 {
        ServersNonEmpty(g, w, size);
        RepeatNonEmpty(ServerRingStep(rows, 0, size), |rows| - 1);
      } else {
        BaseRing(g, w);
        RingIsPlaced(Flat(rows), g, w);
        RepeatNonEmpty(RingStep(Flat(rows), size, w), |g| - 1);
      }
    }
  }

  lemma {:induction false} ServerChainsNonEmpty(gs: seq<seq<nat>>, w: Sites, size: nat)
    requires GroupsOk(gs, w)
    ensures NoEmptyPhase(ServerChains(gs, w, size))
  {
    if gs != [] {
      ServerChainsNonEmpty(gs[..|gs| - 1], w, size);
      ServerChainNonEmpty(gs[|gs| - 1], w, size);
    }
  }

  /** Rings of servers cannot deadlock, for any groups and even with differently many members per server. */
  lemma ServerRingsWellFormed(gs: seq<seq<nat>>, w: Sites, size: nat)
    requires GroupsOk(gs, w)
    ensures NoEmptyPhase(ServerChains(gs, w, size)) && WellFormed(Compile(ServerChains(gs, w, size)))
  {
    ServerChainsNonEmpty(gs, w, size);
    CompileWellFormed(ServerChains(gs, w, size));
  }

  /** In every reachable state, for every group: once any flow of a step has started, every flow of every
      earlier step of that group has finished. */
  lemma ServerStepsAreSeparated(gs: seq<seq<nat>>, w: Sites, size: nat, s: State, c: nat, p: nat, q: nat, i: nat,
                                j: nat)
    requires GroupsOk(gs, w) && Inv(Compile(ServerChains(gs, w, size)), s) && c < |gs|
    requires var chains := ServerChains(gs, w, size);
      && p < q < |chains[c]| && i < |chains[c][p]| && j < |chains[c][q]|
      && Schedules.FlowIndex(chains, c, q, j) < |s.status| && !s.status[Schedules.FlowIndex(chains, c, q, j)].Waiting?
    ensures var f := Schedules.FlowIndex(ServerChains(gs, w, size), c, p, i); f < |s.status| && s.status[f].Finished?
  {
    ServerRingsWellFormed(gs, w, size);
    Schedules.PhasesAreSeparated(ServerChains(gs, w, size), s, c, p, q, i, j);
  }
}
