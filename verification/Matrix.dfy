/** The traffic matrix as a whole: from the sizes of the dimensions and the placement order to the bytes between any
    two nodes, for both all-to-alls and both kinds of rings (htsim_runner.py:531-912). */
module Matrix {
  import opened Options
  import opened Sequences
  import opened Servers
  import opened Transfers
  import opened TriggerProgram
  import A = AllToAll
  import C = Collectives
  import L = Layout
  import R = Rings
  import RM = RingMatrix
  import RS = RequestShape
  import Schedules
  import T = TrafficMatrix

  /** A cluster with its groups: nodes and coordinates correspond, and the groups are those of the domain `dom`. */
  ghost predicate IsCluster(groups: seq<seq<nat>>, node: map<L.Coord, nat>, dom: seq<L.Dim>, others: seq<L.Dim>,
                            order: seq<L.Dim>, sizes: L.Sizes)
  {
    && L.Full(order) && L.Parts(dom, others) && L.NodesOf(node, order, sizes)
    && |groups| == |L.Coords(others, sizes)| && L.AreGroups(groups, node, dom, others, order, sizes)
  }

  lemma MemberIsNode(groups: seq<seq<nat>>, node: map<L.Coord, nat>, dom: seq<L.Dim>, others: seq<L.Dim>,
                     order: seq<L.Dim>, sizes: L.Sizes, k: nat, j: nat)
    requires IsCluster(groups, node, dom, others, order, sizes) && k < |groups| && j < |groups[k]|
    ensures |groups[k]| == |L.Coords(dom, sizes)| && groups[k][j] < |L.Coords(order, sizes)|
    ensures (k, j) == L.Home(dom, others, order, sizes, groups[k][j])
  {
    L.AllPresent(node, dom, others, order, sizes, k);
    var c := L.Coords(others, sizes)[k] + L.Coords(dom, sizes)[j];
    assert L.Numbered(node[c], c, order, sizes);
    L.GroupsPartition(node, dom, others, order, sizes, groups[k][j], k, j);
  }

  lemma GroupsAreApart(groups: seq<seq<nat>>, node: map<L.Coord, nat>, dom: seq<L.Dim>, others: seq<L.Dim>,
                       order: seq<L.Dim>, sizes: L.Sizes)
    requires IsCluster(groups, node, dom, others, order, sizes)
    ensures Apart(groups)
  {
    forall k, i, j | 0 <= k < |groups| && 0 <= i < j < |groups[k]| ensures groups[k][i] != groups[k][j] {
      MemberIsNode(groups, node, dom, others, order, sizes, k, i);
      MemberIsNode(groups, node, dom, others, order, sizes, k, j);
    }
    forall k, l, x | 0 <= k < |groups| && 0 <= l < |groups| && x in groups[k] && x in groups[l] ensures k == l {
      var i :| 0 <= i < |groups[k]| && groups[k][i] == x;
      var j :| 0 <= j < |groups[l]| && groups[l][j] == x;
      MemberIsNode(groups, node, dom, others, order, sizes, k, i);
      MemberIsNode(groups, node, dom, others, order, sizes, l, j);
    }
  }

  /** A node belongs to its home group and to no other. */
  lemma GroupOfNode(groups: seq<seq<nat>>, node: map<L.Coord, nat>, dom: seq<L.Dim>, others: seq<L.Dim>,
                    order: seq<L.Dim>, sizes: L.Sizes, x: nat)
    requires IsCluster(groups, node, dom, others, order, sizes) && x < |L.Coords(order, sizes)|
    ensures GroupWith(groups, x) == L.Home(dom, others, order, sizes, x).0 < |groups|
  {
    var at := L.Home(dom, others, order, sizes, x);
    L.GroupsPartition(node, dom, others, order, sizes, x, at.0, at.1);
    assert groups[at.0][at.1] == x;
    GroupsAreApart(groups, node, dom, others, order, sizes);
    GroupIsUnique(groups, x, at.0);
  }

  /** Do two nodes agree on every dimension outside the domain? */
  ghost predicate Agree(order: seq<L.Dim>, sizes: L.Sizes, others: seq<L.Dim>, x: nat, y: nat)
    requires x < |L.Coords(order, sizes)| && y < |L.Coords(order, sizes)|
  {
    forall d :: d in others && d in L.Coords(order, sizes)[x] && d in L.Coords(order, sizes)[y] ==>
      L.Coords(order, sizes)[x][d] == L.Coords(order, sizes)[y][d]
  }

  lemma SameGroup(groups: seq<seq<nat>>, node: map<L.Coord, nat>, dom: seq<L.Dim>, others: seq<L.Dim>,
                  order: seq<L.Dim>, sizes: L.Sizes, x: nat, y: nat)
    requires IsCluster(groups, node, dom, others, order, sizes)
    requires x < |L.Coords(order, sizes)| && y < |L.Coords(order, sizes)|
    ensures GroupWith(groups, x) < |groups| && |groups[GroupWith(groups, x)]| == L.Span(dom, sizes) > 0
    ensures y in groups[GroupWith(groups, x)] <==> Agree(order, sizes, others, x, y)
  {
    GroupOfNode(groups, node, dom, others, order, sizes, x);
    GroupOfNode(groups, node, dom, others, order, sizes, y);
    GroupsAreApart(groups, node, dom, others, order, sizes);
    GroupIsUnique(groups, y, GroupWith(groups, x));
    L.SameGroupIff(dom, others, order, sizes, x, y);
    L.CoordsLength(dom, sizes);
  }

  lemma GroupsPlaced(groups: seq<seq<nat>>, node: map<L.Coord, nat>, dom: seq<L.Dim>, others: seq<L.Dim>,
                     order: seq<L.Dim>, sizes: L.Sizes, w: A.Sites, gpus: nat)
    requires IsCluster(groups, node, dom, others, order, sizes) && L.Served(w.serverOf, |L.Coords(order, sizes)|, gpus)
    ensures C.AllPlaced(groups, w)
  {
    forall k, j | 0 <= k < |groups| && 0 <= j < |groups[k]| ensures groups[k][j] in w.serverOf {
      MemberIsNode(groups, node, dom, others, order, sizes, k, j);
    }
  }

  /** The matrix of a pairwise all-to-all: between any two nodes of the cluster, the bytes per peer if they are
      different, agree outside the domain and are not left out; otherwise nothing. */
  lemma PairwiseMatrix(groups: seq<seq<nat>>, node: map<L.Coord, nat>, dom: seq<L.Dim>, others: seq<L.Dim>,
                       order: seq<L.Dim>, sizes: L.Sizes, r: C.Request, gpus: nat, x: nat, y: nat)
    requires IsCluster(groups, node, dom, others, order, sizes)
    requires L.Served(r.sites.serverOf, |L.Coords(order, sizes)|, gpus)
    requires x < |L.Coords(order, sizes)| && y < |L.Coords(order, sizes)|
    ensures C.AllPlaced(groups, r.sites) && 0 < L.Span(dom, sizes)
    ensures C.Carried(C.PairwiseProgram(groups, r).flows, Pair(x, y), false)
         == if x != y && Agree(order, sizes, others, x, y)
               && !(r.sites.exclude && r.sites.serverOf[x] == r.sites.serverOf[y])
            then r.PerPeer(L.Span(dom, sizes)) else 0
  {
    GroupsPlaced(groups, node, dom, others, order, sizes, r.sites, gpus);
    GroupsAreApart(groups, node, dom, others, order, sizes);
    SameGroup(groups, node, dom, others, order, sizes, x, y);
    C.PairwiseMoves(groups, r, Pair(x, y));
  }

  /** The matrix of a two-level all-to-all. */
  lemma NcclMatrix(groups: seq<seq<nat>>, node: map<L.Coord, nat>, dom: seq<L.Dim>, others: seq<L.Dim>,
                   order: seq<L.Dim>, sizes: L.Sizes, r: C.Request, gpus: nat, x: nat, y: nat)
    requires IsCluster(groups, node, dom, others, order, sizes)
    requires L.Served(r.sites.serverOf, |L.Coords(order, sizes)|, gpus)
    requires x < |L.Coords(order, sizes)| && y < |L.Coords(order, sizes)|
    ensures C.AllPlaced(groups, r.sites) && 0 < L.Span(dom, sizes) && GroupWith(groups, x) < |groups|
    ensures C.Carried(C.NcclProgram(groups, r).flows, Pair(x, y), false)
         == if Agree(order, sizes, others, x, y) && r.sites.serverOf[x] != r.sites.serverOf[y]
               && Even(ByServer(groups[GroupWith(groups, x)], r.sites))
            then r.PerPeer(L.Span(dom, sizes)) else 0
  {
    GroupsPlaced(groups, node, dom, others, order, sizes, r.sites, gpus);
    GroupsAreApart(groups, node, dom, others, order, sizes);
    SameGroup(groups, node, dom, others, order, sizes, x, y);
    C.NcclMoves(groups, r, Pair(x, y));
  }

  /** The bytes a pairwise all-to-all owes to a pair of nodes, by their coordinates and servers alone. */
  ghost function Owes(order: seq<L.Dim>, sizes: L.Sizes, dom: seq<L.Dim>, r: C.Request, x: nat, y: nat): nat
    requires x < |L.Coords(order, sizes)| && y < |L.Coords(order, sizes)|
    requires x in r.sites.serverOf && y in r.sites.serverOf
  {
    if x != y && Agree(order, sizes, L.Others(dom, L.KNOWN_DIMS), x, y)
       && !(r.sites.exclude && r.sites.serverOf[x] == r.sites.serverOf[y]) && 0 < L.Span(dom, sizes)
    then r.PerPeer(L.Span(dom, sizes)) else 0
  }

  /** What is asked of the generator: sizes, placement and domain, and the parameters of the transfer. */
  datatype Spec = Spec(nodes: nat, servers: nat, gpus: nat, sizes: L.Sizes, placement: seq<L.Dim>, dom: seq<L.Dim>,
                       tensor: nat, channels: int, chunkBytes: int, inflight: int, exclude: bool)
  {
    ghost predicate Fits()
    {
      && L.SizeOf(sizes, L.TP) != 0 && gpus % L.SizeOf(sizes, L.TP) == 0 && nodes == servers * gpus
      && nodes == L.SizeOf(sizes, L.TP) * L.SizeOf(sizes, L.CP) * L.SizeOf(sizes, L.DP) * L.SizeOf(sizes, L.EP)
    }

    function Others(): seq<L.Dim> { L.Others(dom, L.KNOWN_DIMS) }

    function Order(): seq<L.Dim> { L.Dedup(placement + L.KNOWN_DIMS) }

    function Request(nodeToServer: map<nat, nat>): C.Request
    {
      C.Request.Request(tensor, channels, chunkBytes, inflight, A.Sites(nodeToServer, exclude))
    }
  }

  /** `p` moves, between any two nodes, exactly what it owes to them, in flows of the size asked for, and every run of
      it finishes. */
  ghost predicate Serves(p: Program, spec: Spec, nodeToServer: map<nat, nat>)
  {
    && |L.Coords(spec.Order(), spec.sizes)| == spec.nodes && L.Served(nodeToServer, spec.nodes, spec.gpus)
    && WellFormed(p)
    && (forall x: nat, y: nat | x < spec.nodes && y < spec.nodes ::
          C.Carried(p.flows, Pair(x, y), false)
            == Owes(spec.Order(), spec.sizes, spec.dom, spec.Request(nodeToServer), x, y))
    && (forall x: nat, y: nat | x < spec.nodes && y < spec.nodes ::
          var owed := Owes(spec.Order(), spec.sizes, spec.dom, spec.Request(nodeToServer), x, y);
          owed > 0 ==> RS.SplitAs(p.flows, Pair(x, y), spec.chunkBytes, owed))
  }

  lemma SitesPlaced(groups: seq<seq<nat>>, node: map<L.Coord, nat>, spec: Spec, w: A.Sites)
    requires IsCluster(groups, node, spec.dom, spec.Others(), spec.Order(), spec.sizes)
    requires forall x: nat :: x < |L.Coords(spec.Order(), spec.sizes)| ==> x in w.serverOf
    ensures C.AllPlaced(groups, w)
  {
    forall k, j | 0 <= k < |groups| && 0 <= j < |groups[k]| ensures groups[k][j] in w.serverOf {
      MemberIsNode(groups, node, spec.dom, spec.Others(), spec.Order(), spec.sizes, k, j);
    }
  }

  lemma PairOwed(groups: seq<seq<nat>>, node: map<L.Coord, nat>, spec: Spec, nodeToServer: map<nat, nat>,
                 r: C.Request, x: nat, y: nat)
    requires |L.Coords(spec.Order(), spec.sizes)| == spec.nodes
    requires L.Served(nodeToServer, spec.nodes, spec.gpus)
    requires IsCluster(groups, node, spec.dom, spec.Others(), spec.Order(), spec.sizes)
    requires r == spec.Request(nodeToServer)
    requires C.AllPlaced(groups, r.sites) && x < spec.nodes && y < spec.nodes
    ensures C.Carried(C.PairwiseProgram(groups, r).flows, Pair(x, y), false)
         == Owes(spec.Order(), spec.sizes, spec.dom, r, x, y)
  {
    PairwiseMatrix(groups, node, spec.dom, spec.Others(), spec.Order(), spec.sizes, r, spec.gpus, x, y);
  }

  lemma PairSplits(groups: seq<seq<nat>>, node: map<L.Coord, nat>, spec: Spec, nodeToServer: map<nat, nat>,
                   r: C.Request, x: nat, y: nat)
    requires |L.Coords(spec.Order(), spec.sizes)| == spec.nodes
    requires L.Served(nodeToServer, spec.nodes, spec.gpus)
    requires IsCluster(groups, node, spec.dom, spec.Others(), spec.Order(), spec.sizes)
    requires r == spec.Request(nodeToServer)
    requires C.AllPlaced(groups, r.sites) && x < spec.nodes && y < spec.nodes
    requires Owes(spec.Order(), spec.sizes, spec.dom, r, x, y) > 0
    ensures RS.SplitAs(C.PairwiseProgram(groups, r).flows, Pair(x, y), spec.chunkBytes,
                       Owes(spec.Order(), spec.sizes, spec.dom, r, x, y))
  {
    GroupsAreApart(groups, node, spec.dom, spec.Others(), spec.Order(), spec.sizes);
    SameGroup(groups, node, spec.dom, spec.Others(), spec.Order(), spec.sizes, x, y);
    RS.PairwiseSplits(groups, r, Pair(x, y));
  }

  lemma MatrixServes(groups: seq<seq<nat>>, node: map<L.Coord, nat>, spec: Spec, nodeToServer: map<nat, nat>)
    requires |L.Coords(spec.Order(), spec.sizes)| == spec.nodes
    requires L.Served(nodeToServer, spec.nodes, spec.gpus)
    requires IsCluster(groups, node, spec.dom, spec.Others(), spec.Order(), spec.sizes)
    ensures C.AllPlaced(groups, spec.Request(nodeToServer).sites)
    ensures Serves(C.PairwiseProgram(groups, spec.Request(nodeToServer)), spec, nodeToServer)
  {
    var r := spec.Request(nodeToServer);
    SitesPlaced(groups, node, spec, r.sites);
    C.AllToAllWellFormed(groups, r);
    forall x: nat, y: nat | x < spec.nodes && y < spec.nodes
      ensures C.Carried(C.PairwiseProgram(groups, r).flows, Pair(x, y), false)
           == Owes(spec.Order(), spec.sizes, spec.dom, r, x, y)
    {
      PairOwed(groups, node, spec, nodeToServer, r, x, y);
    }
    forall x: nat, y: nat | x < spec.nodes && y < spec.nodes && Owes(spec.Order(), spec.sizes, spec.dom, r, x, y) > 0
      ensures RS.SplitAs(C.PairwiseProgram(groups, r).flows, Pair(x, y), spec.chunkBytes,
                         Owes(spec.Order(), spec.sizes, spec.dom, r, x, y))
    {
      PairSplits(groups, node, spec, nodeToServer, r, x, y);
    }
  }

  /** The common part of generate_tm_from_spec: the layout and the groups, or an error exactly when the sizes do not
      fit. */
  method PlaceGroups(spec: Spec)
    returns (ok: bool, groups: seq<seq<nat>>, nodeToServer: map<nat, nat>, ghost node: map<L.Coord, nat>)
    requires Distinct(spec.dom)
    ensures ok <==> spec.Fits()
    ensures ok ==> IsCluster(groups, node, spec.dom, spec.Others(), spec.Order(), spec.sizes)
    ensures ok ==> |L.Coords(spec.Order(), spec.sizes)| == spec.nodes
    ensures ok ==> L.Served(nodeToServer, spec.nodes, spec.gpus)
  {
    ok, groups, nodeToServer, node := false, [], map[], map[];
    var tp := L.SizeOf(spec.sizes, L.TP);
    if tp == 0 || spec.gpus % tp != 0 { return; }
    var layout := L.BuildLayout(spec.nodes, spec.servers, spec.gpus, spec.sizes, spec.placement);
    if layout.Invalid? { return; }
    ok, nodeToServer, node := true, layout.nodeToServer, layout.coordToNode;
    L.AllKnown(spec.placement);
    groups := L.GroupsForDomain(spec.sizes, spec.dom, layout.coordToNode, spec.Order());
  }

  /** The pairwise all-to-all: an error exactly when the sizes do not fit, and otherwise a program that terminates and
      moves exactly the matrix. */
  method GenerateAllToAll(spec: Spec) returns (p: Option<Program>, nodeToServer: map<nat, nat>)
    requires Distinct(spec.dom)
    ensures p.Some? <==> spec.Fits()
    ensures p.Some? ==> Serves(p.value, spec, nodeToServer)
  {
    var ok, groups;
    ghost var node;
    ok, groups, nodeToServer, node := PlaceGroups(spec);
    if !ok { return None, nodeToServer; }
    MatrixServes(groups, node, spec, nodeToServer);
    var generator := new T.Generator();
    generator.EmitAllToAll(groups, spec.Request(nodeToServer));
    p := Some(Program(generator.flows, generator.triggers));
  }

  lemma ApartAreOk(groups: seq<seq<nat>>, w: A.Sites)
    requires C.AllPlaced(groups, w) && Apart(groups)
    ensures R.GroupsOk(groups, w)
  {
    forall i | 0 <= i < |groups| ensures R.GroupOk(groups[i], w) {
      assert A.Placed(groups[i], w) && Distinct(groups[i]);
    }
  }

  lemma GroupsOk(groups: seq<seq<nat>>, node: map<L.Coord, nat>, spec: Spec, nodeToServer: map<nat, nat>)
    requires IsCluster(groups, node, spec.dom, spec.Others(), spec.Order(), spec.sizes)
    requires forall x: nat :: x < |L.Coords(spec.Order(), spec.sizes)| ==> x in nodeToServer
    ensures R.GroupsOk(groups, A.Sites(nodeToServer, spec.exclude)) && Apart(groups)
  {
    SitesPlaced(groups, node, spec, A.Sites(nodeToServer, spec.exclude));
    GroupsAreApart(groups, node, spec.dom, spec.Others(), spec.Order(), spec.sizes);
    ApartAreOk(groups, A.Sites(nodeToServer, spec.exclude));
  }

  /** The bytes a two-level all-to-all owes to a pair of nodes: something if they agree outside the domain, are on
      different servers, and the servers of their group are equally large. */
  ghost function OwesNccl(spec: Spec, r: C.Request, groups: seq<seq<nat>>, x: nat, y: nat): nat
    requires R.GroupsOk(groups, r.sites) && |L.Coords(spec.Order(), spec.sizes)| == spec.nodes
    requires x < spec.nodes && y < spec.nodes && x in r.sites.serverOf && y in r.sites.serverOf
  {
    if Agree(spec.Order(), spec.sizes, spec.Others(), x, y)
       && r.sites.serverOf[x] != r.sites.serverOf[y] && GroupWith(groups, x) < |groups|
       && Even(ByServer(groups[GroupWith(groups, x)], r.sites)) && 0 < L.Span(spec.dom, spec.sizes)
    then r.PerPeer(L.Span(spec.dom, spec.sizes)) else 0
  }

  ghost predicate NcclServes(p: Program, spec: Spec, nodeToServer: map<nat, nat>, groups: seq<seq<nat>>)
    requires R.GroupsOk(groups, A.Sites(nodeToServer, spec.exclude))
    requires |L.Coords(spec.Order(), spec.sizes)| == spec.nodes
    requires L.Served(nodeToServer, spec.nodes, spec.gpus)
  {
    && WellFormed(p)
    && forall x: nat, y: nat | x < spec.nodes && y < spec.nodes ::
         C.Carried(p.flows, Pair(x, y), false) == OwesNccl(spec, spec.Request(nodeToServer), groups, x, y)
  }

  lemma PairOwedNccl(groups: seq<seq<nat>>, node: map<L.Coord, nat>, spec: Spec, nodeToServer: map<nat, nat>,
                     r: C.Request, x: nat, y: nat)
    requires |L.Coords(spec.Order(), spec.sizes)| == spec.nodes
    requires L.Served(nodeToServer, spec.nodes, spec.gpus)
    requires IsCluster(groups, node, spec.dom, spec.Others(), spec.Order(), spec.sizes)
    requires r == spec.Request(nodeToServer)
    requires R.GroupsOk(groups, r.sites) && C.AllPlaced(groups, r.sites) && x < spec.nodes && y < spec.nodes
    ensures C.Carried(C.NcclProgram(groups, r).flows, Pair(x, y), false) == OwesNccl(spec, r, groups, x, y)
  {
    NcclMatrix(groups, node, spec.dom, spec.Others(), spec.Order(), spec.sizes, r, spec.gpus, x, y);
  }

  lemma NcclMatrixServes(groups: seq<seq<nat>>, node: map<L.Coord, nat>, spec: Spec, nodeToServer: map<nat, nat>)
    requires |L.Coords(spec.Order(), spec.sizes)| == spec.nodes
    requires L.Served(nodeToServer, spec.nodes, spec.gpus)
    requires IsCluster(groups, node, spec.dom, spec.Others(), spec.Order(), spec.sizes)
    requires R.GroupsOk(groups, A.Sites(nodeToServer, spec.exclude))
    ensures C.AllPlaced(groups, spec.Request(nodeToServer).sites)
    ensures NcclServes(C.NcclProgram(groups, spec.Request(nodeToServer)), spec, nodeToServer, groups)
  {
    var r := spec.Request(nodeToServer);
    SitesPlaced(groups, node, spec, r.sites);
    C.AllToAllWellFormed(groups, r);
    forall x: nat, y: nat | x < spec.nodes && y < spec.nodes
      ensures C.Carried(C.NcclProgram(groups, r).flows, Pair(x, y), false) == OwesNccl(spec, r, groups, x, y)
    {
      PairOwedNccl(groups, node, spec, nodeToServer, r, x, y);
    }
  }

  /** The two-level all-to-all, likewise. */
  method GenerateNccl(spec: Spec)
    returns (p: Option<Program>, nodeToServer: map<nat, nat>, groups: seq<seq<nat>>, ghost node: map<L.Coord, nat>)
    requires Distinct(spec.dom)
    ensures p.Some? <==> spec.Fits()
    ensures p.Some? ==> IsCluster(groups, node, spec.dom, spec.Others(), spec.Order(), spec.sizes)
    ensures p.Some? ==> |L.Coords(spec.Order(), spec.sizes)| == spec.nodes
    ensures p.Some? ==> L.Served(nodeToServer, spec.nodes, spec.gpus)
    ensures p.Some? ==> R.GroupsOk(groups, A.Sites(nodeToServer, spec.exclude))
                        && NcclServes(p.value, spec, nodeToServer, groups)
  {
    var ok;
    ok, groups, nodeToServer, node := PlaceGroups(spec);
    if !ok { return None, nodeToServer, groups, node; }
    GroupsOk(groups, node, spec, nodeToServer);
    NcclMatrixServes(groups, node, spec, nodeToServer);
    var generator := new T.Generator();
    generator.EmitNcclAll(groups, spec.Request(nodeToServer));
    p := Some(Program(generator.flows, generator.triggers));
  }

  function JobOf(spec: Spec, reduce: bool, nodeToServer: map<nat, nat>): R.Job
  {
    R.Job.Job(spec.tensor, spec.channels, reduce, A.Sites(nodeToServer, spec.exclude))
  }

  /** Between any two nodes: one part per step for every channel in which the second follows the first; nothing if
      they do not agree outside the domain. */
  ghost predicate RingServes(p: Program, spec: Spec, reduce: bool, nodeToServer: map<nat, nat>, groups: seq<seq<nat>>)
    requires R.GroupsOk(groups, A.Sites(nodeToServer, spec.exclude))
    requires |L.Coords(spec.Order(), spec.sizes)| == spec.nodes
  {
    && WellFormed(p)
    && (forall x: nat, y: nat ::
          C.Carried(p.flows, Pair(x, y), false) == RM.PairShare(groups, JobOf(spec, reduce, nodeToServer), Pair(x, y)))
    && (forall x: nat, y: nat | x < spec.nodes && y < spec.nodes ::
          !Agree(spec.Order(), spec.sizes, spec.Others(), x, y) ==>
            C.Carried(p.flows, Pair(x, y), false) == 0)
  }

  lemma StrangersShareNothing(groups: seq<seq<nat>>, node: map<L.Coord, nat>, spec: Spec, job: R.Job, x: nat, y: nat)
    requires IsCluster(groups, node, spec.dom, spec.Others(), spec.Order(), spec.sizes)
    requires R.GroupsOk(groups, job.sites) && |L.Coords(spec.Order(), spec.sizes)| == spec.nodes
    requires x < spec.nodes && y < spec.nodes && !Agree(spec.Order(), spec.sizes, spec.Others(), x, y)
    ensures RM.PairShare(groups, job, Pair(x, y)) == 0
  {
    SameGroup(groups, node, spec.dom, spec.Others(), spec.Order(), spec.sizes, x, y);
    RM.StrangersShareNothing(groups, job, Pair(x, y));
  }

  lemma RingMatrixServes(groups: seq<seq<nat>>, node: map<L.Coord, nat>, spec: Spec, reduce: bool,
                         nodeToServer: map<nat, nat>)
    requires IsCluster(groups, node, spec.dom, spec.Others(), spec.Order(), spec.sizes)
    requires |L.Coords(spec.Order(), spec.sizes)| == spec.nodes && Apart(groups)
    requires R.GroupsOk(groups, A.Sites(nodeToServer, spec.exclude))
    ensures RingServes(R.RingProgram(groups, JobOf(spec, reduce, nodeToServer)), spec, reduce, nodeToServer, groups)
  {
    var job := JobOf(spec, reduce, nodeToServer);
    R.RingProgramWellFormed(groups, job);
    forall x: nat, y: nat
      ensures C.Carried(R.RingProgram(groups, job).flows, Pair(x, y), false) == RM.PairShare(groups, job, Pair(x, y))
    {
      RM.RingProgramCarries(groups, job, Pair(x, y));
    }
    forall x: nat, y: nat | x < spec.nodes && y < spec.nodes && !Agree(spec.Order(), spec.sizes, spec.Others(), x, y)
      ensures RM.PairShare(groups, job, Pair(x, y)) == 0
    {
      StrangersShareNothing(groups, node, spec, job, x, y);
    }
  }

  /** Ring collectives with barriers: all-reduce (`reduce`), all-gather and reduce-scatter. */
  method GenerateRings(spec: Spec, reduce: bool)
    returns (p: Option<Program>, nodeToServer: map<nat, nat>, groups: seq<seq<nat>>, ghost node: map<L.Coord, nat>)
    requires Distinct(spec.dom)
    ensures p.Some? <==> spec.Fits()
    ensures p.Some? ==> IsCluster(groups, node, spec.dom, spec.Others(), spec.Order(), spec.sizes)
    ensures p.Some? ==> |L.Coords(spec.Order(), spec.sizes)| == spec.nodes
    ensures p.Some? ==> L.Served(nodeToServer, spec.nodes, spec.gpus)
    ensures p.Some? ==> R.GroupsOk(groups, A.Sites(nodeToServer, spec.exclude))
                        && RingServes(p.value, spec, reduce, nodeToServer, groups)
  {
    var ok;
    ok, groups, nodeToServer, node := PlaceGroups(spec);
    if !ok { return None, nodeToServer, groups, node; }
    GroupsOk(groups, node, spec, nodeToServer);
    RingMatrixServes(groups, node, spec, reduce, nodeToServer);
    var generator := new T.Generator();
    generator.EmitRingCollective(groups, JobOf(spec, reduce, nodeToServer));
    p := Some(Program(generator.flows, generator.triggers));
  }

  /** Between any two nodes: the tensor once per step if the second is the first's counterpart on the next server of
      their group (or, on a single server, follows it in the ring of members); nothing if they do not agree outside
      the domain. */
  ghost predicate ServerRingServes(p: Program, spec: Spec, w: A.Sites, groups: seq<seq<nat>>)
    requires R.GroupsOk(groups, w) && |L.Coords(spec.Order(), spec.sizes)| == spec.nodes
  {
    && WellFormed(p)
    && (forall x: nat, y: nat ::
          C.Carried(p.flows, Pair(x, y), false) == RM.PairServerShare(groups, w, spec.tensor, Pair(x, y)))
    && (forall x: nat, y: nat | x < spec.nodes && y < spec.nodes ::
          !Agree(spec.Order(), spec.sizes, spec.Others(), x, y) ==> C.Carried(p.flows, Pair(x, y), false) == 0)
  }

  lemma StrangersGetNothing(groups: seq<seq<nat>>, node: map<L.Coord, nat>, spec: Spec, w: A.Sites, x: nat, y: nat)
    requires IsCluster(groups, node, spec.dom, spec.Others(), spec.Order(), spec.sizes)
    requires R.GroupsOk(groups, w) && |L.Coords(spec.Order(), spec.sizes)| == spec.nodes
    requires x < spec.nodes && y < spec.nodes && !Agree(spec.Order(), spec.sizes, spec.Others(), x, y)
    ensures RM.PairServerShare(groups, w, spec.tensor, Pair(x, y)) == 0
  {
    SameGroup(groups, node, spec.dom, spec.Others(), spec.Order(), spec.sizes, x, y);
    RM.StrangersGetNothing(groups, w, spec.tensor, Pair(x, y));
  }

  lemma ServerRingMatrixServes(groups: seq<seq<nat>>, node: map<L.Coord, nat>, spec: Spec, w: A.Sites)
    requires IsCluster(groups, node, spec.dom, spec.Others(), spec.Order(), spec.sizes)
    requires |L.Coords(spec.Order(), spec.sizes)| == spec.nodes && Apart(groups) && R.GroupsOk(groups, w)
    ensures ServerRingServes(Schedules.Compile(R.ServerChains(groups, w, spec.tensor)), spec, w, groups)
  {
    var p := Schedules.Compile(R.ServerChains(groups, w, spec.tensor));
    R.ServerRingsWellFormed(groups, w, spec.tensor);
    forall x: nat, y: nat
      ensures C.Carried(p.flows, Pair(x, y), false) == RM.PairServerShare(groups, w, spec.tensor, Pair(x, y))
    {
      RM.ServerProgramCarries(groups, w, spec.tensor, Pair(x, y));
    }
    forall x: nat, y: nat | x < spec.nodes && y < spec.nodes && !Agree(spec.Order(), spec.sizes, spec.Others(), x, y)
      ensures RM.PairServerShare(groups, w, spec.tensor, Pair(x, y)) == 0
    {
      StrangersGetNothing(groups, node, spec, w, x, y);
    }
  }

  /** Rings of servers with barriers. */
  method GenerateServerRings(spec: Spec)
    returns (p: Option<Program>, nodeToServer: map<nat, nat>, groups: seq<seq<nat>>, ghost node: map<L.Coord, nat>)
    requires Distinct(spec.dom)
    ensures p.Some? <==> spec.Fits()
    ensures p.Some? ==> IsCluster(groups, node, spec.dom, spec.Others(), spec.Order(), spec.sizes)
    ensures p.Some? ==> |L.Coords(spec.Order(), spec.sizes)| == spec.nodes
    ensures p.Some? ==> L.Served(nodeToServer, spec.nodes, spec.gpus)
    ensures p.Some? ==> R.GroupsOk(groups, A.Sites(nodeToServer, spec.exclude))
                        && ServerRingServes(p.value, spec, A.Sites(nodeToServer, spec.exclude), groups)
  {
    var ok;
    ok, groups, nodeToServer, node := PlaceGroups(spec);
    if !ok { return None, nodeToServer, groups, node; }
    var w := A.Sites(nodeToServer, spec.exclude);
    GroupsOk(groups, node, spec, nodeToServer);
    ServerRingMatrixServes(groups, node, spec, w);
    var generator := new T.Generator();
    generator.EmitServerRings(groups, w, spec.tensor);
    p := Some(Program(generator.flows, generator.triggers));
  }
}
