/** The members of a group, server by server, and the rings of the channels (htsim_runner.py:405-412, 457-477). */
module Servers {
  import opened AllToAll
  import opened OrderedMaps
  import opened Sequences

  function ServersOf(g: seq<nat>, w: Sites): set<nat>
    requires Placed(g, w)
  {
    set x | x in Members(g) && x in w.serverOf :: w.serverOf[x]
  }

  function MembersOn(g: seq<nat>, w: Sites, s: nat): set<nat>
    requires Placed(g, w)
  {
    set x | x in Members(g) && x in w.serverOf && w.serverOf[x] == s
  }

  /** The members on server `s`, in increasing order. */
  function RowOn(g: seq<nat>, w: Sites, s: nat): (r: seq<nat>)
    requires Placed(g, w)
    ensures Distinct(r) && forall x :: x in r <==> x in g && w.serverOf[x] == s
  {
    Sorted(MembersOn(g, w, s))
  }

  function RowsOn(g: seq<nat>, w: Sites, ids: seq<nat>): (r: seq<seq<nat>>)
    requires Placed(g, w)
    ensures |r| == |ids| && forall i :: 0 <= i < |r| ==> r[i] == RowOn(g, w, ids[i])
  {
    seq(|ids|, i requires 0 <= i < |ids| => RowOn(g, w, ids[i]))
  }

  /** The servers in increasing order, and on each its members in increasing order. */
  function ByServer(g: seq<nat>, w: Sites): (r: seq<seq<nat>>)
    requires Placed(g, w)
    ensures |r| == |ServersOf(g, w)|
  {
    RowsOn(g, w, Sorted(ServersOf(g, w)))
  }

  /** Do all servers have equally many members? */
  predicate Even(nodesOf: seq<seq<nat>>)
  {
    forall s :: 0 <= s < |nodesOf| ==> |nodesOf[s]| == |nodesOf[0]|
  }

  // ---------------------------------------------------------------- groups

  /** The group a node belongs to, `|gs|` if none. */
  function GroupWith(gs: seq<seq<nat>>, x: nat): (c: nat)
    ensures c <= |gs| && (c < |gs| ==> x in gs[c]) && forall i :: 0 <= i < c ==> x !in gs[i]
  {
    if gs == [] then 0 else if x in gs[0] then 0 else 1 + GroupWith(gs[1..], x)
  }

  lemma GroupIsUnique(gs: seq<seq<nat>>, x: nat, i: nat)
    requires Apart(gs) && i < |gs|
    ensures x in gs[i] <==> i == GroupWith(gs, x)
  {
  }

  // ---------------------------------------------------------------- a group and its servers

  /** What stands in row `s` is exactly the members of the group on one server. */
  lemma RowIs(g: seq<nat>, w: Sites, s: nat, x: nat)
    requires Placed(g, w) && s < |ByServer(g, w)|
    ensures x in ByServer(g, w)[s] <==> x in g && w.serverOf[x] == Sorted(ServersOf(g, w))[s]
  {
  }

  /** No server is listed without members. */
  lemma RowNonEmpty(g: seq<nat>, w: Sites, s: nat)
    requires Placed(g, w) && s < |ByServer(g, w)|
    ensures ByServer(g, w)[s] != []
  {
    var id := Sorted(ServersOf(g, w))[s];
    assert id in ServersOf(g, w);
    var x :| x in Members(g) && x in w.serverOf && w.serverOf[x] == id;
    assert x in MembersOn(g, w, id);
  }

  /** Every member stands in the row of its server. */
  lemma RowOf(g: seq<nat>, w: Sites, x: nat) returns (s: nat)
    requires Placed(g, w) && x in g
    ensures s < |ByServer(g, w)| && x in ByServer(g, w)[s]
  {
    var ids := Sorted(ServersOf(g, w));
    assert w.serverOf[x] in ServersOf(g, w);
    s :| 0 <= s < |ids| && ids[s] == w.serverOf[x];
    RowIs(g, w, s, x);
  }

  lemma RowsApart(g: seq<nat>, w: Sites)
    requires Placed(g, w)
    ensures Apart(ByServer(g, w))
  {
    var rows := ByServer(g, w);
    forall i, j, x | 0 <= i < |rows| && 0 <= j < |rows| && x in rows[i] && x in rows[j] ensures i == j {
      RowIs(g, w, i, x);
      RowIs(g, w, j, x);
    }
  }

  /** Two members are on the same server exactly if they stand in the same row. */
  lemma SameServerIff(g: seq<nat>, w: Sites, s: nat, t: nat, x: nat, y: nat)
    requires Placed(g, w) && s < |ByServer(g, w)| && t < |ByServer(g, w)|
    requires x in ByServer(g, w)[s] && y in ByServer(g, w)[t]
    ensures x in w.serverOf && y in w.serverOf && (w.serverOf[x] == w.serverOf[y] <==> s == t)
  {
    RowIs(g, w, s, x);
    RowIs(g, w, t, y);
  }

  /** Every row is a server of its own. */
  ghost predicate OwnServers(rows: seq<seq<nat>>, w: Sites)
  {
    && (forall s, l :: 0 <= s < |rows| && 0 <= l < |rows[s]| ==> rows[s][l] in w.serverOf)
    && (forall s, l, t, m | 0 <= s < |rows| && 0 <= l < |rows[s]| && 0 <= t < |rows| && 0 <= m < |rows[t]| ::
          w.serverOf[rows[s][l]] == w.serverOf[rows[t][m]] ==> s == t)
  }

  ghost predicate Racked(nodesOf: seq<seq<nat>>, lanes: nat, w: Sites)
  {
    Uniform(nodesOf, lanes) && OwnServers(nodesOf, w)
  }

  lemma SamePlaceIn(rows: seq<seq<nat>>, s: nat, l: nat, t: nat, m: nat)
    requires Apart(rows) && s < |rows| && t < |rows| && l < |rows[s]| && m < |rows[t]| && rows[s][l] == rows[t][m]
    ensures s == t && l == m
  {
    assert rows[s][l] in rows[s] && rows[t][m] in rows[t];
    assert Distinct(rows[s]);
  }

  lemma EvenIsUniform(rows: seq<seq<nat>>)
    requires Apart(rows) && Even(rows) && rows != [] && rows[0] != []
    ensures Uniform(rows, |rows[0]|)
  {
    var lanes := |rows[0]|;
    forall s, l, t, m | 0 <= s < |rows| && 0 <= l < lanes && 0 <= t < |rows| && 0 <= m < lanes &&
        rows[s][l] == rows[t][m]
      ensures s == t && l == m
    {
      SamePlaceIn(rows, s, l, t, m);
    }
  }

  /** A group on equally large servers: the precondition of the two-level schedule. */
  lemma EvenServers(g: seq<nat>, w: Sites)
    requires Placed(g, w) && g != [] && Even(ByServer(g, w))
    ensures ByServer(g, w) != [] && Uniform(ByServer(g, w), |ByServer(g, w)[0]|)
  {
    var s := RowOf(g, w, g[0]);
    RowNonEmpty(g, w, 0);
    RowsApart(g, w);
    EvenIsUniform(ByServer(g, w));
  }

  lemma RowApart(g: seq<nat>, w: Sites, s: nat, l: nat, t: nat, m: nat)
    requires Placed(g, w) && s < |ByServer(g, w)| && t < |ByServer(g, w)|
    requires l < |ByServer(g, w)[s]| && m < |ByServer(g, w)[t]|
    ensures var x, y := ByServer(g, w)[s][l], ByServer(g, w)[t][m];
      x in w.serverOf && y in w.serverOf && (w.serverOf[x] == w.serverOf[y] <==> s == t)
  {
    SameServerIff(g, w, s, t, ByServer(g, w)[s][l], ByServer(g, w)[t][m]);
  }

  lemma RowsAreServers(g: seq<nat>, w: Sites)
    requires Placed(g, w)
    ensures OwnServers(ByServer(g, w), w)
  {
    var rows := ByServer(g, w);
    forall s, l, t, m | 0 <= s < |rows| && 0 <= l < |rows[s]| && 0 <= t < |rows| && 0 <= m < |rows[t]|
      ensures rows[s][l] in w.serverOf && rows[t][m] in w.serverOf
      ensures w.serverOf[rows[s][l]] == w.serverOf[rows[t][m]] ==> s == t
    {
      RowApart(g, w, s, l, t, m);
    }
  }

  lemma EvenIsRacked(g: seq<nat>, w: Sites)
    requires Placed(g, w) && g != [] && Even(ByServer(g, w))
    ensures ByServer(g, w) != [] && Racked(ByServer(g, w), |ByServer(g, w)[0]|, w)
  {
    EvenServers(g, w);
    RowsAreServers(g, w);
  }

  // ---------------------------------------------------------------- grouping

  /** `list.sort()`, for lists without repetition. */
  function Sort(s: seq<nat>): (r: seq<nat>)
    requires Distinct(s)
    ensures |r| == |s| && forall x :: x in r <==> x in s
    ensures forall i, j :: 0 <= i < j < |r| ==> r[i] < r[j]
  {
    DistinctSize(s);
    Sorted(Members(s))
  }

  /** The members of the group on server `s`, each once. */
  ghost predicate IsRow(row: seq<nat>, g: seq<nat>, w: Sites, s: nat)
    requires Placed(g, w)
  {
    Distinct(row) && forall x :: x in row <==> x in g && w.serverOf[x] == s
  }

  function RowIn(byServer: map<nat, seq<nat>>, s: nat): seq<nat>
  {
    if s in byServer then byServer[s] else []
  }

  /** The members seen so far are filed under their servers. */
  ghost predicate Filed(byServer: map<nat, seq<nat>>, g: seq<nat>, w: Sites)
    requires Placed(g, w)
  {
    forall s :: IsRow(RowIn(byServer, s), g, w, s) && (s in byServer <==> RowIn(byServer, s) != [])
  }

  lemma RowNext(row: seq<nat>, g: seq<nat>, w: Sites, x: nat, s: nat)
    requires Placed(g + [x], w) && Placed(g, w) && x in w.serverOf && x !in g && IsRow(row, g, w, s)
    ensures IsRow(if s == w.serverOf[x] then row + [x] else row, g + [x], w, s)
  {
  }

  lemma FileNext(byServer: map<nat, seq<nat>>, g: seq<nat>, w: Sites, x: nat)
    requires Placed(g + [x], w) && Placed(g, w) && x in w.serverOf && x !in g && Filed(byServer, g, w)
    ensures Filed(byServer[w.serverOf[x] := RowIn(byServer, w.serverOf[x]) + [x]], g + [x], w)
  {
    var next := byServer[w.serverOf[x] := RowIn(byServer, w.serverOf[x]) + [x]];
    forall s: nat ensures IsRow(RowIn(next, s), g + [x], w, s) && (s in next <==> RowIn(next, s) != []) {
      RowNext(RowIn(byServer, s), g, w, x, s);
    }
  }

  lemma FiledKeys(byServer: map<nat, seq<nat>>, g: seq<nat>, w: Sites)
    requires Placed(g, w) && Filed(byServer, g, w)
    ensures byServer.Keys == ServersOf(g, w)
  {
    forall s ensures s in byServer <==> s in ServersOf(g, w) {
      assert IsRow(RowIn(byServer, s), g, w, s);
      if s in byServer { assert RowIn(byServer, s)[0] in Members(g); }
      if s in ServersOf(g, w) {
        var x :| x in Members(g) && x in w.serverOf && w.serverOf[x] == s;
        assert x in RowIn(byServer, s);
      }
    }
  }

  lemma RowSorts(byServer: map<nat, seq<nat>>, g: seq<nat>, w: Sites, s: nat)
    requires Placed(g, w) && Filed(byServer, g, w)
    ensures Distinct(RowIn(byServer, s)) && Sort(RowIn(byServer, s)) == RowOn(g, w, s)
  {
    assert IsRow(RowIn(byServer, s), g, w, s);
    assert Members(RowIn(byServer, s)) == MembersOn(g, w, s);
  }

  /** _group_by_server, with the servers in increasing order as its callers visit them. */
  method GroupByServer(g: seq<nat>, w: Sites) returns (nodesOf: seq<seq<nat>>)
    requires Placed(g, w) && Distinct(g)
    ensures nodesOf == ByServer(g, w)
  {
    var byServer: map<nat, seq<nat>> := map[];
    for i := 0 to |g|
      invariant Filed(byServer, g[..i], w)
    {
      assert g[..i + 1] == g[..i] + [g[i]] && g[i] !in g[..i];
      FileNext(byServer, g[..i], w, g[i]);
      var s := w.serverOf[g[i]];
      byServer := byServer[s := RowIn(byServer, s) + [g[i]]];
    }
    assert g[..|g|] == g;
    FiledKeys(byServer, g, w);
    nodesOf := SortRows(byServer, Sorted(byServer.Keys), g, w);
  }

  method SortRows(byServer: map<nat, seq<nat>>, ids: seq<nat>, ghost g: seq<nat>, ghost w: Sites)
    returns (nodesOf: seq<seq<nat>>)
    requires Placed(g, w) && Filed(byServer, g, w)
    ensures nodesOf == RowsOn(g, w, ids)
  {
    nodesOf := [];
    for i := 0 to |ids|
      invariant nodesOf == RowsOn(g, w, ids[..i])
    {
      RowSorts(byServer, g, w, ids[i]);
      var row := Sort(RowIn(byServer, ids[i]));
      RowsSnoc(g, w, ids, i);
      nodesOf := nodesOf + [row];
    }
    assert ids[..|ids|] == ids;
  }

  lemma RowsSnoc(g: seq<nat>, w: Sites, ids: seq<nat>, i: nat)
    requires Placed(g, w) && i < |ids|
    ensures RowsOn(g, w, ids[..i + 1]) == RowsOn(g, w, ids[..i]) + [RowOn(g, w, ids[i])]
  {
  }
}
