/** Ranks, coordinates and groups (htsim_runner.py:224-315): nodes are numbered by the mixed-radix number of
    their coordinates, the first dimension of the placement order running fastest. */
module Layout {
  import opened Counting
  import opened Sequences

  datatype Dim = TP | CP | DP | EP

  const KNOWN_DIMS: seq<Dim> := [TP, CP, DP, EP]

  type Coord = map<Dim, nat>

  type Sizes = map<Dim, nat>

  function SizeOf(sizes: Sizes, d: Dim): nat { if d in sizes then sizes[d] else 1 }

  /** How many coordinates the dimensions span. */
  function Span(order: seq<Dim>, sizes: Sizes): nat
  {
    if order == [] then 1 else Span(order[..|order| - 1], sizes) * SizeOf(sizes, order[|order| - 1])
  }

  function Extend(cs: seq<Coord>, d: Dim, v: nat): (r: seq<Coord>)
    ensures |r| == |cs|
  {
    seq(|cs|, i requires 0 <= i < |cs| => cs[i][d := v])
  }

  /** The coordinates with `d` running over `v`, ..., `n - 1`, the others fastest. */
  function Stack(cs: seq<Coord>, d: Dim, v: nat, n: nat): seq<Coord>
    requires v <= n
    decreases n - v
  {
    if v == n then [] else Extend(cs, d, v) + Stack(cs, d, v + 1, n)
  }

  /** _iter_coords: all coordinates, in the order of their numbers. */
  function Coords(order: seq<Dim>, sizes: Sizes): seq<Coord>
  {
    if order == [] then [map[]]
    else
      var n := |order| - 1;
      Stack(Coords(order[..n], sizes), order[n], 0, SizeOf(sizes, order[n]))
  }

  ghost predicate InSpace(c: Coord, order: seq<Dim>, sizes: Sizes)
  {
    c.Keys == (set d | d in order) && forall d :: d in c ==> c[d] < SizeOf(sizes, d)
  }

  /** The mixed-radix number of a coordinate. */
  function Number(order: seq<Dim>, sizes: Sizes, c: Coord): nat
    requires forall d :: d in order ==> d in c
  {
    if order == [] then 0
    else
      var n := |order| - 1;
      assert forall d :: d in order[..n] ==> d in order;
      Number(order[..n], sizes, c) + Span(order[..n], sizes) * c[order[n]]
  }

  lemma {:induction false} StackAt(cs: seq<Coord>, d: Dim, v: nat, n: nat, w: nat, j: nat)
    requires v <= w < n && j < |cs|
    ensures 0 <= (w - v) * |cs| + j < |Stack(cs, d, v, n)|
    ensures Stack(cs, d, v, n)[(w - v) * |cs| + j] == cs[j][d := w]
    decreases n - v
  {
    if v < w {
      StackAt(cs, d, v + 1, n, w, j);
      assert (w - v) * |cs| + j == |cs| + ((w - (v + 1)) * |cs| + j);
      assert Stack(cs, d, v, n) == Extend(cs, d, v) + Stack(cs, d, v + 1, n);
    } else {
      assert (w - v) * |cs| + j == j;
    }
  }

  lemma {:induction false} StackLength(cs: seq<Coord>, d: Dim, v: nat, n: nat)
    requires v <= n
    ensures |Stack(cs, d, v, n)| == (n - v) * |cs|
    decreases n - v
  {
    if v < n {
      StackLength(cs, d, v + 1, n);
      assert (n - v) * |cs| == |cs| + (n - (v + 1)) * |cs|;
    }
  }

  /** Coordinate `j` with `d` set to `w` stands at place `j + |cs| * w` of the whole stack. */
  lemma StackPlace(cs: seq<Coord>, d: Dim, n: nat, w: nat, j: nat)
    requires w < n && j < |cs|
    ensures j + |cs| * w < |Stack(cs, d, 0, n)| == |cs| * n
    ensures Stack(cs, d, 0, n)[j + |cs| * w] == cs[j][d := w]
  {
    StackAt(cs, d, 0, n, w, j);
    StackLength(cs, d, 0, n);
    assert (w - 0) * |cs| + j == j + |cs| * w;
  }

  lemma StackAll(cs: seq<Coord>, d: Dim, n: nat)
    ensures |Stack(cs, d, 0, n)| == |cs| * n
  {
    StackLength(cs, d, 0, n);
  }

  lemma {:induction false} CoordsLength(order: seq<Dim>, sizes: Sizes)
    ensures |Coords(order, sizes)| == Span(order, sizes)
  {
    if order != [] {
      var n := |order| - 1;
      CoordsLength(order[..n], sizes);
      StackAll(Coords(order[..n], sizes), order[n], SizeOf(sizes, order[n]));
    }
  }

  /** Numbers do not look at other dimensions. */
  lemma {:induction false} NumberAgrees(order: seq<Dim>, sizes: Sizes, a: Coord, b: Coord)
    requires forall d :: d in order ==> d in a && d in b && a[d] == b[d]
    ensures Number(order, sizes, a) == Number(order, sizes, b)
  {
    if order != [] {
      var n := |order| - 1;
      assert forall d :: d in order[..n] ==> d in order;
      NumberAgrees(order[..n], sizes, a, b);
    }
  }

  /** The coordinate with number x stands at place x. */
  lemma {:induction false} PlaceOf(order: seq<Dim>, sizes: Sizes, c: Coord)
    requires Distinct(order) && InSpace(c, order, sizes)
    ensures Number(order, sizes, c) < |Coords(order, sizes)|
    ensures Coords(order, sizes)[Number(order, sizes, c)] == c
  {
    if order == [] {
      assert c == map[];
    } else {
      var n := |order| - 1;
      var front, d := order[..n], order[n];
      var rest := c - {d};
      Peel(order, sizes, c);
      PlaceOf(front, sizes, rest);
      NumberAgrees(front, sizes, c, rest);
      CoordsLength(front, sizes);
      StackPlace(Coords(front, sizes), d, SizeOf(sizes, d), c[d], Number(front, sizes, rest));
      assert rest[d := c[d]] == c;
    }
  }

  lemma Peel(order: seq<Dim>, sizes: Sizes, c: Coord)
    requires order != [] && Distinct(order) && InSpace(c, order, sizes)
    ensures var n := |order| - 1;
      Distinct(order[..n]) && order[n] in c && InSpace(c - {order[n]}, order[..n], sizes)
      && forall d :: d in order[..n] ==> d in c && d in c - {order[n]}
  {
    var n := |order| - 1;
    var rest := c - {order[n]};
    assert order == order[..n] + [order[n]];
    assert order[n] in order;
    forall d ensures d in rest.Keys <==> d in order[..n] {
      assert d in c.Keys <==> d in order;
    }
    assert rest.Keys == set d | d in order[..n];
  }

  /** Every place holds a coordinate of the space, whose number it is. */
  lemma {:induction false} NumberAt(order: seq<Dim>, sizes: Sizes, x: nat)
    requires Distinct(order) && x < |Coords(order, sizes)|
    ensures InSpace(Coords(order, sizes)[x], order, sizes)
    ensures Number(order, sizes, Coords(order, sizes)[x]) == x
  {
    if order == [] {
      assert (set d | d in order) == {};
    } else {
      var n := |order| - 1;
      var front, d := order[..n], order[n];
      assert order == front + [d];
      var v, j := FindPlace(order, front, d, sizes, x);
      NumberAt(front, sizes, j);
      NumberJoined(front, d, sizes, Coords(front, sizes)[j], v, j);
    }
  }

  lemma FindPlace(order: seq<Dim>, front: seq<Dim>, d: Dim, sizes: Sizes, x: nat) returns (v: nat, j: nat)
    requires order == front + [d] && x < |Coords(order, sizes)|
    ensures v < SizeOf(sizes, d) && j < |Coords(front, sizes)| && x == j + Span(front, sizes) * v
    ensures Coords(order, sizes)[x] == Coords(front, sizes)[j][d := v]
  {
    assert order[..|order| - 1] == front;
    var cs, size := Coords(front, sizes), SizeOf(sizes, d);
    StackAll(cs, d, size);
    v, j := Split(x, |cs|, size);
    StackPlace(cs, d, size, v, j);
    CoordsLength(front, sizes);
  }

  lemma NumberJoined(front: seq<Dim>, d: Dim, sizes: Sizes, c: Coord, v: nat, j: nat)
    requires InSpace(c, front, sizes) && v < SizeOf(sizes, d) && d !in front && Number(front, sizes, c) == j
    ensures InSpace(c[d := v], front + [d], sizes)
    ensures forall e :: e in front + [d] ==> e in c[d := v]
    ensures Number(front + [d], sizes, c[d := v]) == j + Span(front, sizes) * v
  {
    Join(front, d, sizes, c, v);
    assert (front + [d])[..|front|] == front;
    NumberAgrees(front, sizes, c[d := v], c);
  }

  lemma Split(x: nat, span: nat, size: nat) returns (v: nat, j: nat)
    requires x < span * size
    ensures v < size && j < span && x == span * v + j
  {
    assert span == 0 ==> span * size == 0;
    v, j := x / span, x % span;
    if size <= v { if size < v { MulStep(size, v, span); } }
  }

  lemma Join(front: seq<Dim>, d: Dim, sizes: Sizes, c: Coord, v: nat)
    requires InSpace(c, front, sizes) && v < SizeOf(sizes, d) && d !in front
    ensures InSpace(c[d := v], front + [d], sizes)
    ensures forall e :: e in front ==> e in c && c[d := v][e] == c[e]
  {
    forall e ensures e in c[d := v].Keys <==> e in front + [d] {
      assert e in c.Keys <==> e in front;
    }
    assert c[d := v].Keys == set e | e in front + [d];
  }

  // ---------------------------------------------------------------- enumerating coordinates

  /** Each coordinate laid over `cur`. */
  function Over(cur: Coord, cs: seq<Coord>): seq<Coord>
  {
    seq(|cs|, i requires 0 <= i < |cs| => cur + cs[i])
  }

  function Covers(order: seq<Dim>): set<Dim> { set d | d in order }

  /** The recursion of _iter_coords: the last dimension outermost, the current coordinate updated in place and
      copied at the innermost level. */
  method RecOuter(order: seq<Dim>, sizes: Sizes, cur: Coord, res: seq<Coord>) returns (cur': Coord, res': seq<Coord>)
    requires Distinct(order)
    ensures res' == res + Over(cur, Coords(order, sizes))
    ensures cur' - Covers(order) == cur - Covers(order)
    decreases |order|, 0
  {
    cur', res' := cur, res;
    if order == [] {
      res' := res' + [cur'];
      assert cur + map[] == cur;
      return;
    }
    var n := |order| - 1;
    var front, d, size := order[..n], order[n], SizeOf(sizes, order[n]);
    ghost var cs := Coords(front, sizes);
    ghost var goal := res + Over(cur, Stack(cs, d, 0, size));
    assert order == front + [d];
    for v := 0 to size
      invariant res' + Over(cur, Stack(cs, d, v, size)) == goal
      invariant cur' - Covers(order) == cur - Covers(order)
    {
      cur', res' := OuterValue(front, d, sizes, v, size, cur, cur', res');
    }
  }

  /** One value of the outermost dimension; `start` is the current coordinate before the first value. */
  method OuterValue(front: seq<Dim>, d: Dim, sizes: Sizes, v: nat, ghost size: nat, ghost start: Coord, cur: Coord,
                    res: seq<Coord>) returns (cur': Coord, res': seq<Coord>)
    requires Distinct(front) && d !in front && v < size && cur - Covers(front + [d]) == start - Covers(front + [d])
    ensures cur' - Covers(front + [d]) == start - Covers(front + [d])
    ensures res' + Over(start, Stack(Coords(front, sizes), d, v + 1, size))
         == res + Over(start, Stack(Coords(front, sizes), d, v, size))
    decreases |front|, 1
  {
    cur' := cur[d := v];
    ghost var now := cur';
    KeptBySet(start, cur, front, d, v);
    OverStack(start, now, Coords(front, sizes), front, sizes, d, v, size);
    cur', res' := RecOuter(front, sizes, cur', res);
    KeptOutside(start, cur, now, cur', front, d, v);
  }

  lemma KeptBySet(cur: Coord, before: Coord, front: seq<Dim>, d: Dim, v: nat)
    requires before - Covers(front + [d]) == cur - Covers(front + [d])
    ensures before[d := v] - Covers(front + [d]) == cur - Covers(front + [d])
  {
    assert d in front + [d];
  }

  lemma KeptOutside(cur: Coord, before: Coord, now: Coord, after: Coord, front: seq<Dim>, d: Dim, v: nat)
    requires before - Covers(front + [d]) == cur - Covers(front + [d]) && now == before[d := v]
    requires after - Covers(front) == now - Covers(front)
    ensures after - Covers(front + [d]) == cur - Covers(front + [d])
  {
    var all, inner := Covers(front + [d]), Covers(front);
    assert all == inner + {d};
    forall e | e !in all ensures e in after <==> e in cur {
      assert e in after - inner <==> e in now - inner;
      assert e in before - all <==> e in cur - all;
    }
    forall e | e !in all && e in cur ensures after[e] == cur[e] {
      assert e in cur - all && (cur - all)[e] == cur[e] && (before - all)[e] == before[e];
      assert (after - inner)[e] == after[e] && (now - inner)[e] == now[e];
    }
  }

  lemma OverStack(cur: Coord, now: Coord, cs: seq<Coord>, front: seq<Dim>, sizes: Sizes, d: Dim, v: nat, n: nat)
    requires cs == Coords(front, sizes) && Distinct(front) && v < n && d in now && now[d] == v && d !in front
    requires now - Covers(front + [d]) == cur - Covers(front + [d])
    ensures Over(cur, Stack(cs, d, v, n)) == Over(now, cs) + Over(cur, Stack(cs, d, v + 1, n))
  {
    forall i | 0 <= i < |cs| ensures cur + cs[i][d := v] == now + cs[i] {
      NumberAt(front, sizes, i);
      SameOver(cur, now, cs[i], front, d, v);
    }
  }

  lemma SameOver(cur: Coord, now: Coord, c: Coord, front: seq<Dim>, d: Dim, v: nat)
    requires c.Keys == Covers(front) && d in now && now[d] == v && d !in front
    requires now - Covers(front + [d]) == cur - Covers(front + [d])
    ensures cur + c[d := v] == now + c
  {
    var all := Covers(front + [d]);
    assert all == Covers(front) + {d};
    forall e ensures e in cur + c[d := v] <==> e in now + c {
      if e !in all { assert e in now - all <==> e in cur - all; }
    }
    forall e | e in now + c ensures (cur + c[d := v])[e] == (now + c)[e] {
      if e !in all { assert e in now - all && (now - all)[e] == now[e] && (cur - all)[e] == cur[e]; }
    }
  }

  method IterCoords(order: seq<Dim>, sizes: Sizes) returns (res: seq<Coord>)
    requires Distinct(order)
    ensures res == Coords(order, sizes)
  {
    var none: Coord := map[];
    var _, r := RecOuter(order, sizes, none, []);
    res := r;
    forall i | 0 <= i < |res| ensures res[i] == Coords(order, sizes)[i] {
      assert none + Coords(order, sizes)[i] == Coords(order, sizes)[i];
    }
  }

  // ---------------------------------------------------------------- the placement order

  /** First occurrences only. */
  function Dedup(dims: seq<Dim>): (r: seq<Dim>)
    ensures Distinct(r) && forall d :: d in r <==> d in dims
  {
    if dims == [] then []
    else
      var n := |dims| - 1;
      var front := Dedup(dims[..n]);
      assert dims == dims[..n] + [dims[n]];
      if dims[n] in front then front else front + [dims[n]]
  }

  lemma DedupSnoc(dims: seq<Dim>, d: Dim)
    ensures Dedup(dims + [d]) == if d in dims then Dedup(dims) else Dedup(dims) + [d]
  {
    assert (dims + [d])[..|dims|] == dims;
  }

  /** Where a dimension is first named. */
  function FirstNamed(dims: seq<Dim>, d: Dim): (k: nat)
    requires d in dims
    ensures k < |dims| && dims[k] == d && forall i :: 0 <= i < k ==> dims[i] != d
  {
    if dims[0] == d then 0 else 1 + FirstNamed(dims[1..], d)
  }

  lemma FirstNamedFront(dims: seq<Dim>, x: Dim, d: Dim)
    requires d in dims
    ensures FirstNamed(dims + [x], d) == FirstNamed(dims, d)
  {
    var j, k := FirstNamed(dims + [x], d), FirstNamed(dims, d);
    assert (dims + [x])[k] == d;
  }

  /** The dimensions come in the order in which they are first named. */
  lemma {:induction false} DedupKeepsOrder(dims: seq<Dim>, i: nat, j: nat)
    requires i < j < |Dedup(dims)|
    ensures FirstNamed(dims, Dedup(dims)[i]) < FirstNamed(dims, Dedup(dims)[j])
  {
    var n := |dims| - 1;
    var front, x := dims[..n], dims[n];
    assert dims == front + [x];
    DedupSnoc(front, x);
    FirstNamedFront(front, x, Dedup(dims)[i]);
    if j < |Dedup(front)| {
      DedupKeepsOrder(front, i, j);
      FirstNamedFront(front, x, Dedup(dims)[j]);
    }
  }

  /** An order that names every dimension once. */
  ghost predicate Full(order: seq<Dim>) { Distinct(order) && forall d: Dim :: d in order }

  method AddMissing(order: seq<Dim>, known: seq<Dim>) returns (dims: seq<Dim>)
    ensures Dedup(dims) == Dedup(order + known)
  {
    dims := order;
    assert order + known[..0] == order;
    for i := 0 to |known|
      invariant Dedup(dims) == Dedup(order + known[..i])
    {
      AddNext(dims, order, known, i);
      if known[i] !in dims { dims := dims + [known[i]]; }
    }
    assert known[..|known|] == known;
  }

  lemma AddNext(dims: seq<Dim>, order: seq<Dim>, known: seq<Dim>, i: nat)
    requires i < |known| && Dedup(dims) == Dedup(order + known[..i])
    ensures Dedup(if known[i] in dims then dims else dims + [known[i]]) == Dedup(order + known[..i + 1])
  {
    AddOne(dims, order + known[..i], known[i]);
    TakeNext(order, known, i);
  }

  lemma TakeNext(order: seq<Dim>, known: seq<Dim>, i: nat)
    requires i < |known|
    ensures order + known[..i + 1] == (order + known[..i]) + [known[i]]
  {
  }

  lemma AddOne(dims: seq<Dim>, all: seq<Dim>, d: Dim)
    requires Dedup(dims) == Dedup(all)
    ensures Dedup(if d in dims then dims else dims + [d]) == Dedup(all + [d])
  {
    DedupSnoc(dims, d);
    DedupSnoc(all, d);
    assert d in dims <==> d in Dedup(dims);
    assert d in all <==> d in Dedup(all);
  }

  /** Dimensions not named go last; a dimension named twice counts where it is named first. */
  method NormalizeDimOrder(order: seq<Dim>) returns (out: seq<Dim>)
    ensures out == Dedup(order + KNOWN_DIMS) && Full(out)
  {
    var dims := AddMissing(order, KNOWN_DIMS);
    out := [];
    for i := 0 to |dims|
      invariant out == Dedup(dims[..i])
    {
      DedupSnoc(dims[..i], dims[i]);
      assert dims[..i + 1] == dims[..i] + [dims[i]];
      if dims[i] !in out { out := out + [dims[i]]; }
    }
    assert dims[..|dims|] == dims;
    AllKnown(order);
  }

  lemma AllKnown(order: seq<Dim>)
    ensures Full(Dedup(order + KNOWN_DIMS))
  {
    forall d: Dim ensures d in order + KNOWN_DIMS {
      KnowsAll(d);
    }
  }

  lemma KnowsAll(d: Dim)
    ensures d in KNOWN_DIMS
  {
    match d
    case TP => assert KNOWN_DIMS[0] == d;
    case CP => assert KNOWN_DIMS[1] == d;
    case DP => assert KNOWN_DIMS[2] == d;
    case EP => assert KNOWN_DIMS[3] == d;
  }

  function Without(order: seq<Dim>, d: Dim): (r: seq<Dim>)
    requires Distinct(order)
    ensures Distinct(r) && forall e :: e in r <==> e in order && e != d
  {
    if order == [] then []
    else
      var n := |order| - 1;
      assert order == order[..n] + [order[n]];
      assert order[n] !in order[..n];
      if order[n] == d then order[..n] else Without(order[..n], d) + [order[n]]
  }

  lemma {:induction false} SpanWithout(order: seq<Dim>, sizes: Sizes, d: Dim)
    requires Distinct(order) && d in order
    ensures Span(order, sizes) == Span(Without(order, d), sizes) * SizeOf(sizes, d)
  {
    var n := |order| - 1;
    assert order == order[..n] + [order[n]];
    if order[n] != d {
      var rest := Without(order[..n], d);
      SpanWithout(order[..n], sizes, d);
      assert (rest + [order[n]])[..|rest|] == rest;
      SwapFactors(Span(rest, sizes), SizeOf(sizes, d), SizeOf(sizes, order[n]));
    }
  }

  lemma SwapFactors(a: nat, b: nat, c: nat)
    ensures (a * b) * c == (a * c) * b
  {
  }

  ghost predicate Names(order: seq<Dim>, dims: set<Dim>) { Distinct(order) && forall d :: d in order <==> d in dims }

  lemma SpanOfOne(order: seq<Dim>, sizes: Sizes)
    requires Names(order, {TP})
    ensures Span(order, sizes) == SizeOf(sizes, TP)
  {
    SpanWithout(order, sizes, TP);
    NothingLeft(Without(order, TP), sizes);
  }

  lemma SpanOfTwo(order: seq<Dim>, sizes: Sizes)
    requires Names(order, {TP, CP})
    ensures Span(order, sizes) == SizeOf(sizes, TP) * SizeOf(sizes, CP)
  {
    SpanWithout(order, sizes, CP);
    SpanOfOne(Without(order, CP), sizes);
  }

  lemma SpanOfThree(order: seq<Dim>, sizes: Sizes)
    requires Names(order, {TP, CP, DP})
    ensures Span(order, sizes) == SizeOf(sizes, TP) * SizeOf(sizes, CP) * SizeOf(sizes, DP)
  {
    SpanWithout(order, sizes, DP);
    SpanOfTwo(Without(order, DP), sizes);
  }

  /** Whatever the order, the coordinates are as many as tp * cp * dp * ep: the internal check of _build_layout
      cannot fail. */
  lemma SpanOfFull(order: seq<Dim>, sizes: Sizes)
    requires Full(order)
    ensures Span(order, sizes) == SizeOf(sizes, TP) * SizeOf(sizes, CP) * SizeOf(sizes, DP) * SizeOf(sizes, EP)
  {
    SpanWithout(order, sizes, EP);
    SpanOfThree(Without(order, EP), sizes);
  }

  lemma NothingLeft(order: seq<Dim>, sizes: Sizes)
    requires forall d :: d !in order
    ensures Span(order, sizes) == 1
  {
    Inhabited(order);
  }

  lemma Inhabited(order: seq<Dim>)
    ensures order == [] || exists d :: d in order
  {
    if order != [] { assert order[0] in order; }
  }

  // ---------------------------------------------------------------- the layout

  datatype Layout = Invalid | Placed(coordToNode: map<Coord, nat>, nodeToServer: map<nat, nat>)

  /** Node numbers and coordinates correspond one to one, by the mixed-radix number; consecutive nodes share a
      server. */
  ghost predicate IsLayout(coordToNode: map<Coord, nat>, nodeToServer: map<nat, nat>, order: seq<Dim>, sizes: Sizes,
                           nodes: nat, gpus: nat)
    requires Distinct(order) && |Coords(order, sizes)| == nodes
  {
    NodesOf(coordToNode, order, sizes) && Served(nodeToServer, nodes, gpus)
  }

  ghost predicate Served(nodeToServer: map<nat, nat>, n: nat, gpus: nat)
  {
    (forall x: nat :: x in nodeToServer <==> x < n) && forall x: nat :: x < n ==> ServerHolds(nodeToServer[x], x, gpus)
  }

  /** Server `s` holds `gpus` nodes from `s * gpus` on. */
  ghost predicate ServerHolds(s: nat, x: nat, gpus: nat) { s * gpus <= x < s * gpus + gpus }

  ghost predicate NodesOf(coordToNode: map<Coord, nat>, order: seq<Dim>, sizes: Sizes)
    requires Distinct(order)
  {
    && (forall c :: c in coordToNode <==> InSpace(c, order, sizes))
    && (forall c :: c in coordToNode ==> Numbered(coordToNode[c], c, order, sizes))
  }

  ghost predicate Numbered(x: nat, c: Coord, order: seq<Dim>, sizes: Sizes)
  {
    x < |Coords(order, sizes)| && Coords(order, sizes)[x] == c && (forall d :: d in order ==> d in c)
    && Number(order, sizes, c) == x
  }

  /** A layout is a bijection: every coordinate has a node, every node exactly one coordinate. */
  lemma LayoutIsBijection(coordToNode: map<Coord, nat>, order: seq<Dim>, sizes: Sizes, x: nat)
    requires Distinct(order) && NodesOf(coordToNode, order, sizes) && x < |Coords(order, sizes)|
    ensures exists c :: c in coordToNode && coordToNode[c] == x
    ensures forall a, b :: a in coordToNode && b in coordToNode && coordToNode[a] == coordToNode[b] ==> a == b
  {
    var c := Coords(order, sizes)[x];
    NumberAt(order, sizes, x);
    assert Numbered(coordToNode[c], c, order, sizes);
    forall a, b | a in coordToNode && b in coordToNode && coordToNode[a] == coordToNode[b] ensures a == b {
      assert Numbered(coordToNode[a], a, order, sizes) && Numbered(coordToNode[b], b, order, sizes);
    }
  }

  ghost predicate Filled(coordToNode: map<Coord, nat>, coords: seq<Coord>, n: nat)
    requires n <= |coords|
  {
    && (forall i :: 0 <= i < n ==> coords[i] in coordToNode && coordToNode[coords[i]] == i)
    && (forall c :: c in coordToNode ==> coordToNode[c] < n && coords[coordToNode[c]] == c)
  }

  lemma FilledIsNodes(coordToNode: map<Coord, nat>, order: seq<Dim>, sizes: Sizes)
    requires Distinct(order) && Filled(coordToNode, Coords(order, sizes), |Coords(order, sizes)|)
    ensures NodesOf(coordToNode, order, sizes)
  {
    forall c | c in coordToNode ensures InSpace(c, order, sizes) && Numbered(coordToNode[c], c, order, sizes) {
      NumberAt(order, sizes, coordToNode[c]);
    }
    forall c | InSpace(c, order, sizes) ensures c in coordToNode {
      PlaceOf(order, sizes, c);
    }
  }

  method BuildLayout(nodes: nat, servers: nat, gpus: nat, sizes: Sizes, placement: seq<Dim>) returns (r: Layout)
    ensures r.Placed? <==>
      (nodes == servers * gpus &&
       nodes == SizeOf(sizes, TP) * SizeOf(sizes, CP) * SizeOf(sizes, DP) * SizeOf(sizes, EP))
    ensures r.Placed? ==> var order := Dedup(placement + KNOWN_DIMS);
      |Coords(order, sizes)| == nodes && IsLayout(r.coordToNode, r.nodeToServer, order, sizes, nodes, gpus)
  {
    if nodes != servers * gpus { return Invalid; }
    if nodes != SizeOf(sizes, TP) * SizeOf(sizes, CP) * SizeOf(sizes, DP) * SizeOf(sizes, EP) { return Invalid; }
    var order := NormalizeDimOrder(placement);
    var coords := IterCoords(order, sizes);
    CoordsLength(order, sizes);
    SpanOfFull(order, sizes);
    assert |coords| == nodes;
    var coordToNode, nodeToServer := FillNodes(coords, order, sizes, servers, gpus);
    FilledIsNodes(coordToNode, order, sizes);
    r := Placed(coordToNode, nodeToServer);
  }

  method FillNodes(coords: seq<Coord>, ghost order: seq<Dim>, ghost sizes: Sizes, servers: nat, gpus: nat)
    returns (coordToNode: map<Coord, nat>, nodeToServer: map<nat, nat>)
    requires Distinct(order) && coords == Coords(order, sizes) && |coords| == servers * gpus
    ensures Filled(coordToNode, coords, |coords|)
    ensures Served(nodeToServer, |coords|, gpus)
  {
    coordToNode, nodeToServer := map[], map[];
    var nodeId := 0;
    for s := 0 to servers
      invariant nodeId == s * gpus <= |coords|
      invariant Filled(coordToNode, coords, nodeId) && Served(nodeToServer, nodeId, gpus)
    {
      MulStep(s, servers, gpus);
      coordToNode, nodeToServer := FillServer(coords, order, sizes, s, gpus, nodeId, coordToNode, nodeToServer);
      nodeId := nodeId + gpus;
      assert (s + 1) * gpus == s * gpus + gpus;
    }
  }

  /** The nodes of one server. */
  method FillServer(coords: seq<Coord>, ghost order: seq<Dim>, ghost sizes: Sizes, s: nat, gpus: nat, base: nat,
                    placed: map<Coord, nat>, served: map<nat, nat>)
    returns (coordToNode: map<Coord, nat>, nodeToServer: map<nat, nat>)
    requires Distinct(order) && coords == Coords(order, sizes) && base == s * gpus && base + gpus <= |coords|
    requires Filled(placed, coords, base) && Served(served, base, gpus)
    ensures Filled(coordToNode, coords, base + gpus) && Served(nodeToServer, base + gpus, gpus)
  {
    coordToNode, nodeToServer := placed, served;
    for g := 0 to gpus
      invariant Filled(coordToNode, coords, base + g) && Served(nodeToServer, base + g, gpus)
    {
      FillOne(coordToNode, coords, base + g, order, sizes);
      coordToNode := coordToNode[coords[base + g] := base + g];
      nodeToServer := nodeToServer[base + g := s];
    }
  }

  lemma FillOne(coordToNode: map<Coord, nat>, coords: seq<Coord>, n: nat, order: seq<Dim>, sizes: Sizes)
    requires Distinct(order) && coords == Coords(order, sizes) && n < |coords| && Filled(coordToNode, coords, n)
    ensures Filled(coordToNode[coords[n] := n], coords, n + 1)
  {
    forall i | 0 <= i < n ensures coords[i] != coords[n] {
      NumberAt(order, sizes, i);
      NumberAt(order, sizes, n);
    }
  }

  // ---------------------------------------------------------------- groups

  /** The known dimensions outside a domain. */
  function Others(dom: seq<Dim>, known: seq<Dim>): (r: seq<Dim>)
    requires Distinct(known)
    ensures Distinct(r) && forall d :: d in r <==> d in known && d !in dom
  {
    if known == [] then []
    else
      var n := |known| - 1;
      assert known == known[..n] + [known[n]] && known[n] !in known[..n];
      Others(dom, known[..n]) + if known[n] in dom then [] else [known[n]]
  }

  function GroupOf(fixed: Coord, inner: seq<Coord>, node: map<Coord, nat>): seq<nat>
    requires forall j :: 0 <= j < |inner| ==> fixed + inner[j] in node
  {
    seq(|inner|, j requires 0 <= j < |inner| => node[fixed + inner[j]])
  }

  function Restrict(c: Coord, dims: seq<Dim>): Coord { map d | d in c && d in dims :: c[d] }

  /** Coordinates inside and outside the domain together make a coordinate. */
  lemma Compose(fixed: Coord, inner: Coord, dom: seq<Dim>, others: seq<Dim>, order: seq<Dim>, sizes: Sizes)
    requires InSpace(fixed, others, sizes) && InSpace(inner, dom, sizes)
    requires forall d: Dim :: d in order && (d in others <==> d !in dom)
    ensures InSpace(fixed + inner, order, sizes)
    ensures Restrict(fixed + inner, others) == fixed && Restrict(fixed + inner, dom) == inner
  {
    var c := fixed + inner;
    forall d: Dim ensures d in c.Keys <==> d in order {
      assert d in fixed.Keys <==> d in others;
      assert d in inner.Keys <==> d in dom;
    }
    assert c.Keys == set d | d in order;
    forall d: Dim ensures d in fixed <==> d in others { assert d in fixed.Keys <==> d in others; }
    forall d: Dim ensures d in inner <==> d in dom { assert d in inner.Keys <==> d in dom; }
    assert Restrict(c, others) == fixed;
    assert Restrict(c, dom) == inner;
  }

  lemma Decompose(c: Coord, dom: seq<Dim>, others: seq<Dim>, order: seq<Dim>, sizes: Sizes)
    requires InSpace(c, order, sizes)
    requires forall d: Dim :: d in order && (d in others <==> d !in dom)
    ensures InSpace(Restrict(c, others), others, sizes) && InSpace(Restrict(c, dom), dom, sizes)
    ensures Restrict(c, others) + Restrict(c, dom) == c
  {
    forall d: Dim ensures d in c { assert d in c.Keys <==> d in order; }
    assert Restrict(c, others).Keys == set d | d in others;
    assert Restrict(c, dom).Keys == set d | d in dom;
  }

  /** The domain's dimensions and the others, between them, are all dimensions. */
  ghost predicate Parts(dom: seq<Dim>, others: seq<Dim>)
  {
    Distinct(dom) && Distinct(others) && forall d: Dim :: d in others <==> d !in dom
  }

  lemma OthersParts(dom: seq<Dim>)
    requires Distinct(dom)
    ensures Parts(dom, Others(dom, KNOWN_DIMS))
  {
    forall d: Dim ensures d in Others(dom, KNOWN_DIMS) <==> d !in dom { KnowsAll(d); }
  }

  lemma AllPresent(node: map<Coord, nat>, dom: seq<Dim>, others: seq<Dim>, order: seq<Dim>, sizes: Sizes, k: nat)
    requires Full(order) && Parts(dom, others) && NodesOf(node, order, sizes) && k < |Coords(others, sizes)|
    ensures forall j :: 0 <= j < |Coords(dom, sizes)| ==> Coords(others, sizes)[k] + Coords(dom, sizes)[j] in node
  {
    forall j | 0 <= j < |Coords(dom, sizes)| ensures Coords(others, sizes)[k] + Coords(dom, sizes)[j] in node {
      NumberAt(others, sizes, k);
      NumberAt(dom, sizes, j);
      Compose(Coords(others, sizes)[k], Coords(dom, sizes)[j], dom, others, order, sizes);
    }
  }

  /** The group of the k-th combination of the other dimensions. */
  ghost function Group(node: map<Coord, nat>, dom: seq<Dim>, others: seq<Dim>, order: seq<Dim>, sizes: Sizes,
                       k: nat): (g: seq<nat>)
    requires Full(order) && Parts(dom, others) && NodesOf(node, order, sizes) && k < |Coords(others, sizes)|
    ensures |g| == |Coords(dom, sizes)|
  {
    AllPresent(node, dom, others, order, sizes, k);
    GroupOf(Coords(others, sizes)[k], Coords(dom, sizes), node)
  }

  /** Which group a node is in, and where. */
  ghost function Home(dom: seq<Dim>, others: seq<Dim>, order: seq<Dim>, sizes: Sizes, x: nat): (at: (nat, nat))
    requires Full(order) && Parts(dom, others) && x < |Coords(order, sizes)|
    ensures at.0 < |Coords(others, sizes)| && at.1 < |Coords(dom, sizes)|
    ensures Coords(others, sizes)[at.0] == Restrict(Coords(order, sizes)[x], others)
    ensures Coords(dom, sizes)[at.1] == Restrict(Coords(order, sizes)[x], dom)
  {
    var c := Coords(order, sizes)[x];
    NumberAt(order, sizes, x);
    Decompose(c, dom, others, order, sizes);
    PlaceOf(others, sizes, Restrict(c, others));
    PlaceOf(dom, sizes, Restrict(c, dom));
    (Number(others, sizes, Restrict(c, others)), Number(dom, sizes, Restrict(c, dom)))
  }

  /** The groups of a domain partition the nodes: node `x` stands in its home group, at its home place, and
      nowhere else. */
  lemma GroupsPartition(node: map<Coord, nat>, dom: seq<Dim>, others: seq<Dim>, order: seq<Dim>, sizes: Sizes,
                        x: nat, k: nat, j: nat)
    requires Full(order) && Parts(dom, others) && NodesOf(node, order, sizes) && x < |Coords(order, sizes)|
    requires k < |Coords(others, sizes)| && j < |Coords(dom, sizes)|
    ensures Group(node, dom, others, order, sizes, k)[j] == x <==> (k, j) == Home(dom, others, order, sizes, x)
  {
    var fixed, inner, c := Coords(others, sizes)[k], Coords(dom, sizes)[j], Coords(order, sizes)[x];
    NumberAt(others, sizes, k);
    NumberAt(dom, sizes, j);
    NumberAt(order, sizes, x);
    Compose(fixed, inner, dom, others, order, sizes);
    Decompose(c, dom, others, order, sizes);
    assert Numbered(node[fixed + inner], fixed + inner, order, sizes);
    HomeIff(dom, others, order, sizes, x, k, j);
  }

  lemma HomeIff(dom: seq<Dim>, others: seq<Dim>, order: seq<Dim>, sizes: Sizes, x: nat, k: nat, j: nat)
    requires Full(order) && Parts(dom, others) && x < |Coords(order, sizes)|
    requires k < |Coords(others, sizes)| && j < |Coords(dom, sizes)|
    ensures var c := Coords(order, sizes)[x];
      ((k, j) == Home(dom, others, order, sizes, x))
        <==> (Coords(others, sizes)[k] == Restrict(c, others) && Coords(dom, sizes)[j] == Restrict(c, dom))
  {
    var at := Home(dom, others, order, sizes, x);
    NumberAt(others, sizes, k);
    NumberAt(others, sizes, at.0);
    NumberAt(dom, sizes, j);
    NumberAt(dom, sizes, at.1);
  }

  /** Two nodes share a group exactly when their coordinates agree outside the domain. */
  lemma SameGroupIff(dom: seq<Dim>, others: seq<Dim>, order: seq<Dim>, sizes: Sizes, x: nat, y: nat)
    requires Full(order) && Parts(dom, others) && x < |Coords(order, sizes)| && y < |Coords(order, sizes)|
    ensures Home(dom, others, order, sizes, x).0 == Home(dom, others, order, sizes, y).0
       <==> forall d :: d in others && d in Coords(order, sizes)[x] && d in Coords(order, sizes)[y] ==>
              Coords(order, sizes)[x][d] == Coords(order, sizes)[y][d]
  {
    NumberAt(order, sizes, x);
    NumberAt(order, sizes, y);
    AgreeIff(Coords(order, sizes)[x], Coords(order, sizes)[y], others);
    var a, b := Home(dom, others, order, sizes, x), Home(dom, others, order, sizes, y);
    NumberAt(others, sizes, a.0);
    NumberAt(others, sizes, b.0);
  }

  lemma AgreeIff(a: Coord, b: Coord, dims: seq<Dim>)
    requires a.Keys == b.Keys
    ensures Restrict(a, dims) == Restrict(b, dims) <==> forall d :: d in dims && d in a && d in b ==> a[d] == b[d]
  {
    if Restrict(a, dims) == Restrict(b, dims) {
      forall d | d in dims && d in a && d in b ensures a[d] == b[d] {
        assert Restrict(a, dims)[d] == Restrict(b, dims)[d];
      }
    } else {
      assert Restrict(a, dims).Keys == Restrict(b, dims).Keys;
    }
  }

  ghost predicate AreGroups(groups: seq<seq<nat>>, node: map<Coord, nat>, dom: seq<Dim>, others: seq<Dim>,
                            order: seq<Dim>, sizes: Sizes)
    requires Full(order) && Parts(dom, others) && NodesOf(node, order, sizes)
  {
    |groups| <= |Coords(others, sizes)| && forall k :: 0 <= k < |groups| ==>
        groups[k] == Group(node, dom, others, order, sizes, k)
  }

  method GroupsForDomain(sizes: Sizes, dom: seq<Dim>, coordToNode: map<Coord, nat>, ghost order: seq<Dim>)
    returns (groups: seq<seq<nat>>)
    requires Full(order) && Distinct(dom) && NodesOf(coordToNode, order, sizes)
    ensures Parts(dom, Others(dom, KNOWN_DIMS)) && |groups| == |Coords(Others(dom, KNOWN_DIMS), sizes)|
    ensures AreGroups(groups, coordToNode, dom, Others(dom, KNOWN_DIMS), order, sizes)
  {
    OthersParts(dom);
    var others := Others(dom, KNOWN_DIMS);
    var fixedList := IterCoords(others, sizes);
    var innerList := IterCoords(dom, sizes);
    groups := [];
    for k := 0 to |fixedList|
      invariant |groups| == k && AreGroups(groups, coordToNode, dom, others, order, sizes)
    {
      AllPresent(coordToNode, dom, others, order, sizes, k);
      var nodes := OneGroup(fixedList[k], innerList, coordToNode);
      NextGroup(groups, nodes, coordToNode, dom, others, order, sizes);
      groups := groups + [nodes];
    }
  }

  lemma NextGroup(groups: seq<seq<nat>>, nodes: seq<nat>, node: map<Coord, nat>, dom: seq<Dim>, others: seq<Dim>,
                  order: seq<Dim>, sizes: Sizes)
    requires Full(order) && Parts(dom, others) && NodesOf(node, order, sizes)
    requires AreGroups(groups, node, dom, others, order, sizes) && |groups| < |Coords(others, sizes)|
    requires forall j :: 0 <= j < |Coords(dom, sizes)| ==>
        Coords(others, sizes)[|groups|] + Coords(dom, sizes)[j] in node
    requires nodes == GroupOf(Coords(others, sizes)[|groups|], Coords(dom, sizes), node)
    ensures AreGroups(groups + [nodes], node, dom, others, order, sizes)
  {
  }

  method OneGroup(fixed: Coord, innerList: seq<Coord>, coordToNode: map<Coord, nat>) returns (nodes: seq<nat>)
    requires forall j :: 0 <= j < |innerList| ==> fixed + innerList[j] in coordToNode
    ensures nodes == GroupOf(fixed, innerList, coordToNode)
  {
    nodes := [];
    for j := 0 to |innerList|
      invariant nodes == GroupOf(fixed, innerList, coordToNode)[..j]
    {
      nodes := nodes + [coordToNode[fixed + innerList[j]]];
    }
  }
}
