/** The pull queues: round robin over flows with a persistent cursor (sim/fairpullqueue.cpp:77-157), and the
    same within each level of a strict priority order (sim/priopullqueue.cpp:11-174). The key order of std::map
    is the order of flow ids; an iterator is the key it points at, or the end. Packets are numbers. */
module FairQueues {
  import opened Counting
  import opened Options
  import opened OrderedMaps
  import opened Tallies

  datatype Cursor = End | At(flow: nat)

  type Queues = map<nat, seq<nat>>

  datatype Fair = Fair(queues: Queues, current: Cursor)

  /** The iterator after `f`. */
  function After(keys: set<nat>, f: nat): (c: Cursor)
    ensures c.At? ==> c.flow in keys && f < c.flow
    ensures forall k :: k in keys && f < k ==> c.At? && c.flow <= k
  {
    var later := set k | k in keys && f < k;
    assert forall k :: k in keys && f < k ==> k in later;
    if later == {} then End else At(Least(later))
  }

  /** The queue the loop looks at next: the cursor's, or the first one if the cursor is at the end. */
  function Visit(keys: set<nat>, c: Cursor): (f: nat)
    requires keys != {} && (c.At? ==> c.flow in keys)
    ensures f in keys
  {
    if c.End? then Least(keys) else c.flow
  }

  ghost predicate Busy(q: Queues, f: nat) { f in q && q[f] != [] }

  ghost predicate Valid(s: Fair) { s.current.At? ==> s.current.flow in s.queues }

  // ---------------------------------------------------------------- distance from the cursor

  /** Does the loop look at `k` before it comes to `f`? */
  predicate Before(c: Cursor, k: nat, f: nat)
  {
    match c
    case End => k < f
    case At(g) => if g <= f then g <= k < f else g <= k || k < f
  }

  /** The flows that the loop looks at before it comes to `f`. */
  function Ahead(keys: set<nat>, c: Cursor, f: nat): set<nat>
  {
    set k | k in keys && Before(c, k, f)
  }

  /** The loop either looks at `f`, or comes one flow closer to it. */
  lemma Closer(keys: set<nat>, c: Cursor, f: nat)
    requires f in keys && (c.At? ==> c.flow in keys)
    ensures var v := Visit(keys, c);
      v != f ==> v in Ahead(keys, c, f) && Ahead(keys, After(keys, v), f) == Ahead(keys, c, f) - {v}
  {
  }

  lemma AheadBound(keys: set<nat>, c: Cursor, f: nat)
    requires f in keys
    ensures |Ahead(keys, c, f)| < |keys|
  {
    SubsetSize(Ahead(keys, c, f), keys - {f});
  }

  // ---------------------------------------------------------------- the operations

  /** The first busy flow from the cursor, and the cursor after it. `f` is any busy flow. */
  function Scan(q: Queues, c: Cursor, ghost f: nat): (r: (nat, Cursor))
    requires Busy(q, f) && (c.At? ==> c.flow in q)
    ensures r.0 in q && q[r.0] != [] && r.1 == After(q.Keys, r.0)
    ensures r.0 == f || (r.0 in Ahead(q.Keys, c, f) && |Ahead(q.Keys, r.1, f)| < |Ahead(q.Keys, c, f)|)
    ensures forall k :: k in q && Before(c, k, r.0) ==> q[k] == []
    decreases |Ahead(q.Keys, c, f)|
  {
    var v := Visit(q.Keys, c);
    Closer(q.Keys, c, f);
    if q[v] != [] then (v, After(q.Keys, v)) else Scan(q, After(q.Keys, v), f)
  }

  lemma {:induction false} ScanSame(q: Queues, c: Cursor, f: nat, g: nat)
    requires Busy(q, f) && Busy(q, g) && (c.At? ==> c.flow in q)
    ensures Scan(q, c, f) == Scan(q, c, g)
    decreases |Ahead(q.Keys, c, f)|
  {
    var v := Visit(q.Keys, c);
    Closer(q.Keys, c, f);
    if q[v] == [] { ScanSame(q, After(q.Keys, v), f, g); }
  }

  predicate HasWork(q: Queues) { exists f :: f in q && q[f] != [] }

  function SomeBusy(q: Queues): (f: nat)
    requires HasWork(q)
    ensures Busy(q, f)
  {
    var busy := set f | f in q && q[f] != [];
    assert busy != {} by { var f :| f in q && q[f] != []; assert f in busy; }
    Least(busy)
  }

  function Enqueue(s: Fair, f: nat, p: nat): (r: Fair)
    requires Valid(s)
    ensures Valid(r)
  {
    s.(queues := s.queues[f := (if f in s.queues then s.queues[f] else []) + [p]])
  }

  /** The flow whose packet leaves next. */
  function NextFlow(s: Fair): (f: nat)
    requires Valid(s) && HasWork(s.queues)
    ensures Busy(s.queues, f)
    ensures forall k :: k in s.queues && Before(s.current, k, f) ==> s.queues[k] == []
  {
    Scan(s.queues, s.current, SomeBusy(s.queues)).0
  }

  function Dequeue(s: Fair): (r: Fair)
    requires Valid(s) && HasWork(s.queues)
    ensures Valid(r)
  {
    var f := NextFlow(s);
    Fair(s.queues[f := s.queues[f][1..]], After(s.queues.Keys, f))
  }

  function Flush(s: Fair, f: nat): (r: Fair)
    requires Valid(s)
    ensures Valid(r)
  {
    if f !in s.queues then s
    else Fair(s.queues - {f}, if s.current == At(f) then After(s.queues.Keys, f) else s.current)
  }

  // ---------------------------------------------------------------- fairness

  /** Serving another flow brings a waiting flow closer to its turn. */
  lemma DequeueCloser(s: Fair, f: nat)
    requires Valid(s) && Busy(s.queues, f) && NextFlow(s) != f
    ensures var r := Dequeue(s);
      |Ahead(r.queues.Keys, r.current, f)| < |Ahead(s.queues.Keys, s.current, f)| && r.queues[f] == s.queues[f]
  {
    ScanSame(s.queues, s.current, SomeBusy(s.queues), f);
    assert Dequeue(s).queues.Keys == s.queues.Keys;
  }

  lemma EnqueueAhead(s: Fair, g: nat, p: nat, f: nat)
    requires Valid(s) && f in s.queues
    ensures var r := Enqueue(s, g, p);
      |Ahead(r.queues.Keys, r.current, f)| <= |Ahead(s.queues.Keys, s.current, f)| + if g in s.queues then 0 else 1
  {
    var r := Enqueue(s, g, p);
    if g in s.queues {
      assert r.queues.Keys == s.queues.Keys;
    } else {
      SubsetSize(Ahead(r.queues.Keys, r.current, f), Ahead(s.queues.Keys, s.current, f) + {g});
    }
  }

  lemma FlushAhead(s: Fair, g: nat, f: nat)
    requires Valid(s) && f in s.queues && g != f
    ensures var r := Flush(s, g); |Ahead(r.queues.Keys, r.current, f)| <= |Ahead(s.queues.Keys, s.current, f)|
  {
    var r := Flush(s, g);
    forall k | k in Ahead(r.queues.Keys, r.current, f) ensures k in Ahead(s.queues.Keys, s.current, f) {
      assert k in r.queues.Keys && k in s.queues.Keys;
    }
    SubsetSize(Ahead(r.queues.Keys, r.current, f), Ahead(s.queues.Keys, s.current, f));
  }

  datatype Op = Put(flow: nat, pkt: nat) | Take | Drop(flow: nat)

  /** A dequeue with nothing queued returns nothing. */
  function Apply(s: Fair, op: Op): (r: Fair)
    requires Valid(s)
    ensures Valid(r)
  {
    match op
    case Put(f, p) => Enqueue(s, f, p)
    case Take => if HasWork(s.queues) then Dequeue(s) else s
    case Drop(f) => Flush(s, f)
  }

  function Run(s: Fair, ops: seq<Op>): (r: Fair)
    requires Valid(s)
    ensures Valid(r)
    decreases |ops|
  {
    if ops == [] then s else Run(Apply(s, ops[0]), ops[1..])
  }

  predicate ServesNow(s: Fair, op: Op, f: nat)
    requires Valid(s)
  {
    op == Take && HasWork(s.queues) && NextFlow(s) == f
  }

  function Serves(s: Fair, ops: seq<Op>, f: nat): bool
    requires Valid(s)
    decreases |ops|
  {
    ops != [] && (ServesNow(s, ops[0], f) || Serves(Apply(s, ops[0]), ops[1..], f))
  }

  function Takes(ops: seq<Op>): nat
  {
    if ops == [] then 0 else (if ops[0] == Take then 1 else 0) + Takes(ops[1..])
  }

  /** How often a queue is created during the run. */
  function Creations(s: Fair, ops: seq<Op>): nat
    requires Valid(s)
    decreases |ops|
  {
    if ops == [] then 0
    else (if ops[0].Put? && ops[0].flow !in s.queues then 1 else 0) + Creations(Apply(s, ops[0]), ops[1..])
  }

  function Distance(s: Fair, f: nat): nat { |Ahead(s.queues.Keys, s.current, f)| }

  lemma StepDistance(s: Fair, op: Op, f: nat)
    requires Valid(s) && Busy(s.queues, f) && op != Drop(f) && !ServesNow(s, op, f)
    ensures Busy(Apply(s, op).queues, f)
    ensures Distance(Apply(s, op), f) + (if op == Take then 1 else 0)
         <= Distance(s, f) + if op.Put? && op.flow !in s.queues then 1 else 0
  {
    match op
    case Put(g, p) => EnqueueAhead(s, g, p, f);
    case Take => assert HasWork(s.queues); DequeueCloser(s, f);
    case Drop(g) => FlushAhead(s, g, f);
  }

  lemma {:induction false} Unserved(s: Fair, ops: seq<Op>, f: nat)
    requires Valid(s) && Busy(s.queues, f) && Drop(f) !in ops && !Serves(s, ops, f)
    ensures Distance(Run(s, ops), f) + Takes(ops) <= Distance(s, f) + Creations(s, ops)
    decreases |ops|
  {
    if ops != [] {
      StepDistance(s, ops[0], f);
      Unserved(Apply(s, ops[0]), ops[1..], f);
    }
  }

  /** Fairness: whatever else is enqueued and flushed, a flow with a packet waiting is served within as many
      dequeues as there are flows, plus one for every queue created meanwhile. */
  lemma WaitingFlowIsServed(s: Fair, ops: seq<Op>, f: nat)
    requires Valid(s) && Busy(s.queues, f) && Drop(f) !in ops
    requires Takes(ops) >= |s.queues| + Creations(s, ops)
    ensures Serves(s, ops, f)
  {
    AheadBound(s.queues.Keys, s.current, f);
    assert |s.queues.Keys| == |s.queues|;
    if !Serves(s, ops, f) { Unserved(s, ops, f); }
  }

  // ---------------------------------------------------------------- order within a flow

  function Sent(s: Fair, ops: seq<Op>, f: nat): seq<nat>
    requires Valid(s)
    decreases |ops|
  {
    if ops == [] then []
    else (if ServesNow(s, ops[0], f) then [s.queues[f][0]] else []) + Sent(Apply(s, ops[0]), ops[1..], f)
  }

  function Given(ops: seq<Op>, f: nat): seq<nat>
  {
    if ops == [] then [] else (if ops[0].Put? && ops[0].flow == f then [ops[0].pkt] else []) + Given(ops[1..], f)
  }

  function Waiting(s: Fair, f: nat): seq<nat> { if f in s.queues then s.queues[f] else [] }

  lemma StepFifo(s: Fair, op: Op, f: nat)
    requires Valid(s) && op != Drop(f)
    ensures (if ServesNow(s, op, f) then [s.queues[f][0]] else []) + Waiting(Apply(s, op), f)
         == Waiting(s, f) + if op.Put? && op.flow == f then [op.pkt] else []
  {
  }

  /** FIFO: what a flow has sent and what it has waiting is what was waiting and what was enqueued, in order. */
  lemma {:induction false} FlowIsFifo(s: Fair, ops: seq<Op>, f: nat)
    requires Valid(s) && Drop(f) !in ops
    ensures Sent(s, ops, f) + Waiting(Run(s, ops), f) == Waiting(s, f) + Given(ops, f)
    decreases |ops|
  {
    if ops != [] {
      StepFifo(s, ops[0], f);
      FlowIsFifo(Apply(s, ops[0]), ops[1..], f);
      var now := if ServesNow(s, ops[0], f) then [s.queues[f][0]] else [];
      var put := if ops[0].Put? && ops[0].flow == f then [ops[0].pkt] else [];
      Regroup(now, Sent(Apply(s, ops[0]), ops[1..], f), Waiting(Run(s, ops), f), Waiting(Apply(s, ops[0]), f),
              Given(ops[1..], f), Waiting(s, f), put);
    }
  }

  lemma Regroup(now: seq<nat>, later: seq<nat>, end: seq<nat>, next: seq<nat>, given: seq<nat>, wait: seq<nat>,
                put: seq<nat>)
    requires now + next == wait + put && later + end == next + given
    ensures (now + later) + end == wait + (put + given)
  {
    assert (now + later) + end == now + (later + end);
    assert now + (next + given) == (now + next) + given;
    assert (wait + put) + given == wait + (put + given);
  }

  // ---------------------------------------------------------------- how many packets are queued

  /** Flushing a flow takes all its packets, and none of any other flow. */
  lemma FlushTakes(s: Fair, f: nat, g: nat)
    requires Valid(s)
    ensures Waiting(Apply(s, Drop(f)), g) == if g == f then [] else Waiting(s, g)
  {
  }

  function Lengths(q: Queues): map<nat, nat> { map f | f in q :: |q[f]| }

  /** The number of packets in all queues. */
  ghost function Size(q: Queues): nat { Total(Lengths(q)) }

  lemma SizePut(q: Queues, f: nat, xs: seq<nat>)
    ensures Size(q[f := xs]) == Size(q) - |if f in q then q[f] else []| + |xs|
  {
    TotalPut(Lengths(q), f, |xs|);
    assert Lengths(q[f := xs]) == Lengths(q)[f := |xs|];
  }

  lemma SizeDrop(q: Queues, f: nat)
    requires f in q
    ensures Size(q - {f}) == Size(q) - |q[f]|
  {
    TotalRemove(Lengths(q), f);
    assert Lengths(q - {f}) == Lengths(q) - {f};
  }

  lemma SizePositive(q: Queues)
    ensures Size(q) > 0 <==> HasWork(q)
  {
    TotalPositive(Lengths(q));
    if f :| f in q && q[f] != [] { assert Lengths(q)[f] > 0; }
  }

  /** One step of the scan, which the dequeue loops of both queues repeat. */
  lemma ScanStep(q: Queues, c: Cursor, f: nat)
    requires Busy(q, f) && (c.At? ==> c.flow in q)
    ensures var v := Visit(q.Keys, c);
      Scan(q, c, f) == if q[v] != [] then (v, After(q.Keys, v)) else Scan(q, After(q.Keys, v), f)
    ensures var v := Visit(q.Keys, c);
      q[v] == [] ==> |Ahead(q.Keys, After(q.Keys, v), f)| < |Ahead(q.Keys, c, f)|
  {
    Closer(q.Keys, c, f);
  }

  class FairPullQueue {
    var queueMap: Queues
    var currentQueue: Cursor
    var pullCount: nat

    ghost function View(): Fair
      reads this
    {
      Fair(queueMap, currentQueue)
    }

    ghost predicate Inv()
      reads this
    {
      Valid(View()) && pullCount == Size(queueMap)
    }

    constructor ()
      ensures Inv() && View() == Fair(map[], End)
    {
      queueMap, currentQueue, pullCount := map[], End, 0;
    }

    method EnqueuePacket(flow: nat, pkt: nat)
      requires Inv()
      modifies this
      ensures Inv() && View() == Enqueue(old(View()), flow, pkt)
    {
      SizePut(queueMap, flow, (if flow in queueMap then queueMap[flow] else []) + [pkt]);
      var queue := if flow in queueMap then queueMap[flow] else [];
      queueMap := queueMap[flow := queue + [pkt]];
      pullCount := pullCount + 1;
    }

    method DequeuePacket() returns (r: Option<nat>)
      requires Inv()
      modifies this
      ensures Inv() && View() == Apply(old(View()), Take)
      ensures r == if HasWork(old(queueMap)) then Some(old(queueMap)[NextFlow(old(View()))][0]) else None
    {
      SizePositive(queueMap);
      if pullCount == 0 { return None; }
      ghost var s, busy := View(), SomeBusy(queueMap);
      while true
        invariant View() == Fair(s.queues, currentQueue) && Inv()
        invariant Scan(s.queues, currentQueue, busy) == Scan(s.queues, s.current, busy)
        decreases |Ahead(s.queues.Keys, currentQueue, busy)|
      {
        ScanStep(s.queues, currentQueue, busy);
        if currentQueue.End? { currentQueue := At(Least(queueMap.Keys)); }
        var flow := currentQueue.flow;
        currentQueue := After(queueMap.Keys, flow);
        if queueMap[flow] != [] {
          r := Some(queueMap[flow][0]);
          SizePut(queueMap, flow, queueMap[flow][1..]);
          queueMap := queueMap[flow := queueMap[flow][1..]];
          pullCount := pullCount - 1;
          return;
        }
      }
    }

    method FlushFlow(flow: nat)
      requires Inv()
      modifies this
      ensures Inv() && View() == Flush(old(View()), flow)
    {
      if flow !in queueMap { return; }
      SizeDrop(queueMap, flow);
      var queue := queueMap[flow];
      while queue != []
        invariant View() == old(View()) && |queue| <= |queueMap[flow]| <= Size(queueMap)
        invariant pullCount == Size(queueMap) - |queueMap[flow]| + |queue|
      {
        queue := queue[1..];
        pullCount := pullCount - 1;
      }
      if currentQueue == At(flow) { currentQueue := After(queueMap.Keys, flow); }
      queueMap := queueMap - {flow};
    }
  }
}

/** Strict priority between levels, round robin within each. */
module PrioQueues {
  import opened Options
  import opened OrderedMaps
  import opened Tallies
  import F = FairQueues

  type Levels = map<int, F.Fair>

  datatype Op = Put(priority: int, flow: nat, pkt: nat) | Take | Drop(priority: int, flow: nat)

  lemma Member<T>(s: set<T>) returns (x: T)
    requires s != {}
    ensures x in s
  {
    x :| x in s;
  }

  lemma {:induction false} LowestExists(s: set<int>)
    requires s != {}
    ensures exists k :: k in s && forall t :: t in s ==> k <= t
  {
    var x := Member(s);
    if s == {x} {
      assert x in s && forall t :: t in s ==> x <= t;
    } else {
      var rest := s - {x};
      assert s == rest + {x};
      LowestExists(rest);
      var y :| y in rest && forall t :: t in rest ==> y <= t;
      var k := if x <= y then x else y;
      assert forall t :: t in s ==> t == x || t in rest;
      assert k in s && forall t :: t in s ==> k <= t;
    }
  }

  function Lowest(s: set<int>): (k: int)
    requires s != {}
    ensures k in s && forall t :: t in s ==> k <= t
  {
    LowestExists(s);
    var k :| k in s && forall t :: t in s ==> k <= t;
    k
  }

  ghost predicate Valid(ls: Levels) { forall p :: p in ls ==> F.Valid(ls[p]) }

  function Level(ls: Levels, p: int): F.Fair { if p in ls then ls[p] else F.Fair(map[], F.End) }

  /** The levels with something queued. */
  function Ready(ls: Levels): set<int> { set p | p in ls && F.HasWork(ls[p].queues) }

  function NextLevel(ls: Levels): (p: int)
    requires Ready(ls) != {}
    ensures p in ls && F.HasWork(ls[p].queues)
    ensures forall q :: q in ls && q < p ==> !F.HasWork(ls[q].queues)
  {
    var p := Lowest(Ready(ls));
    assert forall q :: q in ls && F.HasWork(ls[q].queues) ==> q in Ready(ls);
    p
  }

  function Apply(ls: Levels, op: Op): (r: Levels)
    requires Valid(ls)
    ensures Valid(r)
  {
    match op
    case Put(p, f, x) => ls[p := F.Enqueue(Level(ls, p), f, x)]
    case Take => if Ready(ls) == {} then ls else ls[NextLevel(ls) := F.Dequeue(ls[NextLevel(ls)])]
    case Drop(p, f) => if p in ls then ls[p := F.Flush(ls[p], f)] else ls
  }

  function Run(ls: Levels, ops: seq<Op>): (r: Levels)
    requires Valid(ls)
    ensures Valid(r)
    decreases |ops|
  {
    if ops == [] then ls else Run(Apply(ls, ops[0]), ops[1..])
  }

  /** What one level sees of an operation. */
  function Seen(ls: Levels, op: Op, level: int): seq<F.Op>
    requires Valid(ls)
  {
    match op
    case Put(p, f, x) => if p == level then [F.Put(f, x)] else []
    case Take => if Ready(ls) != {} && NextLevel(ls) == level then [F.Take] else []
    case Drop(p, f) => if p == level then [F.Drop(f)] else []
  }

  function Project(ls: Levels, ops: seq<Op>, level: int): seq<F.Op>
    requires Valid(ls)
    decreases |ops|
  {
    if ops == [] then [] else Seen(ls, ops[0], level) + Project(Apply(ls, ops[0]), ops[1..], level)
  }

  lemma StepLevel(ls: Levels, op: Op, level: int)
    requires Valid(ls)
    ensures Level(Apply(ls, op), level) == F.Run(Level(ls, level), Seen(ls, op, level))
    ensures |Seen(ls, op, level)| <= 1
  {
    match op
    case Put(p, f, x) => RunOne(Level(ls, level), F.Put(f, x));
    case Take => RunOne(Level(ls, level), F.Take);
    case Drop(p, f) => RunOne(Level(ls, level), F.Drop(f));
  }

  lemma RunOne(s: F.Fair, op: F.Op)
    requires F.Valid(s)
    ensures F.Run(s, [op]) == F.Apply(s, op) && F.Run(s, []) == s
  {
    assert [op][1..] == [];
  }

  lemma RunAfter(s: F.Fair, now: seq<F.Op>, later: seq<F.Op>)
    requires F.Valid(s) && |now| <= 1
    ensures F.Run(s, now + later) == F.Run(F.Run(s, now), later)
  {
    if now == [] {
      assert now + later == later;
    } else {
      RunOne(s, now[0]);
      assert now == [now[0]] && (now + later)[1..] == later;
    }
  }

  /** Every level behaves as a fair queue of its own. */
  lemma {:induction false} LevelIsAFairQueue(ls: Levels, ops: seq<Op>, level: int)
    requires Valid(ls)
    ensures Level(Run(ls, ops), level) == F.Run(Level(ls, level), Project(ls, ops, level))
    decreases |ops|
  {
    if ops != [] {
      StepLevel(ls, ops[0], level);
      LevelIsAFairQueue(Apply(ls, ops[0]), ops[1..], level);
      RunAfter(Level(ls, level), Seen(ls, ops[0], level), Project(Apply(ls, ops[0]), ops[1..], level));
    }
  }

  lemma {:induction false} NoDropSeen(ls: Levels, ops: seq<Op>, level: int, f: nat)
    requires Valid(ls) && Drop(level, f) !in ops
    ensures F.Drop(f) !in Project(ls, ops, level)
    decreases |ops|
  {
    if ops != [] {
      assert ops[0] != Drop(level, f);
      NoDropSeen(Apply(ls, ops[0]), ops[1..], level, f);
    }
  }

  /** Does this operation return a packet of flow `f` at the level? */
  predicate ReturnsNow(ls: Levels, op: Op, level: int, f: nat)
    requires Valid(ls)
  {
    op == Take && Ready(ls) != {} && NextLevel(ls) == level && F.NextFlow(ls[level]) == f
  }

  /** The packets of flow `f` at the level that dequeues return, in order. */
  function Returned(ls: Levels, ops: seq<Op>, level: int, f: nat): seq<nat>
    requires Valid(ls)
    decreases |ops|
  {
    if ops == [] then []
    else (if ReturnsNow(ls, ops[0], level, f) then [ls[level].queues[f][0]] else [])
         + Returned(Apply(ls, ops[0]), ops[1..], level, f)
  }

  function GivenAt(ops: seq<Op>, level: int, f: nat): seq<nat>
  {
    if ops == [] then []
    else (if ops[0].Put? && ops[0].priority == level && ops[0].flow == f then [ops[0].pkt] else [])
         + GivenAt(ops[1..], level, f)
  }

  lemma SentAfter(s: F.Fair, now: seq<F.Op>, later: seq<F.Op>, f: nat)
    requires F.Valid(s) && |now| <= 1
    ensures F.Sent(s, now + later, f)
         == (if now != [] && F.ServesNow(s, now[0], f) then [s.queues[f][0]] else []) + F.Sent(F.Run(s, now), later, f)
  {
    if now == [] {
      assert now + later == later;
    } else {
      RunOne(s, now[0]);
      assert now == [now[0]] && (now + later)[1..] == later;
    }
  }

  lemma {:induction false} ReturnedIsSent(ls: Levels, ops: seq<Op>, level: int, f: nat)
    requires Valid(ls)
    ensures Returned(ls, ops, level, f) == F.Sent(Level(ls, level), Project(ls, ops, level), f)
    decreases |ops|
  {
    if ops != [] {
      StepLevel(ls, ops[0], level);
      ReturnedIsSent(Apply(ls, ops[0]), ops[1..], level, f);
      SentAfter(Level(ls, level), Seen(ls, ops[0], level), Project(Apply(ls, ops[0]), ops[1..], level), f);
    }
  }

  lemma {:induction false} GivenIsGiven(ls: Levels, ops: seq<Op>, level: int, f: nat)
    requires Valid(ls)
    ensures GivenAt(ops, level, f) == F.Given(Project(ls, ops, level), f)
    decreases |ops|
  {
    if ops != [] {
      var now, later := Seen(ls, ops[0], level), Project(Apply(ls, ops[0]), ops[1..], level);
      GivenIsGiven(Apply(ls, ops[0]), ops[1..], level, f);
      if now == [] {
        assert now + later == later;
      } else {
        assert (now + later)[1..] == later;
      }
    }
  }

  /** FIFO within a flow of a level: what dequeues have returned and what is waiting is what was waiting and
      what was enqueued, in order. */
  lemma FlowIsFifo(ls: Levels, ops: seq<Op>, level: int, f: nat)
    requires Valid(ls) && Drop(level, f) !in ops
    ensures Returned(ls, ops, level, f) + F.Waiting(Level(Run(ls, ops), level), f)
         == F.Waiting(Level(ls, level), f) + GivenAt(ops, level, f)
  {
    NoDropSeen(ls, ops, level, f);
    LevelIsAFairQueue(ls, ops, level);
    ReturnedIsSent(ls, ops, level, f);
    GivenIsGiven(ls, ops, level, f);
    F.FlowIsFifo(Level(ls, level), Project(ls, ops, level), f);
  }

  /** Fairness within a level: a waiting flow is served within as many dequeues of its level as the level has
      flows, plus one for every queue created there meanwhile. */
  lemma WaitingFlowIsServed(ls: Levels, ops: seq<Op>, level: int, f: nat)
    requires Valid(ls) && F.Busy(Level(ls, level).queues, f) && Drop(level, f) !in ops
    requires F.Takes(Project(ls, ops, level))
          >= |Level(ls, level).queues| + F.Creations(Level(ls, level), Project(ls, ops, level))
    ensures F.Serves(Level(ls, level), Project(ls, ops, level), f)
  {
    NoDropSeen(ls, ops, level, f);
    F.WaitingFlowIsServed(Level(ls, level), Project(ls, ops, level), f);
  }

  // ---------------------------------------------------------------- the object

  /** The queues and the cursors of all levels, put together. */
  function Joined(queues: map<int, F.Queues>, cursors: map<int, F.Cursor>): Levels
  {
    map p | p in queues && p in cursors :: F.Fair(queues[p], cursors[p])
  }

  ghost predicate LevelsOk(queues: map<int, F.Queues>, cursors: map<int, F.Cursor>, counts: map<int, nat>)
  {
    && queues.Keys == cursors.Keys == counts.Keys
    && forall p :: p in queues ==> LevelOk(queues[p], cursors[p], counts[p])
  }

  /** The cursor points into the level, and its count is the number of packets queued there. */
  ghost predicate LevelOk(q: F.Queues, c: F.Cursor, n: nat) { F.Valid(F.Fair(q, c)) && n == F.Size(q) }

  lemma LevelsPut(queues: map<int, F.Queues>, cursors: map<int, F.Cursor>, counts: map<int, nat>, p: int,
                  q: F.Queues, c: F.Cursor, n: nat)
    requires LevelsOk(queues, cursors, counts) && LevelOk(q, c, n)
    ensures LevelsOk(queues[p := q], cursors[p := c], counts[p := n])
  {
  }

  /** Work is queued at a level exactly when its count says so. */
  lemma CountsTell(queues: map<int, F.Queues>, cursors: map<int, F.Cursor>, counts: map<int, nat>, p: int)
    requires LevelsOk(queues, cursors, counts) && p in queues
    ensures counts[p] > 0 <==> F.HasWork(queues[p])
    ensures counts[p] > 0 ==> Total(counts) > 0 && queues[p] != map[]
  {
    assert LevelOk(queues[p], cursors[p], counts[p]);
    F.SizePositive(queues[p]);
    TotalPositive(counts);
  }

  /** Something is queued exactly when the counts of the levels add up to more than nothing. */
  lemma TotalTells(queues: map<int, F.Queues>, cursors: map<int, F.Cursor>, counts: map<int, nat>)
    requires LevelsOk(queues, cursors, counts)
    ensures Total(counts) > 0 <==> Ready(Joined(queues, cursors)) != {}
  {
    TotalPositive(counts);
    forall p | p in queues ensures counts[p] > 0 <==> p in Ready(Joined(queues, cursors)) {
      CountsTell(queues, cursors, counts, p);
    }
  }

  lemma EmptySize()
    ensures F.Size(map[]) == 0
  {
    assert F.Lengths(map[]) == map[];
  }

  lemma JoinedPut(queues: map<int, F.Queues>, cursors: map<int, F.Cursor>, p: int, q: F.Queues, c: F.Cursor)
    requires queues.Keys == cursors.Keys
    ensures Joined(queues[p := q], cursors[p := c]) == Joined(queues, cursors)[p := F.Fair(q, c)]
  {
  }

  class PrioPullQueue {
    var prioQueueMap: map<int, F.Queues>
    var currentQueueMap: map<int, F.Cursor>
    var prioCounts: map<int, nat>
    var pullCount: nat

    ghost function View(): Levels
      reads this
    {
      Joined(prioQueueMap, currentQueueMap)
    }

    ghost predicate Inv()
      reads this
      ensures Inv() ==> Valid(View())
    {
      LevelsOk(prioQueueMap, currentQueueMap, prioCounts) && pullCount == Total(prioCounts)
    }

    constructor ()
      ensures Inv() && View() == map[]
    {
      prioQueueMap, currentQueueMap, prioCounts, pullCount := map[], map[], map[], 0;
    }

    /** The counts of the levels add up to the total: the assertion at the end cannot fail. */
    method SelfCheck()
      requires Inv()
    {
      var count := 0;
      var todo := prioQueueMap.Keys;
      ghost var left := prioCounts;
      while |todo| > 0
        invariant todo == left.Keys && (forall p :: p in left ==> p in prioCounts && left[p] == prioCounts[p])
        invariant count + Total(left) == Total(prioCounts)
        decreases todo
      {
        var p := Lowest(todo);
        TotalRemove(left, p);
        count := count + prioCounts[p];
        left := left - {p};
        todo := todo - {p};
      }
      assert count == pullCount;
    }

    /** Writes a level back: its queues, its cursor, its count, and the total. */
    method StoreLevel(p: int, queueMap: F.Queues, current: F.Cursor, count: nat)
      requires Inv() && LevelOk(queueMap, current, count)
      modifies this
      ensures Inv() && View() == old(View())[p := F.Fair(queueMap, current)]
    {
      JoinedPut(prioQueueMap, currentQueueMap, p, queueMap, current);
      LevelsPut(prioQueueMap, currentQueueMap, prioCounts, p, queueMap, current, count);
      var was := if p in prioCounts then prioCounts[p] else 0;
      TotalPut(prioCounts, p, count);
      if p in prioCounts { TotalRemove(prioCounts, p); }
      prioQueueMap := prioQueueMap[p := queueMap];
      currentQueueMap := currentQueueMap[p := current];
      prioCounts := prioCounts[p := count];
      pullCount := pullCount - was + count;
    }

    method EnqueuePacket(flow: nat, pkt: nat, priority: int)
      requires Inv()
      modifies this
      ensures Inv() && View() == Apply(old(View()), Put(priority, flow, pkt))
    {
      var queueMap: F.Queues, current, count := map[], F.End, 0;
      if priority in prioQueueMap {
        assert LevelOk(prioQueueMap[priority], currentQueueMap[priority], prioCounts[priority]);
        queueMap, current, count := prioQueueMap[priority], currentQueueMap[priority], prioCounts[priority];
      }
      EmptySize();
      assert F.Fair(queueMap, current) == Level(View(), priority);
      var queue := if flow in queueMap then queueMap[flow] else [];
      F.SizePut(queueMap, flow, queue + [pkt]);
      queueMap := queueMap[flow := queue + [pkt]];
      StoreLevel(priority, queueMap, current, count + 1);
    }

    /** Levels are tried from the numerically lowest up; the abort after the loop is unreachable. */
    method DequeuePacket() returns (r: Option<nat>)
      requires Inv()
      modifies this
      ensures Inv() && View() == Apply(old(View()), Take)
      ensures r == if Ready(old(View())) == {} then None else
        var level := old(View())[NextLevel(old(View()))]; Some(level.queues[F.NextFlow(level)][0])
    {
      TotalTells(prioQueueMap, currentQueueMap, prioCounts);
      if pullCount == 0 { return None; }
      var todo := prioQueueMap.Keys;
      while todo != {}
        invariant todo <= prioQueueMap.Keys && Ready(View()) <= todo
        invariant Inv() && View() == old(View())
        decreases todo
      {
        var priority := Lowest(todo);
        CountsTell(prioQueueMap, currentQueueMap, prioCounts, priority);
        if prioQueueMap[priority] != map[] && prioCounts[priority] > 0 {
          assert priority in Ready(View());
          assert NextLevel(View()) == priority;
          r := ServeLevel(priority);
          return;
        }
        todo := todo - {priority};
      }
      assert false;
    }

    method ServeLevel(priority: int) returns (r: Option<nat>)
      requires Inv() && priority in prioQueueMap && F.HasWork(prioQueueMap[priority])
      modifies this
      ensures Inv() && priority in old(View())
      ensures View() == old(View())[priority := F.Dequeue(old(View())[priority])]
      ensures var level := old(View())[priority]; r == Some(level.queues[F.NextFlow(level)][0])
    {
      assert LevelOk(prioQueueMap[priority], currentQueueMap[priority], prioCounts[priority]);
      var queueMap: F.Queues := prioQueueMap[priority];
      var flow, current := FindFlow(queueMap, currentQueueMap[priority]);
      CountsTell(prioQueueMap, currentQueueMap, prioCounts, priority);
      F.SizePut(queueMap, flow, queueMap[flow][1..]);
      r := Some(queueMap[flow][0]);
      queueMap := queueMap[flow := queueMap[flow][1..]];
      StoreLevel(priority, queueMap, current, prioCounts[priority] - 1);
    }

    /** The loop over one level's queues: the next flow, and the cursor after it. */
    method FindFlow(queueMap: F.Queues, start: F.Cursor) returns (flow: nat, current: F.Cursor)
      requires F.Valid(F.Fair(queueMap, start)) && F.HasWork(queueMap)
      ensures flow == F.NextFlow(F.Fair(queueMap, start)) && current == F.After(queueMap.Keys, flow)
    {
      ghost var busy := F.SomeBusy(queueMap);
      current := start;
      while true
        invariant F.Valid(F.Fair(queueMap, current))
        invariant F.Scan(queueMap, current, busy) == F.Scan(queueMap, start, busy)
        decreases |F.Ahead(queueMap.Keys, current, busy)|
      {
        F.ScanStep(queueMap, current, busy);
        if current.End? { current := F.At(Least(queueMap.Keys)); }
        flow := current.flow;
        current := F.After(queueMap.Keys, flow);
        if queueMap[flow] != [] { return; }
      }
    }

    method FlushFlow(flow: nat, priority: int)
      requires Inv()
      modifies this
      ensures Inv() && View() == Apply(old(View()), Drop(priority, flow))
    {
      if priority !in prioQueueMap { return; }
      assert LevelOk(prioQueueMap[priority], currentQueueMap[priority], prioCounts[priority]);
      var queueMap: F.Queues, current := prioQueueMap[priority], currentQueueMap[priority];
      if flow !in queueMap { assert View()[priority := View()[priority]] == View(); return; }
      var count := prioCounts[priority] - |queueMap[flow]|;
      F.SizeDrop(queueMap, flow);
      if current == F.At(flow) { current := F.After(queueMap.Keys, flow); }
      queueMap := queueMap - {flow};
      StoreLevel(priority, queueMap, current, count);
    }
  }
}
