/** The receiver's pull pacer and the pull state of the sinks that share it
    (sim/eqds.cpp:1191-1200, 1310-1358, 1444-1464, 1558-1674; sim/eqds.h:278-293).
    Sinks are numbered; amounts are in pull quanta. */
module PullPacer {
  import opened Chunking
  import opened Sequences

  datatype PullState = PullState(
    retx: nat,        // _retx_backlog
    latest: nat,      // _latest_pull
    target: nat,      // _highest_pull_target
    inPull: bool, inSlow: bool,
    limit: nat)       // quantize_floor(getMaxCwnd()): how far slow credit may run ahead
  {
    function Backlog(): nat { if target > latest then target - latest else 0 }
    function SlowCredit(): nat { if target >= latest then 0 else latest - target }
  }

  datatype Pacer = Pacer(
    credit: nat,                  // _credit_per_pull
    sinks: seq<PullState>,
    rtx: seq<nat>, act: seq<nat>, idle: seq<nat>,
    active: bool,                 // _active
    pending: nat)                 // events of this pacer in the event list

  type Id = nat

  ghost predicate Numbered(s: seq<nat>, n: nat)
  {
    forall k :: 0 <= k < |s| ==> s[k] < n
  }

  lemma HeadAndTail(s: seq<nat>)
    requires s != []
    ensures forall x :: x in s <==> x == s[0] || x in s[1..]
    ensures Distinct(s) ==> s[0] !in s[1..] && Distinct(s[1..])
  {
    assert s == [s[0]] + s[1..];
  }

  lemma Appended(s: seq<nat>, x: nat)
    ensures forall y :: y in s + [x] <==> y == x || y in s
    ensures Distinct(s) && x !in s ==> Distinct(s + [x])
  {
  }

  /** The lists are exactly what the flags of the sinks say, and one event is pending while active. */
  ghost predicate Inv(p: Pacer)
  {
    && 0 < p.credit
    && Numbered(p.rtx, |p.sinks|) && Numbered(p.act, |p.sinks|) && Numbered(p.idle, |p.sinks|)
    && Distinct(p.act) && Distinct(p.rtx)
    && (forall i :: 0 <= i < |p.sinks| ==> (i in p.act <==> p.sinks[i].inPull))
    && (forall i :: 0 <= i < |p.sinks| ==> (i in p.rtx <==> p.sinks[i].retx > 0))
    && p.pending == (if p.active then 1 else 0)
    && (p.rtx != [] || p.act != [] || p.idle != [] ==> p.active)
  }

  // ---------------------------------------------------------------- arrivals

  function Wake(p: Pacer): Pacer
  {
    if p.active then p else p.(active := true, pending := p.pending + 1)
  }

  function RequestPull(p: Pacer, i: Id): Pacer { Wake(p.(act := p.act + [i])) }

  function RequestRetransmit(p: Pacer, i: Id): Pacer { Wake(p.(rtx := p.rtx + [i])) }

  function Set(p: Pacer, i: Id, s: PullState): Pacer
    requires i < |p.sinks|
  {
    p.(sinks := p.sinks[i := s])
  }

  function HandlePullTarget(p: Pacer, i: Id, target: nat): Pacer
    requires i < |p.sinks|
  {
    var s := p.sinks[i];
    if target <= s.target then p
    else if s.retx == 0 && !s.inPull then RequestPull(Set(p, i, s.(target := target, inPull := true)), i)
    else Set(p, i, s.(target := target))
  }

  function AddRetx(p: Pacer, i: Id, amount: nat): Pacer
    requires i < |p.sinks|
  {
    var s := p.sinks[i];
    var q := Set(p, i, s.(retx := s.retx + amount));
    if s.retx > 0 then q else RequestRetransmit(q, i)
  }

  /** A trimmed packet the sink does not have: one more MTU's worth (`amount`) to be retransmitted. */
  function ProcessTrimmed(p: Pacer, i: Id, target: nat, amount: nat): Pacer
    requires i < |p.sinks|
  {
    AddRetx(HandlePullTarget(p, i, target), i, amount)
  }

  /** An RTS also puts a sink that was not retransmitting on the pull list. */
  function ProcessRts(p: Pacer, i: Id, target: nat, amount: nat): Pacer
    requires i < |p.sinks|
  {
    var q := HandlePullTarget(p, i, target);
    var s := q.sinks[i];
    AddRetx(if s.retx == 0 && !s.inPull then RequestPull(Set(q, i, s.(inPull := true)), i) else q, i, amount)
  }

  // ---------------------------------------------------------------- the pacer's event

  function Pull(s: PullState, credit: nat): PullState
  {
    s.(retx := if s.retx > credit then s.retx - credit else 0, latest := s.latest + credit)
  }

  function TickRtx(p: Pacer): Pacer
    requires p.rtx != [] && p.rtx[0] < |p.sinks|
  {
    var i := p.rtx[0];
    var s := Pull(p.sinks[i], p.credit);
    Set(p, i, s).(rtx := p.rtx[1..] + (if s.retx > 0 then [i] else []))
  }

  function TickActive(p: Pacer): Pacer
    requires p.act != [] && p.act[0] < |p.sinks|
  {
    var i := p.act[0];
    var s := Pull(p.sinks[i], p.credit);
    if s.Backlog() > 0 then Set(p, i, s).(act := p.act[1..] + [i])
    else Set(p, i, s.(inPull := false, inSlow := true)).(act := p.act[1..], idle := p.idle + [i])
  }

  function TickIdle(p: Pacer): Pacer
    requires p.idle != [] && p.idle[0] < |p.sinks|
  {
    var i := p.idle[0];
    var s0 := p.sinks[i];
    var s := Pull(if s0.inSlow then s0 else s0.(inPull := false, inSlow := true), p.credit);
    if s.Backlog() == 0 && s.SlowCredit() < s.limit then Set(p, i, s).(idle := p.idle[1..] + [i])
    else Set(p, i, s.(inPull := false, inSlow := false)).(idle := p.idle[1..])
  }

  predicate Empty(p: Pacer) { p.rtx == [] && p.act == [] && p.idle == [] }

  /** doNextEvent: retransmissions first, then the active list, then slow credit for the idle list.
      The event is consumed and, unless all lists were empty, another one is scheduled. */
  function Tick(p: Pacer): Pacer
    requires Inv(p) && p.pending > 0
  {
    if Empty(p) then p.(active := false, pending := p.pending - 1)
    else if p.rtx != [] then TickRtx(p).(active := true)
    else if p.act != [] then TickActive(p).(active := true)
    else TickIdle(p).(active := true)
  }

  // ---------------------------------------------------------------- invariant

  lemma RequestPullInv(p: Pacer, i: Id, target: nat)
    requires Inv(p) && i < |p.sinks| && !p.sinks[i].inPull
    ensures i !in p.act
    ensures Inv(RequestPull(Set(p, i, p.sinks[i].(target := target, inPull := true)), i))
  {
  }

  lemma HandlePullTargetInv(p: Pacer, i: Id, target: nat)
    requires Inv(p) && i < |p.sinks|
    ensures Inv(HandlePullTarget(p, i, target))
  {
    var s := p.sinks[i];
    if s.retx == 0 && !s.inPull { RequestPullInv(p, i, target); }
  }

  lemma AddRetxInv(p: Pacer, i: Id, amount: nat)
    requires Inv(p) && i < |p.sinks| && 0 < amount
    ensures Inv(AddRetx(p, i, amount))
    ensures p.sinks[i].retx == 0 ==> i !in p.rtx
  {
  }

  lemma ArrivalInv(p: Pacer, i: Id, target: nat, amount: nat)
    requires Inv(p) && i < |p.sinks| && 0 < amount
    ensures Inv(ProcessTrimmed(p, i, target, amount)) && Inv(ProcessRts(p, i, target, amount))
  {
    HandlePullTargetInv(p, i, target);
    var q := HandlePullTarget(p, i, target);
    var s := q.sinks[i];
    AddRetxInv(q, i, amount);
    if s.retx == 0 && !s.inPull {
      RequestPullInv(q, i, s.target);
      AddRetxInv(RequestPull(Set(q, i, s.(inPull := true)), i), i, amount);
    }
  }

  lemma TickRtxInv(p: Pacer)
    requires Inv(p) && p.rtx != []
    ensures Inv(TickRtx(p))
  {
    HeadAndTail(p.rtx);
    Appended(p.rtx[1..], p.rtx[0]);
  }

  lemma TickActiveInv(p: Pacer)
    requires Inv(p) && p.rtx == [] && p.act != []
    ensures Inv(TickActive(p))
  {
    HeadAndTail(p.act);
    Appended(p.act[1..], p.act[0]);
  }

  lemma TickIdleInv(p: Pacer)
    requires Inv(p) && p.rtx == [] && p.act == [] && p.idle != []
    ensures Inv(TickIdle(p))
  {
    HeadAndTail(p.idle);
    assert p.idle[0] !in p.act;
  }

  lemma TickInv(p: Pacer)
    requires Inv(p) && p.pending > 0
    ensures Inv(Tick(p))
  {
    if p.rtx != [] { TickRtxInv(p); }
    else if p.act != [] { TickActiveInv(p); }
    else if p.idle != [] { TickIdleInv(p); }
  }

  // ---------------------------------------------------------------- the pacer goes quiet

  function Weight(w: seq<nat>, l: seq<nat>): nat
    requires Numbered(l, |w|)
  {
    if l == [] then 0 else w[l[0]] + Weight(w, l[1..])
  }

  lemma {:induction false} WeightAppend(w: seq<nat>, l: seq<nat>, x: nat)
    requires Numbered(l, |w|) && x < |w|
    ensures Numbered(l + [x], |w|) && Weight(w, l + [x]) == Weight(w, l) + w[x]
  {
    if l == [] {
      assert [x][1..] == [];
    } else {
      assert (l + [x])[1..] == l[1..] + [x];
      WeightAppend(w, l[1..], x);
    }
  }

  lemma {:induction false} WeightMonotone(w: seq<nat>, v: seq<nat>, l: seq<nat>)
    requires Numbered(l, |w|) && |v| == |w| && forall k :: 0 <= k < |l| ==> v[l[k]] <= w[l[k]]
    ensures Weight(v, l) <= Weight(w, l)
  {
    if l != [] {
      assert v[l[0]] <= w[l[0]];
      forall k | 0 <= k < |l[1..]| ensures v[l[1..][k]] <= w[l[1..][k]] { assert l[1..][k] == l[k + 1]; }
      WeightMonotone(w, v, l[1..]);
    }
  }

  /** What is left of the slow credit a sink may be given. */
  function Room(s: PullState): nat
  {
    if s.target + s.limit > s.latest then s.target + s.limit - s.latest else 0
  }

  function RetxOf(ss: seq<PullState>): seq<nat> { seq(|ss|, i requires 0 <= i < |ss| => ss[i].retx) }

  function DemandOf(ss: seq<PullState>): seq<nat> { seq(|ss|, i requires 0 <= i < |ss| => ss[i].Backlog() + 1) }

  function RoomOf(ss: seq<PullState>): seq<nat> { seq(|ss|, i requires 0 <= i < |ss| => Room(ss[i]) + 1) }

  ghost function Retransmissions(p: Pacer): nat
    requires Inv(p)
  {
    Weight(RetxOf(p.sinks), p.rtx)
  }

  ghost function Demand(p: Pacer): nat
    requires Inv(p)
  {
    Weight(DemandOf(p.sinks), p.act)
  }

  ghost function Slack(p: Pacer): nat
    requires Inv(p)
  {
    Weight(RoomOf(p.sinks), p.idle)
  }

  /** Replacing the head entry by a smaller one, or dropping it, lowers a total. */
  lemma HeadFalls(w: seq<nat>, v: seq<nat>, l: seq<nat>, keep: bool)
    requires l != [] && Numbered(l, |w|) && |v| == |w|
    requires forall k :: 1 <= k < |l| ==> v[l[k]] <= w[l[k]]
    requires if keep then v[l[0]] < w[l[0]] else 0 < w[l[0]]
    ensures var m := l[1..] + (if keep then [l[0]] else []);
      Numbered(m, |w|) && Weight(v, m) < Weight(w, l)
  {
    forall k | 0 <= k < |l[1..]| ensures v[l[1..][k]] <= w[l[1..][k]] { assert l[1..][k] == l[k + 1]; }
    WeightMonotone(w, v, l[1..]);
    if keep { WeightAppend(v, l[1..], l[0]); } else { assert l[1..] + [] == l[1..]; }
  }

  lemma RtxTickFalls(p: Pacer)
    requires Inv(p) && p.rtx != []
    ensures Inv(TickRtx(p)) && Retransmissions(TickRtx(p)) < Retransmissions(p)
  {
    TickRtxInv(p);
    assert p.rtx[0] in p.rtx;
    HeadFalls(RetxOf(p.sinks), RetxOf(TickRtx(p).sinks), p.rtx, Pull(p.sinks[p.rtx[0]], p.credit).retx > 0);
  }

  lemma ActiveTickFalls(p: Pacer)
    requires Inv(p) && p.rtx == [] && p.act != []
    ensures Inv(TickActive(p)) && Demand(TickActive(p)) < Demand(p)
  {
    TickActiveInv(p);
    HeadFalls(DemandOf(p.sinks), DemandOf(TickActive(p).sinks), p.act,
              Pull(p.sinks[p.act[0]], p.credit).Backlog() > 0);
    assert p.act[1..] + [] == p.act[1..];
  }

  /** A sink may stand in the idle list several times; all its entries lose room together. */
  lemma IdleTickFalls(p: Pacer)
    requires Inv(p) && p.rtx == [] && p.act == [] && p.idle != []
    ensures Inv(TickIdle(p)) && Slack(TickIdle(p)) < Slack(p)
  {
    TickIdleInv(p);
    var s := Pull(p.sinks[p.idle[0]], p.credit);
    HeadFalls(RoomOf(p.sinks), RoomOf(TickIdle(p).sinks), p.idle, s.Backlog() == 0 && s.SlowCredit() < s.limit);
    assert p.idle[1..] + [] == p.idle[1..];
  }

  /** With no arrivals every event lowers (retransmissions, demand, slack, pending) lexicographically. */
  lemma TickFalls(p: Pacer)
    requires Inv(p) && p.pending > 0
    ensures var q := Tick(p);
      && Inv(q)
      && Retransmissions(q) <= Retransmissions(p)
      && (Retransmissions(q) < Retransmissions(p) || Demand(q) < Demand(p)
          || (Demand(q) == Demand(p) && (Slack(q) < Slack(p) || (Slack(q) == Slack(p) && q.pending < p.pending))))
  {
    TickInv(p);
    if p.rtx != [] { RtxTickFalls(p); }
    else if p.act != [] { ActiveTickFalls(p); }
    else if p.idle != [] { IdleTickFalls(p); }
  }

  /** Run the pacer's events until none is pending. That this is a function is the termination claim. */
  ghost function Drain(p: Pacer): Pacer
    requires Inv(p)
    decreases Retransmissions(p), Demand(p), Slack(p), p.pending
  {
    if p.pending == 0 then p else TickFalls(p); Drain(Tick(p))
  }

  /** A quiet pacer has empty lists, is inactive, and owes no retransmission to anyone. */
  lemma {:induction false} DrainIsQuiet(p: Pacer)
    requires Inv(p)
    ensures var q := Drain(p);
      && Inv(q) && q.pending == 0 && !q.active && Empty(q) && |q.sinks| == |p.sinks|
      && forall i :: 0 <= i < |q.sinks| ==> q.sinks[i].retx == 0 && !q.sinks[i].inPull
    decreases Retransmissions(p), Demand(p), Slack(p), p.pending
  {
    if p.pending != 0 {
      TickFalls(p);
      DrainIsQuiet(Tick(p));
    }
  }

  // ---------------------------------------------------------------- who is served

  function Entries(l: seq<nat>, i: Id): nat { multiset(l)[i] }

  /** Pulls the pacer still owes to a sink that is not on the active list. */
  function PullsOwed(p: Pacer, i: Id): nat
    requires 0 < p.credit && i < |p.sinks|
  {
    Chunks(p.sinks[i].retx, p.credit) + Entries(p.idle, i)
  }

  /** The sink wants more than the pulls it is owed, and is not on the active list to be given more. */
  ghost predicate Stranded(p: Pacer, i: Id)
    requires 0 < p.credit && i < |p.sinks|
  {
    !p.sinks[i].inPull && p.sinks[i].target - p.sinks[i].latest > p.credit * PullsOwed(p, i)
  }

  lemma TakeOne(credit: nat, n: nat)
    requires 0 < n
    ensures credit * (n - 1) == credit * n - credit
  {
  }

  lemma EntriesHead(l: seq<nat>, i: Id)
    requires l != []
    ensures Entries(l, i) == (if l[0] == i then 1 else 0) + Entries(l[1..], i)
  {
    assert l == [l[0]] + l[1..];
  }

  lemma PullShrinksRetx(s: PullState, credit: nat)
    requires 0 < credit && 0 < s.retx
    ensures Chunks(Pull(s, credit).retx, credit) == Chunks(s.retx, credit) - 1
  {
  }

  lemma RtxTickStranded(p: Pacer, i: Id)
    requires Inv(p) && p.rtx != [] && i < |p.sinks|
    ensures Stranded(TickRtx(p), i) <==> Stranded(p, i)
  {
    assert p.rtx[0] in p.rtx;
    if i == p.rtx[0] {
      PullShrinksRetx(p.sinks[i], p.credit);
      TakeOne(p.credit, PullsOwed(p, i));
    }
  }

  lemma ActiveTickStranded(p: Pacer, i: Id)
    requires Inv(p) && p.rtx == [] && p.act != [] && i < |p.sinks|
    ensures Stranded(TickActive(p), i) <==> Stranded(p, i)
  {
    assert p.act[0] in p.act;
    if i == p.act[0] {
      var q := TickActive(p);
      assert p.credit * PullsOwed(q, i) >= 0;
    }
  }

  lemma NotNegative(a: nat, b: nat)
    ensures a * b >= 0
  {
  }

  lemma EntriesSnoc(l: seq<nat>, i: Id)
    ensures Entries(l + [i], i) == Entries(l, i) + 1
  {
  }

  /** The sink whose turn it is takes one of the pulls it is owed; it stays short of them if it was. */
  lemma IdleHeadStranded(p: Pacer)
    requires Inv(p) && p.rtx == [] && p.act == [] && p.idle != [] && p.idle[0] < |p.sinks|
    ensures Stranded(TickIdle(p), p.idle[0]) <==> Stranded(p, p.idle[0])
  {
    var i := p.idle[0];
    var q := TickIdle(p);
    EntriesHead(p.idle, i);
    EntriesSnoc(p.idle[1..], i);
    assert i !in p.rtx && i !in p.act;
    TakeOne(p.credit, PullsOwed(p, i));
    NotNegative(p.credit, PullsOwed(p, i) - 1);
    NotNegative(p.credit, PullsOwed(q, i));
  }

  lemma IdleTickStranded(p: Pacer, i: Id)
    requires Inv(p) && p.rtx == [] && p.act == [] && p.idle != [] && i < |p.sinks|
    ensures Stranded(TickIdle(p), i) <==> Stranded(p, i)
  {
    if i == p.idle[0] {
      IdleHeadStranded(p);
    } else {
      EntriesHead(p.idle, i);
      assert p.idle[0] in p.idle;
    }
  }

  lemma TickStranded(p: Pacer, i: Id)
    requires Inv(p) && p.pending > 0 && i < |p.sinks|
    ensures |Tick(p).sinks| == |p.sinks| && Tick(p).credit == p.credit
    ensures Stranded(Tick(p), i) <==> Stranded(p, i)
  {
    if p.rtx != [] { RtxTickStranded(p, i); }
    else if p.act != [] { ActiveTickStranded(p, i); }
    else if p.idle != [] { IdleTickStranded(p, i); }
  }

  lemma {:induction false} DrainStranded(p: Pacer, i: Id)
    requires Inv(p) && i < |p.sinks|
    ensures var q := Drain(p);
      |q.sinks| == |p.sinks| && q.credit == p.credit && (Stranded(q, i) <==> Stranded(p, i))
    decreases Retransmissions(p), Demand(p), Slack(p), p.pending
  {
    if p.pending != 0 {
      TickFalls(p);
      TickStranded(p, i);
      DrainStranded(Tick(p), i);
    }
  }

  lemma OwedNothing(q: Pacer, i: Id)
    requires 0 < q.credit && i < |q.sinks| && q.idle == [] && q.sinks[i].retx == 0
    ensures Stranded(q, i) <==> !q.sinks[i].inPull && q.sinks[i].Backlog() > 0
  {
    assert Entries(q.idle, i) == 0;
    assert PullsOwed(q, i) == 0;
  }

  /** When the pacer has gone quiet, a sink's demand has been met if and only if, before, it was on the
      active list or the pulls owed for retransmission and idling already covered it. */
  lemma ServedIff(p: Pacer, i: Id)
    requires Inv(p) && i < |p.sinks|
    ensures |Drain(p).sinks| == |p.sinks|
    ensures Drain(p).sinks[i].Backlog() == 0
       <==> p.sinks[i].inPull || p.sinks[i].target - p.sinks[i].latest <= p.credit * PullsOwed(p, i)
  {
    DrainIsQuiet(p);
    DrainStranded(p, i);
    OwedNothing(Drain(p), i);
  }

  /** The other case happens: a trimmed packet arrives, and while its retransmission is pending a data packet
      raises the pull target by 100. The sink is never put on the active list, and the pacer goes quiet with
      the sink still wanting credit. */
  lemma DemandCanBeForgotten()
    ensures var p0 := Pacer(8, [PullState(0, 0, 0, false, false, 400)], [], [], [], false, 0);
      var p := HandlePullTarget(ProcessTrimmed(p0, 0, 0, 9), 0, 100);
      Inv(p0) && Inv(p) && |Drain(p).sinks| == 1 && Drain(p).sinks[0].Backlog() > 0
  {
    var p0 := Pacer(8, [PullState(0, 0, 0, false, false, 400)], [], [], [], false, 0);
    var p1 := ProcessTrimmed(p0, 0, 0, 9);
    ArrivalInv(p0, 0, 0, 9);
    HandlePullTargetInv(p1, 0, 100);
    ServedIff(HandlePullTarget(p1, 0, 100), 0);
    assert Chunks(9, 8) == 2;
  }

  // ---------------------------------------------------------------- runs

  /** What can happen to the pacer: a data packet, a trimmed one or an RTS arrives for a sink, or its event fires. */
  datatype Happening =
    | DataArrives(id: Id, target: nat)
    | TrimmedArrives(id: Id, target: nat, amount: nat)
    | RtsArrives(id: Id, target: nat, amount: nat)
    | EventFires

  predicate CanHappen(p: Pacer, h: Happening)
  {
    match h
    case DataArrives(i, _) => i < |p.sinks|
    case TrimmedArrives(i, _, amount) => i < |p.sinks| && 0 < amount
    case RtsArrives(i, _, amount) => i < |p.sinks| && 0 < amount
    case EventFires => p.pending > 0
  }

  ghost function Happen(p: Pacer, h: Happening): Pacer
    requires Inv(p) && CanHappen(p, h)
  {
    match h
    case DataArrives(i, target) => HandlePullTarget(p, i, target)
    case TrimmedArrives(i, target, amount) => ProcessTrimmed(p, i, target, amount)
    case RtsArrives(i, target, amount) => ProcessRts(p, i, target, amount)
    case EventFires => Tick(p)
  }

  ghost predicate SameSinks(p: Pacer, q: Pacer) { |q.sinks| == |p.sinks| && q.credit == p.credit }

  lemma ArrivalKeepsSinks(p: Pacer, i: Id, target: nat, amount: nat)
    requires i < |p.sinks|
    ensures SameSinks(p, HandlePullTarget(p, i, target))
    ensures SameSinks(p, ProcessTrimmed(p, i, target, amount)) && SameSinks(p, ProcessRts(p, i, target, amount))
  {
  }

  lemma TickKeepsSinks(p: Pacer)
    requires Inv(p) && p.pending > 0
    ensures SameSinks(p, Tick(p))
  {
  }

  lemma ArrivalHappens(p: Pacer, h: Happening)
    requires Inv(p) && CanHappen(p, h) && !h.EventFires?
    ensures Inv(Happen(p, h))
  {
    match h
    case DataArrives(i, target) => HandlePullTargetInv(p, i, target);
    case TrimmedArrives(i, target, amount) => ArrivalInv(p, i, target, amount);
    case RtsArrives(i, target, amount) => ArrivalInv(p, i, target, amount);
  }

  lemma HappenInv(p: Pacer, h: Happening)
    requires Inv(p) && CanHappen(p, h)
    ensures Inv(Happen(p, h)) && |Happen(p, h).sinks| == |p.sinks| && Happen(p, h).credit == p.credit
  {
    if h.EventFires? {
      TickInv(p);
      TickKeepsSinks(p);
    } else {
      ArrivalHappens(p, h);
      ArrivalKeepsSinks(p, h.id, h.target, if h.DataArrives? then 0 else h.amount);
    }
  }

  ghost predicate CanRun(p: Pacer, run: seq<Happening>)
    requires Inv(p)
    decreases |run|
  {
    run == [] || (CanHappen(p, run[0]) && (HappenInv(p, run[0]); CanRun(Happen(p, run[0]), run[1..])))
  }

  /** In every run of arrivals and events, in any order, the lists stay what the flags say, each sink at most once on
      the active and on the retransmit list, and one event is pending exactly while the pacer is active. */
  ghost function After(p: Pacer, run: seq<Happening>): (q: Pacer)
    requires Inv(p) && CanRun(p, run)
    ensures Inv(q) && |q.sinks| == |p.sinks| && q.credit == p.credit
    decreases |run|
  {
    if run == [] then p else HappenInv(p, run[0]); After(Happen(p, run[0]), run[1..])
  }

  /** The arrival raises the pull target of a sink that is retransmitting and not on the active list. */
  predicate Overlooks(p: Pacer, h: Happening, i: Id)
    requires i < |p.sinks|
  {
    !h.EventFires? && h.id == i && h.target > p.sinks[i].target && p.sinks[i].retx > 0 && !p.sinks[i].inPull
  }

  lemma MoreChunks(a: nat, b: nat, size: nat)
    requires 0 < size && a <= b
    ensures Chunks(a, size) <= Chunks(b, size)
  {
    CoverIff(Chunks(b, size), b, size);
    CoverIff(Chunks(b, size), a, size);
  }

  lemma MoreOwed(credit: nat, a: nat, b: nat)
    requires a <= b
    ensures credit * a <= credit * b
  {
  }

  lemma TargetStranded(p: Pacer, i: Id, j: Id, target: nat)
    requires Inv(p) && i < |p.sinks| && j < |p.sinks| && !Stranded(p, i)
    requires !Overlooks(p, DataArrives(j, target), i)
    ensures !Stranded(HandlePullTarget(p, j, target), i)
  {
  }

  lemma RetxStranded(p: Pacer, i: Id, j: Id, amount: nat)
    requires 0 < p.credit && i < |p.sinks| && j < |p.sinks| && !Stranded(p, i)
    ensures !Stranded(AddRetx(p, j, amount), i)
  {
    var q := AddRetx(p, j, amount);
    MoreChunks(p.sinks[i].retx, q.sinks[i].retx, p.credit);
    MoreOwed(p.credit, PullsOwed(p, i), PullsOwed(q, i));
  }

  lemma ListedStranded(p: Pacer, i: Id, j: Id)
    requires 0 < p.credit && i < |p.sinks| && j < |p.sinks| && !Stranded(p, i)
    ensures !Stranded(RequestPull(Set(p, j, p.sinks[j].(inPull := true)), j), i)
  {
  }

  /** Only such an arrival can leave a sink short of the pulls it is owed. */
  lemma HappenStranded(p: Pacer, h: Happening, i: Id)
    requires Inv(p) && CanHappen(p, h) && i < |p.sinks| && !Stranded(p, i) && !Overlooks(p, h, i)
    ensures i < |Happen(p, h).sinks| && 0 < Happen(p, h).credit && !Stranded(Happen(p, h), i)
  {
    HappenInv(p, h);
    if h.EventFires? {
      TickStranded(p, i);
    } else {
      TargetStranded(p, i, h.id, h.target);
      var q := HandlePullTarget(p, h.id, h.target);
      if h.TrimmedArrives? {
        RetxStranded(q, i, h.id, h.amount);
      } else if h.RtsArrives? {
        ListedStranded(q, i, h.id);
        var s := q.sinks[h.id];
        var t := if s.retx == 0 && !s.inPull then RequestPull(Set(q, h.id, s.(inPull := true)), h.id) else q;
        RetxStranded(t, i, h.id, h.amount);
      }
    }
  }

  ghost predicate NeverOverlooks(p: Pacer, run: seq<Happening>, i: Id)
    requires Inv(p) && CanRun(p, run) && i < |p.sinks|
    decreases |run|
  {
    run == [] || (!Overlooks(p, run[0], i)
                  && (HappenInv(p, run[0]); NeverOverlooks(Happen(p, run[0]), run[1..], i)))
  }

  lemma {:induction false} RunStranded(p: Pacer, run: seq<Happening>, i: Id)
    requires Inv(p) && CanRun(p, run) && i < |p.sinks| && !Stranded(p, i) && NeverOverlooks(p, run, i)
    ensures !Stranded(After(p, run), i)
    decreases |run|
  {
    if run != [] {
      HappenInv(p, run[0]);
      HappenStranded(p, run[0], i);
      RunStranded(Happen(p, run[0]), run[1..], i);
    }
  }

  // ---------------------------------------------------------------- what was asked for

  /** An arrival asks for credit for sink `i` up to its pull target. */
  predicate Asks(h: Happening, i: Id, target: nat) { !h.EventFires? && h.id == i && h.target == target }

  ghost predicate Asked(run: seq<Happening>, i: Id, target: nat)
  {
    exists k :: 0 <= k < |run| && Asks(run[k], i, target)
  }

  /** `t` is the largest of `least` and the targets that arrived for sink `i`. */
  ghost predicate Largest(t: nat, run: seq<Happening>, i: Id, least: nat)
  {
    least <= t && (t == least || Asked(run, i, t)) && forall u: nat :: Asked(run, i, u) ==> u <= t
  }

  lemma NoneAbove(t: nat, run: seq<Happening>, i: Id, least: nat)
    requires Largest(t, run, i, least)
    ensures forall k :: 0 <= k < |run| && !run[k].EventFires? && run[k].id == i ==> run[k].target <= t
  {
    forall k | 0 <= k < |run| && !run[k].EventFires? && run[k].id == i ensures run[k].target <= t {
      assert Asks(run[k], i, run[k].target);
      assert Asked(run, i, run[k].target);
    }
  }

  lemma ArrivalTarget(p: Pacer, j: Id, target: nat, amount: nat, i: Id)
    requires i < |p.sinks| && j < |p.sinks|
    ensures var t := if i == j && target > p.sinks[i].target then target else p.sinks[i].target;
      && HandlePullTarget(p, j, target).sinks[i].target == t
      && ProcessTrimmed(p, j, target, amount).sinks[i].target == t
      && ProcessRts(p, j, target, amount).sinks[i].target == t
  {
  }

  /** An arrival for a sink raises its target to the one asked for, if that is larger; nothing else changes it. */
  lemma HappenTarget(p: Pacer, h: Happening, i: Id)
    requires Inv(p) && CanHappen(p, h) && i < |p.sinks|
    ensures i < |Happen(p, h).sinks|
    ensures Happen(p, h).sinks[i].target
         == if !h.EventFires? && h.id == i && h.target > p.sinks[i].target then h.target else p.sinks[i].target
  {
    if h.EventFires? {
      TickTarget(p, i);
    } else {
      ArrivalTarget(p, h.id, h.target, if h.DataArrives? then 0 else h.amount, i);
    }
  }

  lemma TickTarget(p: Pacer, i: Id)
    requires Inv(p) && p.pending > 0 && i < |p.sinks|
    ensures i < |Tick(p).sinks| && Tick(p).sinks[i].target == p.sinks[i].target
  {
  }

  lemma AskedCons(h: Happening, rest: seq<Happening>, i: Id, u: nat)
    ensures Asked([h] + rest, i, u) <==> Asks(h, i, u) || Asked(rest, i, u)
  {
    var run := [h] + rest;
    assert run[0] == h;
    if k :| 0 <= k < |rest| && Asks(rest[k], i, u) { assert run[k + 1] == rest[k]; }
    if k :| 0 <= k < |run| && Asks(run[k], i, u) && k > 0 { assert run[k] == rest[k - 1]; }
  }

  /** The recorded target of a sink is, after every run, the largest that was asked for. */
  lemma {:induction false} TargetIsLargest(p: Pacer, run: seq<Happening>, i: Id)
    requires Inv(p) && CanRun(p, run) && i < |p.sinks|
    ensures Largest(After(p, run).sinks[i].target, run, i, p.sinks[i].target)
    decreases |run|
  {
    if run != [] {
      HappenInv(p, run[0]);
      HappenTarget(p, run[0], i);
      TargetIsLargest(Happen(p, run[0]), run[1..], i);
      assert run == [run[0]] + run[1..];
      forall u: nat ensures Asked(run, i, u) <==> Asks(run[0], i, u) || Asked(run[1..], i, u) {
        AskedCons(run[0], run[1..], i, u);
      }
    }
  }

  lemma {:induction false} DrainTarget(p: Pacer, i: Id)
    requires Inv(p) && i < |p.sinks|
    ensures i < |Drain(p).sinks| && Drain(p).sinks[i].target == p.sinks[i].target
    decreases Retransmissions(p), Demand(p), Slack(p), p.pending
  {
    if p.pending != 0 {
      TickFalls(p);
      TickTarget(p, i);
      DrainTarget(Tick(p), i);
    }
  }

  /** After every run in which no arrival raises a sink's pull target while it is retransmitting and not on the active
      list, all that was ever asked for the sink is granted by the time the pacer goes quiet. */
  lemma DemandIsMet(p: Pacer, run: seq<Happening>, i: Id)
    requires Inv(p) && CanRun(p, run) && i < |p.sinks| && p.sinks[i].target <= p.sinks[i].latest
    requires NeverOverlooks(p, run, i)
    ensures |Drain(After(p, run)).sinks| == |p.sinks| && Drain(After(p, run)).sinks[i].Backlog() == 0
    ensures forall k :: 0 <= k < |run| && !run[k].EventFires? && run[k].id == i ==>
              run[k].target <= Drain(After(p, run)).sinks[i].latest
  {
    NotNegative(p.credit, PullsOwed(p, i));
    RunStranded(p, run, i);
    ServedIff(After(p, run), i);
    TargetIsLargest(p, run, i);
    DrainTarget(After(p, run), i);
    NoneAbove(After(p, run).sinks[i].target, run, i, p.sinks[i].target);
  }

  /** Who is granted credit by an event: one sink, by exactly the credit of a pull. */
  ghost predicate Grants(p: Pacer, q: Pacer, i: Id)
  {
    && i < |p.sinks| == |q.sinks| && q.sinks[i].latest == p.sinks[i].latest + p.credit
    && forall j :: 0 <= j < |p.sinks| && j != i ==> q.sinks[j] == p.sinks[j]
  }

  /** An RTS leaves its sink on the retransmit list, and, unless it was retransmitting already, on the active list
      too, whatever the pull target. */
  lemma RtsLists(p: Pacer, i: Id, target: nat, amount: nat)
    requires Inv(p) && i < |p.sinks| && 0 < amount
    ensures i in ProcessRts(p, i, target, amount).rtx
    ensures p.sinks[i].retx == 0 ==> i in ProcessRts(p, i, target, amount).act
  {
    ArrivalInv(p, i, target, amount);
    var q := ProcessRts(p, i, target, amount);
    assert q.sinks[i].retx > 0 && (p.sinks[i].retx == 0 ==> q.sinks[i].inPull);
  }

  // ---------------------------------------------------------------- slow credit

  /** The sink is on its way to having its slow credit: it waits for pulls, then for slow credit, or has it. */
  ghost predicate Promised(p: Pacer, i: Id)
    requires i < |p.sinks|
  {
    var s := p.sinks[i];
    s.inPull || (i in p.idle && s.target <= s.latest) || s.target + s.limit <= s.latest
  }

  lemma TickPromised(p: Pacer, i: Id)
    requires Inv(p) && p.pending > 0 && i < |p.sinks| && Promised(p, i)
    ensures i < |Tick(p).sinks| && Promised(Tick(p), i)
  {
    if p.rtx != [] {
      RtxPromised(p, i);
    } else if p.act != [] {
      ActivePromised(p, i);
    } else if p.idle != [] {
      IdlePromised(p, i);
    }
  }

  lemma RtxPromised(p: Pacer, i: Id)
    requires Inv(p) && p.rtx != [] && i < |p.sinks| && Promised(p, i)
    ensures Promised(TickRtx(p), i)
  {
  }

  lemma ActivePromised(p: Pacer, i: Id)
    requires Inv(p) && p.act != [] && i < |p.sinks| && Promised(p, i)
    ensures Promised(TickActive(p), i)
  {
  }

  lemma IdlePromised(p: Pacer, i: Id)
    requires Inv(p) && p.act == [] && p.idle != [] && i < |p.sinks| && Promised(p, i)
    ensures Promised(TickIdle(p), i)
  {
    HeadAndTail(p.idle);
    assert i !in p.act;
  }

  lemma {:induction false} DrainPromised(p: Pacer, i: Id)
    requires Inv(p) && i < |p.sinks| && Promised(p, i)
    ensures i < |Drain(p).sinks| && Promised(Drain(p), i) && Drain(p).sinks[i].limit == p.sinks[i].limit
    decreases Retransmissions(p), Demand(p), Slack(p), p.pending
  {
    if p.pending != 0 {
      TickFalls(p);
      TickPromised(p, i);
      TickLimit(p, i);
      DrainPromised(Tick(p), i);
    }
  }

  lemma TickLimit(p: Pacer, i: Id)
    requires Inv(p) && p.pending > 0 && i < |p.sinks|
    ensures i < |Tick(p).sinks| && Tick(p).sinks[i].limit == p.sinks[i].limit
  {
  }

  /** By the time the pacer goes quiet every sink that was on the active list has been granted all it asked for and
      its slow credit on top, up to its limit. */
  lemma SlowCreditIsGiven(p: Pacer, i: Id)
    requires Inv(p) && i < |p.sinks| && i in p.act
    ensures i < |Drain(p).sinks| && Drain(p).sinks[i].latest >= p.sinks[i].target + p.sinks[i].limit
  {
    DrainPromised(p, i);
    DrainIsQuiet(p);
    DrainTarget(p, i);
  }

  /** Slow credit stops at the limit: an idle sink's turn keeps it on the list exactly while its demand is met and its
      slow credit is below the limit. */
  lemma SlowCreditStops(p: Pacer, i: Id)
    requires Inv(p) && p.pending > 0 && p.rtx == [] && p.act == [] && p.idle != [] && p.idle[0] == i
    requires i < |p.sinks| && i !in p.idle[1..]
    ensures Grants(p, Tick(p), i)
    ensures i in Tick(p).idle <==> p.sinks[i].target <= Tick(p).sinks[i].latest < p.sinks[i].target + p.sinks[i].limit
  {
  }

  // ---------------------------------------------------------------- credit for retransmissions

  /** What trimmed packets and RTS of a run ask to have retransmitted for sink `i`. */
  function ToResend(run: seq<Happening>, i: Id): nat
  {
    if run == [] then 0
    else
      (if (run[0].TrimmedArrives? || run[0].RtsArrives?) && run[0].id == i then run[0].amount else 0)
        + ToResend(run[1..], i)
  }

  function Reach(s: PullState): nat { s.latest + s.retx }

  lemma TickReach(p: Pacer, i: Id)
    requires Inv(p) && p.pending > 0 && i < |p.sinks|
    ensures i < |Tick(p).sinks| && Reach(p.sinks[i]) <= Reach(Tick(p).sinks[i])
  {
  }

  lemma TargetReach(p: Pacer, j: Id, target: nat, i: Id)
    requires i < |p.sinks| && j < |p.sinks|
    ensures Reach(HandlePullTarget(p, j, target).sinks[i]) == Reach(p.sinks[i])
  {
  }

  lemma RetxReach(p: Pacer, j: Id, amount: nat, i: Id)
    requires i < |p.sinks| && j < |p.sinks|
    ensures Reach(AddRetx(p, j, amount).sinks[i]) == Reach(p.sinks[i]) + if i == j then amount else 0
  {
  }

  lemma ArrivalReach(p: Pacer, h: Happening, i: Id)
    requires Inv(p) && CanHappen(p, h) && i < |p.sinks| && !h.EventFires?
    ensures i < |Happen(p, h).sinks|
    ensures Reach(Happen(p, h).sinks[i]) == Reach(p.sinks[i]) + ToResend([h], i)
  {
    assert [h][1..] == [];
    TargetReach(p, h.id, h.target, i);
    var q := HandlePullTarget(p, h.id, h.target);
    if h.TrimmedArrives? {
      RetxReach(q, h.id, h.amount, i);
    } else if h.RtsArrives? {
      var s := q.sinks[h.id];
      var t := if s.retx == 0 && !s.inPull then RequestPull(Set(q, h.id, s.(inPull := true)), h.id) else q;
      RetxReach(t, h.id, h.amount, i);
    }
  }

  lemma {:induction false} RunReach(p: Pacer, run: seq<Happening>, i: Id)
    requires Inv(p) && CanRun(p, run) && i < |p.sinks|
    ensures Reach(After(p, run).sinks[i]) >= Reach(p.sinks[i]) + ToResend(run, i)
    decreases |run|
  {
    if run != [] {
      HappenInv(p, run[0]);
      assert [run[0]][1..] == [];
      if run[0].EventFires? { TickReach(p, i); } else { ArrivalReach(p, run[0], i); }
      RunReach(Happen(p, run[0]), run[1..], i);
    }
  }

  lemma {:induction false} DrainReach(p: Pacer, i: Id)
    requires Inv(p) && i < |p.sinks|
    ensures i < |Drain(p).sinks| && Reach(p.sinks[i]) <= Reach(Drain(p).sinks[i])
    decreases Retransmissions(p), Demand(p), Slack(p), p.pending
  {
    if p.pending != 0 {
      TickFalls(p);
      TickReach(p, i);
      DrainReach(Tick(p), i);
    }
  }

  /** Every retransmission asked for is granted: by the time the pacer goes quiet a sink has had at least as much
      credit as its trimmed packets and RTS asked to have sent again. */
  lemma RetransmissionsAreGranted(p: Pacer, run: seq<Happening>, i: Id)
    requires Inv(p) && CanRun(p, run) && i < |p.sinks|
    ensures |Drain(After(p, run)).sinks| == |p.sinks|
    ensures Drain(After(p, run)).sinks[i].latest >= p.sinks[i].latest + p.sinks[i].retx + ToResend(run, i)
  {
    RunReach(p, run, i);
    DrainReach(After(p, run), i);
    DrainIsQuiet(After(p, run));
  }

  // ---------------------------------------------------------------- whose turn it is

  /** An event grants one pull, and no sink is passed over by one of lower rank: retransmitting sinks come before
      sinks on the active list, and those before idle ones. */
  lemma RetransmittersFirst(p: Pacer) returns (i: Id)
    requires Inv(p) && p.pending > 0 && !Empty(p)
    ensures Grants(p, Tick(p), i)
    ensures (exists j :: 0 <= j < |p.sinks| && p.sinks[j].retx > 0) ==> p.sinks[i].retx > 0
    ensures p.sinks[i].retx == 0 && (exists j :: 0 <= j < |p.sinks| && p.sinks[j].inPull) ==> p.sinks[i].inPull
  {
    if p.rtx != [] {
      i := p.rtx[0];
      assert i in p.rtx;
    } else if p.act != [] {
      i := p.act[0];
      assert i in p.act;
    } else {
      i := p.idle[0];
    }
  }

  /** Does this serve the retransmit list, or, with nobody retransmitting, the active list? */
  ghost predicate IsTurn(p: Pacer, h: Happening, rtx: bool) { h.EventFires? && (rtx || p.rtx == []) }

  ghost function Turns(p: Pacer, run: seq<Happening>, rtx: bool): nat
    requires Inv(p) && CanRun(p, run)
    decreases |run|
  {
    if run == [] then 0
    else
      HappenInv(p, run[0]);
      (if IsTurn(p, run[0], rtx) then 1 else 0) + Turns(Happen(p, run[0]), run[1..], rtx)
  }

  function Line(p: Pacer, rtx: bool): seq<Id> { if rtx then p.rtx else p.act }

  /** A sink in line moves up at every turn, and keeps its place otherwise. */
  lemma TickMovesUp(p: Pacer, rtx: bool, k: nat)
    requires Inv(p) && p.pending > 0 && k < |Line(p, rtx)|
    ensures if rtx || p.rtx == []
            then k > 0 ==> k - 1 < |Line(Tick(p), rtx)| && Line(Tick(p), rtx)[k - 1] == Line(p, rtx)[k]
            else k < |Line(Tick(p), rtx)| && Line(Tick(p), rtx)[k] == Line(p, rtx)[k]
  {
  }

  lemma MovesUp(p: Pacer, h: Happening, rtx: bool, k: nat)
    requires Inv(p) && CanHappen(p, h) && k < |Line(p, rtx)|
    ensures var q := Happen(p, h);
      if IsTurn(p, h, rtx)
      then k > 0 ==> k - 1 < |Line(q, rtx)| && Line(q, rtx)[k - 1] == Line(p, rtx)[k]
      else k < |Line(q, rtx)| && Line(q, rtx)[k] == Line(p, rtx)[k]
  {
    if h.EventFires? { TickMovesUp(p, rtx, k); }
  }

  lemma FirstIsGranted(p: Pacer, rtx: bool)
    requires Inv(p) && p.pending > 0 && Line(p, rtx) != [] && (rtx || p.rtx == [])
    ensures Grants(p, Tick(p), Line(p, rtx)[0])
  {
  }

  lemma TickLatest(p: Pacer, i: Id)
    requires Inv(p) && p.pending > 0 && i < |p.sinks|
    ensures i < |Tick(p).sinks| && p.sinks[i].latest <= Tick(p).sinks[i].latest
  {
  }

  lemma ArrivalLatest(p: Pacer, i: Id, j: Id, target: nat, amount: nat)
    requires i < |p.sinks| && j < |p.sinks|
    ensures HandlePullTarget(p, i, target).sinks[j].latest == p.sinks[j].latest
    ensures ProcessTrimmed(p, i, target, amount).sinks[j].latest == p.sinks[j].latest
    ensures ProcessRts(p, i, target, amount).sinks[j].latest == p.sinks[j].latest
  {
  }

  lemma LatestGrows(p: Pacer, h: Happening, i: Id)
    requires Inv(p) && CanHappen(p, h) && i < |p.sinks|
    ensures i < |Happen(p, h).sinks| && p.sinks[i].latest <= Happen(p, h).sinks[i].latest
  {
    if h.EventFires? {
      TickLatest(p, i);
    } else {
      ArrivalLatest(p, h.id, i, h.target, if h.DataArrives? then 0 else h.amount);
    }
  }

  lemma {:induction false} LatestStays(p: Pacer, run: seq<Happening>, i: Id)
    requires Inv(p) && CanRun(p, run) && i < |p.sinks|
    ensures p.sinks[i].latest <= After(p, run).sinks[i].latest
    decreases |run|
  {
    if run != [] {
      HappenInv(p, run[0]);
      LatestGrows(p, run[0], i);
      LatestStays(Happen(p, run[0]), run[1..], i);
    }
  }

  /** The first in line is served at the next turn. */
  lemma FirstTurn(p: Pacer, run: seq<Happening>, rtx: bool)
    requires Inv(p) && CanRun(p, run) && run != [] && IsTurn(p, run[0], rtx) && Line(p, rtx) != []
    ensures var i := Line(p, rtx)[0];
      i < |p.sinks| && After(p, run).sinks[i].latest >= p.sinks[i].latest + p.credit
  {
    HappenInv(p, run[0]);
    FirstIsGranted(p, rtx);
    LatestStays(Happen(p, run[0]), run[1..], Line(p, rtx)[0]);
  }

  lemma InLine(p: Pacer, rtx: bool, k: nat)
    requires Inv(p) && k < |Line(p, rtx)|
    ensures Line(p, rtx)[k] < |p.sinks|
  {
  }

  /** Nobody is starved, whatever arrives: the sink at place `k` of the retransmit list has been granted a pull after
      `k + 1` events, and the one at place `k` of the active list after `k + 1` events that find nobody
      retransmitting. */
  lemma {:induction false} TurnComes(p: Pacer, run: seq<Happening>, rtx: bool, k: nat)
    requires Inv(p) && CanRun(p, run) && k < |Line(p, rtx)| && Turns(p, run, rtx) > k
    ensures var i := Line(p, rtx)[k];
      i < |p.sinks| && After(p, run).sinks[i].latest >= p.sinks[i].latest + p.credit
    decreases |run|
  {
    InLine(p, rtx, k);
    var h := run[0];
    HappenInv(p, h);
    if IsTurn(p, h, rtx) && k == 0 {
      FirstTurn(p, run, rtx);
    } else {
      MovesUp(p, h, rtx, k);
      LatestGrows(p, h, Line(p, rtx)[k]);
      TurnComes(Happen(p, h), run[1..], rtx, if IsTurn(p, h, rtx) then k - 1 else k);
    }
  }
}

/** The pacer as the simulator runs it: three lists and the flags of the sinks, updated in place. */
module PullPacerObject {
  import Spec = PullPacer
  import opened PullPacer

  class EqdsPullPacer {
    const credit: nat
    var sinks: seq<PullState>
    var rtxSenders: seq<Id>
    var activeSenders: seq<Id>
    var idleSenders: seq<Id>
    var active: bool
    var pending: nat

    ghost function View(): Pacer
      reads this
    {
      Pacer(credit, sinks, rtxSenders, activeSenders, idleSenders, active, pending)
    }

    ghost predicate Valid()
      reads this
    {
      Inv(View())
    }

    constructor (credit: nat, sinks: seq<PullState>)
      requires 0 < credit && forall i :: 0 <= i < |sinks| ==> sinks[i].retx == 0 && !sinks[i].inPull
      ensures Valid() && this.credit == credit && this.sinks == sinks && pending == 0
    {
      this.credit, this.sinks := credit, sinks;
      rtxSenders, activeSenders, idleSenders, active, pending := [], [], [], false, 0;
    }

    method Find(l: seq<Id>, i: Id) returns (found: bool)
      ensures found <==> i in l
    {
      var k := 0;
      while k < |l|
        invariant 0 <= k <= |l| && i !in l[..k]
      {
        if l[k] == i { return true; }
        k := k + 1;
      }
      return false;
    }

    method Wake()
      modifies this`active, this`pending
      ensures View() == Spec.Wake(old(View()))
    {
      if !active {
        pending := pending + 1;
        active := true;
      }
    }

    /** The source aborts when the sink is already active; the callers never let that happen. */
    method RequestPull(i: Id)
      requires i !in activeSenders && i < |sinks| && sinks[i].inPull
      modifies this
      ensures View() == Spec.RequestPull(old(View()), i)
    {
      var already := Find(activeSenders, i);
      assert !already;
      activeSenders := activeSenders + [i];
      Wake();
    }

    method RequestRetransmit(i: Id)
      requires i !in rtxSenders
      modifies this
      ensures View() == Spec.RequestRetransmit(old(View()), i)
    {
      var already := Find(rtxSenders, i);
      assert !already;
      rtxSenders := rtxSenders + [i];
      Wake();
    }

    method HandlePullTarget(i: Id, target: nat)
      requires Valid() && i < |sinks|
      modifies this
      ensures View() == Spec.HandlePullTarget(old(View()), i, target) && Valid()
    {
      HandlePullTargetInv(View(), i, target);
      if target > sinks[i].target {
        sinks := sinks[i := sinks[i].(target := target)];
        if sinks[i].retx == 0 && !sinks[i].inPull {
          sinks := sinks[i := sinks[i].(inPull := true)];
          RequestPull(i);
        }
      }
    }

    method AddRetx(i: Id, amount: nat)
      requires Valid() && i < |sinks| && 0 < amount
      modifies this
      ensures View() == Spec.AddRetx(old(View()), i, amount) && Valid()
    {
      AddRetxInv(View(), i, amount);
      var wasRetransmitting := sinks[i].retx > 0;
      sinks := sinks[i := sinks[i].(retx := sinks[i].retx + amount)];
      if !wasRetransmitting {
        RequestRetransmit(i);
      }
    }

    method ProcessTrimmed(i: Id, target: nat, amount: nat)
      requires Valid() && i < |sinks| && 0 < amount
      modifies this
      ensures View() == Spec.ProcessTrimmed(old(View()), i, target, amount) && Valid()
    {
      HandlePullTarget(i, target);
      AddRetx(i, amount);
    }

    method ProcessRts(i: Id, target: nat, amount: nat)
      requires Valid() && i < |sinks| && 0 < amount
      modifies this
      ensures View() == Spec.ProcessRts(old(View()), i, target, amount) && Valid()
    {
      HandlePullTarget(i, target);
      if sinks[i].retx == 0 && !sinks[i].inPull {
        RequestPullInv(View(), i, sinks[i].target);
        sinks := sinks[i := sinks[i].(inPull := true)];
        RequestPull(i);
      }
      AddRetx(i, amount);
    }

    method Pull(i: Id)
      requires i < |sinks|
      modifies this`sinks
      ensures sinks == old(sinks)[i := Spec.Pull(old(sinks)[i], credit)]
    {
      var s := sinks[i];
      if s.retx > 0 {
        s := s.(retx := if s.retx > credit then s.retx - credit else 0);
      }
      sinks := sinks[i := s.(latest := s.latest + credit)];
    }

    method DoNextEvent()
      requires Valid() && pending > 0
      modifies this
      ensures View() == Tick(old(View())) && Valid()
    {
      ghost var p := View();
      TickInv(p);
      pending := pending - 1;
      if rtxSenders == [] && activeSenders == [] && idleSenders == [] {
        active := false;
        return;
      }
      if rtxSenders != [] {
        ServeRtx();
      } else if activeSenders != [] {
        ServeActive();
      } else {
        ServeIdle();
      }
      active := true;
      pending := pending + 1;
    }

    method ServeRtx()
      requires rtxSenders != [] && rtxSenders[0] < |sinks|
      modifies this
      ensures View() == TickRtx(old(View()))
    {
      var i := rtxSenders[0];
      rtxSenders := rtxSenders[1..];
      Pull(i);
      if sinks[i].retx > 0 { rtxSenders := rtxSenders + [i]; }
    }

    method ServeActive()
      requires activeSenders != [] && activeSenders[0] < |sinks|
      modifies this
      ensures View() == TickActive(old(View()))
    {
      var i := activeSenders[0];
      activeSenders := activeSenders[1..];
      Pull(i);
      if sinks[i].Backlog() > 0 {
        activeSenders := activeSenders + [i];
      } else {
        idleSenders := idleSenders + [i];
        sinks := sinks[i := sinks[i].(inPull := false, inSlow := true)];
      }
    }

    method ServeIdle()
      requires idleSenders != [] && idleSenders[0] < |sinks|
      modifies this
      ensures View() == TickIdle(old(View()))
    {
      var i := idleSenders[0];
      idleSenders := idleSenders[1..];
      if !sinks[i].inSlow {
        sinks := sinks[i := sinks[i].(inPull := false, inSlow := true)];
      }
      Pull(i);
      if sinks[i].Backlog() == 0 && sinks[i].SlowCredit() < sinks[i].limit {
        idleSenders := idleSenders + [i];
      } else {
        sinks := sinks[i := sinks[i].(inPull := false, inSlow := false)];
      }
    }
  }
}
