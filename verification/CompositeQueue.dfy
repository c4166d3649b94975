/** The trimming queue (sim/compositequeue.cpp:11-64, 79-128, 135-272): data packets wait in a low-priority
    queue, headers in a high-priority one; a data packet that does not fit costs some packet its payload. */
module CompositeQueues {
  import opened Counting
  import opened Transfers

  const ACK_SIZE: nat := 64

  /** `reverse`: the packet has a route back to its sender. */
  datatype Packet = Packet(id: nat, size: nat, header: bool, reverse: bool, bounced: bool)
  {
    function Stripped(): Packet { this.(header := true, size := ACK_SIZE) }
  }

  datatype Config = Config(maxSize: nat, ratioHigh: nat, ratioLow: nat, returnToSender: bool)
  {
    function Turns(): nat { ratioHigh + ratioLow }
  }

  datatype Serving = Idle | High | Low

  datatype Exit = Stays | Bounced(pkt: Packet) | Dropped(pkt: Packet)

  datatype Queue = Queue(high: seq<Packet>, low: seq<Packet>, highBytes: int, lowBytes: int,
                         serving: Serving, turn: nat, drops: nat, bounces: nat, stripped: nat)

  // ---------------------------------------------------------------- the operations

  predicate Contended(q: Queue) { q.high != [] && q.low != [] }

  function NextTurn(c: Config, turn: nat): nat { if turn + 1 >= c.Turns() then 0 else turn + 1 }

  /** With both queues waiting, `ratioHigh` turns go to headers and `ratioLow` to data, over and over. */
  function BeginService(c: Config, q: Queue): Queue
  {
    if Contended(q) then
      var turn := NextTurn(c, q.turn);
      q.(turn := turn, serving := if turn < c.ratioHigh then High else Low)
    else q.(serving := if q.high != [] then High else Low)
  }

  function StartIfIdle(c: Config, q: Queue): Queue { if q.serving.Idle? then BeginService(c, q) else q }

  /** A header that no longer fits goes back to its sender, if that is wanted and possible, or is dropped.
      Only the drop of an arriving packet is counted. */
  function TakeHeader(c: Config, q: Queue, p: Packet, arriving: bool): (Queue, Exit)
  {
    if q.highBytes + p.size > 2 * c.maxSize then
      if c.returnToSender && p.reverse && !p.bounced then
        (q.(bounces := q.bounces + 1), Bounced(p.(bounced := true, header := true)))
      else (q.(drops := q.drops + One(arriving)), Dropped(p))
    else (q.(high := q.high + [p], highBytes := q.highBytes + p.size), Stays)
  }

  /** The packet at the tail of the data queue loses its payload. */
  function Boot(c: Config, q: Queue): (Queue, Exit)
    requires q.low != []
  {
    var n := |q.low| - 1;
    var p := q.low[n];
    TakeHeader(c, q.(low := q.low[..n], lowBytes := q.lowBytes - p.size, stripped := q.stripped + 1), p.Stripped(),
               false)
  }

  predicate Overflows(c: Config, q: Queue, p: Packet) { q.lowBytes + p.size > c.maxSize }

  function AppendData(q: Queue, p: Packet): Queue
  {
    q.(low := q.low + [p], lowBytes := q.lowBytes + p.size)
  }

  /** The arriving packet keeps its payload: it fits, or the draw spares it. */
  predicate Accepted(c: Config, q: Queue, p: Packet, coin: bool) { !p.header && (!Overflows(c, q, p) || coin) }

  /** The source's assertion fails: a packet is to be trimmed for the arriving one, and there is none. */
  predicate Fails(c: Config, q: Queue, p: Packet, coin: bool)
  {
    Accepted(c, q, p, coin) && Overflows(c, q, p) && q.low == []
  }

  /** `coin`: the arriving packet is spared, and a queued one trimmed in its place. */
  function Receive(c: Config, q: Queue, p: Packet, coin: bool): (Queue, Exit)
    requires !Fails(c, q, p, coin)
  {
    if Accepted(c, q, p, coin) then
      var (r, exit) := if Overflows(c, q, p) then Boot(c, q) else (q, Stays);
      (StartIfIdle(c, AppendData(r, p)), exit)
    else
      var (r, exit) := if p.header then TakeHeader(c, q, p, true)
                       else TakeHeader(c, q.(stripped := q.stripped + 1), p.Stripped(), true);
      (if exit.Stays? then StartIfIdle(c, r) else r, exit)
  }

  ghost predicate Serves(q: Queue)
  {
    (q.serving.High? && q.high != []) || (q.serving.Low? && q.low != [])
  }

  /** The packet in service leaves. */
  function Departed(q: Queue): (Queue, Packet)
    requires Serves(q)
  {
    if q.serving.Low? then
      (q.(low := q.low[1..], lowBytes := q.lowBytes - q.low[0].size, serving := Idle), q.low[0])
    else
      (q.(high := q.high[1..], highBytes := q.highBytes - q.high[0].size, serving := Idle), q.high[0])
  }

  function Complete(c: Config, q: Queue): (Queue, Packet)
    requires Serves(q)
  {
    var (r, p) := Departed(q);
    (if r.high != [] || r.low != [] then BeginService(c, r) else r, p)
  }

  // ---------------------------------------------------------------- the invariant

  function Bytes(s: seq<Packet>): nat
  {
    if s == [] then 0 else s[0].size + Bytes(s[1..])
  }

  lemma {:induction false} BytesConcat(a: seq<Packet>, b: seq<Packet>)
    ensures Bytes(a + b) == Bytes(a) + Bytes(b)
  {
    if a == [] {
      assert a + b == b;
    } else {
      assert (a + b)[1..] == a[1..] + b;
      BytesConcat(a[1..], b);
    }
  }

  lemma BytesOne(p: Packet)
    ensures Bytes([p]) == p.size
  {
    assert [p][1..] == [];
  }

  lemma BytesLast(s: seq<Packet>)
    requires s != []
    ensures Bytes(s) == Bytes(s[..|s| - 1]) + s[|s| - 1].size
  {
    var n := |s| - 1;
    assert s == s[..n] + [s[n]];
    BytesConcat(s[..n], [s[n]]);
    BytesOne(s[n]);
  }

  /** The data queue without its last packet fits; only the last packet can reach beyond the limit. */
  ghost predicate LowFits(c: Config, low: seq<Packet>)
  {
    low != [] ==> Bytes(low[..|low| - 1]) <= c.maxSize
  }

  /** The part of the invariant that says nothing about who is being served. */
  ghost predicate Body(c: Config, q: Queue)
  {
    && q.highBytes == Bytes(q.high) <= 2 * c.maxSize
    && q.lowBytes == Bytes(q.low) && LowFits(c, q.low)
    && (forall i :: 0 <= i < |q.low| ==> !q.low[i].header)
    && (forall i :: 0 <= i < |q.high| ==> q.high[i].header)
    && (q.turn == 0 || q.turn < c.Turns())
  }

  ghost predicate Inv(c: Config, q: Queue)
  {
    Body(c, q) && if q.serving.Idle? then q.high == [] && q.low == [] else Serves(q)
  }

  /** In a reachable state the assertion fails exactly when a spared data packet larger than the queue arrives
      and no data packet is waiting; so it never fails if no data packet is larger than the queue. */
  lemma FailsIff(c: Config, q: Queue, p: Packet, coin: bool)
    requires Inv(c, q)
    ensures Fails(c, q, p, coin) <==> !p.header && coin && q.low == [] && p.size > c.maxSize
  {
    if q.low == [] { assert Bytes(q.low) == 0; }
  }

  /** What TakeHeader keeps, and where the packet ends up. */
  lemma TakeHeaderKeeps(c: Config, q: Queue, p: Packet, arriving: bool)
    requires q.highBytes == Bytes(q.high) <= 2 * c.maxSize
    ensures var (r, exit) := TakeHeader(c, q, p, arriving);
      && r.highBytes == Bytes(r.high) <= 2 * c.maxSize
      && r.high == (if exit.Stays? then q.high + [p] else q.high)
      && (!exit.Stays? ==> exit.pkt.id == p.id)
      && r == q.(high := r.high, highBytes := r.highBytes, drops := r.drops, bounces := r.bounces)
  {
    BytesConcat(q.high, [p]);
    BytesOne(p);
  }

  lemma BeginInv(c: Config, q: Queue)
    requires Body(c, q) && (q.high != [] || q.low != [])
    ensures Inv(c, BeginService(c, q))
  {
  }

  /** After booting, the data queue alone fits. */
  lemma BootBody(c: Config, q: Queue)
    requires Body(c, q) && q.low != []
    ensures var (r, exit) := Boot(c, q);
      && r.highBytes == Bytes(r.high) <= 2 * c.maxSize
      && r.low == q.low[..|q.low| - 1] && r.lowBytes == Bytes(r.low) <= c.maxSize
      && (forall i :: 0 <= i < |r.high| ==> r.high[i].header)
      && r.turn == q.turn && r.serving == q.serving
  {
    var n := |q.low| - 1;
    var p := q.low[n];
    BytesLast(q.low);
    TakeHeaderKeeps(c, q.(low := q.low[..n], lowBytes := q.lowBytes - p.size, stripped := q.stripped + 1),
                    p.Stripped(), false);
  }

  lemma AppendBody(c: Config, q: Queue, p: Packet)
    requires q.highBytes == Bytes(q.high) <= 2 * c.maxSize && q.lowBytes == Bytes(q.low) <= c.maxSize
    requires (forall i :: 0 <= i < |q.low| ==> !q.low[i].header) && !p.header
    requires (forall i :: 0 <= i < |q.high| ==> q.high[i].header) && (q.turn == 0 || q.turn < c.Turns())
    ensures Body(c, AppendData(q, p))
  {
    BytesConcat(q.low, [p]);
    BytesOne(p);
    assert (q.low + [p])[..|q.low|] == q.low;
  }

  lemma ReceiveDataInv(c: Config, q: Queue, p: Packet)
    requires Inv(c, q) && !p.header
    requires !Fails(c, q, p, true)
    ensures Inv(c, Receive(c, q, p, true).0)
  {
    if Overflows(c, q, p) {
      BootBody(c, q);
      var r := Boot(c, q).0;
      AppendBody(c, r, p);
    } else {
      AppendBody(c, q, p);
      if q.serving.Idle? { BeginInv(c, AppendData(q, p)); }
    }
  }

  lemma ReceiveHeaderInv(c: Config, q: Queue, p: Packet, arriving: bool)
    requires Inv(c, q) && p.header
    ensures var (r, exit) := TakeHeader(c, q, p, arriving);
      Inv(c, if exit.Stays? then StartIfIdle(c, r) else r)
  {
    TakeHeaderKeeps(c, q, p, arriving);
    var (r, exit) := TakeHeader(c, q, p, arriving);
    if exit.Stays? && q.serving.Idle? { BeginInv(c, r); }
  }

  /** Whatever arrives, and whichever packet is trimmed for it, the invariant is kept unless the assertion fails. */
  lemma ReceiveInv(c: Config, q: Queue, p: Packet, coin: bool)
    requires Inv(c, q) && !Fails(c, q, p, coin)
    ensures Inv(c, Receive(c, q, p, coin).0)
  {
    if Accepted(c, q, p, coin) {
      ReceiveDataInv(c, q, p);
    } else if p.header {
      ReceiveHeaderInv(c, q, p, true);
    } else {
      ReceiveHeaderInv(c, q.(stripped := q.stripped + 1), p.Stripped(), true);
    }
  }

  lemma LowFitsTail(c: Config, low: seq<Packet>)
    requires low != [] && LowFits(c, low)
    ensures LowFits(c, low[1..]) && Bytes(low) == low[0].size + Bytes(low[1..])
  {
    var n := |low| - 1;
    if n > 0 {
      assert low[..n][0] == low[0] && low[..n][1..] == low[1..][..n - 1];
    }
  }

  lemma DepartedBody(c: Config, q: Queue)
    requires Inv(c, q) && Serves(q)
    ensures Body(c, Departed(q).0)
  {
    if q.serving.Low? {
      LowFitsTail(c, q.low);
      var rest := q.low[1..];
      assert forall i :: 0 <= i < |rest| ==> rest[i] == q.low[i + 1];
    } else {
      var rest := q.high[1..];
      assert forall i :: 0 <= i < |rest| ==> rest[i] == q.high[i + 1];
    }
  }

  lemma CompleteInv(c: Config, q: Queue)
    requires Inv(c, q) && !q.serving.Idle?
    ensures Inv(c, Complete(c, q).0)
  {
    DepartedBody(c, q);
    var r := Departed(q).0;
    if r.high != [] || r.low != [] { BeginInv(c, r); }
  }

  /** The data queue passes the limit only by its last packet, so it stays within twice the limit if no packet
      is larger than the limit. */
  lemma LowBounded(c: Config, q: Queue)
    requires Inv(c, q)
    ensures q.low != [] ==> q.lowBytes - q.low[|q.low| - 1].size <= c.maxSize
    ensures (forall i :: 0 <= i < |q.low| ==> q.low[i].size <= c.maxSize) ==> q.lowBytes <= 2 * c.maxSize
  {
    if q.low != [] { BytesLast(q.low); }
  }

  // ---------------------------------------------------------------- runs

  /** The queue and its history. `choices`: which queue was picked each time both were waiting. */
  datatype World = World(q: Queue, arrived: seq<Packet>, sent: seq<Packet>, bounced: seq<Packet>,
                         refused: seq<Packet>,   // dropped on arrival
                         lost: seq<Packet>,      // dropped after being trimmed for another packet
                         choices: seq<Serving>)

  datatype Action = Arrive(pkt: Packet, coin: bool) | Serve

  ghost predicate Enabled(c: Config, w: World, a: Action)
  {
    match a
    case Arrive(p, coin) => !Fails(c, w.q, p, coin)
    case Serve => !w.q.serving.Idle?
  }

  function Chosen(q: Queue): seq<Serving> { if Contended(q) then [q.serving] else [] }

  function Arrived(c: Config, w: World, p: Packet, coin: bool): World
    requires !Fails(c, w.q, p, coin)
  {
    var (r, exit) := Receive(c, w.q, p, coin);
    World(r, w.arrived + [p], w.sent,
          if exit.Bounced? then w.bounced + [exit.pkt] else w.bounced,
          if exit.Dropped? && !Accepted(c, w.q, p, coin) then w.refused + [exit.pkt] else w.refused,
          if exit.Dropped? && Accepted(c, w.q, p, coin) then w.lost + [exit.pkt] else w.lost,
          w.choices + if w.q.serving.Idle? && !r.serving.Idle? then Chosen(r) else [])
  }

  function Served(c: Config, w: World): World
    requires Serves(w.q)
  {
    var (r, p) := Complete(c, w.q);
    w.(q := r, sent := w.sent + [p], choices := w.choices + Chosen(r))
  }

  ghost function Apply(c: Config, w: World, a: Action): World
    requires Inv(c, w.q) && Enabled(c, w, a)
  {
    match a
    case Arrive(p, coin) => Arrived(c, w, p, coin)
    case Serve => Served(c, w)
  }

  lemma StepInv(c: Config, w: World, a: Action)
    requires Inv(c, w.q) && Enabled(c, w, a)
    ensures Inv(c, Apply(c, w, a).q)
  {
    match a
    case Arrive(p, coin) => ReceiveInv(c, w.q, p, coin);
    case Serve => CompleteInv(c, w.q);
  }

  // ---------------------------------------------------------------- conservation

  /** How many packets of the list have this identity. */
  function Count(s: seq<Packet>, id: nat): nat
  {
    if s == [] then 0 else One(s[0].id == id) + Count(s[1..], id)
  }

  lemma {:induction false} CountConcat(a: seq<Packet>, b: seq<Packet>, id: nat)
    ensures Count(a + b, id) == Count(a, id) + Count(b, id)
  {
    if a == [] {
      assert a + b == b;
    } else {
      assert (a + b)[1..] == a[1..] + b;
      CountConcat(a[1..], b, id);
    }
  }

  lemma CountSnoc(s: seq<Packet>, p: Packet, id: nat)
    ensures Count(s + [p], id) == Count(s, id) + One(p.id == id)
  {
    CountConcat(s, [p], id);
    assert [p][1..] == [];
  }

  function Held(q: Queue, id: nat): nat { Count(q.low, id) + Count(q.high, id) }

  /** How many packets with this identity leave on arrival. */
  function Out(exit: Exit, id: nat): nat { if exit.Stays? then 0 else One(exit.pkt.id == id) }

  lemma TakeHeaderHeld(c: Config, q: Queue, p: Packet, arriving: bool, id: nat)
    ensures var (r, exit) := TakeHeader(c, q, p, arriving);
      Held(r, id) + Out(exit, id) == Held(q, id) + One(p.id == id)
  {
    CountSnoc(q.high, p, id);
  }

  lemma BootHeld(c: Config, q: Queue, id: nat)
    requires q.low != []
    ensures var (r, exit) := Boot(c, q); Held(r, id) + Out(exit, id) == Held(q, id)
  {
    var n := |q.low| - 1;
    var p := q.low[n];
    assert q.low == q.low[..n] + [p];
    CountSnoc(q.low[..n], p, id);
    TakeHeaderHeld(c, q.(low := q.low[..n], lowBytes := q.lowBytes - p.size, stripped := q.stripped + 1), p.Stripped(),
                   false, id);
  }

  lemma BeginHeld(c: Config, q: Queue, id: nat)
    ensures Held(StartIfIdle(c, q), id) == Held(BeginService(c, q), id) == Held(q, id)
  {
  }

  /** An arrival adds one packet, which waits or leaves, or makes another one leave. */
  lemma ReceiveHeld(c: Config, q: Queue, p: Packet, coin: bool, id: nat)
    requires !Fails(c, q, p, coin)
    ensures var (r, exit) := Receive(c, q, p, coin);
      Held(r, id) + Out(exit, id) == Held(q, id) + One(p.id == id)
  {
    if Accepted(c, q, p, coin) {
      if Overflows(c, q, p) { BootHeld(c, q, id); }
      var (r, exit) := if Overflows(c, q, p) then Boot(c, q) else (q, Stays);
      CountSnoc(r.low, p, id);
      BeginHeld(c, AppendData(r, p), id);
    } else {
      var (s, h) := if p.header then (q, p) else (q.(stripped := q.stripped + 1), p.Stripped());
      TakeHeaderHeld(c, s, h, true, id);
      BeginHeld(c, TakeHeader(c, s, h, true).0, id);
    }
  }

  lemma CompleteHeld(c: Config, q: Queue, id: nat)
    requires Serves(q)
    ensures var (r, p) := Complete(c, q); Held(r, id) + One(p.id == id) == Held(q, id)
  {
    BeginHeld(c, Departed(q).0, id);
  }

  /** Every packet that has arrived is waiting or has left in exactly one way. */
  ghost predicate Balanced(w: World, id: nat)
  {
    Count(w.arrived, id) == Held(w.q, id) + Count(w.sent, id) + Count(w.bounced, id)
      + Count(w.refused, id) + Count(w.lost, id)
  }

  lemma StepBalanced(c: Config, w: World, a: Action, id: nat)
    requires Inv(c, w.q) && Enabled(c, w, a) && Balanced(w, id)
    ensures Balanced(Apply(c, w, a), id)
  {
    match a
    case Arrive(p, coin) =>
      ReceiveInv(c, w.q, p, coin);
      ArriveBalanced(c, w, p, coin, id);
    case Serve =>
      CompleteHeld(c, w.q, id);
      CountSnoc(w.sent, Complete(c, w.q).1, id);
  }

  lemma ArriveBalanced(c: Config, w: World, p: Packet, coin: bool, id: nat)
    requires Balanced(w, id) && !Fails(c, w.q, p, coin)
    ensures Balanced(Arrived(c, w, p, coin), id)
  {
    var exit := Receive(c, w.q, p, coin).1;
    ReceiveHeld(c, w.q, p, coin, id);
    CountSnoc(w.arrived, p, id);
    if !exit.Stays? {
      CountSnoc(w.bounced, exit.pkt, id);
      CountSnoc(w.refused, exit.pkt, id);
      CountSnoc(w.lost, exit.pkt, id);
    }
  }

  // ---------------------------------------------------------------- turns

  function LowTurn(c: Config, k: nat): bool
    requires 0 < c.Turns()
  {
    Rem(k, c.Turns()) >= c.ratioHigh
  }

  ghost predicate TurnsKept(c: Config, w: World)
    requires 0 < c.Turns()
  {
    && w.q.turn == Rem(|w.choices|, c.Turns())
    && forall i :: 0 <= i < |w.choices| ==> w.choices[i] == if LowTurn(c, i + 1) then Low else High
  }

  lemma NextTurnIsRem(c: Config, n: nat)
    requires 0 < c.Turns()
    ensures NextTurn(c, Rem(n, c.Turns())) == Rem(n + 1, c.Turns())
  {
    var t := c.Turns();
    var r := Rem(n, t);
    assert n == (n / t) * t + r;
    if r + 1 < t {
      DivModUnique(n / t, r + 1, t);
    } else {
      assert n + 1 == (n / t + 1) * t + 0;
      DivModUnique(n / t + 1, 0, t);
    }
  }

  lemma BeginTurn(c: Config, q: Queue, choices: seq<Serving>)
    requires 0 < c.Turns() && q.turn == Rem(|choices|, c.Turns())
    ensures var r := BeginService(c, q);
      && r.turn == Rem(|choices + Chosen(r)|, c.Turns())
      && (Contended(q) ==> r.serving == if LowTurn(c, |choices| + 1) then Low else High)
  {
    NextTurnIsRem(c, |choices|);
  }

  lemma ServeTurns(c: Config, w: World)
    requires 0 < c.Turns() && TurnsKept(c, w) && Serves(w.q)
    ensures TurnsKept(c, Served(c, w))
  {
    BeginTurn(c, Departed(w.q).0, w.choices);
  }

  lemma IdleReceives(c: Config, q: Queue, p: Packet, coin: bool)
    requires Inv(c, q) && !Fails(c, q, p, coin)
    ensures var r := Receive(c, q, p, coin).0;
      r.turn == q.turn && (q.serving.Idle? ==> !Contended(r)) && (!q.serving.Idle? ==> r.serving == q.serving)
  {
  }

  lemma StepTurns(c: Config, w: World, a: Action)
    requires 0 < c.Turns() && Inv(c, w.q) && Enabled(c, w, a) && TurnsKept(c, w)
    ensures TurnsKept(c, Apply(c, w, a))
  {
    match a
    case Arrive(p, coin) =>
      ReceiveInv(c, w.q, p, coin);
      IdleReceives(c, w.q, p, coin);
      assert Apply(c, w, a).choices == w.choices;
    case Serve => ServeTurns(c, w);
  }

  /** A choice stands until it is served, and it is served from the queue chosen. */
  lemma ChoiceIsServed(c: Config, w: World, p: Packet, coin: bool)
    requires Inv(c, w.q) && !w.q.serving.Idle? && Enabled(c, w, Arrive(p, coin))
    ensures Apply(c, w, Arrive(p, coin)).q.serving == w.q.serving
    ensures Complete(c, w.q).1.header <==> w.q.serving.High?
  {
    ReceiveInv(c, w.q, p, coin);
    IdleReceives(c, w.q, p, coin);
    if w.q.serving.Low? { assert !w.q.low[0].header; }
  }

  function LowChoices(s: seq<Serving>): nat
  {
    if s == [] then 0 else LowChoices(s[..|s| - 1]) + One(s[|s| - 1].Low?)
  }

  /** The low turns among `n` turns from `a`. */
  function LowTurns(c: Config, a: nat, n: nat): nat
    requires 0 < c.Turns()
  {
    if n == 0 then 0 else LowTurns(c, a, n - 1) + One(LowTurn(c, a + n - 1))
  }

  lemma {:induction false} FirstRound(c: Config, n: nat)
    requires n <= c.Turns() && 0 < c.Turns()
    ensures LowTurns(c, 0, n) == if n <= c.ratioHigh then 0 else n - c.ratioHigh
  {
    if n > 0 {
      FirstRound(c, n - 1);
      DivModUnique(0, n - 1, c.Turns());
    }
  }

  lemma {:induction false} Slide(c: Config, a: nat, n: nat)
    requires 0 < c.Turns()
    ensures One(LowTurn(c, a)) + LowTurns(c, a + 1, n) == LowTurns(c, a, n) + One(LowTurn(c, a + n))
  {
    if n > 0 {
      Slide(c, a, n - 1);
      assert a + 1 + n - 1 == a + n;
    }
  }

  /** Any full round, wherever it begins, has `ratioLow` low turns. */
  lemma {:induction false} EveryRound(c: Config, a: nat)
    requires 0 < c.Turns()
    ensures LowTurns(c, a, c.Turns()) == c.ratioLow
  {
    if a == 0 {
      FirstRound(c, c.Turns());
    } else {
      EveryRound(c, a - 1);
      Slide(c, a - 1, c.Turns());
      ModShift(a - 1, 1, c.Turns());
      assert a - 1 + 1 * c.Turns() == a - 1 + c.Turns();
    }
  }

  lemma {:induction false} ChoicesAreTurns(c: Config, w: World, a: nat, n: nat)
    requires 0 < c.Turns() && TurnsKept(c, w) && a + n <= |w.choices|
    ensures LowChoices(w.choices[a..a + n]) == LowTurns(c, a + 1, n)
  {
    if n > 0 {
      ChoicesAreTurns(c, w, a, n - 1);
      assert w.choices[a..a + n][..n - 1] == w.choices[a..a + (n - 1)];
      assert w.choices[a + n - 1] == if LowTurn(c, a + n - 1 + 1) then Low else High;
    }
  }

  lemma RoundHasRatio(c: Config, w: World, a: nat)
    requires 0 < c.Turns() && TurnsKept(c, w) && a + c.Turns() <= |w.choices|
    ensures LowChoices(w.choices[a..a + c.Turns()]) == c.ratioLow
  {
    ChoicesAreTurns(c, w, a, c.Turns());
    EveryRound(c, a + 1);
  }

  // ---------------------------------------------------------------- counters

  /** The counters count refusals and bounces; packets lost after trimming are in neither. */
  ghost predicate Counted(w: World) { w.q.drops == |w.refused| && w.q.bounces == |w.bounced| }

  lemma TakeHeaderCounts(c: Config, q: Queue, p: Packet, arriving: bool)
    ensures var (r, exit) := TakeHeader(c, q, p, arriving);
      && r.drops == q.drops + One(arriving && exit.Dropped?) && r.bounces == q.bounces + One(exit.Bounced?)
  {
  }

  lemma ReceiveCounts(c: Config, q: Queue, p: Packet, coin: bool)
    requires !Fails(c, q, p, coin)
    ensures var (r, exit) := Receive(c, q, p, coin);
      && r.drops == q.drops + One(exit.Dropped? && !Accepted(c, q, p, coin))
      && r.bounces == q.bounces + One(exit.Bounced?)
  {
    if Accepted(c, q, p, coin) {
      if Overflows(c, q, p) {
        var n := |q.low| - 1;
        var b := q.low[n];
        TakeHeaderCounts(c, q.(low := q.low[..n], lowBytes := q.lowBytes - b.size, stripped := q.stripped + 1),
                         b.Stripped(), false);
      }
    } else if p.header {
      TakeHeaderCounts(c, q, p, true);
    } else {
      TakeHeaderCounts(c, q.(stripped := q.stripped + 1), p.Stripped(), true);
    }
  }

  lemma StepCounted(c: Config, w: World, a: Action)
    requires Inv(c, w.q) && Enabled(c, w, a) && Counted(w)
    ensures Counted(Apply(c, w, a))
  {
    match a
    case Arrive(p, coin) => ReceiveCounts(c, w.q, p, coin);
    case Serve =>
  }

  // ---------------------------------------------------------------- packets of limited sizes

  ghost predicate SizedArrival(a: Action, lo: nat, hi: nat)
  {
    a.Arrive? && !a.pkt.header ==> lo <= a.pkt.size <= hi
  }

  /** All data sizes lie in the range, and without its last packet the queue has room for a smallest one. */
  ghost predicate Sized(c: Config, q: Queue, lo: nat, hi: nat)
  {
    && (forall i :: 0 <= i < |q.low| ==> lo <= q.low[i].size <= hi)
    && (q.low != [] ==> Bytes(q.low[..|q.low| - 1]) + lo <= c.maxSize)
  }

  lemma AppendSized(c: Config, q: Queue, p: Packet, lo: nat, hi: nat)
    requires (forall i :: 0 <= i < |q.low| ==> lo <= q.low[i].size <= hi) && lo <= p.size <= hi
    requires Bytes(q.low) + lo <= c.maxSize
    ensures Sized(c, AppendData(q, p), lo, hi)
  {
    assert (q.low + [p])[..|q.low|] == q.low;
  }

  /** The packet that is trimmed was no smaller than the smallest, so what is left has room for one. */
  lemma BootSized(c: Config, q: Queue, p: Packet, lo: nat, hi: nat)
    requires Body(c, q) && Sized(c, q, lo, hi) && q.low != [] && lo <= p.size <= hi
    ensures Sized(c, AppendData(Boot(c, q).0, p), lo, hi)
  {
    BootBody(c, q);
    AppendSized(c, Boot(c, q).0, p, lo, hi);
  }

  lemma FitSized(c: Config, q: Queue, p: Packet, lo: nat, hi: nat)
    requires Body(c, q) && Sized(c, q, lo, hi) && !Overflows(c, q, p) && lo <= p.size <= hi
    ensures Sized(c, AppendData(q, p), lo, hi)
  {
    AppendSized(c, q, p, lo, hi);
  }

  lemma ArriveSized(c: Config, w: World, p: Packet, coin: bool, lo: nat, hi: nat)
    requires Inv(c, w.q) && Enabled(c, w, Arrive(p, coin)) && Sized(c, w.q, lo, hi)
    requires SizedArrival(Arrive(p, coin), lo, hi)
    ensures Sized(c, Apply(c, w, Arrive(p, coin)).q, lo, hi)
  {
    if Accepted(c, w.q, p, coin) {
      if Overflows(c, w.q, p) { BootSized(c, w.q, p, lo, hi); } else { FitSized(c, w.q, p, lo, hi); }
    }
  }

  lemma ServeSized(c: Config, w: World, lo: nat, hi: nat)
    requires Inv(c, w.q) && Enabled(c, w, Serve) && Sized(c, w.q, lo, hi)
    ensures Sized(c, Apply(c, w, Serve).q, lo, hi)
  {
    if w.q.serving.Low? {
      var low, rest := w.q.low, w.q.low[1..];
      assert forall i :: 0 <= i < |rest| ==> rest[i] == low[i + 1];
      if rest != [] {
        assert low[..|low| - 1][0] == low[0] && low[..|low| - 1][1..] == rest[..|rest| - 1];
      }
    }
  }

  lemma StepSized(c: Config, w: World, a: Action, lo: nat, hi: nat)
    requires Inv(c, w.q) && Enabled(c, w, a) && Sized(c, w.q, lo, hi) && SizedArrival(a, lo, hi)
    ensures Sized(c, Apply(c, w, a).q, lo, hi)
  {
    match a
    case Arrive(p, coin) => ArriveSized(c, w, p, coin, lo, hi);
    case Serve => ServeSized(c, w, lo, hi);
  }

  // ---------------------------------------------------------------- all of it, in every run

  function Start(): World { World(Queue([], [], 0, 0, Idle, 0, 0, 0, 0), [], [], [], [], [], []) }

  ghost predicate CanRun(c: Config, w: World, run: seq<Action>)
    requires Inv(c, w.q)
    decreases |run|
  {
    run == [] || (Enabled(c, w, run[0]) && (StepInv(c, w, run[0]); CanRun(c, Apply(c, w, run[0]), run[1..])))
  }

  ghost function After(c: Config, w: World, run: seq<Action>): (r: World)
    requires Inv(c, w.q) && CanRun(c, w, run)
    ensures Inv(c, r.q)
    decreases |run|
  {
    if run == [] then w else StepInv(c, w, run[0]); After(c, Apply(c, w, run[0]), run[1..])
  }

  lemma {:induction false} RunKeeps(c: Config, w: World, run: seq<Action>, id: nat)
    requires 0 < c.Turns() && Inv(c, w.q) && CanRun(c, w, run) && Balanced(w, id) && TurnsKept(c, w)
    ensures Balanced(After(c, w, run), id) && TurnsKept(c, After(c, w, run))
    decreases |run|
  {
    if run != [] {
      StepInv(c, w, run[0]);
      StepBalanced(c, w, run[0], id);
      StepTurns(c, w, run[0]);
      RunKeeps(c, Apply(c, w, run[0]), run[1..], id);
    }
  }

  /** Conservation: in every run each packet that arrived is waiting, or was sent, bounced or dropped, once. */
  lemma PacketsAreConserved(c: Config, run: seq<Action>, id: nat)
    requires 0 < c.Turns() && CanRun(c, Start(), run)
    ensures Balanced(After(c, Start(), run), id)
  {
    DivModUnique(0, 0, c.Turns());
    RunKeeps(c, Start(), run, id);
  }

  /** The service ratio: among any ratioHigh + ratioLow consecutive choices between two waiting queues,
      exactly ratioLow fall on the data queue. */
  lemma ServiceRatio(c: Config, run: seq<Action>, a: nat)
    requires 0 < c.Turns() && CanRun(c, Start(), run)
    requires a + c.Turns() <= |After(c, Start(), run).choices|
    ensures LowChoices(After(c, Start(), run).choices[a..a + c.Turns()]) == c.ratioLow
  {
    DivModUnique(0, 0, c.Turns());
    RunKeeps(c, Start(), run, 0);
    RoundHasRatio(c, After(c, Start(), run), a);
  }

  lemma {:induction false} RunCounted(c: Config, w: World, run: seq<Action>)
    requires Inv(c, w.q) && CanRun(c, w, run) && Counted(w)
    ensures Counted(After(c, w, run))
    decreases |run|
  {
    if run != [] {
      StepInv(c, w, run[0]);
      StepCounted(c, w, run[0]);
      RunCounted(c, Apply(c, w, run[0]), run[1..]);
    }
  }

  /** Before an arrival: will a packet be dropped without being counted? The arriving one takes the place of the last
      data packet, whose header finds no room and cannot be returned. */
  predicate Loses(c: Config, q: Queue, a: Action)
  {
    && a.Arrive? && Accepted(c, q, a.pkt, a.coin) && Overflows(c, q, a.pkt) && q.low != []
    && q.highBytes + ACK_SIZE > 2 * c.maxSize
    && var p := q.low[|q.low| - 1]; !(c.returnToSender && p.reverse && !p.bounced)
  }

  lemma LostGrows(c: Config, w: World, a: Action)
    requires Inv(c, w.q) && Enabled(c, w, a)
    ensures |Apply(c, w, a).lost| == |w.lost| + One(Loses(c, w.q, a))
  {
  }

  ghost function Losses(c: Config, w: World, run: seq<Action>): nat
    requires Inv(c, w.q) && CanRun(c, w, run)
    decreases |run|
  {
    if run == [] then 0
    else StepInv(c, w, run[0]); One(Loses(c, w.q, run[0])) + Losses(c, Apply(c, w, run[0]), run[1..])
  }

  lemma {:induction false} RunLost(c: Config, w: World, run: seq<Action>)
    requires Inv(c, w.q) && CanRun(c, w, run)
    ensures |After(c, w, run).lost| == |w.lost| + Losses(c, w, run)
    decreases |run|
  {
    if run != [] {
      LostGrows(c, w, run[0]);
      StepInv(c, w, run[0]);
      RunLost(c, Apply(c, w, run[0]), run[1..]);
    }
  }

  /** In every run the drop counter is the number of packets refused on arrival; it falls short of the packets
      dropped by one for every arrival that met the condition of Loses. */
  lemma DropsAreRefusals(c: Config, run: seq<Action>)
    requires CanRun(c, Start(), run)
    ensures var w := After(c, Start(), run);
      && w.q.drops == |w.refused| && w.q.bounces == |w.bounced|
      && w.q.drops == |w.refused| + |w.lost| - Losses(c, Start(), run)
  {
    RunCounted(c, Start(), run);
    RunLost(c, Start(), run);
  }

  /** A run that loses a packet without counting it: two data packets, the first trimmed for the second, and no
      room for its header. */
  lemma DropGoesUncounted()
    ensures var c := Config(10, 100000, 1, false);
      var run := [Arrive(Packet(1, 10, false, false, false), false), Arrive(Packet(2, 10, false, false, false), true)];
      CanRun(c, Start(), run) && |After(c, Start(), run).lost| == 1 && After(c, Start(), run).q.drops == 0
  {
    var c := Config(10, 100000, 1, false);
    var a, b := Arrive(Packet(1, 10, false, false, false), false), Arrive(Packet(2, 10, false, false, false), true);
    TwoSteps(c, Start(), a, b);
  }

  lemma TwoSteps(c: Config, w: World, a: Action, b: Action)
    requires Inv(c, w.q) && Enabled(c, w, a) && (StepInv(c, w, a); Enabled(c, Apply(c, w, a), b))
    ensures CanRun(c, w, [a, b])
    ensures (StepInv(c, w, a); After(c, w, [a, b]) == Apply(c, Apply(c, w, a), b))
  {
    StepInv(c, w, a);
    OneStep(c, Apply(c, w, a), b);
    assert [a, b][1..] == [b];
  }

  lemma OneStep(c: Config, w: World, a: Action)
    requires Inv(c, w.q) && Enabled(c, w, a)
    ensures CanRun(c, w, [a]) && After(c, w, [a]) == Apply(c, w, a)
  {
    StepInv(c, w, a);
    assert [a][1..] == [];
    assert CanRun(c, Apply(c, w, a), []);
  }

  lemma {:induction false} RunSized(c: Config, w: World, run: seq<Action>, lo: nat, hi: nat)
    requires Inv(c, w.q) && CanRun(c, w, run) && Sized(c, w.q, lo, hi)
    requires forall i :: 0 <= i < |run| ==> SizedArrival(run[i], lo, hi)
    ensures Sized(c, After(c, w, run).q, lo, hi)
    decreases |run|
  {
    if run != [] {
      StepInv(c, w, run[0]);
      StepSized(c, w, run[0], lo, hi);
      RunSized(c, Apply(c, w, run[0]), run[1..], lo, hi);
    }
  }

  /** If all data packets have sizes from `lo` to `hi`, the data queue passes its limit by at most `hi - lo` in every
      run; so with packets of one size it stays within the limit. */
  lemma LowStaysWithin(c: Config, run: seq<Action>, lo: nat, hi: nat)
    requires CanRun(c, Start(), run) && lo <= hi && forall i :: 0 <= i < |run| ==> SizedArrival(run[i], lo, hi)
    ensures After(c, Start(), run).q.lowBytes <= c.maxSize + (hi - lo)
  {
    RunSized(c, Start(), run, lo, hi);
    var q := After(c, Start(), run).q;
    if q.low != [] { BytesLast(q.low); }
  }

  function DataOf(id: nat, size: nat): Packet { Packet(id, size, false, false, false) }

  /** The three arrivals that reach the bound: the queue is full, and its last packet, of the smallest size, is
      trimmed for one of the largest. */
  function Filling(c: Config, lo: nat, hi: nat): seq<Action>
    requires lo <= c.maxSize
  {
    [Arrive(DataOf(1, c.maxSize - lo), false), Arrive(DataOf(2, lo), false), Arrive(DataOf(3, hi), true)]
  }

  /** The bound is reached. */
  lemma BoundIsReached(c: Config, lo: nat, hi: nat)
    requires lo <= hi && 0 < hi && 2 * lo <= c.maxSize <= lo + hi
    ensures CanRun(c, Start(), Filling(c, lo, hi))
    ensures forall i :: 0 <= i < 3 ==> SizedArrival(Filling(c, lo, hi)[i], lo, hi)
    ensures After(c, Start(), Filling(c, lo, hi)).q.lowBytes == c.maxSize + (hi - lo)
  {
    var a, b, d := Filling(c, lo, hi)[0], Filling(c, lo, hi)[1], Filling(c, lo, hi)[2];
    var w1 := Apply(c, Start(), a);
    StepInv(c, Start(), a);
    assert w1.q.low == [a.pkt] && w1.q.lowBytes == c.maxSize - lo;
    var w2 := Apply(c, w1, b);
    StepInv(c, w1, b);
    assert w2.q.low == [a.pkt, b.pkt] && w2.q.lowBytes == c.maxSize;
    TwoSteps(c, w1, b, d);
    assert Filling(c, lo, hi)[1..] == [b, d];
  }
}

/** The queue as an object: two ring buffers and the counters beside them. */
module CompositeQueueObject {
  import opened CircularBuffers
  import opened CompositeQueues

  class CompositeQueue {
    const config: Config
    const enqueuedHigh: CircularBuffer<Packet>
    const enqueuedLow: CircularBuffer<Packet>
    var highBytes: int
    var lowBytes: int
    var serving: Serving
    var turn: nat
    var drops: nat
    var bounces: nat
    var stripped: nat

    ghost predicate Valid()
      reads this, enqueuedHigh, enqueuedLow
    {
      && enqueuedHigh != enqueuedLow && enqueuedHigh.Valid() && enqueuedLow.Valid()
      && enqueuedHigh.queue != enqueuedLow.queue
    }

    ghost function View(): Queue
      reads this, enqueuedHigh, enqueuedLow, enqueuedHigh.queue, enqueuedLow.queue
      requires Valid()
    {
      Queue(enqueuedHigh.Contents(), enqueuedLow.Contents(), highBytes, lowBytes, serving, turn, drops, bounces,
            stripped)
    }

    constructor (config: Config)
      ensures Valid() && this.config == config && View() == Start().q
      ensures fresh(enqueuedHigh) && fresh(enqueuedLow) && fresh(enqueuedHigh.queue) && fresh(enqueuedLow.queue)
    {
      this.config := config;
      highBytes, lowBytes, serving, turn, drops, bounces, stripped := 0, 0, Idle, 0, 0, 0, 0;
      enqueuedHigh := new CircularBuffer(8);
      enqueuedLow := new CircularBuffer(8);
    }

    method BeginService()
      requires Valid() && (View().high != [] || View().low != [])
      modifies this`serving, this`turn
      ensures Valid() && View() == CompositeQueues.BeginService(config, old(View()))
    {
      var highEmpty := enqueuedHigh.Empty();
      var lowEmpty := enqueuedLow.Empty();
      if !highEmpty && !lowEmpty {
        turn := turn + 1;
        if turn >= config.ratioHigh + config.ratioLow { turn := 0; }
        serving := if turn < config.ratioHigh then High else Low;
        return;
      }
      serving := if !highEmpty then High else Low;
    }

    /** Takes the packet in service off its queue. */
    method Depart() returns (pkt: Packet)
      requires Valid() && Serves(View())
      modifies this, enqueuedHigh, enqueuedLow
      ensures Valid() && enqueuedHigh.queue == old(enqueuedHigh.queue) && enqueuedLow.queue == old(enqueuedLow.queue)
      ensures (View(), pkt) == Departed(old(View()))
    {
      ghost var before := View();
      if serving.Low? {
        pkt := enqueuedLow.Pop();
        assert before.low == [pkt] + enqueuedLow.Contents();
        lowBytes := lowBytes - pkt.size;
      } else {
        pkt := enqueuedHigh.Pop();
        assert before.high == [pkt] + enqueuedHigh.Contents();
        highBytes := highBytes - pkt.size;
      }
      serving := Idle;
    }

    method CompleteService() returns (pkt: Packet)
      requires Valid() && Inv(config, View()) && !serving.Idle?
      modifies this, enqueuedHigh, enqueuedLow
      ensures Valid() && enqueuedHigh.queue == old(enqueuedHigh.queue) && enqueuedLow.queue == old(enqueuedLow.queue)
      ensures Inv(config, View()) && (View(), pkt) == Complete(config, old(View()))
    {
      CompleteInv(config, View());
      pkt := Depart();
      var highEmpty := enqueuedHigh.Empty();
      var lowEmpty := enqueuedLow.Empty();
      if !highEmpty || !lowEmpty { BeginService(); }
    }

    method TakeHeader(p: Packet, arriving: bool) returns (exit: Exit)
      requires Valid()
      modifies this`highBytes, this`drops, this`bounces, enqueuedHigh, enqueuedHigh.queue
      ensures Valid() && (enqueuedHigh.queue == old(enqueuedHigh.queue) || fresh(enqueuedHigh.queue))
      ensures (View(), exit) == CompositeQueues.TakeHeader(config, old(View()), p, arriving)
    {
      if highBytes + p.size > 2 * config.maxSize {
        if config.returnToSender && p.reverse && !p.bounced {
          bounces := bounces + 1;
          return Bounced(p.(bounced := true, header := true));
        }
        if arriving { drops := drops + 1; }
        return Dropped(p);
      }
      enqueuedHigh.Push(p);
      highBytes := highBytes + p.size;
      exit := Stays;
    }

    method Boot() returns (exit: Exit)
      requires Valid() && View().low != []
      modifies this, enqueuedLow, enqueuedHigh, enqueuedHigh.queue
      ensures Valid() && enqueuedLow.queue == old(enqueuedLow.queue)
      ensures enqueuedHigh.queue == old(enqueuedHigh.queue) || fresh(enqueuedHigh.queue)
      ensures (View(), exit) == CompositeQueues.Boot(config, old(View()))
    {
      ghost var low := enqueuedLow.Contents();
      var booted := enqueuedLow.PopFront();
      assert low == enqueuedLow.Contents() + [booted];
      lowBytes := lowBytes - booted.size;
      stripped := stripped + 1;
      exit := TakeHeader(booted.Stripped(), false);
    }

    /** `coin` is the outcome of the random draw. The packet that leaves instead of waiting is returned. */
    method ReceivePacket(p: Packet, coin: bool) returns (exit: Exit)
      requires Valid() && Inv(config, View()) && !Fails(config, View(), p, coin)
      modifies this, enqueuedLow, enqueuedHigh, enqueuedHigh.queue, enqueuedLow.queue
      ensures Valid()
      ensures enqueuedHigh.queue == old(enqueuedHigh.queue) || fresh(enqueuedHigh.queue)
      ensures enqueuedLow.queue == old(enqueuedLow.queue) || fresh(enqueuedLow.queue)
      ensures (View(), exit) == Receive(config, old(View()), p, coin) && Inv(config, View())
    {
      ReceiveInv(config, View(), p, coin);
      if !p.header && (lowBytes + p.size <= config.maxSize || coin) {
        exit := ReceiveData(p);
      } else {
        exit := ReceiveHeader(p);
      }
    }

    /** A header, or a data packet that loses its payload on arrival. */
    method ReceiveHeader(p: Packet) returns (exit: Exit)
      requires Valid() && (p.header || Overflows(config, View(), p))
      modifies this, enqueuedHigh, enqueuedHigh.queue
      ensures Valid() && (enqueuedHigh.queue == old(enqueuedHigh.queue) || fresh(enqueuedHigh.queue))
      ensures (View(), exit) == Receive(config, old(View()), p, false)
    {
      var pkt := p;
      if !p.header {
        pkt := p.Stripped();
        stripped := stripped + 1;
      }
      exit := TakeHeader(pkt, true);
      if exit.Stays? && serving.Idle? { BeginService(); }
    }

    method ReceiveData(p: Packet) returns (exit: Exit)
      requires Valid() && Inv(config, View()) && !p.header && !Fails(config, View(), p, true)
      modifies this, enqueuedLow, enqueuedHigh, enqueuedHigh.queue, enqueuedLow.queue
      ensures Valid()
      ensures enqueuedHigh.queue == old(enqueuedHigh.queue) || fresh(enqueuedHigh.queue)
      ensures enqueuedLow.queue == old(enqueuedLow.queue) || fresh(enqueuedLow.queue)
      ensures (View(), exit) == Receive(config, old(View()), p, true)
    {
      ghost var before := View();
      exit := Stays;
      if lowBytes + p.size > config.maxSize {
        exit := Boot();
      }
      ghost var booted := View();
      AcceptData(p);
      assert View() == AppendData(booted, p);
      if serving.Idle? { BeginService(); }
    }

    method AcceptData(p: Packet)
      requires Valid()
      modifies this`lowBytes, enqueuedLow, enqueuedLow.queue
      ensures Valid() && (enqueuedLow.queue == old(enqueuedLow.queue) || fresh(enqueuedLow.queue))
      ensures View() == AppendData(old(View()), p)
    {
      enqueuedLow.Push(p);
      lowBytes := lowBytes + p.size;
    }
  }
}
