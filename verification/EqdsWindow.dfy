/** The sink's bitmap as it is, 4096 slots shared by all numbers (sim/eqds.h:20-33, sim/eqds.cpp:1206-1408). While
    arrivals stay inside the window, the flow with this bitmap goes exactly as EqdsSystem says; outside it the
    bitmap loses track, and then the sender can be done with a flow that has not arrived. */
module EqdsWindow {
  import opened Chunking
  import opened EqdsMessages
  import opened EqdsSource
  import opened EqdsSystem
  import opened SackWord
  import K = EqdsSink

  /** The slots that are set, and the expected number. */
  datatype Window = Window(slots: set<nat>, expected: nat)

  const EMPTY := Window({}, 0)

  function Slot(n: nat): nat { n % K.WINDOW }

  /** The loop that moves past set slots, clearing them. */
  function Advance(slots: set<nat>, k: nat): Window
    decreases |slots|
  {
    if Slot(k) in slots then Advance(slots - {Slot(k)}, k + 1) else Window(slots, k)
  }

  predicate Known(w: Window, e: nat) { e < w.expected || Slot(e) in w.slots }

  function Receive(w: Window, e: nat): Window
  {
    if Known(w, e) then w
    else if e == w.expected then Advance(w.slots, e + 1)
    else w.(slots := w.slots + {Slot(e)})
  }

  // ---------------------------------------------------------------- the bitmap inside the window

  /** Over the window from `k`, slots stand for numbers. */
  ghost predicate Stand(slots: set<nat>, k: nat, received: set<nat>)
  {
    forall n: nat :: k <= n < k + K.WINDOW ==> (Slot(n) in slots <==> n in received)
  }

  ghost predicate Exact(w: Window, received: set<nat>)
  {
    && Stand(w.slots, w.expected, received) && K.InWindow(received, w.expected)
    && forall j :: j in w.slots ==> j < K.WINDOW
  }

  /** Clearing the slot of a number as the window moves past it. */
  lemma ClearStands(slots: set<nat>, k: nat, received: set<nat>)
    requires Stand(slots, k, received) && k + K.WINDOW !in received
    ensures Stand(slots - {Slot(k)}, k + 1, received)
  {
  }

  lemma {:induction false} AdvanceExact(slots: set<nat>, k: nat, received: set<nat>, from: nat)
    requires Stand(slots, k, received) && from < k && forall j :: j in slots ==> j < K.WINDOW
    requires (forall m: nat :: m < k ==> m in received) && forall m: nat :: m in received ==> m < from + K.WINDOW
    ensures Exact(Advance(slots, k), received)
    decreases |slots|
  {
    assert Slot(k) in slots <==> k in received;
    if Slot(k) in slots {
      ClearStands(slots, k, received);
      AdvanceExact(slots - {Slot(k)}, k + 1, received, from);
    }
  }

  lemma TakeStands(slots: set<nat>, e: nat, received: set<nat>)
    requires Stand(slots, e, received) && e !in received && e + K.WINDOW !in received
    ensures Stand(slots, e + 1, received + {e})
  {
    assert Slot(e + K.WINDOW) == Slot(e);
  }

  lemma MarkStands(slots: set<nat>, k: nat, received: set<nat>, e: nat)
    requires Stand(slots, k, received) && k <= e < k + K.WINDOW
    ensures Stand(slots + {Slot(e)}, k, received + {e})
  {
  }

  /** The slots go on standing for exactly the numbers received, with the expected number the least one missing,
      if and only if the arrival lies below the expected number plus 4096. */
  lemma ReceiveExact(w: Window, received: set<nat>, e: nat)
    requires Exact(w, received)
    ensures Exact(Receive(w, e), received + {e}) <==> e < w.expected + K.WINDOW
  {
    if e >= w.expected + K.WINDOW {
      assert e in received + {e};
    } else if Known(w, e) {
      assert e in received;
      assert received + {e} == received;
    } else if e == w.expected {
      TakeStands(w.slots, e, received);
      AdvanceExact(w.slots, e + 1, received + {e}, e);
    } else {
      MarkStands(w.slots, w.expected, received, e);
    }
  }

  lemma KnownIs(w: Window, received: set<nat>, e: nat)
    requires Exact(w, received) && e < w.expected + K.WINDOW
    ensures Known(w, e) <==> e < w.expected || e in received
  {
  }

  lemma OneExpected(received: set<nat>, a: nat, b: nat)
    requires K.InWindow(received, a) && K.InWindow(received, b)
    ensures a == b
  {
    assert a < b ==> a in received;
    assert b < a ==> b in received;
  }

  /** No slot is set exactly if nothing was received out of order. */
  lemma NoSlotIff(w: Window, received: set<nat>)
    requires Exact(w, received)
    ensures w.slots == {} <==> |K.FromOn(received, w.expected + 1)| == 0
  {
    if j :| j in w.slots {
      var n := K.Rep(j, w.expected);
      assert Slot(n) == Slot(j) == j;
      assert n in K.FromOn(received, w.expected + 1);
    }
    var above := K.FromOn(received, w.expected + 1);
    if n :| n in above { assert Slot(n) in w.slots; }
  }

  // ---------------------------------------------------------------- the sink on its bitmap

  datatype Raw = Raw(window: Window, bytes: int, accepted: nat, ackRequest: bool)

  datatype RawOutcome = RawOutcome(raw: Raw, out: seq<Msg>)

  /** The ACK: the word shows which of the 64 slots from the reference on are set. */
  function RawSack(w: Window, ref: nat): Msg
  {
    Ack(w.expected, ref, Word(seq(WORD_BITS, i requires 0 <= i => Slot(ref + i) in w.slots)))
  }

  function RawDuplicate(r: Raw, e: nat, own: bool): RawOutcome
  {
    RawOutcome(r.(accepted := 0), [RawSack(r.window, if own then e else K.BaseFor(r.window.expected, e))])
  }

  /** The answer to new data. */
  function RawAnswer(t: Raw, e: nat, ar: bool, ecn: bool, force: bool): RawOutcome
  {
    if ecn || t.accepted > K.UNACKED_THRESHOLD || force then RawDuplicate(t, e, ecn || ar) else RawOutcome(t, [])
  }

  /** New data, before it is answered; and whether it releases an ACK that was asked for earlier. */
  function RawTaken(r: Raw, e: nat, size: nat, ar: bool): Raw
  {
    Raw(Receive(r.window, e), r.bytes + (size - HDR), r.accepted, (r.ackRequest || ar) && !RawReleases(r, e, ar))
  }

  predicate RawReleases(r: Raw, e: nat, ar: bool)
  {
    e == r.window.expected && Receive(r.window, e).slots == {} && (r.ackRequest || ar)
  }

  function RawCounted(r: Raw, size: nat): Raw { r.(accepted := (r.accepted + size) % 0x1_0000) }

  function RawData(r: Raw, e: nat, size: nat, ar: bool, ecn: bool): RawOutcome
  {
    var t := RawCounted(r, size);
    if Known(r.window, e) then RawDuplicate(t, e, ecn)
    else RawAnswer(RawTaken(t, e, size, ar), e, ar, ecn, r.bytes == 0 || ar || RawReleases(t, e, ar))
  }

  function RawTrimmed(r: Raw, e: nat): RawOutcome
  {
    RawOutcome(r, if Known(r.window, e) then [RawSack(r.window, e)] else [Nack(e)])
  }

  function RawRts(r: Raw, e: nat): RawOutcome
  {
    if Known(r.window, e) then RawDuplicate(r, e, true)
    else
      var w := Receive(r.window, e);
      RawDuplicate(r.(window := w, ackRequest := r.ackRequest && !(e == r.window.expected && w.slots == {})), e, true)
  }

  ghost predicate Matches(r: Raw, s: K.SinkState)
  {
    && Exact(r.window, s.received) && r.window.expected == s.expected
    && r.bytes == s.bytes && r.accepted == s.accepted && r.ackRequest == s.ackRequest
  }

  lemma SackMatches(r: Raw, s: K.SinkState, ref: nat)
    requires Matches(r, s)
    ensures RawSack(r.window, ref) == K.Sack(s, ref)
  {
    var bits := seq(WORD_BITS, i requires 0 <= i => Slot(ref + i) in r.window.slots);
    forall i | 0 <= i < WORD_BITS ensures bits[i] == K.SackBits(s.received, s.expected, ref)[i] {
      var n := K.Rep(ref + i, s.expected);
      assert Slot(n) == Slot(ref + i);
    }
    assert bits == K.SackBits(s.received, s.expected, ref);
  }

  lemma AcceptMatches(r: Raw, s: K.SinkState, e: nat, payload: int)
    requires Matches(r, s) && !K.Known(s, e) && e < s.expected + K.WINDOW
    ensures var t, w := K.Accept(s, e, payload), Receive(r.window, e);
      Matches(r.(window := w, bytes := r.bytes + payload), t) && (w.slots == {} <==> K.OutOfOrder(t) == 0)
  {
    K.AcceptInv(s, e, payload);
    ReceiveExact(r.window, s.received, e);
    OneExpected(s.received + {e}, K.Accept(s, e, payload).expected, Receive(r.window, e).expected);
    NoSlotIff(Receive(r.window, e), s.received + {e});
  }

  ghost predicate SameOutcome(a: RawOutcome, b: K.SinkOutcome) { Matches(a.raw, b.sink) && a.out == b.out }

  lemma DuplicateMatches(r: Raw, s: K.SinkState, e: nat, own: bool)
    requires Matches(r, s)
    ensures SameOutcome(RawDuplicate(r, e, own),
      K.SinkOutcome(s.(accepted := 0), [K.Sack(s, if own then e else K.SackBitmapBase(s, e))]))
  {
    SackMatches(r, s, if own then e else K.SackBitmapBase(s, e));
  }

  lemma AnswerMatches(t: Raw, u: K.SinkState, e: nat, ar: bool, ecn: bool, force: bool)
    requires Matches(t, u)
    ensures SameOutcome(RawAnswer(t, e, ar, ecn, force), K.AckIfDue(u, e, ar, ecn, force))
  {
    DuplicateMatches(t, u, e, ecn || ar);
  }

  /** The sink's state after taking new data, before it answers. */
  function Taken(s: K.SinkState, e: nat, size: nat, ar: bool): K.SinkState
  {
    var t := K.Accept(s, e, size - HDR);
    t.(ackRequest := (s.ackRequest || ar) && !Releases(s, e, size, ar))
  }

  predicate Releases(s: K.SinkState, e: nat, size: nat, ar: bool)
  {
    K.Drained(K.Accept(s, e, size - HDR), e, s) && (s.ackRequest || ar)
  }

  lemma TakenMatches(r: Raw, s: K.SinkState, e: nat, size: nat, ar: bool)
    requires Matches(r, s) && e < s.expected + K.WINDOW && !K.Known(s, e)
    ensures Matches(RawTaken(r, e, size, ar), Taken(s, e, size, ar))
    ensures RawReleases(r, e, ar) == Releases(s, e, size, ar)
  {
    AcceptMatches(r, s, e, size - HDR);
  }

  lemma NewDataIs(s: K.SinkState, e: nat, size: nat, ar: bool, ecn: bool)
    requires !K.Known(s, e)
    ensures var v := Counted(s, size);
      K.ProcessData(s, e, size, ar, ecn)
        == K.AckIfDue(Taken(v, e, size, ar), e, ar, ecn, s.bytes == 0 || ar || Releases(v, e, size, ar))
  {
  }

  lemma NewDataMatches(r: Raw, s: K.SinkState, e: nat, size: nat, ar: bool, ecn: bool)
    requires Matches(r, s) && e < s.expected + K.WINDOW && !K.Known(s, e) && !Known(r.window, e)
    ensures SameOutcome(RawData(r, e, size, ar, ecn), K.ProcessData(s, e, size, ar, ecn))
  {
    var t, v := RawCounted(r, size), Counted(s, size);
    NewDataIs(s, e, size, ar, ecn);
    TakenMatches(t, v, e, size, ar);
    AnswerMatches(RawTaken(t, e, size, ar), Taken(v, e, size, ar), e, ar, ecn,
                  s.bytes == 0 || ar || Releases(v, e, size, ar));
  }

  lemma DataMatches(r: Raw, s: K.SinkState, e: nat, size: nat, ar: bool, ecn: bool)
    requires Matches(r, s) && e < s.expected + K.WINDOW
    ensures SameOutcome(RawData(r, e, size, ar, ecn), K.ProcessData(s, e, size, ar, ecn))
  {
    KnownIs(r.window, s.received, e);
    if K.Known(s, e) {
      DuplicateMatches(RawCounted(r, size), Counted(s, size), e, ecn);
    } else {
      NewDataMatches(r, s, e, size, ar, ecn);
    }
  }

  lemma TrimmedMatches(r: Raw, s: K.SinkState, e: nat)
    requires Matches(r, s) && e < s.expected + K.WINDOW
    ensures SameOutcome(RawTrimmed(r, e), K.ProcessTrimmed(s, e))
  {
    KnownIs(r.window, s.received, e);
    SackMatches(r, s, e);
  }

  lemma RtsMatches(r: Raw, s: K.SinkState, e: nat)
    requires Matches(r, s) && e < s.expected + K.WINDOW
    ensures SameOutcome(RawRts(r, e), K.ProcessRts(s, e))
  {
    KnownIs(r.window, s.received, e);
    if K.Known(s, e) {
      DuplicateMatches(r, s, e, true);
    } else {
      AcceptMatches(r, s, e, 0);
      var t := K.Accept(s, e, 0);
      var request := s.ackRequest && !K.Drained(t, e, s);
      DuplicateMatches(r.(window := Receive(r.window, e), ackRequest := request), t.(ackRequest := request), e, true);
    }
  }

  // ---------------------------------------------------------------- the flow on the bitmap

  datatype RawSys = RawSys(src: SrcState, raw: Raw, net: set<Msg>)

  function RawStart(flowSize: nat, mss: nat): RawSys
    requires 0 < mss
  {
    RawSys(Started(flowSize, mss), Raw(EMPTY, 0, 0, false), {})
  }

  /** As EqdsSystem.Enabled, but without any window. */
  ghost predicate RawEnabled(s: RawSys, a: Action)
  {
    match a
    case Send(_) => true
    case Timeout(k, _, _) => k in s.src.tx
    case GetAck(m, _, _) => m in s.net && m.Ack?
    case GetNack(m, _, _, _) => m in s.net && m.Nack? && m.nackedSeqno in s.src.tx
    case Trim(m) => m in s.net && m.Data?
    case GetData(m, _) => m in s.net && m.Data?
    case GetTrimmed(m) => m in s.net && m.Trimmed?
    case GetRts(m) => m in s.net && m.Rts?
  }

  function RawWithSink(s: RawSys, o: RawOutcome): RawSys { RawSys(s.src, o.raw, s.net + Elements(o.out)) }

  function RawWithSource(s: RawSys, o: Outcome): RawSys { RawSys(o.src, s.raw, s.net + Elements(o.out)) }

  ghost function RawApply(s: RawSys, a: Action): RawSys
    requires RawEnabled(s, a)
  {
    match a
    case Send(ar) => RawWithSource(s, SendIfPermitted(s.src, true, ar))
    case Timeout(k, c, ar) => RawWithSource(s, TimerExpired(s.src, k, c, ar))
    case GetAck(m, p, ar) => RawWithSource(s, ProcessAck(s.src, m.cum, m.ref, m.bitmap, p, ar))
    case GetNack(m, p1, p2, ar) => RawWithSource(s, ProcessNack(s.src, m.nackedSeqno, p1, p2, ar))
    case Trim(m) => s.(net := s.net + {Trimmed(m.seqno)})
    case GetData(m, ecn) => RawWithSink(s, RawData(s.raw, m.seqno, m.size, m.ar, ecn))
    case GetTrimmed(m) => RawWithSink(s, RawTrimmed(s.raw, m.trimmedSeqno))
    case GetRts(m) => RawWithSink(s, RawRts(s.raw, m.rtsSeqno))
  }

  ghost predicate RawCanRun(s: RawSys, run: seq<Action>)
    decreases |run|
  {
    run == [] || (RawEnabled(s, run[0]) && RawCanRun(RawApply(s, run[0]), run[1..]))
  }

  ghost function RawRun(s: RawSys, run: seq<Action>): RawSys
    requires RawCanRun(s, run)
    decreases |run|
  {
    if run == [] then s else RawRun(RawApply(s, run[0]), run[1..])
  }

  ghost predicate Tied(r: RawSys, s: Sys)
  {
    r.src == s.src && r.net == s.net && Matches(r.raw, s.sink)
  }

  lemma StepTied(r: RawSys, s: Sys, a: Action)
    requires Tied(r, s) && Enabled(s, a)
    ensures RawEnabled(r, a) && Tied(RawApply(r, a), Apply(s, a))
  {
    match a
    case GetData(m, ecn) => DataMatches(r.raw, s.sink, m.seqno, m.size, m.ar, ecn);
    case GetTrimmed(m) => TrimmedMatches(r.raw, s.sink, m.trimmedSeqno);
    case GetRts(m) => RtsMatches(r.raw, s.sink, m.rtsSeqno);
    case _ =>
  }

  lemma {:induction false} RunTied(r: RawSys, s: Sys, run: seq<Action>)
    requires Tied(r, s) && CanRun(s, run)
    ensures RawCanRun(r, run) && Tied(RawRun(r, run), Run(s, run))
    decreases |run|
  {
    if run != [] {
      StepTied(r, s, run[0]);
      RunTied(RawApply(r, run[0]), Apply(s, run[0]), run[1..]);
    }
  }

  /** Every run inside the window goes the same on the bitmap: the same sender, the same messages, the same
      expected number and byte count. */
  lemma BitmapRefines(flowSize: nat, mss: nat, run: seq<Action>)
    requires 0 < mss && CanRun(Start(flowSize, mss), run)
    ensures RawCanRun(RawStart(flowSize, mss), run)
    ensures Tied(RawRun(RawStart(flowSize, mss), run), Run(Start(flowSize, mss), run))
  {
    RunTied(RawStart(flowSize, mss), Start(flowSize, mss), run);
  }

  // ---------------------------------------------------------------- outside the window

  lemma RawPrefixed(s: RawSys, a: Action, rest: seq<Action>)
    requires RawEnabled(s, a) && RawCanRun(RawApply(s, a), rest)
    ensures RawCanRun(s, [a] + rest) && RawRun(s, [a] + rest) == RawRun(RawApply(s, a), rest)
  {
    assert ([a] + rest)[1..] == rest;
  }

  lemma {:induction false} RawJoined(s: RawSys, front: seq<Action>, back: seq<Action>)
    requires RawCanRun(s, front) && RawCanRun(RawRun(s, front), back)
    ensures RawCanRun(s, front + back) && RawRun(s, front + back) == RawRun(RawRun(s, front), back)
    decreases |front|
  {
    if front == [] {
      assert front + back == back;
    } else {
      RawJoined(RawApply(s, front[0]), front[1..], back);
      assert (front + back)[1..] == front[1..] + back;
    }
  }

  /** Packet `k` of a flow of `n` one-byte packets; the last one asks for an ACK. */
  function Packet(n: nat, k: nat): Msg { Data(k, HDR + 1, k + 1 == n) }

  ghost predicate AllSent(s: RawSys, n: nat, k: nat)
  {
    forall e: nat :: e < k ==> Packet(n, e) in s.net
  }

  /** `k` of `n` one-byte packets have been sent, none has arrived. */
  ghost predicate Sent(s: RawSys, n: nat, k: nat)
  {
    && SrcInv(s.src) && k <= n && !s.src.done && s.raw == Raw(EMPTY, 0, 0, false)
    && s.src.flowSize == n && s.src.mss == 1 && s.src.unsent == n - k && s.src.highest == k && s.src.rtx == map[]
    && AllSent(s, n, k)
  }

  lemma NextSent(s: RawSys, n: nat, k: nat)
    requires Sent(s, n, k) && k < n
    ensures Sent(RawApply(s, Send(false)), n, k + 1)
  {
    var o := SendNew(s.src, false);
    SendNewInv(s.src, false);
    UnitChunks(n - k);
    UnitChunks(n - k - 1);
    assert SendIfPermitted(s.src, true, false) == o;
    assert o.out[0] == Packet(n, k) && o.out[0] in Elements(o.out);
  }

  lemma {:induction false} SendsAll(s: RawSys, n: nat, k: nat) returns (run: seq<Action>)
    requires Sent(s, n, k)
    ensures RawCanRun(s, run) && Sent(RawRun(s, run), n, n)
    ensures NeverBrings(run, 1)
    decreases n - k
  {
    if k == n {
      run := [];
    } else {
      NextSent(s, n, k);
      var rest := SendsAll(RawApply(s, Send(false)), n, k + 1);
      RawPrefixed(s, Send(false), rest);
      run := [Send(false)] + rest;
    }
  }

  function Deliver(n: nat, k: nat): Action { GetData(Packet(n, k), false) }

  /** Does the step deliver number `k`, in any form? */
  predicate Brings(a: Action, k: nat)
  {
    || (a.GetData? && a.msg.Data? && a.msg.seqno == k)
    || (a.GetTrimmed? && a.msg.Trimmed? && a.msg.trimmedSeqno == k)
    || (a.GetRts? && a.msg.Rts? && a.msg.rtsSeqno == k)
  }

  predicate NeverBrings(run: seq<Action>, k: nat)
  {
    forall a :: a in run ==> !Brings(a, k)
  }

  /** From an empty bitmap that expects `k`, the rest of the packets in order: the last is answered by an ACK of
      everything. */
  lemma {:induction false} InOrder(s: RawSys, n: nat, k: nat) returns (run: seq<Action>, ack: Msg)
    requires k < n && s.raw.window == Window({}, k) && AllSent(s, n, n)
    ensures RawCanRun(s, run) && RawRun(s, run).src == s.src
    ensures ack in RawRun(s, run).net && ack.Ack? && ack.cum == n
    ensures k > 1 ==> NeverBrings(run, 1)
    decreases n - k
  {
    var a := Deliver(n, k);
    var t := RawApply(s, a);
    var o := RawData(s.raw, k, HDR + 1, k + 1 == n, false);
    assert o.raw.window == Window({}, k + 1);
    var rest: seq<Action> := [];
    if k + 1 == n {
      ack := o.out[0];
      assert ack in Elements(o.out);
      assert RawCanRun(t, []);
    } else {
      rest, ack := InOrder(t, n, k + 1);
    }
    RawPrefixed(s, a, rest);
    run := [a] + rest;
  }

  /** Packet 4097 arrives first and sets slot 1; when 0 arrives, the expected number moves past 1. */
  lemma Overtaken(s: RawSys, n: nat) returns (run: seq<Action>)
    requires 4098 <= n && Sent(s, n, n)
    ensures run == [Deliver(n, 4097), Deliver(n, 0)] && RawCanRun(s, run)
    ensures RawRun(s, run).src == s.src && RawRun(s, run).raw.window == Window({}, 2) && AllSent(RawRun(s, run), n, n)
  {
    var a, b := Deliver(n, 4097), Deliver(n, 0);
    var s1 := RawApply(s, a);
    assert s1.raw.window == Window({1}, 0);
    var s2 := RawApply(s1, b);
    assert Advance({1}, 1) == Advance({1} - {1}, 2) && {1} - {1} == {};
    assert s2.raw.window == Window({}, 2);
    assert RawCanRun(s2, []);
    RawPrefixed(s1, b, []);
    RawPrefixed(s, a, [b] + []);
    run := [a] + ([b] + []);
  }

  /** An ACK of everything, with whatever word, finishes the flow. */
  lemma FullAckFinishes(s: SrcState, ref: nat, bitmap: nat)
    requires SrcInv(s) && s.unsent == 0
    ensures var t := ProcessAck(s, s.highest, ref, bitmap, false, false).src; t.done && t.highest == s.highest
  {
    var a := HandleCumulativeAck(s, s.highest);
    HandleCumulativeAckInv(s, s.highest);
    HandleSackInv(a, ref, bitmap);
    HandleSackFrame(a, ref, bitmap);
    FinishTestIff(HandleSack(a, ref, bitmap), s.highest);
  }

  lemma DeliveredAll(s: RawSys, n: nat) returns (run: seq<Action>, ack: Msg)
    requires 4098 <= n && Sent(s, n, n)
    ensures RawCanRun(s, run) && RawRun(s, run).src == s.src && NeverBrings(run, 1)
    ensures ack in RawRun(s, run).net && ack.Ack? && ack.cum == n
  {
    var early := Overtaken(s, n);
    var t := RawRun(s, early);
    var rest;
    rest, ack := InOrder(t, n, 2);
    RawJoined(s, early, rest);
    run := early + rest;
  }

  lemma Acknowledged(s: RawSys, ack: Msg) returns (run: seq<Action>)
    requires SrcInv(s.src) && s.src.unsent == 0 && ack in s.net && ack.Ack? && ack.cum == s.src.highest
    ensures RawCanRun(s, run) && NeverBrings(run, 1)
    ensures RawRun(s, run).src.done && RawRun(s, run).src.highest == s.src.highest
  {
    var finish := GetAck(ack, false, false);
    FullAckFinishes(s.src, ack.ref, ack.bitmap);
    assert RawCanRun(RawApply(s, finish), []);
    RawPrefixed(s, finish, []);
    run := [finish] + [];
  }

  /** The window assumption is needed, for every flow of at least 4098 one-byte packets: there is a run on the
      bitmap at whose end the sender is done although packet 1 was never delivered (and 4097 was, twice). */
  lemma WindowIsNeeded(n: nat) returns (run: seq<Action>)
    requires 4098 <= n
    ensures RawCanRun(RawStart(n, 1), run) && NeverBrings(run, 1)
    ensures var s := RawRun(RawStart(n, 1), run); s.src.done && s.src.highest == n
  {
    var s0 := RawStart(n, 1);
    StartedInv(n, 1);
    var sends := SendsAll(s0, n, 0);
    var s1 := RawRun(s0, sends);
    var arrivals, ack := DeliveredAll(s1, n);
    var finish := Acknowledged(RawRun(s1, arrivals), ack);
    RawJoined(s1, arrivals, finish);
    RawJoined(s0, sends, arrivals + finish);
    run := sends + (arrivals + finish);
  }
}
