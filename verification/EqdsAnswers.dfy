/** What the sink answers and when (sim/eqds.cpp:1206-1408, 1466-1472), on the messages that arrive and leave: every
    answer covers what it answers, and data is left unanswered exactly while the threshold, marks and requests
    allow it. */
module EqdsAnswers {
  import opened EqdsMessages
  import opened EqdsSending
  import opened EqdsSource
  import opened EqdsSystem
  import K = EqdsSink

  // ---------------------------------------------------------------- what an answer says

  /** An ACK of the current expected number that covers `e`, cumulatively or by its own bit. */
  ghost predicate Covers(m: Msg, e: nat, expected: nat)
  {
    m.Ack? && m.cum == expected && (e < expected || Claims(m, e))
  }

  lemma SackCovers(t: K.SinkState, e: nat, own: bool)
    requires K.SinkInv(t) && e in t.received
    ensures Covers(K.Sack(t, if own then e else K.SackBitmapBase(t, e)), e, t.expected)
  {
    if e > t.expected {
      var ref := if own then e else K.SackBitmapBase(t, e);
      K.BitOfSack(t, ref, e - ref);
    }
  }

  lemma ReceivedIff(s: Sys, e: nat)
    requires Inv(s) && e < s.sink.expected + K.WINDOW
    ensures K.Known(s.sink, e) <==> e in s.sink.received
  {
  }

  /** The word marks everything received out of order among the 64 numbers from `e` on (`own`), or else among `e` and
      the 63 numbers before it. */
  ghost predicate Marks(m: Msg, t: K.SinkState, e: nat, own: bool)
  {
    forall n :: n in t.received && t.expected < n && (if own then e <= n < e + 64 else n <= e < n + 64) ==> Claims(m, n)
  }

  lemma SackMarks(t: K.SinkState, e: nat, own: bool)
    requires K.SinkInv(t)
    ensures Marks(K.Sack(t, if own then e else K.SackBitmapBase(t, e)), t, e, own)
  {
    var ref := if own then e else K.SackBitmapBase(t, e);
    forall n | n in t.received && t.expected < n && (if own then e <= n < e + 64 else n <= e < n + 64)
      ensures Claims(K.Sack(t, ref), n)
    {
      K.BitOfSack(t, ref, n - ref);
    }
  }

  /** Data is answered by at most one ACK. It covers the packet, and marks what was received from it on if it asked
      for the ACK (being new) or carries a congestion mark, otherwise what was received before it. */
  lemma DataAnswers(s: Sys, a: Action)
    requires Inv(s) && Enabled(s, a) && a.GetData?
    ensures |Sent(s, a)| <= 1 && a.msg.seqno in Apply(s, a).sink.received
    ensures forall m :: m in Sent(s, a) ==> Covers(m, a.msg.seqno, Apply(s, a).sink.expected)
    ensures forall m :: m in Sent(s, a) ==>
      Marks(m, Apply(s, a).sink, a.msg.seqno, a.ecn || (a.msg.ar && a.msg.seqno !in s.sink.received))
  {
    var e, t := a.msg.seqno, Apply(s, a).sink;
    StepInv(s, a);
    ReceivedIff(s, e);
    SackCovers(t, e, true);
    SackCovers(t, e, false);
    SackMarks(t, e, true);
    SackMarks(t, e, false);
  }

  /** Every RTS is answered, by one ACK that covers it. */
  lemma RtsIsAnswered(s: Sys, a: Action)
    requires Inv(s) && Enabled(s, a) && a.GetRts?
    ensures |Sent(s, a)| == 1 && Covers(Sent(s, a)[0], a.msg.rtsSeqno, Apply(s, a).sink.expected)
    ensures Apply(s, a).sink.received == s.sink.received + {a.msg.rtsSeqno}
  {
    StepInv(s, a);
    ReceivedIff(s, a.msg.rtsSeqno);
    SackCovers(Apply(s, a).sink, a.msg.rtsSeqno, true);
  }

  /** Every trimmed packet is answered: by an ACK that covers it if its data is there, by a NACK of it if not. */
  lemma TrimmedIsAnswered(s: Sys, a: Action)
    requires Inv(s) && Enabled(s, a) && a.GetTrimmed?
    ensures |Sent(s, a)| == 1 && Apply(s, a).sink == s.sink
    ensures if a.msg.trimmedSeqno in s.sink.received
            then Covers(Sent(s, a)[0], a.msg.trimmedSeqno, s.sink.expected)
            else Sent(s, a)[0] == Nack(a.msg.trimmedSeqno)
  {
    ReceivedIff(s, a.msg.trimmedSeqno);
    if a.msg.trimmedSeqno in s.sink.received { SackCovers(s.sink, a.msg.trimmedSeqno, true); }
  }

  // ---------------------------------------------------------------- the history of an arrival

  /** `unanswered`: the bytes of data that arrived since the sink last answered data or an RTS. `asked`: new data
      asked for an ACK since there was last nothing out of order. */
  datatype History = History(unanswered: nat, asked: bool)

  /** Is the arrival in nothing's way: after it, nothing is out of order? */
  ghost predicate InOrder(s: Sys, a: Action)
    requires Enabled(s, a)
  {
    K.OutOfOrder(Apply(s, a).sink) == 0
  }

  ghost function Noted(s: Sys, h: History, a: Action): History
    requires Enabled(s, a)
  {
    match a
    case GetData(m, _) =>
      History(if Sent(s, a) == [] then h.unanswered + m.size else 0,
              (h.asked || (m.ar && m.seqno !in s.sink.received)) && !InOrder(s, a))
    case GetRts(_) => History(0, h.asked && !InOrder(s, a))
    case _ => h
  }

  ghost function Told(s: Sys, h: History, run: seq<Action>): History
    requires CanRun(s, run)
    decreases |run|
  {
    if run == [] then h else Told(Apply(s, run[0]), Noted(s, h, run[0]), run[1..])
  }

  const NOTHING := History(0, false)

  // ---------------------------------------------------------------- when data is answered

  /** The size of a full packet, and whether the 16-bit count of accepted bytes can hide one. */
  function Full(mss: nat): nat { mss + HDR }

  predicate Fits(mss: nat) { Full(mss) < 0x1_0000 || Full(mss) % 0x1_0000 > K.UNACKED_THRESHOLD }

  /** The sink's counter and flag are what the history says. */
  ghost predicate Recalls(k: K.SinkState, mss: nat, h: History)
  {
    && k.accepted == h.unanswered <= K.UNACKED_THRESHOLD
    && (k.ackRequest <==> h.asked) && (h.asked ==> K.OutOfOrder(k) > 0)
    && (Full(mss) > K.UNACKED_THRESHOLD ==> h.unanswered == 0)
  }

  ghost predicate Remembers(s: Sys, h: History) { Recalls(s.sink, s.src.mss, h) }

  /** Data that does not ask for an ACK is a full packet. */
  ghost predicate ShortAsks(s: Sys)
  {
    forall m :: m in s.net && m.Data? && !m.ar ==> m.size == Full(s.src.mss)
  }

  /** The sink may keep quiet about a data packet. */
  ghost predicate Quiet(s: Sys, h: History, a: Action)
    requires Enabled(s, a) && a.GetData?
  {
    && a.msg.seqno !in s.sink.received && !a.msg.ar && !a.ecn && s.sink.bytes != 0
    && h.unanswered + a.msg.size <= K.UNACKED_THRESHOLD
    && !(h.asked && InOrder(s, a))
  }

  lemma CountIsExact(accepted: nat, mss: nat, size: nat)
    requires accepted <= K.UNACKED_THRESHOLD && (Full(mss) > K.UNACKED_THRESHOLD ==> accepted == 0)
    requires Fits(mss) && size == Full(mss)
    ensures (accepted + size) % 0x1_0000 > K.UNACKED_THRESHOLD <==> accepted + size > K.UNACKED_THRESHOLD
    ensures accepted + size <= K.UNACKED_THRESHOLD ==> (accepted + size) % 0x1_0000 == accepted + size
  {
  }

  lemma AboveIsOutOfOrder(t: K.SinkState, e: nat)
    requires e in t.received && t.expected < e
    ensures K.OutOfOrder(t) > 0
  {
    assert e in K.FromOn(t.received, t.expected + 1);
  }

  /** Nothing is out of order after a new number exactly if it was the expected one and closed the last hole. */
  lemma DrainedIff(k: K.SinkState, e: nat, payload: int)
    requires K.SinkInv(k) && !K.Known(k, e) && e < k.expected + K.WINDOW
    ensures var t := K.Accept(k, e, payload); K.OutOfOrder(t) == 0 <==> K.Drained(t, e, k)
  {
    if e != k.expected { AboveIsOutOfOrder(K.Accept(k, e, payload), e); }
  }

  /** What a new data packet leaves the sink with, and whether it is answered. */
  lemma NewDataRecalled(k: K.SinkState, mss: nat, h: History, e: nat, size: nat, ar: bool, ecn: bool)
    requires K.SinkInv(k) && !K.Known(k, e) && e < k.expected + K.WINDOW && Recalls(k, mss, h) && Fits(mss)
    requires ar || size == Full(mss)
    ensures var o := K.ProcessData(k, e, size, ar, ecn); var drained := K.OutOfOrder(o.sink) == 0;
      && (o.out == [] <==> !ar && !ecn && k.bytes != 0 && h.unanswered + size <= K.UNACKED_THRESHOLD
                           && !(h.asked && drained))
      && Recalls(o.sink, mss, History(if o.out == [] then h.unanswered + size else 0, (h.asked || ar) && !drained))
  {
    DrainedIff(Counted(k, size), e, size - HDR);
    if !ar { CountIsExact(k.accepted, mss, size); }
  }

  lemma NewDataRemembered(s: Sys, h: History, a: Action)
    requires Inv(s) && Enabled(s, a) && a.GetData? && Remembers(s, h) && Fits(s.src.mss)
    requires (a.msg.ar || a.msg.size == Full(s.src.mss)) && a.msg.seqno !in s.sink.received
    ensures Sent(s, a) == [] <==> Quiet(s, h, a)
    ensures Remembers(Apply(s, a), Noted(s, h, a))
  {
    ReceivedIff(s, a.msg.seqno);
    NewDataRecalled(s.sink, s.src.mss, h, a.msg.seqno, a.msg.size, a.msg.ar, a.ecn);
  }

  lemma KnownDataRecalled(k: K.SinkState, mss: nat, h: History, e: nat, size: nat, ar: bool, ecn: bool)
    requires K.Known(k, e) && Recalls(k, mss, h)
    ensures var o := K.ProcessData(k, e, size, ar, ecn);
      o.out != [] && Recalls(o.sink, mss, History(0, h.asked && K.OutOfOrder(o.sink) != 0))
  {
  }

  lemma KnownDataRemembered(s: Sys, h: History, a: Action)
    requires Inv(s) && Enabled(s, a) && a.GetData? && Remembers(s, h) && a.msg.seqno in s.sink.received
    ensures Sent(s, a) != [] && Remembers(Apply(s, a), Noted(s, h, a))
  {
    ReceivedIff(s, a.msg.seqno);
    KnownDataRecalled(s.sink, s.src.mss, h, a.msg.seqno, a.msg.size, a.msg.ar, a.ecn);
  }

  lemma RtsRecalled(k: K.SinkState, mss: nat, h: History, e: nat)
    requires K.SinkInv(k) && e < k.expected + K.WINDOW && Recalls(k, mss, h)
    ensures var o := K.ProcessRts(k, e); Recalls(o.sink, mss, History(0, h.asked && K.OutOfOrder(o.sink) != 0))
  {
    if !K.Known(k, e) { DrainedIff(k, e, HDR - HDR); }
  }

  lemma RtsRemembered(s: Sys, h: History, a: Action)
    requires Inv(s) && Enabled(s, a) && a.GetRts? && Remembers(s, h)
    ensures Remembers(Apply(s, a), Noted(s, h, a))
  {
    RtsRecalled(s.sink, s.src.mss, h, a.msg.rtsSeqno);
  }

  lemma StepRemembered(s: Sys, h: History, a: Action)
    requires Inv(s) && Enabled(s, a) && Remembers(s, h) && Fits(s.src.mss) && ShortAsks(s)
    ensures Remembers(Apply(s, a), Noted(s, h, a))
    ensures a.GetData? ==> (Sent(s, a) == [] <==> Quiet(s, h, a))
  {
    StepFlow(s, a);
    match a
    case GetData(m, _) =>
      if m.seqno in s.sink.received { KnownDataRemembered(s, h, a); } else { NewDataRemembered(s, h, a); }
    case GetRts(_) => RtsRemembered(s, h, a);
    case _ =>
  }

  lemma StepShortAsks(s: Sys, a: Action)
    requires Inv(s) && Enabled(s, a) && ShortAsks(s)
    ensures ShortAsks(Apply(s, a))
  {
    SentIsAdded(s, a);
    StepFlow(s, a);
    forall m | m in Sent(s, a) && m.Data? && !m.ar ensures m.size == Full(s.src.mss) {
      if OfSender(a) {
        BeforeInv(s, a);
        StepOrderly(s, a);
        assert Proper(Before(s, a), Outcome(Apply(s, a).src, Sent(s, a)), m);
      } else {
        SinkSendsNoData(s, a, m);
      }
    }
  }

  lemma {:induction false} RunRemembered(s: Sys, h: History, run: seq<Action>)
    requires Inv(s) && CanRun(s, run) && Remembers(s, h) && Fits(s.src.mss) && ShortAsks(s)
    ensures var t := Run(s, run); Inv(t) && Remembers(t, Told(s, h, run)) && ShortAsks(t) && t.src.mss == s.src.mss
    decreases |run|
  {
    if run != [] {
      StepInv(s, run[0]);
      StepFlow(s, run[0]);
      StepRemembered(s, h, run[0]);
      StepShortAsks(s, run[0]);
      RunRemembered(Apply(s, run[0]), Noted(s, h, run[0]), run[1..]);
    }
  }

  /** In every run, a data packet is left without an answer if and only if it is new, neither asks for an ACK nor
      carries a congestion mark, is not the first payload, takes what has gone unanswered to no more than the
      threshold, and does not close the last hole while a request is pending. */
  lemma UnansweredIff(flowSize: nat, mss: nat, run: seq<Action>, a: Action)
    requires 0 < mss && Fits(mss) && CanRun(Start(flowSize, mss), run) && a.GetData?
    requires Enabled(Run(Start(flowSize, mss), run), a)
    ensures var s := Run(Start(flowSize, mss), run);
      Sent(s, a) == [] <==> Quiet(s, Told(Start(flowSize, mss), NOTHING, run), a)
  {
    StartInv(flowSize, mss);
    RunRemembered(Start(flowSize, mss), NOTHING, run);
    StepRemembered(Run(Start(flowSize, mss), run), Told(Start(flowSize, mss), NOTHING, run), a);
  }

  // ---------------------------------------------------------------- the threshold

  lemma ThresholdHolds(flowSize: nat, mss: nat, run: seq<Action>)
    requires 0 < mss && Fits(mss) && CanRun(Start(flowSize, mss), run)
    ensures Told(Start(flowSize, mss), NOTHING, run).unanswered <= K.UNACKED_THRESHOLD
  {
    StartInv(flowSize, mss);
    RunRemembered(Start(flowSize, mss), NOTHING, run);
  }

  lemma ToldPrefixed(s: Sys, h: History, a: Action, rest: seq<Action>)
    requires Enabled(s, a) && CanRun(Apply(s, a), rest)
    ensures CanRun(s, [a] + rest) && Told(s, h, [a] + rest) == Told(Apply(s, a), Noted(s, h, a), rest)
  {
    Prefixed(s, a, rest);
    assert ([a] + rest)[1..] == rest;
  }

  lemma FullIsNew(s: SrcState)
    requires SrcInv(s) && s.rtx == map[] && s.unsent > s.mss
    ensures SendIfPermitted(s, true, false) == SendNew(s, false)
    ensures SendNew(s, false).out == [Data(s.highest, Full(s.mss), false)]
  {
    SendNewAsserts(s);
  }

  /** A full packet that leaves something unsent, sent in the sender's turn. */
  lemma FullSend(s: Sys)
    requires Inv(s) && s.src.rtx == map[] && s.src.unsent > s.src.mss
    ensures var t := Apply(s, Send(false)); Inv(t) && t.src.rtx == map[] && t.sink == s.sink
    ensures var t := Apply(s, Send(false)); t.src.unsent == s.src.unsent - s.src.mss && t.src.mss == s.src.mss
    ensures var t := Apply(s, Send(false)); t.src.highest == s.src.highest + 1
    ensures Apply(s, Send(false)).net == s.net + {Data(s.src.highest, Full(s.src.mss), false)}
  {
    FullIsNew(s.src);
    StepInv(s, Send(false));
    SentIsAdded(s, Send(false));
    assert Elements([Data(s.src.highest, Full(s.src.mss), false)]) == {Data(s.src.highest, Full(s.src.mss), false)};
  }

  function FullPacket(s: Sys, k: nat): Msg { Data(k, Full(s.src.mss), false) }

  /** There is payload already, and one more full packet leaves the count within the threshold. */
  predicate Uncounted(s: Sys)
  {
    s.sink.bytes != 0 && (s.sink.accepted + Full(s.src.mss)) % 0x1_0000 <= K.UNACKED_THRESHOLD
  }

  /** Number `k` arrives in order, and nothing was out of order. */
  lemma Arrives(s: Sys, k: nat)
    requires Inv(s) && s.sink.expected == k && forall j :: j in s.sink.received ==> j < k
    requires FullPacket(s, k) in s.net && !s.sink.ackRequest
    ensures var a := GetData(FullPacket(s, k), false); var t := Apply(s, a);
      && Enabled(s, a) && t.sink.expected == k + 1 && (forall j :: j in t.sink.received ==> j < k + 1)
      && !t.sink.ackRequest && t.sink.bytes == s.sink.bytes + s.src.mss && t.src == s.src && s.net <= t.net
    ensures var a := GetData(FullPacket(s, k), false);
      && (Sent(s, a) == [] <==> Uncounted(s))
      && (Sent(s, a) != [] ==> Apply(s, a).sink.accepted == 0)
  {
    var r := s.sink.received + {k};
    K.NextHoleUnique(r, k, k + 1);
  }

  /** Two full packets arrive in order. The first payload is answered; the second is hidden from the count. */
  lemma HiddenArrival(s: Sys) returns (run: seq<Action>)
    requires Inv(s) && !Fits(s.src.mss) && s.sink == K.FRESH
    requires FullPacket(s, 0) in s.net && FullPacket(s, 1) in s.net
    ensures CanRun(s, run) && Told(s, NOTHING, run).unanswered > K.UNACKED_THRESHOLD
  {
    var first, second := GetData(FullPacket(s, 0), false), GetData(FullPacket(s, 1), false);
    Arrives(s, 0);
    var t := Apply(s, first);
    StepInv(s, first);
    Arrives(t, 1);
    var h := Noted(s, NOTHING, first);
    assert Noted(t, h, second).unanswered >= Full(s.src.mss);
    assert CanRun(Apply(t, second), []);
    ToldPrefixed(t, h, second, []);
    ToldPrefixed(s, NOTHING, first, [second] + []);
    run := [first] + ([second] + []);
  }

  /** Such packets go out when the flow has more than two. */
  lemma ThresholdFails(flowSize: nat, mss: nat) returns (run: seq<Action>)
    requires 0 < mss && 2 * mss < flowSize && !Fits(mss)
    ensures CanRun(Start(flowSize, mss), run)
    ensures Told(Start(flowSize, mss), NOTHING, run).unanswered > K.UNACKED_THRESHOLD
  {
    var s0, go := Start(flowSize, mss), Send(false);
    StartInv(flowSize, mss);
    FullSend(s0);
    var s1 := Apply(s0, go);
    FullSend(s1);
    var s2 := Apply(s1, go);
    var rest := HiddenArrival(s2);
    ToldPrefixed(s1, NOTHING, go, rest);
    ToldPrefixed(s0, NOTHING, go, [go] + rest);
    run := [go] + ([go] + rest);
  }

  /** The data that goes unanswered never adds up to more than the threshold, in any run of a flow of more than two
      packets, if and only if the 16-bit count cannot hide a full packet. */
  lemma ThresholdIff(flowSize: nat, mss: nat)
    requires 0 < mss && 2 * mss < flowSize
    ensures Fits(mss) <==> forall run :: CanRun(Start(flowSize, mss), run) ==>
              Told(Start(flowSize, mss), NOTHING, run).unanswered <= K.UNACKED_THRESHOLD
  {
    if Fits(mss) {
      forall run | CanRun(Start(flowSize, mss), run)
        ensures Told(Start(flowSize, mss), NOTHING, run).unanswered <= K.UNACKED_THRESHOLD
      {
        ThresholdHolds(flowSize, mss, run);
      }
    } else {
      var run := ThresholdFails(flowSize, mss);
    }
  }
}
