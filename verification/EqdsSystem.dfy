/** One EQDS flow end to end: sender, sink, and a network that may lose, reorder, repeat and trim.
    `net` holds every message ever sent; a message stays in it after delivery, so a run may deliver
    it never, late, or again. Timers, credit and acknowledgement marks are free choices of the run. */
module EqdsSystem {
  import opened EqdsMessages
  import opened EqdsSource
  import opened OrderedMaps
  import opened SackWord
  import opened Tallies
  import K = EqdsSink

  datatype Sys = Sys(src: SrcState, sink: K.SinkState, net: set<Msg>)

  datatype Action =
    | Send(ar: bool)                                            // start of the flow, a PULL, the NIC's turn
    | Timeout(seqno: nat, choice: TimerChoice, ar: bool)
    | GetAck(msg: Msg, permit: bool, ar: bool)
    | GetNack(msg: Msg, permit1: bool, permit2: bool, ar: bool)
    | Trim(msg: Msg)
    | GetData(msg: Msg, ecn: bool)
    | GetTrimmed(msg: Msg)
    | GetRts(msg: Msg)

  function Start(flowSize: nat, mss: nat): Sys
    requires 0 < mss
  {
    Sys(Started(flowSize, mss), K.FRESH, {})
  }

  function Elements(out: seq<Msg>): set<Msg> { set m | m in out }

  function WithSource(s: Sys, o: Outcome): Sys { Sys(o.src, s.sink, s.net + Elements(o.out)) }

  function WithSink(s: Sys, o: K.SinkOutcome): Sys { Sys(s.src, o.sink, s.net + Elements(o.out)) }

  /** The window assumption: what is delivered lies less than a window above the expected number; and where the
      answer takes the packet's own number as reference (`own`), the word it fills lies in the window too and
      nothing received is a window or more above it. */
  ghost predicate InWindow(s: Sys, e: nat, own: bool)
  {
    e < s.sink.expected + K.WINDOW && (own ==> K.SackWindow(s.sink, e))
  }

  ghost predicate Enabled(s: Sys, a: Action)
  {
    match a
    case Send(_) => true
    case Timeout(k, _, _) => k in s.src.tx
    case GetAck(m, _, _) => m in s.net && m.Ack?
    case GetNack(m, _, _, _) => m in s.net && m.Nack? && m.nackedSeqno in s.src.tx
    case Trim(m) => m in s.net && m.Data?
    case GetData(m, ecn) => m in s.net && m.Data? && InWindow(s, m.seqno, K.OwnReference(s.sink, m.seqno, m.ar, ecn))
    case GetTrimmed(m) => m in s.net && m.Trimmed? && InWindow(s, m.trimmedSeqno, K.Known(s.sink, m.trimmedSeqno))
    case GetRts(m) => m in s.net && m.Rts? && InWindow(s, m.rtsSeqno, true)
  }

  ghost function Apply(s: Sys, a: Action): Sys
    requires Enabled(s, a)
  {
    match a
    case Send(ar) => WithSource(s, SendIfPermitted(s.src, true, ar))
    case Timeout(k, c, ar) => WithSource(s, TimerExpired(s.src, k, c, ar))
    case GetAck(m, p, ar) => WithSource(s, ProcessAck(s.src, m.cum, m.ref, m.bitmap, p, ar))
    case GetNack(m, p1, p2, ar) => WithSource(s, ProcessNack(s.src, m.nackedSeqno, p1, p2, ar))
    case Trim(m) => s.(net := s.net + {Trimmed(m.seqno)})
    case GetData(m, ecn) => WithSink(s, K.ProcessData(s.sink, m.seqno, m.size, m.ar, ecn))
    case GetTrimmed(m) => WithSink(s, K.ProcessTrimmed(s.sink, m.trimmedSeqno))
    case GetRts(m) => WithSink(s, K.ProcessRts(s.sink, m.rtsSeqno))
  }

  ghost predicate CanRun(s: Sys, run: seq<Action>)
    decreases |run|
  {
    run == [] || (Enabled(s, run[0]) && CanRun(Apply(s, run[0]), run[1..]))
  }

  ghost function Run(s: Sys, run: seq<Action>): Sys
    requires CanRun(s, run)
    decreases |run|
  {
    if run == [] then s else Run(Apply(s, run[0]), run[1..])
  }

  // ---------------------------------------------------------------- bytes received

  function PayloadOf(log: seq<Assigned>, r: set<nat>): nat
    decreases |log|
  {
    if log == [] then 0
    else PayloadOf(log[..|log| - 1], r) + (if |log| - 1 in r then Payload(log[|log| - 1]) else 0)
  }

  lemma {:induction false} PayloadAdd(log: seq<Assigned>, r: set<nat>, e: nat)
    requires e !in r
    ensures PayloadOf(log, r + {e}) == PayloadOf(log, r) + (if e < |log| then Payload(log[e]) else 0)
    decreases |log|
  {
    if log != [] { PayloadAdd(log[..|log| - 1], r, e); }
  }

  lemma {:induction false} PayloadGrow(log: seq<Assigned>, more: seq<Assigned>, r: set<nat>)
    requires forall k :: k in r ==> k < |log|
    ensures PayloadOf(log + more, r) == PayloadOf(log, r)
    decreases |more|
  {
    if more == [] {
      assert log + more == log;
    } else {
      assert (log + more)[..|log + more| - 1] == log + more[..|more| - 1];
      PayloadGrow(log, more[..|more| - 1], r);
    }
  }

  lemma {:induction false} PayloadBound(log: seq<Assigned>, r: set<nat>)
    ensures PayloadOf(log, r) <= PayloadSum(log)
    ensures (forall k :: 0 <= k < |log| ==> k in r) ==> PayloadOf(log, r) == PayloadSum(log)
    decreases |log|
  {
    if log != [] { PayloadBound(log[..|log| - 1], r); }
  }

  // ---------------------------------------------------------------- invariant

  ghost predicate Held(src: SrcState, k: nat) { k in src.tx || k in src.rtx }

  /** Every number handed out is outstanding, queued for retransmission, or has arrived. */
  ghost predicate Custody(s: Sys)
  {
    forall k: nat :: k < s.src.highest ==> Held(s.src, k) || k in s.sink.received
  }

  ghost predicate SentOk(m: Msg, log: seq<Assigned>)
  {
    match m
    case Data(k, size, _) => k < |log| && size == SizeOf(log[k])
    case Trimmed(k) => k < |log|
    case Rts(k) => k < |log| && log[k].Request?
    case Ack(_, _, _) => true
    case Nack(k) => k < |log|
  }

  /** The ACK's word marks number `k`. */
  ghost predicate Claims(m: Msg, k: nat)
  {
    m.Ack? && m.ref <= k && Bit(m.bitmap, k - m.ref)
  }

  /** An ACK in the network never covers what the sink does not have, and marks only numbers above the one it
      gives as expected. */
  ghost predicate AckOk(m: Msg, sink: K.SinkState)
  {
    m.Ack? ==> m.cum <= sink.expected && forall k: nat :: Claims(m, k) ==> m.cum < k && k in sink.received
  }

  ghost predicate Inv(s: Sys)
  {
    && SrcInv(s.src)
    && K.SinkInv(s.sink)
    && (forall k :: k in s.sink.received ==> k < s.src.highest)
    && Custody(s)
    && s.sink.bytes == PayloadOf(s.src.log, s.sink.received)
    && (forall m :: m in s.net ==> SentOk(m, s.src.log) && AckOk(m, s.sink))
  }

  // ---------------------------------------------------------------- sender steps

  /** What an operation of the sender may do: extend the log, hold at least what it held and everything
      new, and send only packets that match the log. */
  ghost predicate Grows(s: SrcState, o: Outcome)
  {
    && s.log <= o.src.log
    && s.highest <= o.src.highest
    && (forall k: nat :: k < o.src.highest && (Held(s, k) || s.highest <= k) ==> Held(o.src, k))
    && (forall m :: m in o.out ==> SentOk(m, o.src.log) && !m.Ack?)
    && o.src.flowSize == s.flowSize && o.src.done == s.done
    && (o.src.highest == s.highest ==> o.src.unsent == s.unsent)
  }

  lemma GrowsThen(s: SrcState, a: Outcome, b: Outcome)
    requires Grows(s, a) && Grows(a.src, b)
    ensures Grows(s, Then(a, b))
  {
    forall k: nat | k < b.src.highest && (Held(s, k) || s.highest <= k) ensures Held(b.src, k) {
      assert k < a.src.highest ==> Held(a.src, k);
    }
  }

  lemma SendGrows(s: SrcState, permit: bool, ar: bool)
    requires SrcInv(s)
    ensures Grows(s, SendIfPermitted(s, permit, ar))
  {
  }

  lemma RtxGrows(s: SrcState)
    requires SrcInv(s) && s.rtx != map[]
    ensures Grows(s, SendRtx(s))
  {
  }

  lemma RtsGrows(s: SrcState)
    requires SrcInv(s)
    ensures Grows(s, SendRts(s))
  {
  }

  /** Moving a record to the retransmit queue and perhaps sending from it loses nothing. */
  lemma RequeueGrows(s: SrcState, seqno: nat, back: nat, permit: bool, ar: bool)
    requires SrcInv(s) && seqno in s.tx && back <= s.tx[seqno]
    ensures Grows(s, QueueForRtx(Forget(s, seqno, back), seqno, s.tx[seqno], permit, ar))
  {
    var f := Forget(s, seqno, back);
    ForgetInv(s, seqno, back);
    QueuedInv(f, seqno, s.tx[seqno]);
    var q := f.(rtx := f.rtx[seqno := s.tx[seqno]]);
    assert forall k :: Held(s, k) ==> Held(q, k);
    SendGrows(q, permit, ar);
  }

  lemma NackGrows(s: SrcState, seqno: nat, p1: bool, p2: bool, ar: bool)
    requires SrcInv(s) && seqno in s.tx
    ensures Grows(s, ProcessNack(s, seqno, p1, p2, ar))
  {
    var size := s.tx[seqno];
    var first := QueueForRtx(Forget(s, seqno, size), seqno, size, p1, ar);
    RequeueGrows(s, seqno, size, p1, ar);
    ForgetInv(s, seqno, size);
    QueueForRtxInv(Forget(s, seqno, size), seqno, size, p1, ar);
    SendGrows(first.src, p2, ar);
    GrowsThen(s, first, SendIfPermitted(first.src, p2, ar));
  }

  lemma TimerGrows(s: SrcState, seqno: nat, c: TimerChoice, ar: bool)
    requires SrcInv(s) && seqno in s.tx
    ensures Grows(s, TimerExpired(s, seqno, c, ar))
  {
    var first := QueueForRtx(Forget(s, seqno, 0), seqno, s.tx[seqno], c.permit, ar);
    RequeueGrows(s, seqno, 0, c.permit, ar);
    TimerQueuedInv(s, seqno, c.permit, ar);
    LoweredInv(first.src);
    if s.rtx != map[] || !c.credit {
      if c.rtsDue {
        RtsGrows(first.src);
        GrowsThen(s, first, SendRts(first.src));
      }
    } else if c.nicFree && !c.permit {
      assert seqno in first.src.rtx;
      RtxGrows(first.src);
      GrowsThen(s, first, SendRtx(first.src));
    }
  }

  /** Any such step of the sender keeps the whole system's invariant. */
  lemma SourceStep(s: Sys, o: Outcome)
    requires Inv(s) && SrcInv(o.src) && Grows(s.src, o)
    ensures Inv(WithSource(s, o))
  {
    var t := WithSource(s, o);
    var more := o.src.log[|s.src.log|..];
    assert o.src.log == s.src.log + more;
    PayloadGrow(s.src.log, more, s.sink.received);
    forall k: nat | k < t.src.highest ensures Held(t.src, k) || k in t.sink.received {
      if k < s.src.highest { assert Held(s.src, k) || k in s.sink.received; }
    }
    forall m | m in t.net ensures SentOk(m, t.src.log) && AckOk(m, t.sink) {
      if m in s.net { assert SentOk(m, s.src.log); }
    }
  }

  // ---------------------------------------------------------------- acknowledgements

  /** A record disappears under a SACK exactly if its own bit is set; the others are untouched. */
  lemma {:induction false} SackRemovesMarked(s: SrcState, ref: nat, bitmap: nat, k: nat)
    ensures k in HandleSack(s, ref, bitmap).tx <==> k in s.tx && !(ref <= k && Bit(bitmap, k - ref))
    ensures k in HandleSack(s, ref, bitmap).tx ==> HandleSack(s, ref, bitmap).tx[k] == s.tx[k]
    decreases bitmap
  {
    if bitmap == 0 {
      if ref <= k { BitOfZero(k - ref); }
    } else {
      SackRemovesMarked(if bitmap % 2 == 1 then HandleAckno(s, ref) else s, ref + 1, bitmap / 2, k);
    }
  }

  lemma ExpectedAssigned(s: Sys)
    requires Inv(s)
    ensures s.sink.expected <= s.src.highest
  {
    if s.sink.expected > 0 { assert s.sink.expected - 1 in s.sink.received; }
  }

  /** Nothing is released by an ACK before the sink has it. */
  lemma AckedCustody(s: Sys, m: Msg, k: nat)
    requires Inv(s) && m in s.net && m.Ack? && Held(s.src, k)
    ensures Held(Acked(s.src, m.cum, m.ref, m.bitmap), k) || k in s.sink.received
  {
    var a := HandleCumulativeAck(s.src, m.cum);
    HandleSackFrame(a, m.ref, m.bitmap);
    if m.cum <= k && k in a.tx && k !in HandleSack(a, m.ref, m.bitmap).tx {
      SackRemovesMarked(a, m.ref, m.bitmap, k);
      assert Claims(m, k);
    }
  }

  lemma AckedKeepsInv(s: Sys, m: Msg)
    requires Inv(s) && m in s.net && m.Ack?
    ensures Inv(s.(src := Acked(s.src, m.cum, m.ref, m.bitmap)))
  {
    ExpectedAssigned(s);
    AckedInv(s.src, m.cum, m.ref, m.bitmap);
    HandleSackFrame(HandleCumulativeAck(s.src, m.cum), m.ref, m.bitmap);
    var t := Acked(s.src, m.cum, m.ref, m.bitmap);
    forall k: nat | k < t.highest ensures Held(t, k) || k in s.sink.received {
      if Held(s.src, k) { AckedCustody(s, m, k); }
    }
  }

  lemma AckStep(s: Sys, m: Msg, permit: bool, ar: bool)
    requires Inv(s) && m in s.net && m.Ack?
    ensures Inv(WithSource(s, ProcessAck(s.src, m.cum, m.ref, m.bitmap, permit, ar)))
  {
    var t := Acked(s.src, m.cum, m.ref, m.bitmap);
    AckedKeepsInv(s, m);
    if t.done {
      assert s.net + Elements([]) == s.net;
    } else {
      SendIfPermittedInv(t, permit, ar);
      SendGrows(t, permit, ar);
      SourceStep(s.(src := t), SendIfPermitted(t, permit, ar));
    }
  }

  // ---------------------------------------------------------------- sink steps

  lemma SackIsOk(sink: K.SinkState, ref: nat)
    requires K.SinkInv(sink) && K.SackExact(sink, ref)
    ensures AckOk(K.Sack(sink, ref), sink)
  {
    forall k: nat | Claims(K.Sack(sink, ref), k) ensures sink.expected < k && k in sink.received {
      BitOfWord(K.SackBits(sink.received, sink.expected, ref), k - ref);
      assert K.Honest(sink, ref, k - ref);
    }
  }

  /** The sink may change its bookkeeping and answer with an honest ACK or a NACK. */
  lemma ReplyStep(s: Sys, o: K.SinkOutcome)
    requires Inv(s)
    requires o.sink == s.sink.(accepted := o.sink.accepted, ackRequest := o.sink.ackRequest)
    requires forall m :: m in o.out ==> SentOk(m, s.src.log) && AckOk(m, s.sink)
    ensures Inv(WithSink(s, o))
  {
  }

  lemma AcceptStep(s: Sys, e: nat, payload: nat)
    requires Inv(s) && InWindow(s, e, false) && !K.Known(s.sink, e)
    requires e < s.src.highest && payload == Payload(s.src.log[e])
    ensures var t := s.(sink := K.Accept(s.sink, e, payload));
      Inv(t) && InWindow(t, e, false) && (InWindow(s, e, true) ==> InWindow(t, e, true))
  {
    K.AcceptInv(s.sink, e, payload);
    PayloadAdd(s.src.log, s.sink.received, e);
    var t := s.(sink := K.Accept(s.sink, e, payload));
    forall m | m in t.net ensures AckOk(m, t.sink) { assert AckOk(m, s.sink); }
  }

  lemma SackReply(s: Sys, e: nat, own: bool)
    requires Inv(s) && InWindow(s, e, own)
    ensures var m := K.Sack(s.sink, if own then e else K.SackBitmapBase(s.sink, e));
      SentOk(m, s.src.log) && AckOk(m, s.sink)
  {
    if own {
      K.WindowMakesSackExact(s.sink, e);
      SackIsOk(s.sink, e);
    } else {
      K.BitmapBaseIsSafe(s.sink, e);
      SackIsOk(s.sink, K.SackBitmapBase(s.sink, e));
    }
  }

  lemma DuplicateStep(s: Sys, e: nat, ecn: bool)
    requires Inv(s) && InWindow(s, e, ecn)
    ensures Inv(WithSink(s, K.DuplicateData(s.sink, e, ecn)))
  {
    SackReply(s, e, ecn);
    ReplyStep(s, K.DuplicateData(s.sink, e, ecn));
  }

  lemma NewDataStep(s: Sys, e: nat, size: nat, ar: bool, ecn: bool)
    requires Inv(s) && InWindow(s, e, ecn || ar) && !K.Known(s.sink, e)
    requires e < s.src.highest && size == SizeOf(s.src.log[e])
    ensures Inv(WithSink(s, K.NewData(s.sink, e, size, ar, ecn)))
  {
    AcceptStep(s, e, size - HDR);
    var t := K.Accept(s.sink, e, size - HDR);
    var request := s.sink.ackRequest || ar;
    var release := K.Drained(t, e, s.sink) && request;
    RequestStep(s.(sink := t), e, ecn || ar, request && !release);
    AnswerStep(s.(sink := t.(ackRequest := request && !release)), e, ar, ecn, s.sink.bytes == 0 || ar || release);
  }

  lemma RequestStep(s: Sys, e: nat, own: bool, request: bool)
    requires Inv(s) && InWindow(s, e, own)
    ensures var t := s.(sink := s.sink.(ackRequest := request)); Inv(t) && InWindow(t, e, own)
  {
    var t := s.(sink := s.sink.(ackRequest := request));
    forall m | m in t.net ensures AckOk(m, t.sink) { assert AckOk(m, s.sink); }
  }

  lemma AnswerStep(s: Sys, e: nat, ar: bool, ecn: bool, force: bool)
    requires Inv(s) && InWindow(s, e, ecn || ar)
    ensures Inv(WithSink(s, K.AckIfDue(s.sink, e, ar, ecn, force)))
  {
    SackReply(s, e, ecn || ar);
    ReplyStep(s, K.AckIfDue(s.sink, e, ar, ecn, force));
  }

  function Counted(sink: K.SinkState, size: nat): K.SinkState
  {
    sink.(accepted := (sink.accepted + size) % 0x1_0000)
  }

  /** Counting the bytes of an arrival changes nothing else. */
  lemma CountStep(s: Sys, e: nat, own: bool, size: nat)
    requires Inv(s) && InWindow(s, e, own)
    ensures var u := s.(sink := Counted(s.sink, size)); Inv(u) && InWindow(u, e, own)
  {
    var u := s.(sink := Counted(s.sink, size));
    forall m | m in u.net ensures AckOk(m, u.sink) { assert AckOk(m, s.sink); }
  }

  lemma KnownDataStep(s: Sys, e: nat, size: nat, ar: bool, ecn: bool)
    requires Inv(s) && InWindow(s, e, ecn) && K.Known(s.sink, e)
    ensures Inv(WithSink(s, K.ProcessData(s.sink, e, size, ar, ecn)))
  {
    CountStep(s, e, ecn, size);
    DuplicateStep(s.(sink := Counted(s.sink, size)), e, ecn);
  }

  lemma FreshDataStep(s: Sys, e: nat, size: nat, ar: bool, ecn: bool)
    requires Inv(s) && InWindow(s, e, ecn || ar) && !K.Known(s.sink, e)
    requires e < s.src.highest && size == SizeOf(s.src.log[e])
    ensures Inv(WithSink(s, K.ProcessData(s.sink, e, size, ar, ecn)))
  {
    CountStep(s, e, ecn || ar, size);
    NewDataStep(s.(sink := Counted(s.sink, size)), e, size, ar, ecn);
  }

  lemma DataStep(s: Sys, m: Msg, ecn: bool)
    requires Inv(s) && m in s.net && m.Data? && InWindow(s, m.seqno, K.OwnReference(s.sink, m.seqno, m.ar, ecn))
    ensures Inv(WithSink(s, K.ProcessData(s.sink, m.seqno, m.size, m.ar, ecn)))
  {
    assert SentOk(m, s.src.log);
    if K.Known(s.sink, m.seqno) {
      KnownDataStep(s, m.seqno, m.size, m.ar, ecn);
    } else {
      FreshDataStep(s, m.seqno, m.size, m.ar, ecn);
    }
  }

  lemma TrimmedStep(s: Sys, m: Msg)
    requires Inv(s) && m in s.net && m.Trimmed? && InWindow(s, m.trimmedSeqno, K.Known(s.sink, m.trimmedSeqno))
    ensures Inv(WithSink(s, K.ProcessTrimmed(s.sink, m.trimmedSeqno)))
  {
    if K.Known(s.sink, m.trimmedSeqno) { SackReply(s, m.trimmedSeqno, true); }
    ReplyStep(s, K.ProcessTrimmed(s.sink, m.trimmedSeqno));
  }

  lemma RtsStep(s: Sys, m: Msg)
    requires Inv(s) && m in s.net && m.Rts? && InWindow(s, m.rtsSeqno, true)
    ensures Inv(WithSink(s, K.ProcessRts(s.sink, m.rtsSeqno)))
  {
    var e := m.rtsSeqno;
    if K.Known(s.sink, e) {
      SackReply(s, e, true);
      ReplyStep(s, K.ProcessRts(s.sink, e));
    } else {
      AcceptStep(s, e, 0);
      var v := s.(sink := K.Accept(s.sink, e, 0));
      SackReply(v, e, true);
      ReplyStep(v, K.ProcessRts(s.sink, e));
    }
  }

  // ---------------------------------------------------------------- runs

  lemma StartInv(flowSize: nat, mss: nat)
    requires 0 < mss
    ensures Inv(Start(flowSize, mss))
  {
    StartedInv(flowSize, mss);
  }

  lemma StepInv(s: Sys, a: Action)
    requires Inv(s) && Enabled(s, a)
    ensures Inv(Apply(s, a))
  {
    match a
    case Send(ar) =>
      SendIfPermittedInv(s.src, true, ar);
      SendGrows(s.src, true, ar);
      SourceStep(s, SendIfPermitted(s.src, true, ar));
    case Timeout(k, c, ar) =>
      TimerExpiredInv(s.src, k, c, ar);
      TimerGrows(s.src, k, c, ar);
      SourceStep(s, TimerExpired(s.src, k, c, ar));
    case GetAck(m, p, ar) => AckStep(s, m, p, ar);
    case GetNack(m, p1, p2, ar) =>
      ProcessNackInv(s.src, m.nackedSeqno, p1, p2, ar);
      NackGrows(s.src, m.nackedSeqno, p1, p2, ar);
      SourceStep(s, ProcessNack(s.src, m.nackedSeqno, p1, p2, ar));
    case Trim(m) => assert SentOk(m, s.src.log);
    case GetData(m, ecn) => DataStep(s, m, ecn);
    case GetTrimmed(m) => TrimmedStep(s, m);
    case GetRts(m) => RtsStep(s, m);
  }

  lemma {:induction false} RunInv(s: Sys, run: seq<Action>)
    requires Inv(s) && CanRun(s, run)
    ensures Inv(Run(s, run))
    decreases |run|
  {
    if run != [] {
      StepInv(s, run[0]);
      RunInv(Apply(s, run[0]), run[1..]);
    }
  }

  /** The sender's verdict is right, in every run: once it says the flow is done, the sink has every
      number ever handed out, exactly the flow's bytes, and nothing is outstanding or queued. */
  lemma DoneMeansDelivered(flowSize: nat, mss: nat, run: seq<Action>)
    requires 0 < mss && CanRun(Start(flowSize, mss), run)
    ensures var s := Run(Start(flowSize, mss), run);
      s.src.done ==>
        && (forall k: nat :: k in s.sink.received <==> k < s.src.highest)
        && s.sink.expected == s.src.highest
        && s.sink.bytes == flowSize
        && s.src.tx == map[] && s.src.rtx == map[] && s.src.unsent == 0
  {
    StartInv(flowSize, mss);
    RunInv(Start(flowSize, mss), run);
    RunFlow(Start(flowSize, mss), run);
    var s := Run(Start(flowSize, mss), run);
    if s.src.done {
      assert forall k: nat :: k < s.src.highest ==> !Held(s.src, k);
      ExpectedAssigned(s);
      PayloadBound(s.src.log, s.sink.received);
    }
  }

  lemma {:induction false} RunFlow(s: Sys, run: seq<Action>)
    requires Inv(s) && CanRun(s, run)
    ensures SameFlow(Run(s, run).src, s.src)
    decreases |run|
  {
    if run != [] {
      StepFlow(s, run[0]);
      StepInv(s, run[0]);
      RunFlow(Apply(s, run[0]), run[1..]);
    }
  }

  ghost predicate SameFlow(a: SrcState, b: SrcState) { a.flowSize == b.flowSize && a.mss == b.mss }

  lemma TimerFlow(s: SrcState, k: nat, c: TimerChoice, ar: bool)
    requires k in s.tx
    ensures SameFlow(TimerExpired(s, k, c, ar).src, s)
  {
  }

  lemma AckFlow(s: SrcState, m: Msg, permit: bool, ar: bool)
    requires m.Ack?
    ensures SameFlow(ProcessAck(s, m.cum, m.ref, m.bitmap, permit, ar).src, s)
  {
    HandleSackFrame(HandleCumulativeAck(s, m.cum), m.ref, m.bitmap);
  }

  lemma StepFlow(s: Sys, a: Action)
    requires Inv(s) && Enabled(s, a)
    ensures SameFlow(Apply(s, a).src, s.src)
  {
    match a
    case Timeout(k, c, ar) => TimerFlow(s.src, k, c, ar);
    case GetAck(m, p, ar) => AckFlow(s.src, m, p, ar);
    case _ =>
  }

  /** In every run: records and retransmit queue have no number in common; a number in neither has
      arrived; the bytes in flight cover the outstanding records; the sink never counts more than the flow. */
  lemma RunAccounting(flowSize: nat, mss: nat, run: seq<Action>)
    requires 0 < mss && CanRun(Start(flowSize, mss), run)
    ensures var s := Run(Start(flowSize, mss), run);
      && (forall k :: k in s.src.tx ==> k !in s.src.rtx)
      && (forall k: nat :: k < s.src.highest && k !in s.src.tx && k !in s.src.rtx ==> k in s.sink.received)
      && s.src.inFlight >= Total(s.src.tx)
      && s.sink.bytes <= flowSize
      && s.sink.expected <= s.src.highest
  {
    StartInv(flowSize, mss);
    RunInv(Start(flowSize, mss), run);
    RunFlow(Start(flowSize, mss), run);
    var s := Run(Start(flowSize, mss), run);
    forall k: nat | k < s.src.highest && k !in s.src.tx && k !in s.src.rtx ensures k in s.sink.received {
      assert !Held(s.src, k);
    }
    PayloadBound(s.src.log, s.sink.received);
    ExpectedAssigned(s);
  }

  // ---------------------------------------------------------------- bytes in flight

  /** What `inFlight` counts beyond the outstanding records, if every RTS record is charged a header. */
  ghost function Owed(s: SrcState): int { s.inFlight - Total(s.tx) + HDR * s.rtsSent }

  lemma SendOwed(s: SrcState, permit: bool, ar: bool)
    requires SrcInv(s)
    ensures Owed(SendIfPermitted(s, permit, ar).src) == Owed(s)
  {
    if permit && s.rtx != map[] {
      var k := Least(s.rtx.Keys);
      TotalPut(s.tx, k, s.rtx[k]);
    } else if permit && s.backlog != 0 && s.unsent != 0 {
      assert s.highest !in s.tx;
      TotalPut(s.tx, s.highest, NextPayload(s) + HDR);
    }
  }

  lemma RtsOwed(s: SrcState)
    requires SrcInv(s)
    ensures Owed(SendRts(s).src) == Owed(s)
  {
    assert s.highest !in s.tx;
    TotalPut(s.tx, s.highest, HDR);
  }

  /** Taking a record out without its bytes leaves them counted. */
  lemma RequeueOwed(s: SrcState, seqno: nat, back: nat, permit: bool, ar: bool)
    requires SrcInv(s) && seqno in s.tx && back <= s.tx[seqno]
    ensures var q := QueueForRtx(Forget(s, seqno, back), seqno, s.tx[seqno], permit, ar).src;
      Owed(q) == Owed(s) + s.tx[seqno] - back
  {
    var f := Forget(s, seqno, back);
    ForgetInv(s, seqno, back);
    QueuedInv(f, seqno, s.tx[seqno]);
    SendOwed(f.(rtx := f.rtx[seqno := s.tx[seqno]]), permit, ar);
    TotalRemove(s.tx, seqno);
  }

  lemma TimerOwed(s: SrcState, seqno: nat, c: TimerChoice, ar: bool)
    requires SrcInv(s) && seqno in s.tx
    ensures Owed(TimerExpired(s, seqno, c, ar).src) == Owed(s) + s.tx[seqno]
  {
    var first := QueueForRtx(Forget(s, seqno, 0), seqno, s.tx[seqno], c.permit, ar);
    RequeueOwed(s, seqno, 0, c.permit, ar);
    TimerQueuedInv(s, seqno, c.permit, ar);
    LoweredInv(first.src);
    if s.rtx != map[] || !c.credit {
      if c.rtsDue { RtsOwed(first.src); }
    } else if c.nicFree && !c.permit {
      assert seqno in first.src.rtx;
      var k := Least(first.src.rtx.Keys);
      TotalPut(first.src.tx, k, first.src.rtx[k]);
    }
  }

  lemma NackOwed(s: SrcState, seqno: nat, p1: bool, p2: bool, ar: bool)
    requires SrcInv(s) && seqno in s.tx
    ensures Owed(ProcessNack(s, seqno, p1, p2, ar).src) == Owed(s)
  {
    var size := s.tx[seqno];
    RequeueOwed(s, seqno, size, p1, ar);
    ForgetInv(s, seqno, size);
    QueueForRtxInv(Forget(s, seqno, size), seqno, size, p1, ar);
    SendOwed(QueueForRtx(Forget(s, seqno, size), seqno, size, p1, ar).src, p2, ar);
  }

  lemma AckOwed(s: SrcState, cum: nat, ref: nat, bitmap: nat, permit: bool, ar: bool)
    requires SrcInv(s) && cum <= s.highest
    ensures Owed(ProcessAck(s, cum, ref, bitmap, permit, ar).src) == Owed(s)
  {
    HandleSackFrame(HandleCumulativeAck(s, cum), ref, bitmap);
    AckedInv(s, cum, ref, bitmap);
    SendOwed(Acked(s, cum, ref, bitmap), permit, ar);
  }

  /** The size of the record that times out in a step. */
  ghost function TimedOut(s: Sys, a: Action): nat
    requires Enabled(s, a)
  {
    if a.Timeout? then s.src.tx[a.seqno] else 0
  }

  ghost function TimedOutBytes(s: Sys, run: seq<Action>): nat
    requires CanRun(s, run)
    decreases |run|
  {
    if run == [] then 0 else TimedOut(s, run[0]) + TimedOutBytes(Apply(s, run[0]), run[1..])
  }

  lemma StepOwed(s: Sys, a: Action)
    requires Inv(s) && Enabled(s, a)
    ensures Owed(Apply(s, a).src) == Owed(s.src) + TimedOut(s, a)
  {
    match a
    case Send(ar) => SendOwed(s.src, true, ar);
    case Timeout(k, c, ar) => TimerOwed(s.src, k, c, ar);
    case GetAck(m, p, ar) =>
      ExpectedAssigned(s);
      AckOwed(s.src, m.cum, m.ref, m.bitmap, p, ar);
    case GetNack(m, p1, p2, ar) => NackOwed(s.src, m.nackedSeqno, p1, p2, ar);
    case _ =>
  }

  lemma {:induction false} RunOwed(s: Sys, run: seq<Action>)
    requires Inv(s) && CanRun(s, run)
    ensures Owed(Run(s, run).src) == Owed(s.src) + TimedOutBytes(s, run)
    decreases |run|
  {
    if run != [] {
      StepOwed(s, run[0]);
      StepInv(s, run[0]);
      RunOwed(Apply(s, run[0]), run[1..]);
    }
  }

  /** In every run the bytes in flight are the outstanding records, plus everything that ever timed out, minus
      a header for every RTS. */
  lemma InFlightIs(flowSize: nat, mss: nat, run: seq<Action>)
    requires 0 < mss && CanRun(Start(flowSize, mss), run)
    ensures var s := Run(Start(flowSize, mss), run);
      s.src.inFlight == Total(s.src.tx) + TimedOutBytes(Start(flowSize, mss), run) - HDR * s.src.rtsSent
  {
    StartInv(flowSize, mss);
    RunOwed(Start(flowSize, mss), run);
  }

  /** A timeout that leaves the count right: the record of an RTS, answered by another RTS. */
  predicate Recharged(s: SrcState, seqno: nat, c: TimerChoice)
    requires seqno in s.tx
  {
    s.tx[seqno] == HDR && (s.rtx != map[] || !c.credit) && c.rtsDue
  }

  ghost predicate AllRecharged(s: Sys, run: seq<Action>)
    requires CanRun(s, run)
    decreases |run|
  {
    run == [] || ((run[0].Timeout? ==> Recharged(s.src, run[0].seqno, run[0].choice))
                  && AllRecharged(Apply(s, run[0]), run[1..]))
  }

  /** How far `inFlight` is above the outstanding records. */
  ghost function Excess(s: SrcState): int { s.inFlight - Total(s.tx) }

  function RtsOf(s: SrcState, c: TimerChoice): nat { if (s.rtx != map[] || !c.credit) && c.rtsDue then 1 else 0 }

  lemma RtsCounted(s: SrcState, seqno: nat, c: TimerChoice, ar: bool)
    requires SrcInv(s) && seqno in s.tx
    ensures TimerExpired(s, seqno, c, ar).src.rtsSent == s.rtsSent + RtsOf(s, c)
  {
  }

  lemma StepExcess(s: Sys, a: Action)
    requires Inv(s) && Enabled(s, a)
    ensures Excess(Apply(s, a).src) >= Excess(s.src)
    ensures Excess(Apply(s, a).src) == Excess(s.src)
       <==> (a.Timeout? ==> Recharged(s.src, a.seqno, a.choice))
  {
    StepOwed(s, a);
    if a.Timeout? {
      RtsCounted(s.src, a.seqno, a.choice, a.ar);
    } else {
      RtsKept(s, a);
    }
  }

  lemma RtsKept(s: Sys, a: Action)
    requires Inv(s) && Enabled(s, a) && !a.Timeout?
    ensures Apply(s, a).src.rtsSent == s.src.rtsSent
  {
    if a.GetAck? { HandleSackFrame(HandleCumulativeAck(s.src, a.msg.cum), a.msg.ref, a.msg.bitmap); }
  }

  lemma {:induction false} RunExcess(s: Sys, run: seq<Action>)
    requires Inv(s) && CanRun(s, run)
    ensures Excess(Run(s, run).src) >= Excess(s.src)
    ensures Excess(Run(s, run).src) == Excess(s.src) <==> AllRecharged(s, run)
    decreases |run|
  {
    if run != [] {
      StepExcess(s, run[0]);
      StepInv(s, run[0]);
      RunExcess(Apply(s, run[0]), run[1..]);
    }
  }

  /** The count is the sum of the outstanding records if and only if every timeout of the run was that of an
      RTS record and sent an RTS; after any other timeout it stays too large. */
  lemma InFlightExactIff(flowSize: nat, mss: nat, run: seq<Action>)
    requires 0 < mss && CanRun(Start(flowSize, mss), run)
    ensures var s := Run(Start(flowSize, mss), run);
      s.src.inFlight == Total(s.src.tx) <==> AllRecharged(Start(flowSize, mss), run)
  {
    StartInv(flowSize, mss);
    RunExcess(Start(flowSize, mss), run);
  }

  /** One packet is sent and times out: nothing is outstanding, and its 65 bytes are still in flight. */
  lemma TimeoutLeavesBytes() returns (run: seq<Action>)
    ensures CanRun(Start(1, 1), run)
    ensures Run(Start(1, 1), run).src.tx == map[] && Run(Start(1, 1), run).src.inFlight == 65
  {
    var s0 := Start(1, 1);
    var s1 := Apply(s0, Send(false));
    assert SendIfPermitted(s0.src, true, false) == SendNew(s0.src, false);
    assert s1.src.tx == map[0 := 65];
    var wait := Timeout(0, TimerChoice(false, true, false, false), false);
    var s2 := Apply(s1, wait);
    assert CanRun(s2, []);
    Prefixed(s1, wait, []);
    Prefixed(s0, Send(false), [wait]);
    run := [Send(false)] + [wait];
  }

  // ---------------------------------------------------------------- finishing

  /** An ACK finishes an unfinished flow if and only if everything was handed out and the ACK covers all of
      it, RTS numbers included. */
  lemma AckFinishesIff(s: Sys, m: Msg, permit: bool, ar: bool)
    requires Inv(s) && m in s.net && m.Ack? && !s.src.done
    ensures ProcessAck(s.src, m.cum, m.ref, m.bitmap, permit, ar).src.done
       <==> s.src.unsent == 0 && m.cum == s.src.highest
  {
    ExpectedAssigned(s);
    var a := HandleCumulativeAck(s.src, m.cum);
    HandleCumulativeAckInv(s.src, m.cum);
    HandleSackInv(a, m.ref, m.bitmap);
    HandleSackFrame(a, m.ref, m.bitmap);
    FinishTestIff(HandleSack(a, m.ref, m.bitmap), m.cum);
  }

  lemma {:induction false} SackOnNothing(s: SrcState, ref: nat, bitmap: nat)
    requires s.tx == map[]
    ensures HandleSack(s, ref, bitmap) == s
    decreases bitmap
  {
    if bitmap != 0 { SackOnNothing(s, ref + 1, bitmap / 2); }
  }

  /** Done is final: whatever is still delivered changes neither the sender nor what the sink has. */
  lemma DoneIsFinal(s: Sys, a: Action)
    requires Inv(s) && s.src.done && Enabled(s, a)
    ensures Apply(s, a).src == s.src && Apply(s, a).sink.received == s.sink.received
  {
    match a
    case GetAck(m, p, ar) =>
      assert DropBelow(s.src.tx, m.cum) == map[] && DropBelow(s.src.rtx, m.cum) == map[];
      SackOnNothing(s.src, m.ref, m.bitmap);
    case GetData(m, ecn) => assert !Held(s.src, m.seqno);
    case GetRts(m) => assert !Held(s.src, m.rtsSeqno);
    case _ =>
  }

  // ---------------------------------------------------------------- joining runs

  lemma Prefixed(s: Sys, a: Action, rest: seq<Action>)
    requires Enabled(s, a) && CanRun(Apply(s, a), rest)
    ensures CanRun(s, [a] + rest) && Run(s, [a] + rest) == Run(Apply(s, a), rest)
  {
    assert ([a] + rest)[1..] == rest;
  }

  lemma {:induction false} Joined(s: Sys, front: seq<Action>, back: seq<Action>)
    requires CanRun(s, front) && CanRun(Run(s, front), back)
    ensures CanRun(s, front + back) && Run(s, front + back) == Run(Run(s, front), back)
    decreases |front|
  {
    if front == [] {
      assert front + back == back;
    } else {
      Joined(Apply(s, front[0]), front[1..], back);
      assert (front + back)[1..] == front[1..] + back;
    }
  }
}
