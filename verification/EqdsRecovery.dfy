/** Recovery from loss (sim/eqds.cpp:482-519, 1058-1127). The sender never strands itself: while it is not done
    and has nothing new to send it still holds a number that the sink has not gone past. So whatever the network
    loses, timeouts and retransmissions finish the flow. */
module EqdsRecovery {
  import opened Chunking
  import opened Counting
  import opened EqdsMessages
  import opened EqdsSource
  import opened EqdsSystem
  import opened OrderedMaps
  import K = EqdsSink

  // ---------------------------------------------------------------- the frontier

  /** `k` was marked in some ACK. */
  ghost predicate Marked(net: set<Msg>, k: nat)
  {
    exists m :: m in net && Claims(m, k)
  }

  /** `c` is where the sender starts, or the expected number some ACK gave. */
  ghost predicate WasExpected(net: set<Msg>, c: nat)
  {
    c == 0 || exists m :: m in net && m.Ack? && m.cum == c
  }

  /** A number that was once given as expected is marked in no ACK, earlier or later. */
  ghost predicate ExpectedUnmarked(net: set<Msg>)
  {
    forall k: nat :: WasExpected(net, k) ==> !Marked(net, k)
  }

  /** Up to `c`, the largest expected number the sender has processed, it may have released anything; above it,
      only what was marked. If `c` covers everything and nothing is unsent, the flow is done. */
  ghost predicate Frontier(s: Sys, c: nat)
  {
    && WasExpected(s.net, c)
    && (forall k: nat :: k < s.src.highest && !Held(s.src, k) ==> k < c || Marked(s.net, k))
    && (c == s.src.highest && s.src.unsent == 0 && s.src.flowSize > 0 ==> s.src.done)
  }

  lemma MarkedUnion(a: set<Msg>, b: set<Msg>, k: nat)
    ensures Marked(a + b, k) <==> Marked(a, k) || Marked(b, k)
  {
    if m :| m in a && Claims(m, k) { assert m in a + b; }
    if m :| m in b && Claims(m, k) { assert m in a + b; }
  }

  lemma ExpectedUnion(a: set<Msg>, b: set<Msg>, c: nat)
    ensures WasExpected(a + b, c) <==> WasExpected(a, c) || WasExpected(b, c)
  {
    if m :| m in a && m.Ack? && m.cum == c { assert m in a + b; }
    if m :| m in b && m.Ack? && m.cum == c { assert m in a + b; }
  }

  /** What the sink adds: at most one ACK, which gives the current expected number. */
  ghost predicate Fresh(s: Sys, more: set<Msg>, expected: nat)
  {
    && s.sink.expected <= expected
    && forall m :: m in more && m.Ack? ==> m.cum == expected && forall k: nat :: Claims(m, k) ==> expected < k
  }

  /** Adding an ACK of the current expected number keeps expected numbers unmarked. */
  lemma StillUnmarked(s: Sys, t: Sys, more: set<Msg>)
    requires Inv(s) && Inv(t) && ExpectedUnmarked(s.net) && t.net == s.net + more && Fresh(s, more, t.sink.expected)
    ensures ExpectedUnmarked(t.net)
  {
    forall k: nat | WasExpected(t.net, k) ensures !Marked(t.net, k) {
      MarkedUnion(s.net, more, k);
      ExpectedUnion(s.net, more, k);
      ExpectedBelow(t, k);
      if WasExpected(more, k) && k > 0 && Marked(s.net, k) { MarkedReceived(t, k); }
      if WasExpected(s.net, k) && Marked(more, k) { ExpectedBelow(s, k); }
    }
  }

  lemma ExpectedBelow(s: Sys, k: nat)
    requires Inv(s) && WasExpected(s.net, k)
    ensures k <= s.sink.expected
  {
    if k > 0 {
      var m :| m in s.net && m.Ack? && m.cum == k;
      assert AckOk(m, s.sink);
    }
  }

  lemma MarkedReceived(s: Sys, k: nat)
    requires Inv(s) && Marked(s.net, k)
    ensures k in s.sink.received && k > 0
  {
    var m :| m in s.net && Claims(m, k);
    assert AckOk(m, s.sink);
  }

  // ---------------------------------------------------------------- every step keeps a frontier

  lemma SourceFrontier(s: Sys, o: Outcome, c: nat)
    requires Inv(s) && Grows(s.src, o) && Frontier(s, c) && ExpectedUnmarked(s.net)
    ensures Frontier(WithSource(s, o), c) && ExpectedUnmarked(WithSource(s, o).net)
  {
    var t, more := WithSource(s, o), Elements(o.out);
    forall k: nat
      ensures (Marked(t.net, k) <==> Marked(s.net, k)) && (WasExpected(t.net, k) <==> WasExpected(s.net, k))
    {
      MarkedUnion(s.net, more, k);
      ExpectedUnion(s.net, more, k);
    }
    ExpectedBelow(s, c);
    ExpectedAssigned(s);
    forall k: nat | k < t.src.highest && !Held(t.src, k) ensures k < c || Marked(t.net, k) {
      assert k < s.src.highest && !Held(s.src, k);
    }
  }

  /** Once an ACK is processed its expected number, or the one before if that is larger, is the frontier. */
  lemma AckFrontier(s: Sys, m: Msg, c: nat)
    requires Inv(s) && m in s.net && m.Ack? && Frontier(s, c)
    ensures Frontier(s.(src := Acked(s.src, m.cum, m.ref, m.bitmap)), if c < m.cum then m.cum else c)
  {
    var a := HandleCumulativeAck(s.src, m.cum);
    HandleSackFrame(a, m.ref, m.bitmap);
    var t := Acked(s.src, m.cum, m.ref, m.bitmap);
    forall k: nat | k < t.highest && !Held(t, k) && Held(s.src, k) ensures k < m.cum || Marked(s.net, k) {
      SackRemovesMarked(a, m.ref, m.bitmap, k);
      assert k >= m.cum ==> Claims(m, k);
    }
    if !s.src.done { AckFinishesIff(s, m, false, false); }
  }

  lemma AckStepFrontier(s: Sys, m: Msg, permit: bool, ar: bool, c: nat)
    requires Inv(s) && m in s.net && m.Ack? && Frontier(s, c) && ExpectedUnmarked(s.net)
    ensures var t := WithSource(s, ProcessAck(s.src, m.cum, m.ref, m.bitmap, permit, ar));
      Frontier(t, if c < m.cum then m.cum else c) && ExpectedUnmarked(t.net)
  {
    var src := Acked(s.src, m.cum, m.ref, m.bitmap);
    AckFrontier(s, m, c);
    AckedKeepsInv(s, m);
    if src.done {
      assert s.net + Elements([]) == s.net;
    } else {
      SendGrows(src, permit, ar);
      SourceFrontier(s.(src := src), SendIfPermitted(src, permit, ar), if c < m.cum then m.cum else c);
    }
  }

  lemma SinkFrontier(s: Sys, t: Sys, more: set<Msg>, c: nat)
    requires Inv(s) && Inv(t) && Frontier(s, c) && ExpectedUnmarked(s.net)
    requires t.src == s.src && t.net == s.net + more && Fresh(s, more, t.sink.expected)
    ensures Frontier(t, c) && ExpectedUnmarked(t.net)
  {
    StillUnmarked(s, t, more);
    ExpectedUnion(s.net, more, c);
    forall k: nat | k < s.src.highest && !Held(s.src, k) ensures k < c || Marked(t.net, k) {
      MarkedUnion(s.net, more, k);
    }
  }

  /** An answer of the sink gives its expected number. */
  lemma AnswersAreFresh(s: Sys, o: K.SinkOutcome)
    requires Inv(WithSink(s, o)) && s.sink.expected <= o.sink.expected
    requires forall m :: m in o.out && m.Ack? ==> m.cum == o.sink.expected
    ensures Fresh(s, Elements(o.out), o.sink.expected)
  {
    forall m | m in Elements(o.out) && m.Ack? ensures forall k: nat :: Claims(m, k) ==> o.sink.expected < k {
      assert AckOk(m, o.sink);
    }
  }

  ghost predicate Anchored(s: Sys)
  {
    ExpectedUnmarked(s.net) && exists c :: Frontier(s, c)
  }

  lemma SinkAnchored(s: Sys, o: K.SinkOutcome)
    requires Inv(s) && Inv(WithSink(s, o)) && s.sink.expected <= o.sink.expected && Anchored(s)
    requires forall m :: m in o.out && m.Ack? ==> m.cum == o.sink.expected
    ensures Anchored(WithSink(s, o))
  {
    var c :| Frontier(s, c);
    AnswersAreFresh(s, o);
    SinkFrontier(s, WithSink(s, o), Elements(o.out), c);
  }

  lemma SourceAnchored(s: Sys, o: Outcome)
    requires Inv(s) && Grows(s.src, o) && Anchored(s)
    ensures Anchored(WithSource(s, o))
  {
    var c :| Frontier(s, c);
    SourceFrontier(s, o, c);
  }

  lemma SenderStepAnchored(s: Sys, a: Action)
    requires Inv(s) && Enabled(s, a) && Anchored(s) && (a.Send? || a.Timeout? || a.GetNack?)
    ensures Anchored(Apply(s, a))
  {
    match a
    case Send(ar) =>
      SendGrows(s.src, true, ar);
      SourceAnchored(s, SendIfPermitted(s.src, true, ar));
    case Timeout(k, c, ar) =>
      TimerGrows(s.src, k, c, ar);
      SourceAnchored(s, TimerExpired(s.src, k, c, ar));
    case GetNack(m, p1, p2, ar) =>
      NackGrows(s.src, m.nackedSeqno, p1, p2, ar);
      SourceAnchored(s, ProcessNack(s.src, m.nackedSeqno, p1, p2, ar));
  }

  lemma SinkStepAnchored(s: Sys, a: Action)
    requires Inv(s) && Enabled(s, a) && Inv(Apply(s, a)) && Anchored(s) && (a.GetData? || a.GetTrimmed? || a.GetRts?)
    ensures Anchored(Apply(s, a))
  {
    match a
    case GetData(m, ecn) => SinkAnchored(s, K.ProcessData(s.sink, m.seqno, m.size, m.ar, ecn));
    case GetTrimmed(m) => SinkAnchored(s, K.ProcessTrimmed(s.sink, m.trimmedSeqno));
    case GetRts(m) => SinkAnchored(s, K.ProcessRts(s.sink, m.rtsSeqno));
  }

  lemma StepAnchored(s: Sys, a: Action)
    requires Inv(s) && Enabled(s, a) && Anchored(s)
    ensures Anchored(Apply(s, a))
  {
    StepInv(s, a);
    if a.Send? || a.Timeout? || a.GetNack? {
      SenderStepAnchored(s, a);
    } else if a.GetData? || a.GetTrimmed? || a.GetRts? {
      SinkStepAnchored(s, a);
    } else {
      var c :| Frontier(s, c);
      if a.GetAck? { AckStepFrontier(s, a.msg, a.permit, a.ar, c); }
      else { SinkFrontier(s, Apply(s, a), {Trimmed(a.msg.seqno)}, c); }
    }
  }

  lemma {:induction false} RunAnchored(s: Sys, run: seq<Action>)
    requires Inv(s) && CanRun(s, run) && Anchored(s)
    ensures Anchored(Run(s, run))
    decreases |run|
  {
    if run != [] {
      StepAnchored(s, run[0]);
      StepInv(s, run[0]);
      RunAnchored(Apply(s, run[0]), run[1..]);
    }
  }

  lemma StartAnchored(flowSize: nat, mss: nat)
    requires 0 < mss
    ensures Anchored(Start(flowSize, mss))
  {
    assert Frontier(Start(flowSize, mss), 0);
  }

  /** What the frontier comes to, without the messages: `c` has not been passed by the sink, and unless the sender
      has released everything, and then has more to send or is done, it still holds `c`. */
  ghost predicate Anchor(src: SrcState, sink: K.SinkState, c: nat)
  {
    && c <= sink.expected && c <= src.highest
    && (c < src.highest ==> Held(src, c))
    && (c == src.highest && src.unsent == 0 && src.flowSize > 0 ==> src.done)
  }

  lemma FrontierIsAnchor(s: Sys, c: nat)
    requires Inv(s) && ExpectedUnmarked(s.net) && Frontier(s, c)
    ensures Anchor(s.src, s.sink, c)
  {
    ExpectedBelow(s, c);
    ExpectedAssigned(s);
  }

  /** In every run: while the flow is not done and nothing is left to send, the sender still holds a number that
      the sink has not gone past. */
  lemma NeverStranded(flowSize: nat, mss: nat, run: seq<Action>)
    requires 0 < mss && 0 < flowSize && CanRun(Start(flowSize, mss), run)
    ensures var s := Run(Start(flowSize, mss), run);
      !s.src.done && s.src.unsent == 0 ==> exists c: nat :: c <= s.sink.expected && Held(s.src, c)
  {
    var c := RunHasAnchor(flowSize, mss, run);
    var s := Run(Start(flowSize, mss), run);
    if !s.src.done && s.src.unsent == 0 { assert c <= s.sink.expected && Held(s.src, c); }
  }

  lemma RunHasAnchor(flowSize: nat, mss: nat, run: seq<Action>) returns (c: nat)
    requires 0 < mss && CanRun(Start(flowSize, mss), run)
    ensures var s := Run(Start(flowSize, mss), run);
      Inv(s) && s.src.flowSize == flowSize && Anchor(s.src, s.sink, c)
  {
    StartInv(flowSize, mss);
    StartAnchored(flowSize, mss);
    RunInv(Start(flowSize, mss), run);
    RunFlow(Start(flowSize, mss), run);
    RunAnchored(Start(flowSize, mss), run);
    c :| Frontier(Run(Start(flowSize, mss), run), c);
    FrontierIsAnchor(Run(Start(flowSize, mss), run), c);
  }

  // ---------------------------------------------------------------- one timeout, answered

  /** A timeout that finds credit and an idle NIC: the packet is sent again at once. */
  const RESEND := TimerChoice(true, true, false, false)

  /** Everything has been sent and waits for an answer. */
  ghost predicate Waiting(s: Sys)
  {
    Inv(s) && s.src.flowSize > 0 && s.src.unsent == 0 && s.src.rtx == map[]
  }

  lemma Resent(s: Sys, k: nat) returns (m: Msg)
    requires Waiting(s) && k in s.src.tx
    ensures var t := Apply(s, Timeout(k, RESEND, false));
      && m == Data(k, s.src.tx[k], true) && t.net == s.net + {m} && t.sink == s.sink
      && Waiting(t) && t.src == s.src.(inFlight := t.src.inFlight)
  {
    var a := Timeout(k, RESEND, false);
    StepInv(s, a);
    m := Data(k, s.src.tx[k], true);
    var q := Forget(s.src, k, 0);
    var queued := q.(rtx := q.rtx[k := s.src.tx[k]]);
    assert queued.rtx.Keys == {k} && Least({k}) == k;
    var o := SendRtx(queued);
    assert o.src.rtx == map[] && o.src.tx == s.src.tx;
    assert TimerExpired(s.src, k, RESEND, false) == Then(o, Outcome(o.src, []));
    assert o.out + [] == [m] && Elements([m]) == {m};
  }

  /** A number the sink can take: it has gone past it or expects it, or the word of its ACK fits the window. */
  ghost predicate Reachable(sink: K.SinkState, k: nat)
  {
    k <= sink.expected || k + 63 < sink.expected + K.WINDOW
  }

  lemma ReachableInWindow(s: Sys, k: nat)
    requires Inv(s) && Reachable(s.sink, k)
    ensures InWindow(s, k, K.OwnReference(s.sink, k, true, false))
  {
  }

  /** The sink answers a packet that asks for an ACK with one that covers it or marks it. */
  lemma Answered(s: Sys, m: Msg) returns (ack: Msg)
    requires Inv(s) && m in s.net && m.Data? && m.ar && Reachable(s.sink, m.seqno)
    ensures Enabled(s, GetData(m, false))
    ensures var t := Apply(s, GetData(m, false));
      && Inv(t) && t.src == s.src && s.sink.expected <= t.sink.expected
      && ack in t.net && ack.Ack? && ack.cum == t.sink.expected && (m.seqno < ack.cum || Claims(ack, m.seqno))
  {
    ReachableInWindow(s, m.seqno);
    StepInv(s, GetData(m, false));
    var o := K.ProcessData(s.sink, m.seqno, m.size, true, false);
    ack := o.out[0];
    assert ack in Elements(o.out);
    if m.seqno >= o.sink.expected { AnswerMarks(s, m, ack); }
  }

  lemma AnswerMarks(s: Sys, m: Msg, ack: Msg)
    requires Inv(s) && m in s.net && m.Data? && m.ar && Reachable(s.sink, m.seqno)
    requires var o := K.ProcessData(s.sink, m.seqno, m.size, true, false);
      o.out == [ack] && m.seqno >= o.sink.expected
    ensures Claims(ack, m.seqno)
  {
    var k := m.seqno;
    var t := K.ProcessData(s.sink, k, m.size, true, false).sink;
    var ref := if K.Known(s.sink, k) then K.SackBitmapBase(s.sink, k) else k;
    K.BitOfSack(t, ref, k - ref);
  }

  /** Processing that ACK releases the number, and if the sink has everything the flow is done. */
  lemma Processed(s: Sys, ack: Msg, k: nat)
    requires Waiting(s) && ack in s.net && ack.Ack? && ack.cum == s.sink.expected && (k < ack.cum || Claims(ack, k))
    ensures var t := Apply(s, GetAck(ack, false, false));
      && Waiting(t) && t.sink == s.sink && t.src.highest == s.src.highest
      && t.src.tx.Keys <= s.src.tx.Keys - {k} && Anchor(t.src, t.sink, t.sink.expected)
  {
    StepInv(s, GetAck(ack, false, false));
    var t := Apply(s, GetAck(ack, false, false));
    var a := HandleCumulativeAck(s.src, ack.cum);
    HandleSackFrame(a, ack.ref, ack.bitmap);
    SackRemovesMarked(a, ack.ref, ack.bitmap, k);
    assert t.src == Acked(s.src, ack.cum, ack.ref, ack.bitmap);
    ExpectedAssigned(t);
    assert t.sink.expected !in t.sink.received;
    if !s.src.done { AckFinishesIff(s, ack, false, false); }
  }

  /** The record of `k` is gone, and the sender is waiting at what the sink expects. */
  ghost predicate Settled(s: Sys, t: Sys, k: nat)
  {
    && Waiting(t) && t.src.highest == s.src.highest && s.sink.expected <= t.sink.expected
    && t.src.tx.Keys <= s.src.tx.Keys - {k} && Anchor(t.src, t.sink, t.sink.expected)
  }

  /** The timer fires once, for `k`, and the sender sends nothing of its own accord. */
  predicate OneTimeout(run: seq<Action>, k: nat)
  {
    && run != [] && run[0] == Timeout(k, RESEND, false)
    && forall i :: 1 <= i < |run| ==> !run[i].Timeout? && !run[i].Send?
  }

  /** The timer fires for `k`; the packet is sent again, arrives, and the answer is processed. */
  lemma Round(s: Sys, k: nat) returns (run: seq<Action>)
    requires Waiting(s) && k in s.src.tx && Reachable(s.sink, k)
    ensures OneTimeout(run, k) && CanRun(s, run) && Settled(s, Run(s, run), k)
  {
    var m := Resent(s, k);
    var s1 := Apply(s, Timeout(k, RESEND, false));
    var ack := Answered(s1, m);
    var s2 := Apply(s1, GetData(m, false));
    Processed(s2, ack, k);
    run := ThreeSteps(s, Timeout(k, RESEND, false), GetData(m, false), GetAck(ack, false, false));
    RoundShape(run, k, m, ack);
    RoundSettles(s, s1, s2, Run(s, run), k);
  }

  lemma RoundSettles(s: Sys, s1: Sys, s2: Sys, t: Sys, k: nat)
    requires s1.sink == s.sink && s1.src == s.src.(inFlight := s1.src.inFlight)
    requires s2.src == s1.src && s1.sink.expected <= s2.sink.expected && t.sink == s2.sink
    requires Waiting(t) && t.src.highest == s2.src.highest && t.src.tx.Keys <= s2.src.tx.Keys - {k}
    requires Anchor(t.src, t.sink, t.sink.expected)
    ensures Settled(s, t, k)
  {
  }

  lemma RoundShape(run: seq<Action>, k: nat, m: Msg, ack: Msg)
    requires run == [Timeout(k, RESEND, false), GetData(m, false), GetAck(ack, false, false)]
    ensures OneTimeout(run, k)
  {
  }

  lemma ThreeSteps(s: Sys, a: Action, b: Action, c: Action) returns (run: seq<Action>)
    requires Enabled(s, a) && Enabled(Apply(s, a), b) && Enabled(Apply(Apply(s, a), b), c)
    ensures run == [a, b, c] && CanRun(s, run) && Run(s, run) == Apply(Apply(Apply(s, a), b), c)
  {
    var s1, s2 := Apply(s, a), Apply(Apply(s, a), b);
    assert CanRun(Apply(s2, c), []);
    Prefixed(s2, c, []);
    Prefixed(s1, b, [c] + []);
    Prefixed(s, a, [b] + ([c] + []));
    run := [a, b, c];
    assert run == [a] + ([b] + ([c] + []));
  }

  // ---------------------------------------------------------------- recovery

  function Work(s: SrcState): nat { s.unsent + |s.rtx| }

  lemma SendMakesProgress(s: SrcState)
    requires SrcInv(s) && Work(s) > 0
    ensures Work(SendIfPermitted(s, true, false).src) < Work(s)
  {
    if s.rtx != map[] {
      var k := Least(s.rtx.Keys);
      assert (s.rtx - {k}).Keys == s.rtx.Keys - {k};
    }
  }

  lemma AnchorGrows(src: SrcState, sink: K.SinkState, o: Outcome, c: nat)
    requires Anchor(src, sink, c) && Grows(src, o)
    ensures Anchor(o.src, sink, c)
  {
  }

  /** With credit the sender sends all it has to send. */
  lemma {:induction false} Drain(s: Sys, c: nat) returns (run: seq<Action>)
    requires Inv(s) && s.src.flowSize > 0 && Anchor(s.src, s.sink, c)
    ensures CanRun(s, run) && Waiting(Run(s, run)) && Run(s, run).sink == s.sink
    ensures Anchor(Run(s, run).src, s.sink, c)
    decreases Work(s.src)
  {
    if Work(s.src) == 0 {
      run := [];
    } else {
      var a, t := Send(false), Apply(s, Send(false));
      SendMakesProgress(s.src);
      StepInv(s, a);
      SendGrows(s.src, true, false);
      AnchorGrows(s.src, s.sink, SendIfPermitted(s.src, true, false), c);
      var rest := Drain(t, c);
      Prefixed(s, a, rest);
      run := [a] + rest;
    }
  }

  lemma FewerRecords(a: map<nat, nat>, b: map<nat, nat>, k: nat)
    requires k in b && a.Keys <= b.Keys - {k}
    ensures |a| < |b|
  {
    assert a.Keys <= b.Keys - {k};
    SubsetSize(a.Keys, b.Keys - {k});
  }

  /** One timeout after another, each of the number the sender is waiting at. */
  lemma {:induction false} Finish(s: Sys, c: nat) returns (run: seq<Action>)
    requires Waiting(s) && Anchor(s.src, s.sink, c)
    ensures CanRun(s, run) && Run(s, run).src.done
    decreases |s.src.tx|
  {
    if s.src.done {
      run := [];
    } else {
      assert Held(s.src, c);
      var front := Round(s, c);
      var t := Run(s, front);
      FewerRecords(t.src.tx, s.src.tx, c);
      var back := Finish(t, t.sink.expected);
      Joined(s, front, back);
      run := front + back;
    }
  }

  /** Whatever the network has lost: from every reachable state of a non-empty flow, with only some of its
      messages left or none at all, timeouts and retransmissions finish the flow. */
  lemma RecoversFromLoss(flowSize: nat, mss: nat, run: seq<Action>, net: set<Msg>) returns (more: seq<Action>)
    requires 0 < mss && 0 < flowSize && CanRun(Start(flowSize, mss), run) && net <= Run(Start(flowSize, mss), run).net
    ensures var s := Run(Start(flowSize, mss), run).(net := net);
      CanRun(s, more) && Run(s, more).src.done
  {
    var c := RunHasAnchor(flowSize, mss, run);
    var s := Run(Start(flowSize, mss), run).(net := net);
    assert Inv(s);
    var front := Drain(s, c);
    var back := Finish(Run(s, front), c);
    Joined(s, front, back);
    more := front + back;
  }

  // ---------------------------------------------------------------- whatever the timer picks

  /** A game of at most so many rounds against the timer, which picks any outstanding record in every round: the flow
      is done, or whatever the timer picks, the round can go on without another timeout to a state in which the same
      holds with one round less. */
  ghost predicate Recovers(s: Sys, rounds: nat)
    decreases rounds, 0
  {
    s.src.done || (rounds > 0 && s.src.tx != map[] && forall k :: k in s.src.tx ==> CanFollow(s, k, rounds - 1))
  }

  ghost predicate CanFollow(s: Sys, k: nat, rounds: nat)
    decreases rounds, 1
  {
    exists run :: OneTimeout(run, k) && CanRun(s, run) && Recovers(Run(s, run), rounds)
  }

  lemma {:induction false} AnyTimerRecovers(s: Sys, c: nat, rounds: nat)
    requires Waiting(s) && Anchor(s.src, s.sink, c) && |s.src.tx| <= rounds
    requires s.src.highest + 63 <= s.sink.expected + K.WINDOW
    ensures Recovers(s, rounds)
    decreases rounds
  {
    if !s.src.done {
      assert Held(s.src, c);
      forall k | k in s.src.tx ensures CanFollow(s, k, rounds - 1) {
        var run := Round(s, k);
        var t := Run(s, run);
        FewerRecords(t.src.tx, s.src.tx, k);
        AnyTimerRecovers(t, t.sink.expected, rounds - 1);
      }
    }
  }

  /** If the numbers handed out fit the window, no choice of the timer can hinder it: with everything sent, and
      whatever messages are left, the flow is done after at most one timeout per outstanding record, whichever
      records they are of. */
  lemma AnyTimer(flowSize: nat, mss: nat, run: seq<Action>, net: set<Msg>)
    requires 0 < mss && 0 < flowSize && CanRun(Start(flowSize, mss), run) && net <= Run(Start(flowSize, mss), run).net
    requires var s := Run(Start(flowSize, mss), run);
      s.src.unsent == 0 && s.src.rtx == map[] && s.src.highest + 63 <= s.sink.expected + K.WINDOW
    ensures var s := Run(Start(flowSize, mss), run).(net := net); Recovers(s, |s.src.tx|)
  {
    var c := RunHasAnchor(flowSize, mss, run);
    var s := Run(Start(flowSize, mss), run).(net := net);
    assert Inv(s);
    AnyTimerRecovers(s, c, |s.src.tx|);
  }

  /** Only number `k` is under way, and the window keeps it from the sink. */
  ghost predicate Starved(s: Sys, k: nat)
  {
    && Waiting(s) && !s.src.done && k in s.src.tx && s.sink.expected + K.WINDOW <= k
    && forall m :: m in s.net ==> (m.Data? && m.seqno == k) || (m.Trimmed? && m.trimmedSeqno == k)
  }

  /** Without a timeout all that can happen is that the packet is trimmed. */
  lemma {:induction false} StarvedStays(s: Sys, k: nat, run: seq<Action>)
    requires Starved(s, k) && CanRun(s, run) && forall a :: a in run ==> !a.Timeout? && !a.Send?
    ensures Starved(Run(s, run), k)
    decreases |run|
  {
    if run != [] {
      assert run[0] in run;
      assert run[0].Trim?;
      StepInv(s, run[0]);
      StarvedStays(Apply(s, run[0]), k, run[1..]);
    }
  }

  lemma StarvedRound(s: Sys, k: nat, run: seq<Action>)
    requires Starved(s, k) && OneTimeout(run, k) && CanRun(s, run)
    ensures Starved(Run(s, run), k)
  {
    var m := Resent(s, k);
    StarvedStays(Apply(s, run[0]), k, run[1..]);
  }

  lemma {:induction false} NeverRecovers(s: Sys, k: nat, rounds: nat)
    requires Starved(s, k)
    ensures !Recovers(s, rounds)
    decreases rounds
  {
    if Recovers(s, rounds) {
      assert CanFollow(s, k, rounds - 1);
      var run :| OneTimeout(run, k) && CanRun(s, run) && Recovers(Run(s, run), rounds - 1);
      StarvedRound(s, k, run);
      NeverRecovers(Run(s, run), k, rounds - 1);
    }
  }

  /** The window is needed for that: if more than a window of one-byte packets are sent and all of them are lost, a
      timer that always picks packet 4096 hinders recovery for ever. */
  lemma TimerCanStarve(flowSize: nat) returns (run: seq<Action>)
    requires K.WINDOW < flowSize
    ensures CanRun(Start(flowSize, 1), run)
    ensures var s := Run(Start(flowSize, 1), run);
      s.src.unsent == 0 && s.src.rtx == map[] && forall rounds: nat :: !Recovers(s.(net := {}), rounds)
  {
    var s0 := Start(flowSize, 1);
    StartInv(flowSize, 1);
    run := Drain(s0, 0);
    RunFlow(s0, run);
    var s := Run(s0, run).(net := {});
    UnitChunks(flowSize);
    assert s.src.highest >= flowSize && s.sink.received == {};
    assert Held(s.src, K.WINDOW);
    forall rounds: nat ensures !Recovers(s, rounds) { NeverRecovers(s, K.WINDOW, rounds); }
  }

  // ---------------------------------------------------------------- the empty flow

  /** A flow of no bytes: nothing to send, nothing sent, not done. */
  ghost predicate Silent(s: Sys)
  {
    s.net == {} && s.src.tx == map[] && s.src.rtx == map[] && s.src.unsent == 0 && !s.src.done
  }

  lemma {:induction false} SilentStays(s: Sys, run: seq<Action>)
    requires Silent(s) && CanRun(s, run)
    ensures Silent(Run(s, run))
    decreases |run|
  {
    if run != [] {
      assert run[0].Send?;
      assert Apply(s, run[0]).net == {};
      SilentStays(Apply(s, run[0]), run[1..]);
    }
  }

  /** A flow can finish if and only if it is not empty: no run of an empty flow is ever done. */
  lemma FinishableIff(flowSize: nat, mss: nat)
    requires 0 < mss
    ensures (exists run :: CanRun(Start(flowSize, mss), run) && Run(Start(flowSize, mss), run).src.done)
        <==> 0 < flowSize
  {
    if flowSize == 0 {
      forall run | CanRun(Start(0, mss), run) ensures !Run(Start(0, mss), run).src.done {
        SilentStays(Start(0, mss), run);
      }
    } else {
      assert Run(Start(flowSize, mss), []).(net := {}) == Start(flowSize, mss);
      var run := RecoversFromLoss(flowSize, mss, [], {});
    }
  }
}
