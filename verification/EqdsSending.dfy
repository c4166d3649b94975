/** What the sender may send and when (sim/eqds.cpp:694-756, 843-957, 1058-1127), on the messages themselves:
    retransmissions first and in order, never idle with leave to send, full packets, and which of them ask for an
    ACK. */
module EqdsSending {
  import opened EqdsMessages
  import opened EqdsSource
  import opened EqdsSystem
  import opened OrderedMaps
  import K = EqdsSink

  /** What a step puts on the network. */
  ghost function Sent(s: Sys, a: Action): seq<Msg>
    requires Enabled(s, a)
  {
    match a
    case Send(ar) => SendIfPermitted(s.src, true, ar).out
    case Timeout(k, c, ar) => TimerExpired(s.src, k, c, ar).out
    case GetAck(m, p, ar) => ProcessAck(s.src, m.cum, m.ref, m.bitmap, p, ar).out
    case GetNack(m, p1, p2, ar) => ProcessNack(s.src, m.nackedSeqno, p1, p2, ar).out
    case Trim(m) => [Trimmed(m.seqno)]
    case GetData(m, ecn) => K.ProcessData(s.sink, m.seqno, m.size, m.ar, ecn).out
    case GetTrimmed(m) => K.ProcessTrimmed(s.sink, m.trimmedSeqno).out
    case GetRts(m) => K.ProcessRts(s.sink, m.rtsSeqno).out
  }

  lemma SentIsAdded(s: Sys, a: Action)
    requires Enabled(s, a)
    ensures Apply(s, a).net == s.net + Elements(Sent(s, a))
  {
    if a.Trim? { assert Elements(Sent(s, a)) == {Trimmed(a.msg.seqno)}; }
  }

  // ---------------------------------------------------------------- one operation of the sender

  /** What an operation that starts from `s` may send: data goes out in the order of the numbers, so whatever stays
      queued has a larger one; and only a full packet that has not been sent before goes out without asking for an
      ACK. */
  ghost predicate Proper(s: SrcState, o: Outcome, m: Msg)
  {
    m.Data? ==>
      && m.seqno < o.src.highest
      && (forall j :: j in o.src.rtx ==> m.seqno < j)
      && (!m.ar ==> m.seqno >= s.highest && m.size == s.mss + HDR)
  }

  ghost predicate Orderly(s: SrcState, o: Outcome)
  {
    && (forall m :: m in o.out ==> Proper(s, o, m))
    && s.highest <= o.src.highest && o.src.mss == s.mss && o.src.rtx.Keys <= s.rtx.Keys
    && s.newSent <= o.src.newSent && (o.src.newSent > s.newSent ==> o.src.rtx == map[])
  }

  lemma SendOrderly(s: SrcState, permit: bool, ar: bool)
    requires SrcInv(s)
    ensures Orderly(s, SendIfPermitted(s, permit, ar))
  {
    if permit && s.rtx == map[] && s.unsent > 0 { SendNewAsserts(s); }
  }

  lemma RtxOrderly(s: SrcState)
    requires SrcInv(s) && s.rtx != map[]
    ensures Orderly(s, SendRtx(s))
  {
  }

  lemma ThenOrderly(s: SrcState, a: Outcome, b: Outcome)
    requires Orderly(s, a) && Orderly(a.src, b)
    ensures Orderly(s, Then(a, b))
  {
    forall m | m in a.out + b.out ensures Proper(s, Then(a, b), m) {
      if m in a.out { assert Proper(s, a, m); } else { assert Proper(a.src, b, m); }
    }
  }

  /** The state a record has been moved to the retransmit queue in. */
  function Queued(s: SrcState, k: nat, back: nat): SrcState
    requires k in s.tx
  {
    var f := Forget(s, k, back);
    f.(rtx := f.rtx[k := s.tx[k]])
  }

  lemma NackOrderly(s: SrcState, k: nat, p1: bool, p2: bool, ar: bool)
    requires SrcInv(s) && k in s.tx
    ensures Orderly(Queued(s, k, s.tx[k]), ProcessNack(s, k, p1, p2, ar))
  {
    var q := Queued(s, k, s.tx[k]);
    ForgetInv(s, k, s.tx[k]);
    QueuedInv(Forget(s, k, s.tx[k]), k, s.tx[k]);
    SendOrderly(q, p1, ar);
    var first := SendIfPermitted(q, p1, ar);
    SendIfPermittedInv(q, p1, ar);
    SendOrderly(first.src, p2, ar);
    ThenOrderly(q, first, SendIfPermitted(first.src, p2, ar));
  }

  lemma RtsOrderly(s: SrcState)
    requires SrcInv(s)
    ensures Orderly(s, SendRts(s))
  {
  }

  /** What a timeout may send after the packet has been queued and leave been used. */
  function TimerAfter(s: SrcState, c: TimerChoice, first: SrcState): Outcome
    requires s.rtx == map[] && c.credit && c.nicFree && !c.permit ==> first.rtx != map[]
  {
    if s.rtx != map[] || !c.credit then (if c.rtsDue then SendRts(first) else Outcome(first, []))
    else if c.nicFree && !c.permit then SendRtx(first)
    else Outcome(first, [])
  }

  lemma TimerIs(s: SrcState, k: nat, c: TimerChoice, ar: bool)
    requires SrcInv(s) && k in s.tx
    ensures var q := Queued(s, k, 0); var first := SendIfPermitted(q, c.permit, ar);
      && SrcInv(q) && SrcInv(first.src) && (!c.permit ==> first.src.rtx != map[])
      && TimerExpired(s, k, c, ar) == Then(first, TimerAfter(s, c, first.src))
  {
    var q := Queued(s, k, 0);
    ForgetInv(s, k, 0);
    QueuedInv(Forget(s, k, 0), k, s.tx[k]);
    SendIfPermittedInv(q, c.permit, ar);
    assert !c.permit ==> k in SendIfPermitted(q, c.permit, ar).src.rtx;
  }

  lemma AfterOrderly(s: SrcState, c: TimerChoice, first: SrcState)
    requires SrcInv(first) && (!c.permit ==> first.rtx != map[])
    ensures Orderly(first, TimerAfter(s, c, first))
  {
    if first.rtx != map[] { RtxOrderly(first); }
    RtsOrderly(first);
  }

  lemma TimerOrderly(s: SrcState, k: nat, c: TimerChoice, ar: bool)
    requires SrcInv(s) && k in s.tx
    ensures Orderly(Queued(s, k, 0), TimerExpired(s, k, c, ar))
  {
    var q := Queued(s, k, 0);
    TimerIs(s, k, c, ar);
    var first := SendIfPermitted(q, c.permit, ar);
    SendOrderly(q, c.permit, ar);
    AfterOrderly(s, c, first.src);
    ThenOrderly(q, first, TimerAfter(s, c, first.src));
  }

  /** What a step of the sender starts sending from: the ACK is processed, or the record queued, before. */
  ghost function Before(s: Sys, a: Action): SrcState
    requires Enabled(s, a)
  {
    match a
    case Timeout(k, _, _) => Queued(s.src, k, 0)
    case GetAck(m, _, _) => Acked(s.src, m.cum, m.ref, m.bitmap)
    case GetNack(m, _, _, _) => Queued(s.src, m.nackedSeqno, s.src.tx[m.nackedSeqno])
    case _ => s.src
  }

  lemma BeforeInv(s: Sys, a: Action)
    requires Inv(s) && Enabled(s, a)
    ensures SrcInv(Before(s, a)) && Before(s, a).highest == s.src.highest && Before(s, a).mss == s.src.mss
    ensures Before(s, a).newSent == s.src.newSent && Before(s, a).unsent == s.src.unsent
  {
    match a
    case Timeout(k, _, _) =>
      ForgetInv(s.src, k, 0);
      QueuedInv(Forget(s.src, k, 0), k, s.src.tx[k]);
    case GetAck(m, _, _) =>
      ExpectedAssigned(s);
      AckedInv(s.src, m.cum, m.ref, m.bitmap);
      HandleSackFrame(HandleCumulativeAck(s.src, m.cum), m.ref, m.bitmap);
    case GetNack(m, _, _, _) =>
      ForgetInv(s.src, m.nackedSeqno, s.src.tx[m.nackedSeqno]);
      QueuedInv(Forget(s.src, m.nackedSeqno, s.src.tx[m.nackedSeqno]), m.nackedSeqno, s.src.tx[m.nackedSeqno]);
    case _ =>
  }

  ghost predicate OfSender(a: Action) { a.Send? || a.Timeout? || a.GetAck? || a.GetNack? }

  lemma StepOrderly(s: Sys, a: Action)
    requires Inv(s) && Enabled(s, a) && OfSender(a)
    ensures Orderly(Before(s, a), Outcome(Apply(s, a).src, Sent(s, a)))
  {
    BeforeInv(s, a);
    match a
    case Send(ar) => SendOrderly(s.src, true, ar);
    case Timeout(k, c, ar) => TimerOrderly(s.src, k, c, ar);
    case GetAck(m, p, ar) => SendOrderly(Before(s, a), p, ar);
    case GetNack(m, p1, p2, ar) => NackOrderly(s.src, m.nackedSeqno, p1, p2, ar);
  }

  lemma SinkSendsNoData(s: Sys, a: Action, m: Msg)
    requires Enabled(s, a) && !OfSender(a) && m in Sent(s, a)
    ensures !m.Data? && !m.Rts?
  {
  }

  // ---------------------------------------------------------------- retransmissions first

  /** In every run, whatever is done next: when data goes out, everything still queued for retransmission has a
      larger number; so new data goes out only when nothing is queued. Only a full packet that was not sent before
      goes out without asking for an ACK. */
  lemma RetransmissionsFirst(flowSize: nat, mss: nat, run: seq<Action>, a: Action, m: Msg)
    requires 0 < mss && CanRun(Start(flowSize, mss), run) && Enabled(Run(Start(flowSize, mss), run), a)
    requires m in Sent(Run(Start(flowSize, mss), run), a) && m.Data?
    ensures var s := Run(Start(flowSize, mss), run); var t := Apply(s, a).src;
      && (forall j :: j in t.rtx ==> m.seqno < j)
      && (m.seqno >= s.src.highest ==> t.rtx == map[])
      && (!m.ar ==> m.seqno >= s.src.highest && m.size == mss + HDR)
  {
    StartInv(flowSize, mss);
    RunInv(Start(flowSize, mss), run);
    RunFlow(Start(flowSize, mss), run);
    var s := Run(Start(flowSize, mss), run);
    if OfSender(a) {
      BeforeInv(s, a);
      StepOrderly(s, a);
      assert Proper(Before(s, a), Outcome(Apply(s, a).src, Sent(s, a)), m);
      assert forall j :: j in Apply(s, a).src.rtx ==> j in Before(s, a).rtx;
    } else {
      SinkSendsNoData(s, a, m);
    }
  }

  /** The same on the counter of new packets, for any step. */
  lemma NewDataWaits(flowSize: nat, mss: nat, run: seq<Action>, a: Action)
    requires 0 < mss && CanRun(Start(flowSize, mss), run) && Enabled(Run(Start(flowSize, mss), run), a)
    ensures var s := Run(Start(flowSize, mss), run);
      Apply(s, a).src.newSent > s.src.newSent ==> Apply(s, a).src.rtx == map[]
  {
    StartInv(flowSize, mss);
    RunInv(Start(flowSize, mss), run);
    var s := Run(Start(flowSize, mss), run);
    if OfSender(a) {
      BeforeInv(s, a);
      StepOrderly(s, a);
    }
  }

  /** A turn to send, with packets queued for retransmission, sends the one with the least number and no other. */
  lemma LeastIsSent(s: Sys, ar: bool) returns (k: nat)
    requires Inv(s) && s.src.rtx != map[]
    ensures k in s.src.rtx && forall j :: j in s.src.rtx ==> k <= j
    ensures Sent(s, Send(ar)) == [Data(k, s.src.rtx[k], true)] && Apply(s, Send(ar)).src.rtx == s.src.rtx - {k}
  {
    k := Least(s.src.rtx.Keys);
  }

  // ---------------------------------------------------------------- leave to send is used

  /** How many packets credit and the NIC allow in a step. */
  function Leave(a: Action): nat
  {
    match a
    case Send(_) => 1
    case Timeout(_, c, _) => if c.permit || (c.credit && c.nicFree) then 1 else 0
    case GetAck(_, p, _) => if p then 1 else 0
    case GetNack(_, p1, p2, _) => (if p1 then 1 else 0) + if p2 then 1 else 0
    case _ => 0
  }

  function DataIn(out: seq<Msg>): nat { if out == [] then 0 else (if out[0].Data? then 1 else 0) + DataIn(out[1..]) }

  lemma {:induction false} DataInThen(a: seq<Msg>, b: seq<Msg>)
    ensures DataIn(a + b) == DataIn(a) + DataIn(b)
  {
    if a == [] {
      assert a + b == b;
    } else {
      assert (a + b)[1..] == a[1..] + b;
      DataInThen(a[1..], b);
    }
  }

  lemma DataInOne(m: Msg)
    ensures DataIn([m]) == if m.Data? then 1 else 0
  {
    assert [m][1..] == [];
  }

  predicate Waiting(s: SrcState) { s.rtx != map[] || s.unsent > 0 }

  lemma OneSend(s: SrcState, permit: bool, ar: bool)
    requires SrcInv(s)
    ensures DataIn(SendIfPermitted(s, permit, ar).out) == if permit && Waiting(s) then 1 else 0
  {
    var o := SendIfPermitted(s, permit, ar);
    if o.out != [] { DataInOne(o.out[0]); }
  }

  lemma TwoSends(q: SrcState, p1: bool, p2: bool, ar: bool)
    requires SrcInv(q) && Waiting(q)
    ensures var first := SendIfPermitted(q, p1, ar); var second := SendIfPermitted(first.src, p2, ar);
      && 1 <= DataIn(Then(first, second).out) + (if p1 || p2 then 0 else 1)
      && DataIn(Then(first, second).out) <= (if p1 then 1 else 0) + if p2 then 1 else 0
  {
    var first := SendIfPermitted(q, p1, ar);
    SendIfPermittedInv(q, p1, ar);
    OneSend(q, p1, ar);
    OneSend(first.src, p2, ar);
    DataInThen(first.out, SendIfPermitted(first.src, p2, ar).out);
  }

  lemma TimerSends(s: SrcState, k: nat, c: TimerChoice, ar: bool)
    requires SrcInv(s) && k in s.tx
    ensures DataIn(TimerExpired(s, k, c, ar).out)
         == if c.permit || (s.rtx == map[] && c.credit && c.nicFree) then 1 else 0
  {
    var q := Queued(s, k, 0);
    ForgetInv(s, k, 0);
    QueuedInv(Forget(s, k, 0), k, s.tx[k]);
    OneSend(q, c.permit, ar);
    var first := SendIfPermitted(q, c.permit, ar);
    if s.rtx != map[] || !c.credit {
      DataInOne(Rts(first.src.highest));
      DataInThen(first.out, if c.rtsDue then SendRts(first.src).out else []);
    } else if c.nicFree && !c.permit {
      DataInOne(SendRtx(first.src).out[0]);
      DataInThen(first.out, SendRtx(first.src).out);
    } else {
      DataInThen(first.out, []);
    }
  }

  /** Credit is never idle and never overdrawn: a step sends at most as many packets as it has leave for, and with
      leave it sends one unless nothing waits to be sent (while a timeout is handled, leave by the NIC alone is used
      only if nothing else is queued). */
  lemma LeaveIsUsed(s: Sys, a: Action)
    requires Inv(s) && Enabled(s, a) && OfSender(a)
    ensures DataIn(Sent(s, a)) <= Leave(a)
    ensures DataIn(Sent(s, a)) == 0 ==>
      || Leave(a) == 0 || !Waiting(Before(s, a)) || (a.Timeout? && !a.choice.permit && s.src.rtx != map[])
  {
    BeforeInv(s, a);
    match a
    case Send(ar) => OneSend(s.src, true, ar);
    case Timeout(k, c, ar) => TimerSends(s.src, k, c, ar);
    case GetAck(m, p, ar) => OneSend(Before(s, a), p, ar);
    case GetNack(m, p1, p2, ar) => TwoSends(Before(s, a), p1, p2, ar);
  }

  /** A timeout with nothing else queued, credit, and leave to send puts that very packet on the network again. An RTS
      goes out exactly if the packet had to wait, for others or for credit, and the RTS limit allows it. */
  lemma TimeoutAnswers(s: Sys, a: Action)
    requires Inv(s) && Enabled(s, a) && a.Timeout?
    ensures s.src.rtx == map[] && a.choice.credit && (a.choice.permit || a.choice.nicFree) ==>
      Sent(s, a) == [Data(a.seqno, s.src.tx[a.seqno], true)] && a.seqno in Apply(s, a).src.tx
    ensures Rts(s.src.highest) in Sent(s, a) <==> a.choice.rtsDue && (s.src.rtx != map[] || !a.choice.credit)
  {
    var q := Queued(s.src, a.seqno, 0);
    if s.src.rtx == map[] { assert q.rtx.Keys == {a.seqno}; }
  }

  /** What an ACK releases, exactly: of the outstanding records those below its cumulative number and those it marks,
      of the queued packets those below its cumulative number. */
  lemma AckReleases(s: Sys, a: Action, k: nat)
    requires Inv(s) && Enabled(s, a) && a.GetAck?
    ensures k in Before(s, a).tx <==> k in s.src.tx && a.msg.cum <= k && !Claims(a.msg, k)
    ensures k in Before(s, a).rtx <==> k in s.src.rtx && a.msg.cum <= k
    ensures Held(Apply(s, a).src, k) ==> a.msg.cum <= k
  {
    var c := HandleCumulativeAck(s.src, a.msg.cum);
    SackRemovesMarked(c, a.msg.ref, a.msg.bitmap, k);
    HandleSackFrame(c, a.msg.ref, a.msg.bitmap);
    if k >= s.src.highest { ExpectedAssigned(s); }
  }

  // ---------------------------------------------------------------- the size of packets

  /** Every new packet was full, except the last of the flow; and that one asked for an ACK. */
  ghost predicate FullPackets(src: SrcState, net: set<Msg>)
  {
    && (forall k: nat :: k < |src.log| && src.log[k].NewData? && src.log[k].payload != src.mss ==>
          src.unsent == 0 && LastData(src.log, k))
    && (src.unsent == 0 && src.flowSize > 0 ==>
          exists k: nat :: LastData(src.log, k) && Data(k, SizeOf(src.log[k]), true) in net)
  }

  ghost predicate LastData(log: seq<Assigned>, k: nat)
  {
    k < |log| && log[k].NewData? && forall j :: k < j < |log| ==> log[j].Request?
  }

  lemma LogKeptPacked(s: SrcState, t: SrcState, net: set<Msg>, more: set<Msg>)
    requires FullPackets(s, net)
    requires t.log == s.log && t.mss == s.mss && t.unsent == s.unsent && t.flowSize == s.flowSize
    ensures FullPackets(t, net + more)
  {
    if t.unsent == 0 && t.flowSize > 0 {
      var k: nat :| LastData(s.log, k) && Data(k, SizeOf(s.log[k]), true) in net;
      assert LastData(t.log, k) && Data(k, SizeOf(t.log[k]), true) in net + more;
    }
  }

  lemma NewPacked(s: SrcState, ar: bool, net: set<Msg>)
    requires SrcInv(s) && s.unsent > 0 && FullPackets(s, net)
    ensures FullPackets(SendNew(s, ar).src, net + Elements(SendNew(s, ar).out))
  {
    var o, n := SendNew(s, ar), s.highest;
    SendNewInv(s, ar);
    assert o.out[0] in Elements(o.out);
    assert forall k: nat :: k < n ==> o.src.log[k] == s.log[k];
    assert LastData(o.src.log, n);
  }

  lemma SendPacked(s: SrcState, permit: bool, ar: bool, net: set<Msg>)
    requires SrcInv(s) && FullPackets(s, net)
    ensures FullPackets(SendIfPermitted(s, permit, ar).src, net + Elements(SendIfPermitted(s, permit, ar).out))
  {
    var o := SendIfPermitted(s, permit, ar);
    if permit && s.rtx == map[] && s.unsent > 0 {
      NewPacked(s, ar, net);
    } else {
      LogKeptPacked(s, o.src, net, Elements(o.out));
    }
  }

  lemma RtsPacked(s: SrcState, net: set<Msg>)
    requires SrcInv(s) && FullPackets(s, net)
    ensures FullPackets(SendRts(s).src, net + Elements(SendRts(s).out))
  {
    var o, n := SendRts(s), s.highest;
    assert forall k: nat :: k < n ==> o.src.log[k] == s.log[k];
    forall k: nat | LastData(s.log, k) ensures LastData(o.src.log, k) {
      forall j | k < j < |o.src.log| ensures o.src.log[j].Request? { if j < n { assert s.log[j].Request?; } }
    }
    if s.unsent == 0 && s.flowSize > 0 {
      var k: nat :| LastData(s.log, k) && Data(k, SizeOf(s.log[k]), true) in net;
      assert LastData(o.src.log, k) && Data(k, SizeOf(o.src.log[k]), true) in net + Elements(o.out);
    }
  }

  lemma ThenElements(a: Outcome, b: Outcome, net: set<Msg>)
    ensures net + Elements(a.out) + Elements(b.out) == net + Elements(Then(a, b).out)
  {
  }

  lemma TimerPacked(s: SrcState, k: nat, c: TimerChoice, ar: bool, net: set<Msg>)
    requires SrcInv(s) && k in s.tx && FullPackets(s, net)
    ensures FullPackets(TimerExpired(s, k, c, ar).src, net + Elements(TimerExpired(s, k, c, ar).out))
  {
    var q := Queued(s, k, 0);
    ForgetInv(s, k, 0);
    QueuedInv(Forget(s, k, 0), k, s.tx[k]);
    LogKeptPacked(s, q, net, {});
    assert net + {} == net;
    SendPacked(q, c.permit, ar, net);
    var first := SendIfPermitted(q, c.permit, ar);
    SendIfPermittedInv(q, c.permit, ar);
    var grown := net + Elements(first.out);
    if s.rtx != map[] || !c.credit {
      if c.rtsDue {
        RtsPacked(first.src, grown);
        ThenElements(first, SendRts(first.src), net);
      }
    } else if c.nicFree && !c.permit {
      LogKeptPacked(first.src, SendRtx(first.src).src, grown, Elements(SendRtx(first.src).out));
      ThenElements(first, SendRtx(first.src), net);
    }
  }

  lemma NackPacked(s: SrcState, k: nat, p1: bool, p2: bool, ar: bool, net: set<Msg>)
    requires SrcInv(s) && k in s.tx && FullPackets(s, net)
    ensures FullPackets(ProcessNack(s, k, p1, p2, ar).src, net + Elements(ProcessNack(s, k, p1, p2, ar).out))
  {
    var q := Queued(s, k, s.tx[k]);
    ForgetInv(s, k, s.tx[k]);
    QueuedInv(Forget(s, k, s.tx[k]), k, s.tx[k]);
    LogKeptPacked(s, q, net, {});
    assert net + {} == net;
    SendPacked(q, p1, ar, net);
    var first := SendIfPermitted(q, p1, ar);
    SendIfPermittedInv(q, p1, ar);
    SendPacked(first.src, p2, ar, net + Elements(first.out));
    ThenElements(first, SendIfPermitted(first.src, p2, ar), net);
  }

  lemma StepPacked(s: Sys, a: Action)
    requires Inv(s) && Enabled(s, a) && FullPackets(s.src, s.net)
    ensures FullPackets(Apply(s, a).src, Apply(s, a).net)
  {
    BeforeInv(s, a);
    match a
    case Send(ar) => SendPacked(s.src, true, ar, s.net);
    case Timeout(k, c, ar) => TimerPacked(s.src, k, c, ar, s.net);
    case GetAck(m, p, ar) =>
      var t := Before(s, a);
      HandleSackFrame(HandleCumulativeAck(s.src, m.cum), m.ref, m.bitmap);
      LogKeptPacked(s.src, t, s.net, {});
      assert s.net + {} == s.net;
      SendPacked(t, p, ar, s.net);
    case GetNack(m, p1, p2, ar) => NackPacked(s.src, m.nackedSeqno, p1, p2, ar, s.net);
    case _ => LogKeptPacked(s.src, s.src, s.net, Elements(Sent(s, a))); SentIsAdded(s, a);
  }

  lemma {:induction false} RunPacked(s: Sys, run: seq<Action>)
    requires Inv(s) && CanRun(s, run) && FullPackets(s.src, s.net)
    ensures FullPackets(Run(s, run).src, Run(s, run).net)
    decreases |run|
  {
    if run != [] {
      StepInv(s, run[0]);
      StepPacked(s, run[0]);
      RunPacked(Apply(s, run[0]), run[1..]);
    }
  }

  /** In every run each new packet carries `mss` bytes, except the last of the flow, which carries what is left; and
      the last was sent with an ACK request. */
  lemma PacketsAreFull(flowSize: nat, mss: nat, run: seq<Action>)
    requires 0 < mss && CanRun(Start(flowSize, mss), run)
    ensures FullPackets(Run(Start(flowSize, mss), run).src, Run(Start(flowSize, mss), run).net)
  {
    StartInv(flowSize, mss);
    RunPacked(Start(flowSize, mss), run);
  }
}
