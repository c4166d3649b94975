/** What a false SACK does to the flow (sim/eqds.cpp:482-519, 1206-1293): the sender releases a packet that never
    arrived, and if the network then loses what is left, nothing sends it again. */
module EqdsStranded {
  import opened EqdsMessages
  import opened EqdsSource
  import opened EqdsSystem
  import opened EqdsWindow
  import opened SackWord

  const GONE: nat := 4097    // the packet that is acknowledged for another one in its slot, that of 1
  const ALIAS: nat := 8193   // the next number in that slot

  /** The message does not bring GONE, and no ACK covers it. */
  ghost predicate Harmless(m: Msg, highest: nat)
  {
    match m
    case Data(k, _, _) => k != GONE && k < highest
    case Trimmed(k) => k != GONE && k < highest
    case Rts(k) => k != GONE && k < highest
    case Ack(cum, _, _) => cum <= GONE
    case Nack(k) => k != GONE && k < highest
  }

  /** The expected number has not passed GONE; once it has passed 1, no slot set before stands in for GONE. */
  ghost predicate Short(w: Window)
  {
    w.expected <= GONE && (1 < w.expected ==> 1 !in w.slots)
  }

  /** GONE is neither outstanding nor queued, nothing under way brings it, and the sink does not have it. */
  ghost predicate Stranded(s: RawSys)
  {
    && SrcInv(s.src) && !s.src.done && GONE < s.src.highest
    && GONE !in s.src.tx && GONE !in s.src.rtx
    && (forall m :: m in s.net ==> Harmless(m, s.src.highest))
    && Short(s.raw.window)
  }

  // ---------------------------------------------------------------- the sink

  /** Moving past set slots stops at GONE: its slot is cleared when 1 is passed. */
  lemma {:induction false} AdvanceStops(slots: set<nat>, k: nat)
    requires k <= GONE && (1 < k ==> 1 !in slots)
    ensures Short(Advance(slots, k))
    decreases |slots|
  {
    if Slot(k) in slots {
      assert Slot(GONE) == 1;
      AdvanceStops(slots - {Slot(k)}, k + 1);
    }
  }

  lemma ReceiveShort(w: Window, e: nat)
    requires Short(w) && e != GONE && e < ALIAS
    ensures Short(Receive(w, e))
  {
    if !Known(w, e) {
      if e == w.expected { AdvanceStops(w.slots, e + 1); }
      else { assert Slot(e) == 1 ==> e == 1; }
    }
  }

  /** Whatever the sink answers, its ACK gives an expected number up to GONE. */
  ghost predicate ShortOutcome(o: RawOutcome, highest: nat)
  {
    Short(o.raw.window) && forall m :: m in o.out ==> Harmless(m, highest)
  }

  lemma DataShort(r: Raw, e: nat, size: nat, ar: bool, ecn: bool, highest: nat)
    requires Short(r.window) && e != GONE && e < ALIAS
    ensures ShortOutcome(RawData(r, e, size, ar, ecn), highest)
  {
    ReceiveShort(r.window, e);
  }

  lemma RtsShort(r: Raw, e: nat, highest: nat)
    requires Short(r.window) && e != GONE && e < ALIAS
    ensures ShortOutcome(RawRts(r, e), highest)
  {
    ReceiveShort(r.window, e);
  }

  // ---------------------------------------------------------------- the sender

  /** What a step of the sender may do: it sends only what it holds, and never gets GONE back. */
  ghost predicate Keeps(s: SrcState, o: Outcome)
  {
    && SrcInv(o.src) && o.src.done == s.done && s.highest <= o.src.highest
    && GONE !in o.src.tx && GONE !in o.src.rtx
    && forall m :: m in o.out ==> Harmless(m, o.src.highest)
  }

  ghost predicate Rid(s: SrcState) { SrcInv(s) && GONE < s.highest && GONE !in s.tx && GONE !in s.rtx }

  lemma SendKeeps(s: SrcState, permit: bool, ar: bool)
    requires Rid(s)
    ensures Keeps(s, SendIfPermitted(s, permit, ar))
  {
    SendIfPermittedInv(s, permit, ar);
  }

  lemma ThenKeeps(s: SrcState, a: Outcome, b: Outcome)
    requires Keeps(s, a) && Keeps(a.src, b)
    ensures Keeps(s, Then(a, b))
  {
  }

  lemma RtsKeeps(s: SrcState)
    requires Rid(s) && SrcInv(SendRts(s).src)
    ensures Keeps(s, SendRts(s))
  {
  }

  lemma RtxKeeps(s: SrcState)
    requires Rid(s) && s.rtx != map[]
    ensures Keeps(s, SendRtx(s))
  {
    SendRtxInv(s);
  }

  lemma RequeueKeeps(s: SrcState, k: nat, size: nat, permit: bool, ar: bool)
    requires Rid(s) && !s.done && k != GONE
    requires k < s.highest && k !in s.tx && k !in s.rtx && size == SizeOf(s.log[k])
    ensures Keeps(s, QueueForRtx(s, k, size, permit, ar))
  {
    QueuedInv(s, k, size);
    SendKeeps(s.(rtx := s.rtx[k := size]), permit, ar);
  }

  lemma NackKeeps(s: SrcState, k: nat, p1: bool, p2: bool, ar: bool)
    requires Rid(s) && k in s.tx
    ensures Keeps(s, ProcessNack(s, k, p1, p2, ar))
  {
    var size := s.tx[k];
    var f := Forget(s, k, size);
    ForgetInv(s, k, size);
    RequeueKeeps(f, k, size, p1, ar);
    var first := QueueForRtx(f, k, size, p1, ar);
    SendKeeps(first.src, p2, ar);
    ThenKeeps(s, first, SendIfPermitted(first.src, p2, ar));
  }

  lemma TimerKeeps(s: SrcState, k: nat, c: TimerChoice, ar: bool)
    requires Rid(s) && k in s.tx
    ensures Keeps(s, TimerExpired(s, k, c, ar))
  {
    var f := Forget(s, k, 0);
    ForgetInv(s, k, 0);
    RequeueKeeps(f, k, s.tx[k], c.permit, ar);
    var first := QueueForRtx(f, k, s.tx[k], c.permit, ar);
    TimerQueuedInv(s, k, c.permit, ar);
    TimerLeavesInv(first.src);
    if s.rtx != map[] || !c.credit {
      if c.rtsDue {
        RtsKeeps(first.src);
        ThenKeeps(s, first, SendRts(first.src));
      }
    } else if c.nicFree && !c.permit {
      assert k in first.src.rtx;
      RtxKeeps(first.src);
      ThenKeeps(s, first, SendRtx(first.src));
    }
  }

  /** An ACK up to GONE does not finish the flow. */
  lemma AckKeeps(s: SrcState, m: Msg, permit: bool, ar: bool)
    requires Rid(s) && !s.done && m.Ack? && m.cum <= GONE
    ensures Keeps(s, ProcessAck(s, m.cum, m.ref, m.bitmap, permit, ar))
  {
    var a := HandleCumulativeAck(s, m.cum);
    HandleCumulativeAckInv(s, m.cum);
    HandleSackInv(a, m.ref, m.bitmap);
    HandleSackFrame(a, m.ref, m.bitmap);
    var b := HandleSack(a, m.ref, m.bitmap);
    FinishTestIff(b, m.cum);
    assert Acked(s, m.cum, m.ref, m.bitmap) == b;
    SendKeeps(b, permit, ar);
  }

  // ---------------------------------------------------------------- runs

  lemma SourceStranded(s: RawSys, o: Outcome)
    requires Stranded(s) && Keeps(s.src, o)
    ensures Stranded(RawWithSource(s, o))
  {
  }

  lemma SinkStranded(s: RawSys, o: RawOutcome)
    requires Stranded(s) && ShortOutcome(o, s.src.highest)
    ensures Stranded(RawWithSink(s, o))
  {
  }

  lemma SourceStep(s: RawSys, a: Action)
    requires Stranded(s) && RawEnabled(s, a) && (a.Send? || a.Timeout? || a.GetAck? || a.GetNack?)
    ensures Stranded(RawApply(s, a))
  {
    match a
    case Send(ar) =>
      SendKeeps(s.src, true, ar);
      SourceStranded(s, SendIfPermitted(s.src, true, ar));
    case Timeout(k, c, ar) =>
      TimerKeeps(s.src, k, c, ar);
      SourceStranded(s, TimerExpired(s.src, k, c, ar));
    case GetAck(m, p, ar) =>
      AckKeeps(s.src, m, p, ar);
      SourceStranded(s, ProcessAck(s.src, m.cum, m.ref, m.bitmap, p, ar));
    case GetNack(m, p1, p2, ar) =>
      NackKeeps(s.src, m.nackedSeqno, p1, p2, ar);
      SourceStranded(s, ProcessNack(s.src, m.nackedSeqno, p1, p2, ar));
  }

  lemma StepStranded(s: RawSys, a: Action)
    requires Stranded(s) && RawEnabled(s, a) && s.src.highest <= ALIAS
    ensures Stranded(RawApply(s, a))
  {
    match a
    case Trim(m) =>
    case GetData(m, ecn) =>
      DataShort(s.raw, m.seqno, m.size, m.ar, ecn, s.src.highest);
      SinkStranded(s, RawData(s.raw, m.seqno, m.size, m.ar, ecn));
    case GetTrimmed(m) => SinkStranded(s, RawTrimmed(s.raw, m.trimmedSeqno));
    case GetRts(m) =>
      RtsShort(s.raw, m.rtsSeqno, s.src.highest);
      SinkStranded(s, RawRts(s.raw, m.rtsSeqno));
    case _ => SourceStep(s, a);
  }

  /** A stranded flow stays so, until the numbers come round to the slot again. */
  lemma {:induction false} RunStranded(s: RawSys, run: seq<Action>)
    requires Stranded(s) && RawCanRun(s, run)
    ensures Stranded(RawRun(s, run)) || ALIAS < RawRun(s, run).src.highest
    decreases |run|
  {
    if run != [] && s.src.highest <= ALIAS {
      StepStranded(s, run[0]);
      RunStranded(RawApply(s, run[0]), run[1..]);
    } else if run != [] {
      HighestStays(s, run);
    }
  }

  lemma {:induction false} HighestStays(s: RawSys, run: seq<Action>)
    requires RawCanRun(s, run)
    ensures s.src.highest <= RawRun(s, run).src.highest
    decreases |run|
  {
    if run != [] {
      HighestGrows(s, run[0]);
      HighestStays(RawApply(s, run[0]), run[1..]);
    }
  }

  lemma HighestGrows(s: RawSys, a: Action)
    requires RawEnabled(s, a)
    ensures s.src.highest <= RawApply(s, a).src.highest
  {
    if a.GetAck? { HandleSackFrame(HandleCumulativeAck(s.src, a.msg.cum), a.msg.ref, a.msg.bitmap); }
  }

  // ---------------------------------------------------------------- how it comes about

  /** Packet 1 arrives, then packet 4090 with a congestion mark: the ACK of the second marks 4097. */
  lemma FalseAck(s: RawSys, n: nat) returns (run: seq<Action>, ack: Msg)
    requires GONE < n && Sent(s, n, n)
    ensures RawCanRun(s, run) && RawRun(s, run).src == s.src && RawRun(s, run).raw.window == Window({1, 4090}, 0)
    ensures ack in RawRun(s, run).net && ack.Ack? && ack.cum == 0 && Claims(ack, GONE)
  {
    var a, b := Deliver(n, 1), GetData(Packet(n, 4090), true);
    var s1 := RawApply(s, a);
    assert s1.raw.window == Window({1}, 0);
    var s2 := RawApply(s1, b);
    assert s2.raw.window == Window({1, 4090}, 0);
    ack := RawSack(s2.raw.window, 4090);
    var o := RawData(s1.raw, 4090, HDR + 1, 4091 == n, true);
    assert o.out == [ack] && o.out[0] in Elements(o.out);
    MarksGone(s2.raw.window);
    assert RawCanRun(s2, []);
    RawPrefixed(s1, b, []);
    RawPrefixed(s, a, [b] + []);
    run := [a] + ([b] + []);
  }

  lemma MarksGone(w: Window)
    requires 1 in w.slots
    ensures Claims(RawSack(w, 4090), GONE)
  {
    BitOfWord(seq(WORD_BITS, i requires 0 <= i => Slot(4090 + i) in w.slots), 7);
  }

  /** Processing it releases GONE, and what is left when the network loses everything is stranded. */
  lemma Released(s: RawSys, ack: Msg)
    requires SrcInv(s.src) && !s.src.done && s.src.rtx == map[] && GONE < s.src.highest && Short(s.raw.window)
    requires ack in s.net && ack.Ack? && ack.cum == 0 && Claims(ack, GONE)
    ensures Stranded(RawApply(s, GetAck(ack, false, false)).(net := {}))
  {
    var a := HandleCumulativeAck(s.src, 0);
    HandleCumulativeAckInv(s.src, 0);
    HandleSackInv(a, ack.ref, ack.bitmap);
    HandleSackFrame(a, ack.ref, ack.bitmap);
    SackRemovesMarked(a, ack.ref, ack.bitmap, GONE);
    FinishTestIff(HandleSack(a, ack.ref, ack.bitmap), 0);
  }

  /** A false SACK strands the flow, for every flow of 4098 to 8193 one-byte packets: there is a run after which, if
      the network loses what is under way, no continuation is ever done that does not hand out number 8193 (as an
      RTS), which would set the slot of 4097 again. */
  lemma LieStrands(n: nat) returns (run: seq<Action>)
    requires GONE < n <= ALIAS
    ensures RawCanRun(RawStart(n, 1), run)
    ensures var s := RawRun(RawStart(n, 1), run).(net := {});
      forall more :: RawCanRun(s, more) && RawRun(s, more).src.highest <= ALIAS ==> !RawRun(s, more).src.done
  {
    var s0 := RawStart(n, 1);
    StartedInv(n, 1);
    var sends := SendsAll(s0, n, 0);
    var s1 := RawRun(s0, sends);
    var arrivals, ack := FalseAck(s1, n);
    var s2 := RawRun(s1, arrivals);
    Released(s2, ack);
    var back := GetAck(ack, false, false);
    var t := RawApply(s2, back);
    assert RawCanRun(t, []);
    RawPrefixed(s2, back, []);
    RawJoined(s1, arrivals, [back] + []);
    RawJoined(s0, sends, arrivals + ([back] + []));
    run := sends + (arrivals + ([back] + []));
    NeverDone(t.(net := {}));
  }

  lemma NeverDone(s: RawSys)
    requires Stranded(s)
    ensures forall more :: RawCanRun(s, more) && RawRun(s, more).src.highest <= ALIAS ==> !RawRun(s, more).src.done
  {
    forall more | RawCanRun(s, more) && RawRun(s, more).src.highest <= ALIAS ensures !RawRun(s, more).src.done {
      RunStranded(s, more);
    }
  }
}
