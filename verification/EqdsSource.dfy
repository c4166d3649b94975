/** The packets of one EQDS flow, reduced to what the transport state depends on.
    Path identifiers, routes and pull targets are not part of them (pull targets are in PullPacer). */
module EqdsMessages {
  datatype Msg =
    | Data(seqno: nat, size: nat, ar: bool)
    | Trimmed(trimmedSeqno: nat)
    | Rts(rtsSeqno: nat)
    | Ack(cum: nat, ref: nat, bitmap: nat)
    | Nack(nackedSeqno: nat)

  const HDR: nat := 64        // EqdsSrc::_hdr_size and EqdsBasePacket::ACKSIZE
}

/** The sending side, EqdsSrc (sim/eqds.cpp:393-576, 843-957, 1058-1127).
    Credit, the NIC and the clock decide only *whether* a send or a timeout happens now;
    those decisions are the boolean parameters of the operations. */
module EqdsSource {
  import opened Chunking
  import opened EqdsMessages
  import opened OrderedMaps
  import opened Tallies

  /** What a sequence number was first assigned to: RTS packets share the sequence space. */
  datatype Assigned = NewData(payload: nat) | Request

  datatype SrcState = SrcState(
    flowSize: nat, mss: nat,
    tx: map<nat, nat>,       // _tx_bitmap: outstanding records, by size
    rtx: map<nat, nat>,      // _rtx_queue
    inFlight: int, highest: nat, rtsSent: nat, newSent: nat, unsent: nat, backlog: int,
    done: bool,
    log: seq<Assigned>)      // history: what each assigned number carries

  datatype Outcome = Outcome(src: SrcState, out: seq<Msg>)

  function Payload(a: Assigned): nat { if a.NewData? then a.payload else 0 }

  function SizeOf(a: Assigned): nat { HDR + Payload(a) }

  function PayloadSum(log: seq<Assigned>): nat
  {
    if log == [] then 0 else PayloadSum(log[..|log| - 1]) + Payload(log[|log| - 1])
  }

  function RequestCount(log: seq<Assigned>): nat
  {
    if log == [] then 0 else RequestCount(log[..|log| - 1]) + (if log[|log| - 1].Request? then 1 else 0)
  }

  // ---------------------------------------------------------------- operations

  function Started(flowSize: nat, mss: nat): SrcState
    requires 0 < mss
  {
    SrcState(flowSize, mss, map[], map[], 0, 0, 0, 0, flowSize,
             (flowSize + mss - 1) / mss * HDR + flowSize, false, [])
  }

  function NextPayload(s: SrcState): nat { if s.unsent < s.mss then s.unsent else s.mss }

  /** The packet that empties the backlog always asks for an ACK; others do so as the credit left decides (`ar`). */
  function SendNew(s: SrcState, ar: bool): Outcome
  {
    var payload := NextPayload(s);
    var size := payload + HDR;
    var backlog := s.backlog - size;
    Outcome(s.(backlog := backlog, unsent := s.unsent - payload, inFlight := s.inFlight + size,
               tx := s.tx[s.highest := size], highest := s.highest + 1, newSent := s.newSent + 1,
               log := s.log + [NewData(payload)]),
            [Data(s.highest, size, ar || backlog == 0)])
  }

  function SendRtx(s: SrcState): Outcome
    requires s.rtx != map[]
  {
    var k := Least(s.rtx.Keys);
    Outcome(s.(rtx := s.rtx - {k}, inFlight := s.inFlight + s.rtx[k], tx := s.tx[k := s.rtx[k]]),
            [Data(k, s.rtx[k], true)])
  }

  /** An RTS takes a sequence number and a record, but is not added to the bytes in flight. */
  function SendRts(s: SrcState): Outcome
  {
    Outcome(s.(tx := s.tx[s.highest := HDR], highest := s.highest + 1, rtsSent := s.rtsSent + 1,
               log := s.log + [Request]),
            [Rts(s.highest)])
  }

  /** sendIfPermitted: `permit` says that credit and the NIC allow one packet now. */
  function SendIfPermitted(s: SrcState, permit: bool, ar: bool): Outcome
  {
    if !permit then Outcome(s, [])
    else if s.rtx != map[] then SendRtx(s)
    else if s.backlog == 0 || s.unsent == 0 then Outcome(s, [])
    else SendNew(s, ar)
  }

  function HandleAckno(s: SrcState, seqno: nat): SrcState
  {
    if seqno !in s.tx then s
    else s.(inFlight := s.inFlight - s.tx[seqno], tx := s.tx - {seqno})
  }

  ghost function HandleCumulativeAck(s: SrcState, cum: nat): SrcState
  {
    var left := DropBelow(s.tx, cum);
    s.(rtx := DropBelow(s.rtx, cum), tx := left, inFlight := s.inFlight - (Total(s.tx) - Total(left)))
  }

  /** The selective part of an ACK: bit `i` acknowledges `ref + i`. */
  function HandleSack(s: SrcState, ref: nat, bitmap: nat): SrcState
    decreases bitmap
  {
    if bitmap == 0 then s
    else HandleSack(if bitmap % 2 == 1 then HandleAckno(s, ref) else s, ref + 1, bitmap / 2)
  }

  predicate FinishTest(s: SrcState, cum: nat)
  {
    (cum - s.rtsSent) * s.mss >= s.flowSize
  }

  function CheckFinished(s: SrcState, cum: nat): SrcState
  {
    s.(done := s.done || FinishTest(s, cum))
  }

  ghost function Acked(s: SrcState, cum: nat, ref: nat, bitmap: nat): SrcState
  {
    CheckFinished(HandleSack(HandleCumulativeAck(s, cum), ref, bitmap), cum)
  }

  ghost function ProcessAck(s: SrcState, cum: nat, ref: nat, bitmap: nat, permit: bool, ar: bool): Outcome
  {
    var t := Acked(s, cum, ref, bitmap);
    if t.done then Outcome(t, []) else SendIfPermitted(t, permit, ar)
  }

  function QueueForRtx(s: SrcState, seqno: nat, size: nat, permit: bool, ar: bool): Outcome
  {
    SendIfPermitted(s.(rtx := s.rtx[seqno := size]), permit, ar)
  }

  function Then(first: Outcome, second: Outcome): Outcome
  {
    Outcome(second.src, first.out + second.out)
  }

  /** Takes the record of `seqno` out and gives `back` bytes back to the bytes in flight. */
  function Forget(s: SrcState, seqno: nat, back: nat): SrcState
  {
    s.(tx := s.tx - {seqno}, inFlight := s.inFlight - back)
  }

  /** The code aborts on a NACK whose record is gone, so `seqno` must still have one. */
  function ProcessNack(s: SrcState, seqno: nat, permit1: bool, permit2: bool, ar: bool): Outcome
    requires seqno in s.tx
  {
    var size := s.tx[seqno];
    var first := QueueForRtx(Forget(s, seqno, size), seqno, size, permit1, ar);
    Then(first, SendIfPermitted(first.src, permit2, ar))
  }

  /** What credit, the NIC and the RTS rate limit decide while a timeout is handled. */
  datatype TimerChoice = TimerChoice(permit: bool, credit: bool, nicFree: bool, rtsDue: bool)

  /** rtxTimerExpired: the record is dropped without touching the bytes in flight, the packet is queued,
      and then an RTS or a retransmission may follow. */
  function TimerExpired(s: SrcState, seqno: nat, c: TimerChoice, ar: bool): Outcome
    requires seqno in s.tx
  {
    var queued := QueueForRtx(Forget(s, seqno, 0), seqno, s.tx[seqno], c.permit, ar);
    if s.rtx != map[] || !c.credit then
      Then(queued, if c.rtsDue then SendRts(queued.src) else Outcome(queued.src, []))
    else
      Then(queued, if c.nicFree && !c.permit then assert seqno in queued.src.rtx; SendRtx(queued.src)
                   else Outcome(queued.src, []))
  }

  // ---------------------------------------------------------------- invariant

  ghost predicate RecordsOk(m: map<nat, nat>, log: seq<Assigned>)
  {
    forall k | k in m :: k < |log| && m[k] == SizeOf(log[k])
  }

  ghost predicate Disjoint(s: SrcState)
  {
    forall k | k in s.tx :: k !in s.rtx
  }

  ghost predicate SrcInv(s: SrcState)
  {
    && 0 < s.mss
    && |s.log| == s.highest
    && s.newSent + s.rtsSent == s.highest
    && RequestCount(s.log) == s.rtsSent
    && s.unsent <= s.flowSize
    && PayloadSum(s.log) == s.flowSize - s.unsent
    && s.newSent + Chunks(s.unsent, s.mss) == Chunks(s.flowSize, s.mss)
    && s.backlog == s.unsent + HDR * Chunks(s.unsent, s.mss)
    && RecordsOk(s.tx, s.log) && RecordsOk(s.rtx, s.log)
    && Disjoint(s)
    && s.inFlight >= Total(s.tx)
    && (s.done ==> s.unsent == 0 && s.tx == map[] && s.rtx == map[])
  }

  lemma StartedInv(flowSize: nat, mss: nat)
    requires 0 < mss
    ensures SrcInv(Started(flowSize, mss))
  {
    ChunksIsCeil(flowSize, mss);
  }

  /** The finish test, exactly: the whole flow has been handed out and *every* number handed out so
      far, RTS or data, lies below the cumulative acknowledgement. */
  lemma FinishTestIff(s: SrcState, cum: nat)
    requires SrcInv(s) && cum <= s.highest
    ensures FinishTest(s, cum) <==> s.unsent == 0 && cum == s.highest
  {
    CoverIff(cum - s.rtsSent, s.flowSize, s.mss);
  }

  /** The asserts of sendNewPacket (lines 846, 864, 866) hold whenever there is something unsent. */
  lemma SendNewAsserts(s: SrcState)
    requires SrcInv(s) && s.unsent > 0
    ensures (s.highest - s.rtsSent) * s.mss < s.flowSize
    ensures 0 < NextPayload(s) <= s.unsent
    ensures s.backlog - (NextPayload(s) + HDR) >= s.unsent - NextPayload(s)
  {
    CoverIff(s.newSent, s.flowSize, s.mss);
  }

  lemma SendNewInv(s: SrcState, ar: bool)
    requires SrcInv(s) && s.unsent > 0
    ensures SrcInv(SendNew(s, ar).src)
  {
    var t := SendNew(s, ar).src;
    assert t.log[..|t.log| - 1] == s.log;
    RecordsGrow(s.tx, s.rtx, s.log, NewData(NextPayload(s)));
    TakePiece(s.unsent, s.mss);
    assert s.highest !in s.tx;
    TotalPut(s.tx, s.highest, NextPayload(s) + HDR);
  }

  /** A new record for a newly assigned number is as good as the old ones. */
  lemma RecordsGrow(tx: map<nat, nat>, rtx: map<nat, nat>, log: seq<Assigned>, x: Assigned)
    requires RecordsOk(tx, log) && RecordsOk(rtx, log)
    ensures RecordsOk(tx[|log| := SizeOf(x)], log + [x]) && RecordsOk(rtx, log + [x])
  {
  }

  lemma TakePiece(unsent: nat, mss: nat)
    requires 0 < unsent && 0 < mss
    ensures Chunks(unsent, mss) == 1 + Chunks(if unsent < mss then 0 else unsent - mss, mss)
  {
  }

  lemma SendRtxInv(s: SrcState)
    requires SrcInv(s) && s.rtx != map[]
    ensures SrcInv(SendRtx(s).src)
  {
    var k := Least(s.rtx.Keys);
    TotalPut(s.tx, k, s.rtx[k]);
  }

  /** Sending an RTS may cost a record's worth of slack in the bytes-in-flight bound. */
  lemma SendRtsInv(s: SrcState)
    requires SrcInv(s.(inFlight := s.inFlight - HDR)) && !s.done
    ensures SrcInv(SendRts(s).src)
  {
    var t := SendRts(s).src;
    assert t.log[..|t.log| - 1] == s.log;
    TotalPut(s.tx, s.highest, HDR);
  }

  lemma SendIfPermittedInv(s: SrcState, permit: bool, ar: bool)
    requires SrcInv(s)
    ensures SrcInv(SendIfPermitted(s, permit, ar).src)
  {
    if permit {
      if s.rtx != map[] { SendRtxInv(s); }
      else if s.backlog != 0 && s.unsent != 0 { SendNewInv(s, ar); }
    }
  }

  lemma HandleAcknoInv(s: SrcState, seqno: nat)
    requires SrcInv(s)
    ensures SrcInv(HandleAckno(s, seqno))
  {
    if seqno in s.tx { TotalRemove(s.tx, seqno); }
  }

  lemma HandleCumulativeAckInv(s: SrcState, cum: nat)
    requires SrcInv(s)
    ensures SrcInv(HandleCumulativeAck(s, cum))
  {
  }

  lemma {:induction false} HandleSackInv(s: SrcState, ref: nat, bitmap: nat)
    requires SrcInv(s)
    ensures SrcInv(HandleSack(s, ref, bitmap))
    decreases bitmap
  {
    if bitmap != 0 {
      HandleAcknoInv(s, ref);
      HandleSackInv(if bitmap % 2 == 1 then HandleAckno(s, ref) else s, ref + 1, bitmap / 2);
    }
  }

  /** A selective acknowledgement removes records and takes exactly their bytes out of flight, nothing else. */
  lemma {:induction false} HandleSackFrame(s: SrcState, ref: nat, bitmap: nat)
    ensures var t := HandleSack(s, ref, bitmap);
      && t == s.(tx := t.tx, inFlight := t.inFlight) && t.tx.Keys <= s.tx.Keys
      && t.inFlight == s.inFlight - (Total(s.tx) - Total(t.tx))
    decreases bitmap
  {
    if bitmap != 0 {
      if ref in s.tx { TotalRemove(s.tx, ref); }
      HandleSackFrame(if bitmap % 2 == 1 then HandleAckno(s, ref) else s, ref + 1, bitmap / 2);
    }
  }

  /** Finishing leaves nothing outstanding: every record and every queued packet was covered. */
  lemma AckedInv(s: SrcState, cum: nat, ref: nat, bitmap: nat)
    requires SrcInv(s) && cum <= s.highest
    ensures SrcInv(Acked(s, cum, ref, bitmap))
  {
    var a := HandleCumulativeAck(s, cum);
    var b := HandleSack(a, ref, bitmap);
    HandleCumulativeAckInv(s, cum);
    HandleSackInv(a, ref, bitmap);
    HandleSackFrame(a, ref, bitmap);
    FinishTestIff(b, cum);
    if FinishTest(b, cum) {
      assert b.tx.Keys == {} && b.rtx.Keys == {};
    }
  }

  lemma QueuedInv(s: SrcState, seqno: nat, size: nat)
    requires SrcInv(s) && !s.done
    requires seqno < s.highest && seqno !in s.tx && seqno !in s.rtx && size == SizeOf(s.log[seqno])
    ensures SrcInv(s.(rtx := s.rtx[seqno := size]))
  {
  }

  lemma QueueForRtxInv(s: SrcState, seqno: nat, size: nat, permit: bool, ar: bool)
    requires SrcInv(s) && !s.done
    requires seqno < s.highest && seqno !in s.tx && seqno !in s.rtx && size == SizeOf(s.log[seqno])
    ensures SrcInv(QueueForRtx(s, seqno, size, permit, ar).src)
  {
    QueuedInv(s, seqno, size);
    SendIfPermittedInv(s.(rtx := s.rtx[seqno := size]), permit, ar);
  }

  /** Taking a record out keeps the invariant, whether its bytes are returned (`back`) or, as on a
      timeout, left in the count with only an RTS record's worth of them spoken for. */
  lemma ForgetInv(s: SrcState, seqno: nat, back: nat)
    requires SrcInv(s) && seqno in s.tx && back <= s.tx[seqno]
    ensures var t := Forget(s, seqno, back); SrcInv(t) && !t.done
    ensures var t := Forget(s, seqno, back);
      seqno < t.highest && seqno !in t.tx && seqno !in t.rtx && s.tx[seqno] == SizeOf(t.log[seqno])
  {
    TotalRemove(s.tx, seqno);
  }

  lemma ProcessNackInv(s: SrcState, seqno: nat, permit1: bool, permit2: bool, ar: bool)
    requires SrcInv(s) && seqno in s.tx
    ensures SrcInv(ProcessNack(s, seqno, permit1, permit2, ar).src)
  {
    var size := s.tx[seqno];
    ForgetInv(s, seqno, size);
    QueueThenSendInv(Forget(s, seqno, size), seqno, size, permit1, permit2, ar);
  }

  lemma QueueThenSendInv(t: SrcState, seqno: nat, size: nat, permit1: bool, permit2: bool, ar: bool)
    requires SrcInv(t) && !t.done
    requires seqno < t.highest && seqno !in t.tx && seqno !in t.rtx && size == SizeOf(t.log[seqno])
    ensures SrcInv(SendIfPermitted(QueueForRtx(t, seqno, size, permit1, ar).src, permit2, ar).src)
  {
    QueueForRtxInv(t, seqno, size, permit1, ar);
    SendIfPermittedInv(QueueForRtx(t, seqno, size, permit1, ar).src, permit2, ar);
  }

  function Lowered(s: SrcState): SrcState { s.(inFlight := s.inFlight - HDR) }

  lemma LoweredInv(s: SrcState)
    requires SrcInv(Lowered(s))
    ensures SrcInv(s)
  {
  }

  lemma QueueLowered(s: SrcState, seqno: nat, size: nat, permit: bool, ar: bool)
    ensures QueueForRtx(Lowered(s), seqno, size, permit, ar).src
         == Lowered(QueueForRtx(s, seqno, size, permit, ar).src)
  {
  }

  lemma QueueForRtxLive(s: SrcState, seqno: nat, size: nat, permit: bool, ar: bool)
    ensures QueueForRtx(s, seqno, size, permit, ar).src.done == s.done
  {
  }

  /** What a timeout leaves behind, with an RTS record's worth of slack still in the bytes in flight. */
  lemma TimerQueuedInv(s: SrcState, seqno: nat, permit: bool, ar: bool)
    requires SrcInv(s) && seqno in s.tx
    ensures var t := QueueForRtx(Forget(s, seqno, 0), seqno, s.tx[seqno], permit, ar).src;
      SrcInv(Lowered(t)) && !t.done
  {
    var u := Forget(s, seqno, 0);
    ForgetInv(s, seqno, HDR);
    assert Lowered(u) == Forget(s, seqno, HDR);
    QueueForRtxInv(Lowered(u), seqno, s.tx[seqno], permit, ar);
    QueueLowered(u, seqno, s.tx[seqno], permit, ar);
    QueueForRtxLive(u, seqno, s.tx[seqno], permit, ar);
  }

  /** Which of the three ways out a timeout takes. */
  lemma TimerOutcome(s: SrcState, seqno: nat, c: TimerChoice, ar: bool)
    requires seqno in s.tx
    ensures var t := QueueForRtx(Forget(s, seqno, 0), seqno, s.tx[seqno], c.permit, ar).src;
      || TimerExpired(s, seqno, c, ar).src == t
      || (c.rtsDue && TimerExpired(s, seqno, c, ar).src == SendRts(t).src)
      || (t.rtx != map[] && TimerExpired(s, seqno, c, ar).src == SendRtx(t).src)
  {
  }

  lemma TimerExpiredInv(s: SrcState, seqno: nat, c: TimerChoice, ar: bool)
    requires SrcInv(s) && seqno in s.tx
    ensures SrcInv(TimerExpired(s, seqno, c, ar).src)
  {
    var t := QueueForRtx(Forget(s, seqno, 0), seqno, s.tx[seqno], c.permit, ar).src;
    TimerQueuedInv(s, seqno, c.permit, ar);
    TimerOutcome(s, seqno, c, ar);
    TimerLeavesInv(t);
  }

  lemma TimerLeavesInv(t: SrcState)
    requires SrcInv(Lowered(t)) && !t.done
    ensures SrcInv(t) && SrcInv(SendRts(t).src) && (t.rtx != map[] ==> SrcInv(SendRtx(t).src))
  {
    LoweredInv(t);
    SendRtsInv(t);
    if t.rtx != map[] { SendRtxInv(t); }
  }
}
