/** The sender as the simulator runs it: an object whose fields every packet and timer updates.
    Each method is tied to the function of the same name in EqdsSource, and the source's own
    asserts are asserted here, so they cannot fire. */
module EqdsSrcObject {
  import opened EqdsMessages
  import opened OrderedMaps
  import opened Tallies
  import Spec = EqdsSource

  class EqdsSrc {
    const flowSize: nat
    const mss: nat
    var tx: map<nat, nat>
    var rtx: map<nat, nat>
    var inFlight: int
    var highest: nat
    var rtsSent: nat
    var newSent: nat
    var unsent: nat
    var backlog: int
    var done: bool
    ghost var log: seq<Spec.Assigned>

    ghost function View(): Spec.SrcState
      reads this
    {
      Spec.SrcState(flowSize, mss, tx, rtx, inFlight, highest, rtsSent, newSent, unsent, backlog, done, log)
    }

    ghost predicate Valid()
      reads this
    {
      Spec.SrcInv(View())
    }

    constructor StartFlow(flowSize: nat, mss: nat)
      requires 0 < mss
      ensures View() == Spec.Started(flowSize, mss)
      ensures Valid()
    {
      this.flowSize, this.mss := flowSize, mss;
      tx, rtx, inFlight, highest, rtsSent, newSent := map[], map[], 0, 0, 0, 0;
      unsent, backlog := flowSize, (flowSize + mss - 1) / mss * HDR + flowSize;
      done, log := false, [];
      new;
      Spec.StartedInv(flowSize, mss);
    }

    method CreateSendRecord(seqno: nat, size: nat)
      requires seqno !in tx
      modifies this`tx
      ensures tx == old(tx)[seqno := size]
    {
      tx := tx[seqno := size];
    }

    /** The packet is no longer expected to be sent; the source asserts that the backlog covers what is left. */
    method TakeFromBacklog(payload: nat)
      requires payload <= unsent && backlog - (payload + HDR) >= unsent - payload
      modifies this`backlog, this`unsent
      ensures backlog == old(backlog) - (payload + HDR) && unsent == old(unsent) - payload
    {
      backlog := backlog - (payload + HDR);
      assert backlog >= 0;
      unsent := unsent - payload;
      assert backlog >= unsent;
    }

    method CountNew(ghost payload: nat)
      modifies this`log, this`highest, this`newSent
      ensures log == old(log) + [Spec.NewData(payload)]
      ensures highest == old(highest) + 1 && newSent == old(newSent) + 1
    {
      log := log + [Spec.NewData(payload)];
      highest := highest + 1;
      newSent := newSent + 1;
    }

    method SendNewPacket(ar: bool) returns (p: Msg)
      requires Valid() && unsent > 0
      modifies this
      ensures Spec.Outcome(View(), [p]) == Spec.SendNew(old(View()), ar)
      ensures Valid()
    {
      Spec.SendNewAsserts(View());
      ghost var s0 := View();
      assert (highest - rtsSent) * mss < flowSize;
      var payload := NextPayload();
      assert payload > 0;
      var size := payload + HDR;
      TakeFromBacklog(payload);
      inFlight := inFlight + size;
      p := Data(highest, size, ar || backlog == 0);
      CreateSendRecord(highest, size);
      CountNew(payload);
      assert View() == Spec.SendNew(s0, ar).src;
      Spec.SendNewInv(s0, ar);
    }

    method NextPayload() returns (payload: nat)
      ensures payload == Spec.NextPayload(View())
    {
      payload := mss;
      if unsent < payload { payload := unsent; }
    }

    method SendRtxPacket() returns (p: Msg)
      requires Valid() && rtx != map[]
      modifies this
      ensures Spec.Outcome(View(), [p]) == Spec.SendRtx(old(View()))
      ensures Valid()
    {
      Spec.SendRtxInv(View());
      var seqno := Least(rtx.Keys);
      var size := rtx[seqno];
      rtx := rtx - {seqno};
      inFlight := inFlight + size;
      p := Data(seqno, size, true);
      CreateSendRecord(seqno, size);
    }

    method SendRTS() returns (p: Msg)
      requires Spec.SrcInv(Spec.Lowered(View())) && !done
      modifies this
      ensures Spec.Outcome(View(), [p]) == Spec.SendRts(old(View()))
      ensures Valid()
    {
      Spec.SendRtsInv(View());
      CreateSendRecord(highest, HDR);
      p := Rts(highest);
      log := log + [Spec.Request];
      highest := highest + 1;
      rtsSent := rtsSent + 1;
    }

    method SendIfPermitted(permit: bool, ar: bool) returns (out: seq<Msg>)
      requires Valid()
      modifies this
      ensures Spec.Outcome(View(), out) == Spec.SendIfPermitted(old(View()), permit, ar)
      ensures Valid()
    {
      out := [];
      if !permit { return; }
      if rtx == map[] {
        if backlog == 0 { return; }
        if unsent == 0 { return; }
        var p := SendNewPacket(ar);
        out := [p];
      } else {
        var p := SendRtxPacket();
        out := [p];
      }
    }

    method HandleAckno(seqno: nat)
      requires Valid()
      modifies this
      ensures View() == Spec.HandleAckno(old(View()), seqno)
      ensures Valid()
    {
      Spec.HandleAcknoInv(View(), seqno);
      if seqno !in tx { return; }
      inFlight := inFlight - tx[seqno];
      TotalRemove(tx, seqno);
      assert inFlight >= 0;
      tx := tx - {seqno};
    }

    /** First loop of handleCumulativeAck: the retransmit queue. */
    method DropQueued(cum: nat)
      modifies this`rtx
      ensures rtx == DropBelow(old(rtx), cum)
    {
      ghost var rtx0 := rtx;
      while rtx != map[]
        invariant DropBelow(rtx, cum) == DropBelow(rtx0, cum)
        decreases rtx.Keys
      {
        var seqno := Least(rtx.Keys);
        if seqno >= cum { break; }
        rtx := rtx - {seqno};
      }
      assert rtx == DropBelow(rtx, cum);
    }

    /** Second loop of handleCumulativeAck: the outstanding records. */
    method DropRecords(cum: nat)
      requires inFlight >= Total(tx)
      modifies this`tx, this`inFlight
      ensures tx == DropBelow(old(tx), cum)
      ensures inFlight == old(inFlight) - (Total(old(tx)) - Total(tx))
    {
      ghost var tx0, inFlight0 := tx, inFlight;
      while tx != map[]
        invariant DropBelow(tx, cum) == DropBelow(tx0, cum)
        invariant inFlight - Total(tx) == inFlight0 - Total(tx0)
        decreases tx.Keys
      {
        var seqno: nat := Least(tx.Keys);
        if seqno >= cum { break; }
        TotalRemove(tx, seqno);
        inFlight := inFlight - tx[seqno];
        assert inFlight >= 0;
        tx := tx - {seqno};
      }
      assert tx == DropBelow(tx, cum);
    }

    method HandleCumulativeAck(cum: nat)
      requires Valid()
      modifies this
      ensures View() == Spec.HandleCumulativeAck(old(View()), cum)
      ensures Valid()
    {
      Spec.HandleCumulativeAckInv(View(), cum);
      DropQueued(cum);
      DropRecords(cum);
    }

    method CheckFinished(cum: nat) returns (finished: bool)
      modifies this`done
      ensures View() == Spec.CheckFinished(old(View()), cum)
      ensures finished == done
    {
      if done { return true; }
      if (cum - rtsSent) * mss >= flowSize {
        done := true;
        return true;
      }
      return false;
    }

    method ProcessAck(cum: nat, ref: nat, bitmap: nat, permit: bool, ar: bool) returns (out: seq<Msg>)
      requires Valid() && cum <= highest
      modifies this
      ensures Spec.Outcome(View(), out) == Spec.ProcessAck(old(View()), cum, ref, bitmap, permit, ar)
      ensures Valid()
    {
      ghost var s0 := View();
      HandleCumulativeAck(cum);
      ghost var s1 := View();
      var ackno, word := ref, bitmap;
      while word > 0
        invariant Spec.HandleSack(View(), ackno, word) == Spec.HandleSack(s1, ref, bitmap)
        invariant Valid()
      {
        if word % 2 == 1 {
          HandleAckno(ackno);
        }
        ackno := ackno + 1;
        word := word / 2;
      }
      var finished := CheckFinished(cum);
      Spec.AckedInv(s0, cum, ref, bitmap);
      out := [];
      if !finished {
        out := SendIfPermitted(permit, ar);
      }
    }

    method QueueForRtx(seqno: nat, size: nat, permit: bool, ar: bool) returns (out: seq<Msg>)
      requires Valid() && !done
      requires seqno < highest && seqno !in tx && seqno !in rtx && size == Spec.SizeOf(log[seqno])
      modifies this
      ensures Spec.Outcome(View(), out) == Spec.QueueForRtx(old(View()), seqno, size, permit, ar)
      ensures Valid()
    {
      Spec.QueuedInv(View(), seqno, size);
      assert seqno !in rtx;
      rtx := rtx[seqno := size];
      out := SendIfPermitted(permit, ar);
    }

    /** Takes a record out; `back` of its bytes no longer count as in flight. */
    method ForgetRecord(seqno: nat, back: nat) returns (size: nat)
      requires Valid() && seqno in tx && back <= tx[seqno]
      modifies this`tx, this`inFlight
      ensures Valid() && !done && View() == Spec.Forget(old(View()), seqno, back)
      ensures size == old(tx)[seqno] && inFlight >= 0
      ensures seqno < highest && seqno !in tx && seqno !in rtx && size == Spec.SizeOf(log[seqno])
    {
      Spec.ForgetInv(View(), seqno, back);
      size := tx[seqno];
      tx := tx - {seqno};
      inFlight := inFlight - back;
    }

    /** A NACK for a record that is gone reaches abort() in the source; here it is a precondition. */
    method ProcessNack(seqno: nat, permit1: bool, permit2: bool, ar: bool) returns (out: seq<Msg>)
      requires Valid() && seqno in tx
      modifies this
      ensures Spec.Outcome(View(), out) == Spec.ProcessNack(old(View()), seqno, permit1, permit2, ar)
      ensures Valid()
    {
      assert tx[seqno] >= HDR;
      var size := ForgetRecord(seqno, tx[seqno]);
      var first := QueueForRtx(seqno, size, permit1, ar);
      var second := SendIfPermitted(permit2, ar);
      out := first + second;
    }

    method RtxTimerExpired(seqno: nat, c: Spec.TimerChoice, ar: bool) returns (out: seq<Msg>)
      requires Valid() && seqno in tx
      modifies this
      ensures Spec.Outcome(View(), out) == Spec.TimerExpired(old(View()), seqno, c, ar)
      ensures Valid()
    {
      ghost var s0 := View();
      Spec.TimerQueuedInv(s0, seqno, c.permit, ar);
      var queueWasEmpty := rtx == map[];
      var size := ForgetRecord(seqno, 0);
      out := QueueForRtx(seqno, size, c.permit, ar);
      if !queueWasEmpty || !c.credit {
        if c.rtsDue {
          var p := SendRTS();
          out := out + [p];
        }
        return;
      }
      // while the NIC is still sending the packet just permitted, it refuses another one
      if c.nicFree && !c.permit {
        assert seqno in rtx;
        var p := SendRtxPacket();
        out := out + [p];
      }
    }
  }
}
