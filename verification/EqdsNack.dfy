/** The abort on a NACK without a record (sim/eqds.cpp:521-576), on a network that delivers every message at most
    once: it needs a timeout of the very number that is NACKed. */
module EqdsNack {
  import opened EqdsMessages
  import opened EqdsSource
  import opened EqdsSystem
  import K = EqdsSink

  /** The flow, the messages under way (in no particular order), and the numbers that have timed out. */
  datatype Once = Once(sys: Sys, bag: seq<Msg>, timedOut: set<nat>)

  /** A step of the flow that takes the message at `at` if it delivers one; or the loss of that message. */
  datatype Step = Do(action: Action, at: nat) | Lose(at: nat)

  /** What a step puts on the network. */
  ghost function Out(s: Sys, a: Action): seq<Msg>
    requires Enabled(s, a)
  {
    match a
    case Send(ar) => SendIfPermitted(s.src, true, ar).out
    case Timeout(k, c, ar) => TimerExpired(s.src, k, c, ar).out
    case GetAck(m, p, ar) => ProcessAck(s.src, m.cum, m.ref, m.bitmap, p, ar).out
    case GetNack(m, p1, p2, ar) => ProcessNack(s.src, m.nackedSeqno, p1, p2, ar).out
    case Trim(m) => [Trimmed(m.seqno)]
    case GetData(m, ecn) => K.ProcessData(s.sink, m.seqno, m.size, m.ar, ecn).out
    case GetTrimmed(m) => K.ProcessTrimmed(s.sink, m.trimmedSeqno).out
    case GetRts(m) => K.ProcessRts(s.sink, m.rtsSeqno).out
  }

  lemma OutIsSent(s: Sys, a: Action, m: Msg)
    requires Enabled(s, a) && m in Out(s, a)
    ensures m in Apply(s, a).net
  {
  }

  predicate Delivers(a: Action) { !a.Send? && !a.Timeout? }

  function Without(bag: seq<Msg>, at: nat): seq<Msg>
    requires at < |bag|
  {
    bag[..at] + bag[at + 1..]
  }

  ghost predicate CanStep(o: Once, p: Step)
  {
    match p
    case Lose(at) => at < |o.bag|
    case Do(a, at) => Enabled(o.sys, a) && (Delivers(a) ==> at < |o.bag| && o.bag[at] == a.msg)
  }

  ghost function TakeStep(o: Once, p: Step): Once
    requires CanStep(o, p)
  {
    match p
    case Lose(at) => o.(bag := Without(o.bag, at))
    case Do(a, at) =>
      Once(Apply(o.sys, a), (if Delivers(a) then Without(o.bag, at) else o.bag) + Out(o.sys, a),
           o.timedOut + if a.Timeout? then {a.seqno} else {})
  }

  ghost predicate CanTake(o: Once, steps: seq<Step>)
    decreases |steps|
  {
    steps == [] || (CanStep(o, steps[0]) && CanTake(TakeStep(o, steps[0]), steps[1..]))
  }

  ghost function Take(o: Once, steps: seq<Step>): Once
    requires CanTake(o, steps)
    decreases |steps|
  {
    if steps == [] then o else Take(TakeStep(o, steps[0]), steps[1..])
  }

  function Begin(flowSize: nat, mss: nat): Once
    requires 0 < mss
  {
    Once(Start(flowSize, mss), [], {})
  }

  // ---------------------------------------------------------------- one copy of every number

  function Num(c: bool): nat { if c then 1 else 0 }

  /** Is this packet `k`, on its way, trimmed, or asked for again? */
  predicate Stands(m: Msg, k: nat)
  {
    match m
    case Data(e, _, _) => e == k
    case Trimmed(e) => e == k
    case Rts(e) => e == k
    case Nack(e) => e == k
    case Ack(_, _, _) => false
  }

  function Copies(bag: seq<Msg>, k: nat): nat
  {
    if bag == [] then 0 else Num(Stands(bag[0], k)) + Copies(bag[1..], k)
  }

  lemma {:induction false} CopiesConcat(a: seq<Msg>, b: seq<Msg>, k: nat)
    ensures Copies(a + b, k) == Copies(a, k) + Copies(b, k)
  {
    if a == [] {
      assert a + b == b;
    } else {
      assert (a + b)[1..] == a[1..] + b;
      CopiesConcat(a[1..], b, k);
    }
  }

  lemma CopiesWithout(bag: seq<Msg>, at: nat, k: nat)
    requires at < |bag|
    ensures Copies(bag, k) == Copies(Without(bag, at), k) + Num(Stands(bag[at], k))
  {
    assert bag == bag[..at] + ([bag[at]] + bag[at + 1..]);
    CopiesConcat(bag[..at], [bag[at]] + bag[at + 1..], k);
    CopiesConcat(bag[..at], bag[at + 1..], k);
    assert ([bag[at]] + bag[at + 1..])[1..] == bag[at + 1..];
  }

  lemma {:induction false} CopyInBag(bag: seq<Msg>, m: Msg, k: nat)
    requires m in bag && Stands(m, k)
    ensures Copies(bag, k) > 0
  {
    if bag[0] != m { CopyInBag(bag[1..], m, k); }
  }

  lemma {:induction false} NoCopies(bag: seq<Msg>, k: nat)
    requires forall m :: m in bag ==> !Stands(m, k)
    ensures Copies(bag, k) == 0
  {
    if bag != [] { NoCopies(bag[1..], k); }
  }

  /** Where number `k` is: on the network, with the sink, or waiting to be sent again. */
  ghost function Places(o: Once, k: nat): nat
  {
    Copies(o.bag, k) + Num(k in o.sys.sink.received) + Num(k in o.sys.src.rtx)
  }

  ghost predicate Single(o: Once)
  {
    && Inv(o.sys)
    && (forall m :: m in o.bag ==> m in o.sys.net)
    && (forall k: nat :: k !in o.timedOut ==> Places(o, k) <= 1)
  }

  lemma UnassignedNowhere(o: Once, k: nat)
    requires Single(o) && o.sys.src.highest <= k
    ensures Places(o, k) == 0
  {
    forall m | m in o.bag ensures !Stands(m, k) { assert SentOk(m, o.sys.src.log); }
    NoCopies(o.bag, k);
  }

  // ---------------------------------------------------------------- sender steps

  /** What an operation of the sender puts on the network or queues was queued before, or is new, or is the number
      it was called for. */
  ghost predicate Conserves(s: SrcState, o: Outcome, extra: set<nat>)
  {
    && s.highest <= o.src.highest
    && forall k: nat ::
         Copies(o.out, k) + Num(k in o.src.rtx)
           <= Num(k in s.rtx) + Num(s.highest <= k < o.src.highest) + Num(k in extra)
  }

  lemma SendConserves(s: SrcState, permit: bool, ar: bool)
    requires SrcInv(s)
    ensures Conserves(s, SendIfPermitted(s, permit, ar), {})
  {
    var o := SendIfPermitted(s, permit, ar);
    assert o.out != [] ==> o.out[1..] == [];
  }

  lemma ThenConserves(s: SrcState, a: Outcome, b: Outcome, extra: set<nat>)
    requires Conserves(s, a, extra) && Conserves(a.src, b, {})
    ensures Conserves(s, Then(a, b), extra)
  {
    forall k: nat
      ensures Copies(a.out + b.out, k) + Num(k in b.src.rtx)
           <= Num(k in s.rtx) + Num(s.highest <= k < b.src.highest) + Num(k in extra)
    {
      CopiesConcat(a.out, b.out, k);
    }
  }

  lemma RequeueConserves(s: SrcState, k: nat, back: nat, permit: bool, ar: bool)
    requires SrcInv(s) && k in s.tx && back <= s.tx[k]
    ensures Conserves(s, QueueForRtx(Forget(s, k, back), k, s.tx[k], permit, ar), {k})
  {
    ForgetInv(s, k, back);
    QueuedInv(Forget(s, k, back), k, s.tx[k]);
    SendConserves(Forget(s, k, back).(rtx := s.rtx[k := s.tx[k]]), permit, ar);
  }

  lemma NackConserves(s: SrcState, k: nat, p1: bool, p2: bool, ar: bool)
    requires SrcInv(s) && k in s.tx
    ensures Conserves(s, ProcessNack(s, k, p1, p2, ar), {k})
  {
    var size := s.tx[k];
    var first := QueueForRtx(Forget(s, k, size), k, size, p1, ar);
    RequeueConserves(s, k, size, p1, ar);
    ForgetInv(s, k, size);
    QueueForRtxInv(Forget(s, k, size), k, size, p1, ar);
    SendConserves(first.src, p2, ar);
    ThenConserves(s, first, SendIfPermitted(first.src, p2, ar), {k});
  }

  lemma OneOut(s: SrcState)
    requires SrcInv(s)
    ensures Conserves(s, SendRts(s), {}) && (s.rtx != map[] ==> Conserves(s, SendRtx(s), {}))
    ensures Conserves(s, Outcome(s, []), {})
  {
    assert SendRts(s).out[1..] == [];
    if s.rtx != map[] { assert SendRtx(s).out[1..] == []; }
  }

  lemma TimerConserves(s: SrcState, k: nat, c: TimerChoice, ar: bool)
    requires SrcInv(s) && k in s.tx
    ensures Conserves(s, TimerExpired(s, k, c, ar), {k})
  {
    var first := QueueForRtx(Forget(s, k, 0), k, s.tx[k], c.permit, ar);
    RequeueConserves(s, k, 0, c.permit, ar);
    TimerQueuedInv(s, k, c.permit, ar);
    LoweredInv(first.src);
    OneOut(first.src);
    if s.rtx != map[] || !c.credit {
      ThenConserves(s, first, if c.rtsDue then SendRts(first.src) else Outcome(first.src, []), {k});
    } else if c.nicFree && !c.permit {
      assert k in first.src.rtx;
      ThenConserves(s, first, SendRtx(first.src), {k});
    } else {
      ThenConserves(s, first, Outcome(first.src, []), {k});
    }
  }

  lemma AckConserves(s: SrcState, m: Msg, permit: bool, ar: bool)
    requires SrcInv(s) && m.Ack? && m.cum <= s.highest
    ensures Conserves(s, ProcessAck(s, m.cum, m.ref, m.bitmap, permit, ar), {})
  {
    var t := Acked(s, m.cum, m.ref, m.bitmap);
    HandleSackFrame(HandleCumulativeAck(s, m.cum), m.ref, m.bitmap);
    AckedInv(s, m.cum, m.ref, m.bitmap);
    SendConserves(t, permit, ar);
  }

  // ---------------------------------------------------------------- every step keeps one copy

  /** A step of the sender that takes `bag` from what was under way; `extra` has timed out or was taken. */
  lemma SourceSingle(o: Once, t: Once, out: Outcome, bag: seq<Msg>, extra: set<nat>)
    requires Single(o) && Inv(t.sys) && Conserves(o.sys.src, out, extra)
    requires t.sys == WithSource(o.sys, out) && t.bag == bag + out.out && o.timedOut <= t.timedOut
    requires forall m :: m in bag ==> m in o.bag
    requires forall k: nat :: k !in t.timedOut ==> Copies(bag, k) <= Copies(o.bag, k)
    requires forall k: nat :: k in extra && k !in t.timedOut ==> Copies(bag, k) < Copies(o.bag, k)
    ensures Single(t)
  {
    forall k: nat | k !in t.timedOut ensures Places(t, k) <= 1 {
      CopiesConcat(bag, out.out, k);
      if o.sys.src.highest <= k { UnassignedNowhere(o, k); }
    }
  }

  /** The sink takes a packet, or asks for it again, or knows it already. */
  ghost predicate TakesOver(was: K.SinkState, sink: K.SinkState, m: Msg, out: seq<Msg>)
  {
    forall k: nat :: Copies(out, k) + Num(k in sink.received) <= Num(k in was.received) + Num(Stands(m, k))
  }

  lemma SinkSingle(o: Once, t: Once, at: nat, out: seq<Msg>)
    requires Single(o) && Inv(t.sys) && at < |o.bag| && t.sys.src == o.sys.src && o.timedOut == t.timedOut
    requires t.bag == Without(o.bag, at) + out && forall m :: m in t.bag ==> m in t.sys.net
    requires TakesOver(o.sys.sink, t.sys.sink, o.bag[at], out)
    ensures Single(t)
  {
    forall k: nat | k !in t.timedOut ensures Places(t, k) <= 1 {
      CopiesConcat(Without(o.bag, at), out, k);
      CopiesWithout(o.bag, at, k);
    }
  }

  lemma DataTakesOver(s: K.SinkState, e: nat, size: nat, ar: bool, ecn: bool, m: Msg)
    requires K.SinkInv(s) && Stands(m, e)
    ensures var o := K.ProcessData(s, e, size, ar, ecn); TakesOver(s, o.sink, m, o.out)
  {
    var o := K.ProcessData(s, e, size, ar, ecn);
    assert o.out == [] || (o.out[0].Ack? && o.out[1..] == []);
  }

  lemma RtsTakesOver(s: K.SinkState, e: nat, m: Msg)
    requires K.SinkInv(s) && Stands(m, e)
    ensures var o := K.ProcessRts(s, e); TakesOver(s, o.sink, m, o.out)
  {
    var o := K.ProcessRts(s, e);
    assert o.out[0].Ack? && o.out[1..] == [];
  }

  lemma OneCopy(out: seq<Msg>, k: nat)
    requires |out| == 1
    ensures Copies(out, k) == Num(Stands(out[0], k))
  {
    assert out[1..] == [];
  }

  lemma SinkTakesOver(s: Sys, a: Action)
    requires Inv(s) && Enabled(s, a) && (a.Trim? || a.GetData? || a.GetTrimmed? || a.GetRts?)
    ensures Apply(s, a).src == s.src && TakesOver(s.sink, Apply(s, a).sink, a.msg, Out(s, a))
  {
    match a {
    case GetData(m, ecn) => DataTakesOver(s.sink, m.seqno, m.size, m.ar, ecn, m);
    case GetRts(m) => RtsTakesOver(s.sink, m.rtsSeqno, m);
    case Trim(m) => forall k: nat { OneCopy(Out(s, a), k); }
    case GetTrimmed(m) => forall k: nat { OneCopy(Out(s, a), k); }
    }
  }

  lemma BagIsSent(o: Once, p: Step)
    requires Single(o) && CanStep(o, p)
    ensures forall m :: m in TakeStep(o, p).bag ==> m in TakeStep(o, p).sys.net
  {
    if p.Do? {
      forall m | m in Out(o.sys, p.action) ensures m in Apply(o.sys, p.action).net { OutIsSent(o.sys, p.action, m); }
    }
  }

  lemma LoseSingle(o: Once, at: nat)
    requires Single(o) && at < |o.bag|
    ensures Single(TakeStep(o, Lose(at)))
  {
    forall k: nat | k !in o.timedOut ensures Places(TakeStep(o, Lose(at)), k) <= 1 { CopiesWithout(o.bag, at, k); }
  }

  lemma SenderSingle(o: Once, a: Action, at: nat)
    requires Single(o) && CanStep(o, Do(a, at)) && (a.Send? || a.Timeout?)
    ensures Single(TakeStep(o, Do(a, at)))
  {
    StepInv(o.sys, a);
    var t := TakeStep(o, Do(a, at));
    if a.Send? {
      SendConserves(o.sys.src, true, a.ar);
      SourceSingle(o, t, SendIfPermitted(o.sys.src, true, a.ar), o.bag, {});
    } else {
      TimerConserves(o.sys.src, a.seqno, a.choice, a.ar);
      SourceSingle(o, t, TimerExpired(o.sys.src, a.seqno, a.choice, a.ar), o.bag, {a.seqno});
    }
  }

  lemma AckSingle(o: Once, a: Action, at: nat)
    requires Single(o) && CanStep(o, Do(a, at)) && a.GetAck?
    ensures Single(TakeStep(o, Do(a, at)))
  {
    StepInv(o.sys, a);
    var bag, m := Without(o.bag, at), a.msg;
    forall k: nat ensures Copies(bag, k) <= Copies(o.bag, k) { CopiesWithout(o.bag, at, k); }
    assert AckOk(m, o.sys.sink);
    ExpectedAssigned(o.sys);
    AckConserves(o.sys.src, m, a.permit, a.ar);
    SourceSingle(o, TakeStep(o, Do(a, at)), ProcessAck(o.sys.src, m.cum, m.ref, m.bitmap, a.permit, a.ar), bag, {});
  }

  lemma NackSingle(o: Once, a: Action, at: nat)
    requires Single(o) && CanStep(o, Do(a, at)) && a.GetNack?
    ensures Single(TakeStep(o, Do(a, at)))
  {
    StepInv(o.sys, a);
    var bag, e := Without(o.bag, at), a.msg.nackedSeqno;
    forall k: nat ensures Copies(o.bag, k) == Copies(bag, k) + Num(k == e) { CopiesWithout(o.bag, at, k); }
    NackConserves(o.sys.src, e, a.permit1, a.permit2, a.ar);
    SourceSingle(o, TakeStep(o, Do(a, at)), ProcessNack(o.sys.src, e, a.permit1, a.permit2, a.ar), bag, {e});
  }

  lemma StepSingle(o: Once, p: Step)
    requires Single(o) && CanStep(o, p)
    ensures Single(TakeStep(o, p))
  {
    match p
    case Lose(at) => LoseSingle(o, at);
    case Do(a, at) =>
      if a.Send? || a.Timeout? {
        SenderSingle(o, a, at);
      } else if a.GetAck? {
        AckSingle(o, a, at);
      } else if a.GetNack? {
        NackSingle(o, a, at);
      } else {
        StepInv(o.sys, a);
        BagIsSent(o, p);
        SinkTakesOver(o.sys, a);
        SinkSingle(o, TakeStep(o, p), at, Out(o.sys, a));
      }
  }

  lemma {:induction false} TakeSingle(o: Once, steps: seq<Step>)
    requires Single(o) && CanTake(o, steps)
    ensures Single(Take(o, steps))
    decreases |steps|
  {
    if steps != [] {
      StepSingle(o, steps[0]);
      TakeSingle(TakeStep(o, steps[0]), steps[1..]);
    }
  }

  /** If no message is delivered twice, then in every run a NACK finds its record, unless the record of that very
      number has timed out; so in runs without timeouts the code never aborts. */
  lemma NackFindsRecord(flowSize: nat, mss: nat, steps: seq<Step>, k: nat)
    requires 0 < mss && CanTake(Begin(flowSize, mss), steps)
    requires Nack(k) in Take(Begin(flowSize, mss), steps).bag
    ensures var o := Take(Begin(flowSize, mss), steps); k in o.sys.src.tx || k in o.timedOut
  {
    StartInv(flowSize, mss);
    TakeSingle(Begin(flowSize, mss), steps);
    var o := Take(Begin(flowSize, mss), steps);
    assert SentOk(Nack(k), o.sys.src.log);
    CopyInBag(o.bag, Nack(k), k);
    assert k in o.sys.sink.received || Held(o.sys.src, k);
  }

  lemma Begun(o: Once, p: Step, rest: seq<Step>)
    requires CanStep(o, p) && CanTake(TakeStep(o, p), rest)
    ensures CanTake(o, [p] + rest) && Take(o, [p] + rest) == Take(TakeStep(o, p), rest)
  {
    assert ([p] + rest)[1..] == rest;
  }

  /** The abort in processNack (line 543) is reachable, even without a message delivered twice: the trimmed packet's
      record times out while the NACK is on its way, and the NACK then finds no record. */
  lemma LateNackIsReachable() returns (steps: seq<Step>)
    ensures CanTake(Begin(1, 1), steps)
    ensures Nack(0) in Take(Begin(1, 1), steps).bag && 0 !in Take(Begin(1, 1), steps).sys.src.tx
  {
    var send, trim := Do(Send(false), 0), Do(Trim(Data(0, 65, true)), 0);
    var answer, late := Do(GetTrimmed(Trimmed(0)), 0), Do(Timeout(0, TimerChoice(false, true, false, false), false), 0);
    var o0 := Begin(1, 1);
    assert SendIfPermitted(o0.sys.src, true, false) == SendNew(o0.sys.src, false);
    OutIsSent(o0.sys, Send(false), Data(0, 65, true));
    var o1 := TakeStep(o0, send);
    assert o1.bag == [Data(0, 65, true)];
    var o2 := TakeStep(o1, trim);
    assert o2.bag == [Trimmed(0)];
    var o3 := TakeStep(o2, answer);
    assert o3.bag == [Nack(0)];
    var o4 := TakeStep(o3, late);
    assert Out(o3.sys, late.action) == [] && o4.bag == [Nack(0)];
    assert CanTake(o4, []);
    Begun(o3, late, []);
    Begun(o2, answer, [late] + []);
    Begun(o1, trim, [answer] + ([late] + []));
    Begun(o0, send, [trim] + ([answer] + ([late] + [])));
    steps := [send] + ([trim] + ([answer] + ([late] + [])));
  }
}
