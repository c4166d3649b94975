/** A pipe delays every packet by the same time (sim/pipe.cpp:19-74): a growing ring of in-flight packets and
    one event of its own in the event list, which other sources share. */
module Pipes {
  import opened EventLists
  import opened CircularBuffers

  datatype Entry = Entry(time: nat, pkt: nat)

  /** The pipe, the clock, and the history: when packets came in, and when they went out. */
  datatype World = World(clock: Clock, inflight: seq<Entry>, arrived: seq<Entry>, released: seq<Entry>)

  datatype Action = Receive(pkt: nat) | Other(source: nat, time: nat) | Stop(source: nat) | Fire(target: nat) | Tick

  /** The clock and the ring after a packet has come in. */
  function Received(c: Clock, inflight: seq<Entry>, me: nat, delay: nat, pkt: nat): (Clock, seq<Entry>)
  {
    (if inflight == [] then Schedule(c, me, c.now + delay) else c, inflight + [Entry(c.now + delay, pkt)])
  }

  /** The clock and the ring after the pipe's event; the packet released is the first of the ring. */
  function Released(c: Clock, inflight: seq<Entry>, me: nat): (Clock, seq<Entry>)
  {
    if inflight == [] then (c, inflight)
    else (if |inflight| > 1 then Schedule(c, me, inflight[1].time) else c, inflight[1..])
  }

  /** Other sources schedule and cancel their own events as they like, but not in the past. */
  ghost predicate Enabled(w: World, me: nat, a: Action)
  {
    match a
    case Other(source, time) => source != me && w.clock.now <= time
    case Stop(source) => source != me
    case _ => true
  }

  function Apply(w: World, me: nat, delay: nat, a: Action): World
  {
    match a
    case Receive(pkt) =>
      var (c, ring) := Received(w.clock, w.inflight, me, delay, pkt);
      w.(clock := c, inflight := ring, arrived := w.arrived + [Entry(w.clock.now, pkt)])
    case Other(source, time) => w.(clock := Schedule(w.clock, source, time))
    case Stop(source) => w.(clock := w.clock.(pending := Cancel(w.clock.pending, source)))
    case Fire(target) => w.(clock := w.clock.(triggers := w.clock.triggers + [target]))
    case Tick =>
      var (c, fired) := Next(w.clock);
      if fired == Source(me) && w.inflight != [] then
        var (d, ring) := Released(c, w.inflight, me);
        World(d, ring, w.arrived, w.released + [Entry(c.now, w.inflight[0].pkt)])
      else w.(clock := c)
  }

  function Delayed(arrived: seq<Entry>, delay: nat): (r: seq<Entry>)
    ensures |r| == |arrived|
  {
    seq(|arrived|, i requires 0 <= i < |arrived| => Entry(arrived[i].time + delay, arrived[i].pkt))
  }

  ghost predicate Ordered(s: seq<Entry>)
  {
    forall i, j :: 0 <= i < j < |s| ==> s[i].time <= s[j].time
  }

  /** The one event of the pipe is due when its first packet is. */
  ghost predicate OneEvent(w: World, me: nat)
  {
    Due(w.clock.pending, me) == Expected(w.clock, w.inflight)
  }

  /** No event while the pipe is idle, nor when its first packet is due only after the end. */
  function Expected(c: Clock, inflight: seq<Entry>): seq<nat>
  {
    if inflight == [] || Late(c, inflight[0].time) then [] else [inflight[0].time]
  }

  ghost predicate Inv(w: World, me: nat, delay: nat)
  {
    && EventLists.Inv(w.clock) && Ends(w.clock)
    && OneEvent(w, me)
    && Ordered(w.inflight) && (forall i :: 0 <= i < |w.inflight| ==> w.inflight[i].time <= w.clock.now + delay)
    && Delayed(w.arrived, delay) == w.released + w.inflight
  }

  lemma DelayedSnoc(arrived: seq<Entry>, delay: nat, x: Entry)
    ensures Delayed(arrived + [x], delay) == Delayed(arrived, delay) + [Entry(x.time + delay, x.pkt)]
  {
  }

  lemma ReceivedEvent(c: Clock, inflight: seq<Entry>, me: nat, delay: nat, pkt: nat)
    requires EventLists.Inv(c) && Ends(c) && Due(c.pending, me) == Expected(c, inflight)
    ensures var (d, ring) := Received(c, inflight, me, delay, pkt);
      && EventLists.Inv(d) && Ends(d) && d.now == c.now && d.ending == c.ending
      && Due(d.pending, me) == Expected(d, ring)
  {
    ScheduleInv(c, me, c.now + delay);
    ScheduleEnds(c, me, c.now + delay);
    InsertDue(c.pending, Event(c.now + delay, me), me);
  }

  lemma ReceiveInv(w: World, me: nat, delay: nat, pkt: nat)
    requires Inv(w, me, delay)
    ensures Inv(Apply(w, me, delay, Receive(pkt)), me, delay)
  {
    var x := Entry(w.clock.now + delay, pkt);
    ReceivedEvent(w.clock, w.inflight, me, delay, pkt);
    DelayedSnoc(w.arrived, delay, Entry(w.clock.now, pkt));
    assert w.released + w.inflight + [x] == w.released + (w.inflight + [x]);
  }

  /** When the pipe's event fires, its first packet is due at this very moment. */
  lemma FiresOnTime(w: World, me: nat, delay: nat)
    requires Inv(w, me, delay) && Next(w.clock).1 == Source(me)
    ensures w.inflight != [] && Next(w.clock).0.now == w.inflight[0].time
    ensures Due(Next(w.clock).0.pending, me) == []
  {
    var p := w.clock.pending;
    assert Due(p, me) == [p[0].time] + Due(p[1..], me);
    assert Due(p, me)[0] == p[0].time;
  }

  lemma OrderedTail(s: seq<Entry>, bound: nat)
    requires s != [] && Ordered(s) && forall i :: 0 <= i < |s| ==> s[i].time <= bound
    ensures Ordered(s[1..]) && forall i :: 0 <= i < |s[1..]| ==> s[0].time <= s[1..][i].time <= bound
  {
    var rest := s[1..];
    assert forall i :: 0 <= i < |rest| ==> rest[i] == s[i + 1];
  }

  /** After the pipe's event the next packet, if there is one, has the pipe's event. */
  lemma ReleasedEvent(c: Clock, inflight: seq<Entry>, me: nat)
    requires EventLists.Inv(c) && Ends(c) && Due(c.pending, me) == [] && inflight != []
    requires |inflight| > 1 ==> c.now <= inflight[1].time
    ensures var (d, ring) := Released(c, inflight, me);
      && EventLists.Inv(d) && Ends(d) && d.now == c.now && d.ending == c.ending && ring == inflight[1..]
      && Due(d.pending, me) == Expected(d, ring)
  {
    if |inflight| > 1 {
      ScheduleEnds(c, me, inflight[1].time);
      ScheduleInv(c, me, inflight[1].time);
      InsertDue(c.pending, Event(inflight[1].time, me), me);
    }
  }

  lemma OwnTickInv(w: World, me: nat, delay: nat)
    requires Inv(w, me, delay) && Next(w.clock).1 == Source(me)
    ensures Inv(Apply(w, me, delay, Tick), me, delay)
  {
    var c := Next(w.clock).0;
    NextInv(w.clock);
    NextEnds(w.clock);
    FiresOnTime(w, me, delay);
    OrderedTail(w.inflight, w.clock.now + delay);
    ReleasedEvent(c, w.inflight, me);
    HistoryMoves(w.released, w.inflight);
    assert Entry(c.now, w.inflight[0].pkt) == w.inflight[0];
  }

  lemma HistoryMoves(released: seq<Entry>, inflight: seq<Entry>)
    requires inflight != []
    ensures released + inflight == (released + [inflight[0]]) + inflight[1..]
  {
  }

  lemma OtherTickInv(w: World, me: nat, delay: nat)
    requires Inv(w, me, delay) && Next(w.clock).1 != Source(me)
    ensures Inv(Apply(w, me, delay, Tick), me, delay)
  {
    NextInv(w.clock);
    NextEnds(w.clock);
  }

  lemma TickInv(w: World, me: nat, delay: nat)
    requires Inv(w, me, delay)
    ensures Inv(Apply(w, me, delay, Tick), me, delay)
  {
    if Next(w.clock).1 == Source(me) { OwnTickInv(w, me, delay); } else { OtherTickInv(w, me, delay); }
  }

  lemma OtherInv(w: World, me: nat, delay: nat, source: nat, time: nat)
    requires Inv(w, me, delay) && source != me && w.clock.now <= time
    ensures Inv(Apply(w, me, delay, Other(source, time)), me, delay)
  {
    ScheduleInv(w.clock, source, time);
    ScheduleEnds(w.clock, source, time);
    InsertDue(w.clock.pending, Event(time, source), me);
  }

  lemma StopInv(w: World, me: nat, delay: nat, source: nat)
    requires Inv(w, me, delay) && source != me
    ensures Inv(Apply(w, me, delay, Stop(source)), me, delay)
  {
    CancelInv(w.clock.pending, source, w.clock.now);
    if w.clock.ending != 0 { CancelBefore(w.clock.pending, source, w.clock.ending); }
    CancelDue(w.clock.pending, source, me);
  }

  lemma FireInv(w: World, me: nat, delay: nat, target: nat)
    requires Inv(w, me, delay)
    ensures Inv(Apply(w, me, delay, Fire(target)), me, delay)
  {
  }

  lemma StepInv(w: World, me: nat, delay: nat, a: Action)
    requires Inv(w, me, delay) && Enabled(w, me, a)
    ensures Inv(Apply(w, me, delay, a), me, delay)
  {
    match a
    case Receive(pkt) => ReceiveInv(w, me, delay, pkt);
    case Other(source, time) => OtherInv(w, me, delay, source, time);
    case Stop(source) => StopInv(w, me, delay, source);
    case Fire(target) => FireInv(w, me, delay, target);
    case Tick => TickInv(w, me, delay);
  }

  function Start(ending: nat): World { World(Clock(0, ending, [], []), [], [], []) }

  ghost predicate CanRun(w: World, me: nat, delay: nat, run: seq<Action>)
    decreases |run|
  {
    run == [] || (Enabled(w, me, run[0]) && CanRun(Apply(w, me, delay, run[0]), me, delay, run[1..]))
  }

  function After(w: World, me: nat, delay: nat, run: seq<Action>): World
    decreases |run|
  {
    if run == [] then w else After(Apply(w, me, delay, run[0]), me, delay, run[1..])
  }

  lemma {:induction false} RunInv(w: World, me: nat, delay: nat, run: seq<Action>)
    requires Inv(w, me, delay) && CanRun(w, me, delay, run)
    ensures Inv(After(w, me, delay, run), me, delay)
    decreases |run|
  {
    if run != [] {
      StepInv(w, me, delay, run[0]);
      RunInv(Apply(w, me, delay, run[0]), me, delay, run[1..]);
    }
  }

  /** What the invariant says about the history. */
  ghost predicate DelayLine(w: World, me: nat, delay: nat)
  {
    && |w.released| <= |w.arrived|
    && (forall i :: 0 <= i < |w.released| ==> w.released[i] == Entry(w.arrived[i].time + delay, w.arrived[i].pkt))
    && (forall i :: |w.released| <= i < |w.arrived| ==> w.clock.now <= w.arrived[i].time + delay)
    && |Due(w.clock.pending, me)| ==
       (if |w.released| < |w.arrived| && !Late(w.clock, w.arrived[|w.released|].time + delay) then 1 else 0)
  }

  lemma NothingOverdue(w: World, me: nat, delay: nat, i: nat)
    requires Inv(w, me, delay) && i < |w.inflight|
    ensures w.clock.now <= w.inflight[i].time
  {
    DueSince(w.clock.pending, me, w.clock.now);
    if !Late(w.clock, w.inflight[0].time) { assert Due(w.clock.pending, me)[0] == w.inflight[0].time; }
  }

  lemma InvIsDelayLine(w: World, me: nat, delay: nat)
    requires Inv(w, me, delay)
    ensures DelayLine(w, me, delay)
  {
    var all, n := Delayed(w.arrived, delay), |w.released|;
    assert |all| == n + |w.inflight|;
    if w.inflight != [] { assert all[n] == w.inflight[0]; }
    forall i | 0 <= i < n ensures w.released[i] == Entry(w.arrived[i].time + delay, w.arrived[i].pkt) {
      assert all[i] == w.released[i];
    }
    forall i | n <= i < |w.arrived| ensures w.clock.now <= w.arrived[i].time + delay {
      assert all[i] == w.inflight[i - n];
      NothingOverdue(w, me, delay, i - n);
    }
  }

  /** In every run, whatever else is on the event list, and whether or not an end time is set: packets leave in
      the order they came, each exactly `delay` after it came; none is overdue; and the pipe has one event
      pending while packets are in flight of which the first is due before the end, none otherwise. */
  lemma PipeIsADelayLine(me: nat, delay: nat, ending: nat, run: seq<Action>)
    requires CanRun(Start(ending), me, delay, run)
    ensures DelayLine(After(Start(ending), me, delay, run), me, delay)
  {
    assert Inv(Start(ending), me, delay);
    RunInv(Start(ending), me, delay, run);
    InvIsDelayLine(After(Start(ending), me, delay, run), me, delay);
  }

  class Pipe {
    const me: nat
    const delay: nat
    const events: EventList
    const ring: CircularBuffer<Entry>

    ghost predicate Valid()
      reads this, events, ring
    {
      ring.Valid() && EventLists.Inv(events.View())
    }

    ghost function Inflight(): seq<Entry>
      reads this, events, ring, ring.queue
      requires Valid()
    {
      ring.Contents()
    }

    constructor (me: nat, delay: nat, events: EventList)
      requires EventLists.Inv(events.View())
      ensures Valid() && Inflight() == [] && this.me == me && this.delay == delay && this.events == events
      ensures fresh(ring) && fresh(ring.queue)
    {
      this.me, this.delay, this.events := me, delay, events;
      ring := new CircularBuffer(16);
    }

    method ReceivePacket(pkt: nat)
      requires Valid()
      modifies events, ring, ring.queue
      ensures Valid() && (ring.queue == old(ring.queue) || fresh(ring.queue))
      ensures (events.View(), Inflight()) == Received(old(events.View()), old(Inflight()), me, delay, pkt)
    {
      var idle := ring.Empty();
      var due := events.lastEventTime + delay;
      if idle { events.SourceIsPending(me, due); }
      ring.Push(Entry(due, pkt));
    }

    /** What is released is handed to the packet's next hop. */
    method DoNextEvent() returns (sent: seq<nat>)
      requires Valid()
      requires |Inflight()| > 1 ==> events.lastEventTime <= Inflight()[1].time
      modifies events, ring
      ensures Valid() && ring.queue == old(ring.queue)
      ensures (events.View(), Inflight()) == Released(old(events.View()), old(Inflight()), me)
      ensures sent == if old(Inflight()) == [] then [] else [old(Inflight())[0].pkt]
    {
      ghost var before := Inflight();
      var idle := ring.Empty();
      if idle { return []; }
      var first := ring.Pop();
      sent := [first.pkt];
      assert before == [first] + Inflight();
      assert Inflight() == before[1..];
      idle := ring.Empty();
      if !idle {
        var next := ring.NextToPop();
        events.SourceIsPending(me, next.time);
      }
    }
  }
}
