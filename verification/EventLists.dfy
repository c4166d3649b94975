/** The event list (sim/eventlist.cpp:41-146) as the clock that everything runs on. Sources and trigger targets
    are known by a number. */
module EventLists {

  datatype Event = Event(time: nat, source: nat)

  /** `ending` is 0 when no end time is set. */
  datatype Clock = Clock(now: nat, ending: nat, pending: seq<Event>, triggers: seq<nat>)

  datatype Fired = Nothing | Trigger(target: nat) | Source(source: nat)

  /** A multimap keeps events in time order, and a later insertion after the earlier ones of the same time. */
  function Insert(p: seq<Event>, e: Event): seq<Event>
  {
    if p == [] || e.time < p[0].time then [e] + p else [p[0]] + Insert(p[1..], e)
  }

  function Schedule(c: Clock, source: nat, time: nat): Clock
  {
    if c.ending == 0 || time < c.ending then c.(pending := Insert(c.pending, Event(time, source))) else c
  }

  /** Pending triggers go first, latest first; then the earliest event, which sets the time. */
  function Next(c: Clock): (Clock, Fired)
  {
    if c.triggers != [] then
      (c.(triggers := c.triggers[..|c.triggers| - 1]), Trigger(c.triggers[|c.triggers| - 1]))
    else if c.pending == [] then (c, Nothing)
    else (c.(now := c.pending[0].time, pending := c.pending[1..]), Source(c.pending[0].source))
  }

  /** Removes the earliest event of a source, if it has one. */
  function Cancel(p: seq<Event>, source: nat): seq<Event>
  {
    if p == [] then [] else if p[0].source == source then p[1..] else [p[0]] + Cancel(p[1..], source)
  }

  ghost predicate Sorted(p: seq<Event>)
  {
    forall i, j :: 0 <= i < j < |p| ==> p[i].time <= p[j].time
  }

  ghost predicate Since(p: seq<Event>, now: nat)
  {
    forall i :: 0 <= i < |p| ==> now <= p[i].time
  }

  ghost predicate Inv(c: Clock) { Sorted(c.pending) && Since(c.pending, c.now) }

  /** Is this time at or beyond the end of the simulation? What is scheduled for then is forgotten. */
  predicate Late(c: Clock, time: nat) { c.ending != 0 && c.ending <= time }

  /** With an end time set, nothing pending is late, and neither is the present. */
  ghost predicate Ends(c: Clock)
  {
    c.ending != 0 ==> (c.now == 0 || c.now < c.ending) && Before(c.pending, c.ending)
  }

  ghost predicate Before(p: seq<Event>, bound: nat)
  {
    forall i :: 0 <= i < |p| ==> p[i].time < bound
  }

  lemma {:induction false} InsertBefore(p: seq<Event>, e: Event, bound: nat)
    requires Before(p, bound) && e.time < bound
    ensures Before(Insert(p, e), bound)
  {
    if p != [] && p[0].time <= e.time { InsertBefore(p[1..], e, bound); }
  }

  lemma {:induction false} CancelBefore(p: seq<Event>, source: nat, bound: nat)
    requires Before(p, bound)
    ensures Before(Cancel(p, source), bound)
  {
    if p != [] && p[0].source != source { CancelBefore(p[1..], source, bound); }
  }

  lemma ScheduleEnds(c: Clock, source: nat, time: nat)
    requires Ends(c)
    ensures Ends(Schedule(c, source, time))
  {
    if c.ending != 0 && time < c.ending { InsertBefore(c.pending, Event(time, source), c.ending); }
  }

  /** When the events of one source are due, in order. */
  function Due(p: seq<Event>, source: nat): seq<nat>
  {
    if p == [] then [] else (if p[0].source == source then [p[0].time] else []) + Due(p[1..], source)
  }

  lemma {:induction false} InsertInv(p: seq<Event>, e: Event, now: nat)
    requires Sorted(p) && Since(p, now) && now <= e.time
    ensures Sorted(Insert(p, e)) && Since(Insert(p, e), now)
    ensures p != [] && p[0].time <= e.time ==> Insert(p, e)[0] == p[0]
  {
    if p != [] && p[0].time <= e.time {
      var rest := Insert(p[1..], e);
      InsertInv(p[1..], e, p[0].time);
      assert forall j :: 0 <= j < |rest| ==> p[0].time <= rest[j].time;
    }
  }

  /** Scheduling in the present or future keeps the list in order. */
  lemma ScheduleInv(c: Clock, source: nat, time: nat)
    requires Inv(c) && c.now <= time
    ensures Inv(Schedule(c, source, time))
  {
    InsertInv(c.pending, Event(time, source), c.now);
  }

  /** Time never goes backwards: the assertion on the next event's time cannot fail. */
  lemma NextInv(c: Clock)
    requires Inv(c)
    ensures Inv(Next(c).0) && c.now <= Next(c).0.now
  {
    if c.triggers == [] && c.pending != [] {
      var rest := c.pending[1..];
      assert forall i :: 0 <= i < |rest| ==> rest[i] == c.pending[i + 1];
    }
  }

  lemma NextEnds(c: Clock)
    requires Ends(c)
    ensures Ends(Next(c).0) && Next(c).0.ending == c.ending
  {
    if c.triggers == [] && c.pending != [] && c.ending != 0 {
      var rest := c.pending[1..];
      assert forall i :: 0 <= i < |rest| ==> rest[i] == c.pending[i + 1];
    }
  }

  /** Scheduling one source's event leaves every other source's events alone. */
  lemma {:induction false} InsertDue(p: seq<Event>, e: Event, source: nat)
    ensures source != e.source ==> Due(Insert(p, e), source) == Due(p, source)
    ensures source == e.source && Due(p, source) == [] ==> Due(Insert(p, e), source) == [e.time]
  {
    if p == [] || e.time < p[0].time {
      assert ([e] + p)[1..] == p;
    } else {
      var rest := Insert(p[1..], e);
      assert ([p[0]] + rest)[1..] == rest;
      InsertDue(p[1..], e, source);
    }
  }

  /** Cancelling takes the source's earliest event, and nothing of any other source. */
  lemma {:induction false} CancelDue(p: seq<Event>, source: nat, other: nat)
    ensures Due(Cancel(p, source), other) ==
      if other == source && Due(p, source) != [] then Due(p, other)[1..] else Due(p, other)
  {
    if p != [] && p[0].source != source {
      var rest := Cancel(p[1..], source);
      assert ([p[0]] + rest)[1..] == rest;
      CancelDue(p[1..], source, other);
    }
  }

  lemma {:induction false} CancelInv(p: seq<Event>, source: nat, now: nat)
    requires Sorted(p) && Since(p, now)
    ensures Sorted(Cancel(p, source)) && Since(Cancel(p, source), now)
  {
    if p != [] {
      var tail := p[1..];
      assert forall i :: 0 <= i < |tail| ==> tail[i] == p[i + 1];
      assert Sorted(tail) && Since(tail, p[0].time);
      if p[0].source != source { CancelInv(tail, source, p[0].time); }
    }
  }

  /** Every event of a source that is due is due now or later. */
  lemma {:induction false} DueSince(p: seq<Event>, source: nat, now: nat)
    requires Since(p, now)
    ensures forall i :: 0 <= i < |Due(p, source)| ==> now <= Due(p, source)[i]
  {
    if p != [] {
      var tail := p[1..];
      assert forall i :: 0 <= i < |tail| ==> tail[i] == p[i + 1];
      DueSince(tail, source, now);
    }
  }

  /** multimap::insert: the place after the last event that is not later. */
  method InsertionPoint(p: seq<Event>, e: Event) returns (at: nat)
    ensures at <= |p| && p[..at] + [e] + p[at..] == Insert(p, e)
  {
    at := 0;
    assert p[at..] == p;
    while at < |p| && p[at].time <= e.time
      invariant at <= |p| && p[..at] + Insert(p[at..], e) == Insert(p, e)
    {
      assert p[at..][0] == p[at] && p[at..][1..] == p[at + 1..];
      assert p[..at + 1] == p[..at] + [p[at]];
      at := at + 1;
    }
    assert Insert(p[at..], e) == [e] + p[at..];
  }

  class EventList {
    var lastEventTime: nat
    var endTime: nat
    var pendingSources: seq<Event>
    var pendingTriggers: seq<nat>

    ghost function View(): Clock
      reads this
    {
      Clock(lastEventTime, endTime, pendingSources, pendingTriggers)
    }

    constructor (endTime: nat)
      ensures View() == Clock(0, endTime, [], []) && Inv(View())
    {
      lastEventTime, this.endTime, pendingSources, pendingTriggers := 0, endTime, [], [];
    }

    method SourceIsPending(source: nat, time: nat)
      requires Inv(View()) && lastEventTime <= time
      modifies this
      ensures View() == Schedule(old(View()), source, time) && Inv(View())
    {
      ScheduleInv(View(), source, time);
      if endTime == 0 || time < endTime {
        var at := InsertionPoint(pendingSources, Event(time, source));
        pendingSources := pendingSources[..at] + [Event(time, source)] + pendingSources[at..];
      }
    }

    method TriggerIsPending(target: nat)
      requires Inv(View())
      modifies this
      ensures View() == old(View()).(triggers := old(pendingTriggers) + [target]) && Inv(View())
    {
      pendingTriggers := pendingTriggers + [target];
    }

    method DoNextEvent() returns (fired: Fired)
      requires Inv(View())
      modifies this
      ensures (View(), fired) == Next(old(View())) && Inv(View()) && old(lastEventTime) <= lastEventTime
    {
      NextInv(View());
      if pendingTriggers != [] {
        fired := Trigger(pendingTriggers[|pendingTriggers| - 1]);
        pendingTriggers := pendingTriggers[..|pendingTriggers| - 1];
      } else if pendingSources == [] {
        fired := Nothing;
      } else {
        var next := pendingSources[0];
        pendingSources := pendingSources[1..];
        assert next.time >= lastEventTime;
        lastEventTime := next.time;
        fired := Source(next.source);
      }
    }

    method CancelPendingSource(source: nat)
      requires Inv(View())
      modifies this
      ensures View() == old(View()).(pending := Cancel(old(pendingSources), source)) && Inv(View())
    {
      CancelInv(pendingSources, source, lastEventTime);
      ghost var goal := Cancel(pendingSources, source);
      var i := 0;
      while i < |pendingSources|
        invariant i <= |pendingSources| && View() == old(View())
        invariant pendingSources[..i] + Cancel(pendingSources[i..], source) == goal
      {
        assert pendingSources[i..][1..] == pendingSources[i + 1..];
        if pendingSources[i].source == source {
          pendingSources := pendingSources[..i] + pendingSources[i + 1..];
          return;
        }
        i := i + 1;
      }
    }

    method ReschedulePendingSource(source: nat, time: nat)
      requires Inv(View()) && lastEventTime <= time
      modifies this
      ensures View() == Schedule(old(View()).(pending := Cancel(old(pendingSources), source)), source, time)
      ensures Inv(View())
    {
      CancelPendingSource(source);
      SourceIsPending(source, time);
    }
  }
}
