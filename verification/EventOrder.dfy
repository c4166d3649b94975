/** What the event list promises over whole runs (sim/eventlist.cpp:42-146): every event scheduled before the end fires
    once, at its time, in order, unless it is cancelled. */
module EventOrder {
  import opened EventLists

  datatype Doing = Plan(source: nat, time: nat) | Raise(target: nat) | Drop(source: nat) | Go

  /** `planned`: what was scheduled in time; `fired`: what fired, with the time it fired at; `dropped`: what was
      cancelled. */
  datatype History = History(clock: Clock, planned: multiset<Event>, fired: seq<Event>, dropped: multiset<Event>)

  predicate Enabled(h: History, d: Doing) { d.Plan? ==> h.clock.now <= d.time }

  function Apply(h: History, d: Doing): History
  {
    match d
    case Plan(s, t) =>
      var late := h.clock.ending != 0 && h.clock.ending <= t;
      h.(clock := Schedule(h.clock, s, t), planned := h.planned + if late then multiset{} else multiset{Event(t, s)})
    case Raise(target) => h.(clock := h.clock.(triggers := h.clock.triggers + [target]))
    case Drop(s) =>
      var left := Cancel(h.clock.pending, s);
      h.(clock := h.clock.(pending := left), dropped := h.dropped + (multiset(h.clock.pending) - multiset(left)))
    case Go =>
      var (c, f) := Next(h.clock);
      h.(clock := c, fired := if f.Source? then h.fired + [Event(c.now, f.source)] else h.fired)
  }

  ghost predicate CanRun(h: History, run: seq<Doing>)
    decreases |run|
  {
    run == [] || (Enabled(h, run[0]) && CanRun(Apply(h, run[0]), run[1..]))
  }

  function Run(h: History, run: seq<Doing>): History
    decreases |run|
  {
    if run == [] then h else Run(Apply(h, run[0]), run[1..])
  }

  function Start(ending: nat): History { History(Clock(0, ending, [], []), multiset{}, [], multiset{}) }

  /** Nothing is lost or fires twice, and what fired did so in the order of time. */
  ghost predicate Kept(h: History)
  {
    && Inv(h.clock)
    && h.planned == multiset(h.clock.pending) + multiset(h.fired) + h.dropped
    && Sorted(h.fired) && Before(h.fired, h.clock.now + 1)
  }

  /** A new event stands after those that are not later, and before the later ones: events of one time fire in the
      order in which they were scheduled. */
  lemma {:induction false} InsertStands(p: seq<Event>, e: Event) returns (k: nat)
    requires Sorted(p)
    ensures k <= |p| && Insert(p, e) == p[..k] + [e] + p[k..]
    ensures forall i :: 0 <= i < |p| ==> (i < k <==> p[i].time <= e.time)
  {
    if p == [] || e.time < p[0].time {
      k := 0;
    } else {
      assert forall i :: 0 <= i < |p[1..]| ==> p[1..][i] == p[i + 1];
      k := InsertStands(p[1..], e);
      k := k + 1;
      assert p[..k] == [p[0]] + p[1..][..k - 1];
    }
  }

  lemma InsertAdds(p: seq<Event>, e: Event)
    requires Sorted(p)
    ensures multiset(Insert(p, e)) == multiset(p) + multiset{e}
  {
    var k := InsertStands(p, e);
    assert p == p[..k] + p[k..];
  }

  lemma {:induction false} CancelTakes(p: seq<Event>, source: nat)
    ensures multiset(Cancel(p, source)) <= multiset(p)
  {
    if p != [] {
      assert p == [p[0]] + p[1..];
      if p[0].source != source { CancelTakes(p[1..], source); }
    }
  }

  /** Triggers go before events and take no time; the next event is the earliest. */
  lemma NextIs(c: Clock)
    requires Inv(c)
    ensures var (d, f) := Next(c);
      && (c.triggers != [] ==> f.Trigger? && f.target in c.triggers && d.now == c.now && d.pending == c.pending)
      && (c.triggers == [] && c.pending != [] ==>
            f.Source? && d.now == c.pending[0].time && (forall e :: e in c.pending ==> d.now <= e.time)
            && multiset(c.pending) == multiset(d.pending) + multiset{Event(d.now, f.source)})
      && (c.triggers == [] && c.pending == [] ==> f.Nothing? && d == c)
  {
    if c.triggers == [] && c.pending != [] { assert c.pending == [c.pending[0]] + c.pending[1..]; }
  }

  lemma PlanKept(h: History, s: nat, t: nat)
    requires Kept(h) && h.clock.now <= t
    ensures Kept(Apply(h, Plan(s, t)))
  {
    ScheduleInv(h.clock, s, t);
    InsertAdds(h.clock.pending, Event(t, s));
  }

  lemma DropKept(h: History, s: nat)
    requires Kept(h)
    ensures Kept(Apply(h, Drop(s)))
  {
    CancelInv(h.clock.pending, s, h.clock.now);
    CancelTakes(h.clock.pending, s);
  }

  lemma FiredNext(fired: seq<Event>, e: Event, now: nat)
    requires Sorted(fired) && Before(fired, now + 1) && now <= e.time
    ensures Sorted(fired + [e]) && Before(fired + [e], e.time + 1)
    ensures multiset(fired + [e]) == multiset(fired) + multiset{e}
  {
  }

  lemma EventKept(h: History)
    requires Kept(h) && h.clock.triggers == [] && h.clock.pending != []
    ensures Kept(Apply(h, Go))
  {
    NextInv(h.clock);
    NextIs(h.clock);
    var (c, f) := Next(h.clock);
    FiredNext(h.fired, Event(c.now, f.source), h.clock.now);
  }

  lemma GoKept(h: History)
    requires Kept(h)
    ensures Kept(Apply(h, Go))
  {
    if h.clock.triggers == [] && h.clock.pending != [] {
      EventKept(h);
    } else {
      NextIs(h.clock);
    }
  }

  lemma {:induction false} RunKept(h: History, run: seq<Doing>)
    requires Kept(h) && CanRun(h, run)
    ensures Kept(Run(h, run))
    decreases |run|
  {
    if run != [] {
      match run[0] {
        case Plan(s, t) => PlanKept(h, s, t);
        case Raise(target) =>
        case Drop(s) => DropKept(h, s);
        case Go => GoKept(h);
      }
      RunKept(Apply(h, run[0]), run[1..]);
    }
  }

  /** In every run what was scheduled before the end is pending, or has fired at the time it was scheduled for, or was
      cancelled, each once; and events fire in the order of their times. */
  lemma EventsFireOnce(ending: nat, run: seq<Doing>)
    requires CanRun(Start(ending), run)
    ensures var h := Run(Start(ending), run);
      && h.planned == multiset(h.clock.pending) + multiset(h.fired) + h.dropped
      && Sorted(h.fired) && forall i :: 0 <= i < |h.fired| ==> h.fired[i].time <= h.clock.now
  {
    RunKept(Start(ending), run);
  }
}
