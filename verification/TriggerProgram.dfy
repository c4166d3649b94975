/** Flow-and-trigger programs, as htsim_runner.py writes them and sim/trigger.cpp executes them.
    A flow starts at time 0 or when its trigger fires; a running flow may finish at any moment and then
    activates its done-trigger once; a barrier fires after `count` activations, a one-shot after one. */
module TriggerProgram {
  import opened Options

  datatype FlowDef = FlowDef(src: nat, dst: nat, size: nat,
                             start: Option<nat>, trigger: Option<nat>, sendDone: Option<nat>)

  datatype TriggerDef = Barrier(id: nat, count: nat) | OneShot(id: nat)

  datatype Program = Program(flows: seq<FlowDef>, triggers: seq<TriggerDef>)

  function Need(t: TriggerDef): nat { if t.Barrier? then t.count else 1 }

  /** How many flows activate trigger `t` when they finish. */
  function Feeders(fs: seq<FlowDef>, t: nat): nat
  {
    if fs == [] then 0 else (if fs[0].sendDone == Some(t) then 1 else 0) + Feeders(fs[1..], t)
  }

  ghost predicate Waits(fs: seq<FlowDef>, t: nat)
  {
    exists i :: 0 <= i < |fs| && fs[i].trigger == Some(t)
  }

  // ---------------------------------------------------------------- well-formed pieces

  predicate Own(t: nat, base: nat, n: nat) { base < t <= base + n }

  /** A flow of a piece starts with the piece (at time 0, or on trigger `entry`) or on one of the piece's
      own triggers, and reports to nobody, to `exit`, or to one of the piece's own triggers. */
  predicate RefsOk(f: FlowDef, base: nat, n: nat, entry: Option<nat>, exit: Option<nat>)
  {
    && (if f.trigger.None? then f.start == Some(0) && entry.None?
        else f.start.None? && (f.trigger == entry || Own(f.trigger.value, base, n)))
    && (f.sendDone.Some? ==> f.sendDone == exit || Own(f.sendDone.value, base, n))
  }

  /** Everything that feeds trigger `t` is listed before everything that waits for it. */
  ghost predicate FeedersFirst(fs: seq<FlowDef>, t: nat)
  {
    forall f, g :: 0 <= f < |fs| && 0 <= g < |fs| && fs[f].sendDone == Some(t) && fs[g].trigger == Some(t) ==> f < g
  }

  ghost predicate TriggerOk(fs: seq<FlowDef>, trig: TriggerDef, t: nat)
  {
    trig.id == t && Need(trig) == Feeders(fs, t) > 0 && Waits(fs, t) && FeedersFirst(fs, t)
  }

  /** A piece of a program whose own triggers are numbered from `base + 1`. */
  ghost predicate Piece(fs: seq<FlowDef>, ts: seq<TriggerDef>, base: nat, entry: Option<nat>, exit: Option<nat>)
  {
    && (entry.Some? ==> entry.value <= base) && (exit.Some? ==> exit.value <= base)
    && (forall i :: 0 <= i < |fs| ==> RefsOk(fs[i], base, |ts|, entry, exit))
    && (forall i :: 0 <= i < |ts| ==> TriggerOk(fs, ts[i], base + 1 + i))
  }

  ghost predicate WellFormed(p: Program)
  {
    Piece(p.flows, p.triggers, 0, None, None)
  }

  lemma {:induction false} FeedersConcat(a: seq<FlowDef>, b: seq<FlowDef>, t: nat)
    ensures Feeders(a + b, t) == Feeders(a, t) + Feeders(b, t)
  {
    if a == [] {
      assert a + b == b;
    } else {
      assert (a + b)[1..] == a[1..] + b;
      FeedersConcat(a[1..], b, t);
    }
  }

  lemma {:induction false} NoFeeders(fs: seq<FlowDef>, t: nat)
    requires forall i :: 0 <= i < |fs| ==> fs[i].sendDone != Some(t)
    ensures Feeders(fs, t) == 0
  {
    if fs != [] {
      assert fs[0].sendDone != Some(t);
      NoFeeders(fs[1..], t);
    }
  }

  /** No flow of the list feeds or waits for trigger `t`. */
  ghost predicate Silent(fs: seq<FlowDef>, t: nat)
  {
    forall i :: 0 <= i < |fs| ==> fs[i].sendDone != Some(t) && fs[i].trigger != Some(t)
  }

  lemma TriggerOkBefore(a: seq<FlowDef>, b: seq<FlowDef>, trig: TriggerDef, t: nat)
    requires TriggerOk(a, trig, t) && Silent(b, t)
    ensures TriggerOk(a + b, trig, t)
  {
    FeedersConcat(a, b, t);
    NoFeeders(b, t);
    var i :| 0 <= i < |a| && a[i].trigger == Some(t);
    assert (a + b)[i].trigger == Some(t);
  }

  lemma TriggerOkAfter(a: seq<FlowDef>, b: seq<FlowDef>, trig: TriggerDef, t: nat)
    requires TriggerOk(b, trig, t) && Silent(a, t)
    ensures TriggerOk(a + b, trig, t)
  {
    FeedersConcat(a, b, t);
    NoFeeders(a, t);
    var i :| 0 <= i < |b| && b[i].trigger == Some(t);
    assert (a + b)[|a| + i].trigger == Some(t);
    forall f, g | 0 <= f < |a + b| && 0 <= g < |a + b| && (a + b)[f].sendDone == Some(t) &&
        (a + b)[g].trigger == Some(t)
      ensures f < g
    {
      assert |a| <= f && |a| <= g;
      assert b[f - |a|].sendDone == Some(t) && b[g - |a|].trigger == Some(t);
    }
  }

  lemma SilentOutside(fs: seq<FlowDef>, base: nat, n: nat, entry: Option<nat>, exit: Option<nat>, t: nat)
    requires forall i :: 0 <= i < |fs| ==> RefsOk(fs[i], base, n, entry, exit)
    requires !Own(t, base, n) && entry != Some(t) && exit != Some(t)
    ensures Silent(fs, t)
  {
    forall i | 0 <= i < |fs| ensures fs[i].sendDone != Some(t) && fs[i].trigger != Some(t) {
      assert RefsOk(fs[i], base, n, entry, exit);
    }
  }

  /** Two pieces that start and report alike, numbered one after the other, make one piece. */
  lemma Beside(a: seq<FlowDef>, ta: seq<TriggerDef>, b: seq<FlowDef>, tb: seq<TriggerDef>,
               base: nat, entry: Option<nat>, exit: Option<nat>)
    requires Piece(a, ta, base, entry, exit) && Piece(b, tb, base + |ta|, entry, exit)
    ensures Piece(a + b, ta + tb, base, entry, exit)
  {
    var ts := ta + tb;
    forall i | 0 <= i < |a + b| ensures RefsOk((a + b)[i], base, |ts|, entry, exit) {
      if i < |a| { assert RefsOk(a[i], base, |ta|, entry, exit); }
      else { assert RefsOk(b[i - |a|], base + |ta|, |tb|, entry, exit); }
    }
    forall i | 0 <= i < |ts| ensures TriggerOk(a + b, ts[i], base + 1 + i) {
      var t := base + 1 + i;
      if i < |ta| {
        SilentOutside(b, base + |ta|, |tb|, entry, exit, t);
        TriggerOkBefore(a, b, ta[i], t);
      } else {
        SilentOutside(a, base, |ta|, entry, exit, t);
        assert TriggerOk(b, tb[i - |ta|], base + |ta| + 1 + (i - |ta|));
        TriggerOkAfter(a, b, tb[i - |ta|], t);
      }
    }
  }

  /** A piece whose flows report to barrier `base + 1`, followed by a piece that starts on it. */
  lemma InSequence(a: seq<FlowDef>, ta: seq<TriggerDef>, b: seq<FlowDef>, tb: seq<TriggerDef>,
                   base: nat, entry: Option<nat>, exit: Option<nat>, count: nat)
    requires entry.Some? ==> entry.value <= base
    requires exit.Some? ==> exit.value <= base
    requires Piece(a, ta, base + 1, entry, Some(base + 1))
    requires Piece(b, tb, base + 1 + |ta|, Some(base + 1), exit)
    requires Feeders(a, base + 1) == count > 0 && Waits(b, base + 1)
    ensures Piece(a + b, [Barrier(base + 1, count)] + ta + tb, base, entry, exit)
  {
    var ts := [Barrier(base + 1, count)] + ta + tb;
    forall i | 0 <= i < |a + b| ensures RefsOk((a + b)[i], base, |ts|, entry, exit) {
      if i < |a| { assert RefsOk(a[i], base + 1, |ta|, entry, Some(base + 1)); }
      else { assert RefsOk(b[i - |a|], base + 1 + |ta|, |tb|, Some(base + 1), exit); }
    }
    forall i | 0 <= i < |ts| ensures TriggerOk(a + b, ts[i], base + 1 + i) {
      SequenceTrigger(a, ta, b, tb, base, entry, exit, count, i);
    }
  }

  lemma SequenceTrigger(a: seq<FlowDef>, ta: seq<TriggerDef>, b: seq<FlowDef>, tb: seq<TriggerDef>,
                        base: nat, entry: Option<nat>, exit: Option<nat>, count: nat, i: nat)
    requires entry.Some? ==> entry.value <= base
    requires exit.Some? ==> exit.value <= base
    requires Piece(a, ta, base + 1, entry, Some(base + 1))
    requires Piece(b, tb, base + 1 + |ta|, Some(base + 1), exit)
    requires Feeders(a, base + 1) == count > 0 && Waits(b, base + 1)
    requires i < 1 + |ta| + |tb|
    ensures TriggerOk(a + b, ([Barrier(base + 1, count)] + ta + tb)[i], base + 1 + i)
  {
    var t := base + 1 + i;
    if i == 0 {
      assert forall j :: 0 <= j < |a| ==> RefsOk(a[j], base + 1, |ta|, entry, Some(base + 1));
      assert forall j :: 0 <= j < |b| ==> RefsOk(b[j], base + 1 + |ta|, |tb|, Some(base + 1), exit);
      BarrierBetween(a, b, t, count);
    } else if i <= |ta| {
      SilentOutside(b, base + 1 + |ta|, |tb|, Some(base + 1), exit, t);
      assert TriggerOk(a, ta[i - 1], base + 1 + 1 + (i - 1));
      TriggerOkBefore(a, b, ta[i - 1], t);
    } else {
      var j := i - 1 - |ta|;
      SilentOutside(a, base + 1, |ta|, entry, Some(base + 1), t);
      assert TriggerOk(b, tb[j], base + 1 + |ta| + 1 + j);
      TriggerOkAfter(a, b, tb[j], t);
    }
  }

  lemma BarrierBetween(a: seq<FlowDef>, b: seq<FlowDef>, t: nat, count: nat)
    requires Feeders(a, t) == count > 0 && Waits(b, t)
    requires forall i :: 0 <= i < |a| ==> a[i].trigger != Some(t)
    requires forall i :: 0 <= i < |b| ==> b[i].sendDone != Some(t)
    ensures TriggerOk(a + b, Barrier(t, count), t)
  {
    FeedersConcat(a, b, t);
    NoFeeders(b, t);
    var i :| 0 <= i < |b| && b[i].trigger == Some(t);
    assert (a + b)[|a| + i].trigger == Some(t);
    assert forall g :: 0 <= g < |a + b| && (a + b)[g].trigger == Some(t) ==> |a| <= g;
    assert forall f :: 0 <= f < |a + b| && (a + b)[f].sendDone == Some(t) ==> f < |a|;
  }

  // ---------------------------------------------------------------- execution

  datatype Status = Waiting | Running | Finished

  datatype State = State(status: seq<Status>, left: seq<nat>)   // left[t - 1]: activations still needed by t

  function Initial(p: Program): State
  {
    State(seq(|p.flows|, i requires 0 <= i < |p.flows| => if p.flows[i].trigger.Some? then Waiting else Running),
          seq(|p.triggers|, i requires 0 <= i < |p.triggers| => Need(p.triggers[i])))
  }

  ghost predicate Fits(p: Program, s: State) { |s.status| == |p.flows| && |s.left| == |p.triggers| }

  /** Trigger `t` fires: every flow waiting for it starts. */
  function Fire(p: Program, status: seq<Status>, t: nat): (r: seq<Status>)
    requires |status| == |p.flows|
    ensures |r| == |status|
  {
    seq(|status|, i requires 0 <= i < |status| =>
      if p.flows[i].trigger == Some(t) && status[i].Waiting? then Running else status[i])
  }

  ghost predicate CanFinish(p: Program, s: State, f: nat)
  {
    f < |s.status| && s.status[f].Running?
  }

  /** Flow `f` finishes. Activating a trigger that needs no more activations is the assertion failure of
      sim/trigger.cpp (lines 23 and 60). */
  ghost predicate ActivationOk(p: Program, s: State, f: nat)
    requires Fits(p, s) && f < |p.flows|
  {
    p.flows[f].sendDone.Some? ==>
      var t := p.flows[f].sendDone.value; 0 < t <= |s.left| && s.left[t - 1] > 0 && Waits(p.flows, t)
  }

  function Finish(p: Program, s: State, f: nat): (r: State)
    requires |s.status| == |p.flows| && f < |p.flows|
    requires p.flows[f].sendDone.Some? ==>
      0 < p.flows[f].sendDone.value <= |s.left| && s.left[p.flows[f].sendDone.value - 1] > 0
    ensures |r.status| == |s.status| && |r.left| == |s.left|
  {
    var status := s.status[f := Finished];
    if p.flows[f].sendDone.None? then s.(status := status)
    else
      var t := p.flows[f].sendDone.value;
      var left := s.left[t - 1] - 1;
      State(if left == 0 then Fire(p, status, t) else status, s.left[t - 1 := left])
  }

  /** Feeders of `t` that have not finished. */
  function Unfinished(fs: seq<FlowDef>, status: seq<Status>, t: nat): nat
    requires |status| == |fs|
  {
    if fs == [] then 0
    else (if fs[0].sendDone == Some(t) && !status[0].Finished? then 1 else 0) + Unfinished(fs[1..], status[1..], t)
  }

  ghost predicate StatusOk(p: Program, s: State, i: nat)
    requires Fits(p, s) && i < |p.flows|
  {
    if p.flows[i].trigger.Some? then
      var t := p.flows[i].trigger.value;
      0 < t <= |s.left| && (s.status[i].Waiting? <==> s.left[t - 1] > 0)
    else !s.status[i].Waiting?
  }

  ghost predicate Inv(p: Program, s: State)
  {
    && Fits(p, s)
    && (forall i :: 0 <= i < |s.left| ==> s.left[i] == Unfinished(p.flows, s.status, i + 1))
    && (forall i :: 0 <= i < |p.flows| ==> StatusOk(p, s, i))
  }

  lemma {:induction false} UnfinishedAtLaunch(fs: seq<FlowDef>, status: seq<Status>, t: nat)
    requires |status| == |fs| && forall i :: 0 <= i < |fs| ==> !status[i].Finished?
    ensures Unfinished(fs, status, t) == Feeders(fs, t)
  {
    if fs != [] { UnfinishedAtLaunch(fs[1..], status[1..], t); }
  }

  lemma {:induction false} UnfinishedZero(fs: seq<FlowDef>, status: seq<Status>, t: nat, f: nat)
    requires |status| == |fs| && f < |fs| && fs[f].sendDone == Some(t)
    ensures !status[f].Finished? ==> Unfinished(fs, status, t) > 0
  {
    if f > 0 { UnfinishedZero(fs[1..], status[1..], t, f - 1); }
  }

  lemma {:induction false} UnfinishedPositive(fs: seq<FlowDef>, status: seq<Status>, t: nat)
    requires |status| == |fs| && Unfinished(fs, status, t) > 0
    ensures exists f :: 0 <= f < |fs| && fs[f].sendDone == Some(t) && !status[f].Finished?
  {
    if fs[0].sendDone == Some(t) && !status[0].Finished? {
    } else {
      UnfinishedPositive(fs[1..], status[1..], t);
      var f :| 0 <= f < |fs[1..]| && fs[1..][f].sendDone == Some(t) && !status[1..][f].Finished?;
      assert fs[f + 1].sendDone == Some(t) && !status[f + 1].Finished?;
    }
  }

  /** Finishing one feeder lowers exactly its own trigger's count; which flows run is immaterial. */
  lemma {:induction false} UnfinishedAfter(fs: seq<FlowDef>, status: seq<Status>, after: seq<Status>, f: nat, t: nat)
    requires |status| == |after| == |fs| && f < |fs| && !status[f].Finished? && after[f].Finished?
    requires forall i :: 0 <= i < |fs| && i != f ==> (after[i].Finished? <==> status[i].Finished?)
    ensures Unfinished(fs, after, t) == Unfinished(fs, status, t) - (if fs[f].sendDone == Some(t) then 1 else 0)
  {
    if f == 0 {
      UnfinishedSame(fs[1..], status[1..], after[1..], t);
    } else {
      UnfinishedAfter(fs[1..], status[1..], after[1..], f - 1, t);
    }
  }

  lemma {:induction false} UnfinishedSame(fs: seq<FlowDef>, status: seq<Status>, after: seq<Status>, t: nat)
    requires |status| == |after| == |fs|
    requires forall i :: 0 <= i < |fs| ==> (after[i].Finished? <==> status[i].Finished?)
    ensures Unfinished(fs, after, t) == Unfinished(fs, status, t)
  {
    if fs != [] { UnfinishedSame(fs[1..], status[1..], after[1..], t); }
  }

  lemma InitialInv(p: Program)
    requires WellFormed(p)
    ensures Inv(p, Initial(p))
  {
    var s := Initial(p);
    forall i | 0 <= i < |s.left| ensures s.left[i] == Unfinished(p.flows, s.status, i + 1) {
      UnfinishedAtLaunch(p.flows, s.status, i + 1);
      assert TriggerOk(p.flows, p.triggers[i], 0 + 1 + i);
    }
    forall i | 0 <= i < |p.flows| ensures StatusOk(p, s, i) {
      assert RefsOk(p.flows[i], 0, |p.triggers|, None, None);
      if p.flows[i].trigger.Some? {
        var t := p.flows[i].trigger.value;
        assert TriggerOk(p.flows, p.triggers[t - 1], 0 + 1 + (t - 1));
      }
    }
  }

  ghost function Launch(p: Program): (s: State)
    requires WellFormed(p)
    ensures Inv(p, s)
  {
    InitialInv(p);
    Initial(p)
  }

  /** The assertions of the triggers cannot fire: a finishing flow always finds its trigger still short of
      activations, and with flows to start. */
  lemma ActivationsAreOk(p: Program, s: State, f: nat)
    requires WellFormed(p) && Inv(p, s) && CanFinish(p, s, f)
    ensures f < |p.flows| && ActivationOk(p, s, f)
  {
    assert RefsOk(p.flows[f], 0, |p.triggers|, None, None);
    if p.flows[f].sendDone.Some? {
      var t := p.flows[f].sendDone.value;
      UnfinishedZero(p.flows, s.status, t, f);
      assert s.left[t - 1] == Unfinished(p.flows, s.status, t - 1 + 1);
      assert TriggerOk(p.flows, p.triggers[t - 1], 0 + 1 + (t - 1));
    }
  }

  lemma FinishInv(p: Program, s: State, f: nat)
    requires WellFormed(p) && Inv(p, s) && CanFinish(p, s, f)
    ensures f < |p.flows| && ActivationOk(p, s, f) && Inv(p, Finish(p, s, f))
  {
    ActivationsAreOk(p, s, f);
    var r := Finish(p, s, f);
    forall i | 0 <= i < |r.left| ensures r.left[i] == Unfinished(p.flows, r.status, i + 1) {
      UnfinishedAfter(p.flows, s.status, r.status, f, i + 1);
    }
    forall i | 0 <= i < |p.flows| ensures StatusOk(p, r, i) {
      assert StatusOk(p, s, i);
    }
  }

  // ---------------------------------------------------------------- runs

  ghost predicate CanRun(p: Program, s: State, run: seq<nat>)
    requires WellFormed(p) && Inv(p, s)
    decreases |run|
  {
    run == [] || (CanFinish(p, s, run[0]) && (FinishInv(p, s, run[0]); CanRun(p, Finish(p, s, run[0]), run[1..])))
  }

  ghost function After(p: Program, s: State, run: seq<nat>): (r: State)
    requires WellFormed(p) && Inv(p, s) && CanRun(p, s, run)
    ensures Inv(p, r)
    decreases |run|
  {
    if run == [] then s else FinishInv(p, s, run[0]); After(p, Finish(p, s, run[0]), run[1..])
  }

  /** Deadlock freedom: while some flow is unfinished, the first unfinished flow of the list is running. */
  lemma FirstUnfinishedRuns(p: Program, s: State, f: nat)
    requires WellFormed(p) && Inv(p, s) && f < |p.flows| && !s.status[f].Finished?
    requires forall i :: 0 <= i < f ==> s.status[i].Finished?
    ensures s.status[f].Running?
  {
    assert StatusOk(p, s, f);
    if s.status[f].Waiting? {
      var t := p.flows[f].trigger.value;
      assert s.left[t - 1] == Unfinished(p.flows, s.status, t - 1 + 1);
      assert TriggerOk(p.flows, p.triggers[t - 1], 0 + 1 + (t - 1));
      UnfinishedPositive(p.flows, s.status, t);
    }
  }

  function FinishedCount(status: seq<Status>): nat
  {
    if status == [] then 0
    else (if status[|status| - 1].Finished? then 1 else 0) + FinishedCount(status[..|status| - 1])
  }

  lemma {:induction false} CountBound(status: seq<Status>)
    ensures FinishedCount(status) <= |status|
    ensures FinishedCount(status) == |status| <==> forall i :: 0 <= i < |status| ==> status[i].Finished?
  {
    if status != [] {
      var front := status[..|status| - 1];
      CountBound(front);
      assert forall i :: 0 <= i < |front| ==> front[i] == status[i];
    }
  }

  lemma {:induction false} CountAfter(status: seq<Status>, after: seq<Status>, f: nat)
    requires |status| == |after| && f < |status| && !status[f].Finished? && after[f].Finished?
    requires forall i :: 0 <= i < |status| && i != f ==> (after[i].Finished? <==> status[i].Finished?)
    ensures FinishedCount(after) == FinishedCount(status) + 1
  {
    var n := |status| - 1;
    if f == n { CountSame(status[..n], after[..n]); } else { CountAfter(status[..n], after[..n], f); }
  }

  lemma {:induction false} CountSame(status: seq<Status>, after: seq<Status>)
    requires |status| == |after|
    requires forall i :: 0 <= i < |status| ==> (after[i].Finished? <==> status[i].Finished?)
    ensures FinishedCount(after) == FinishedCount(status)
  {
    if status != [] { CountSame(status[..|status| - 1], after[..|status| - 1]); }
  }

  /** Every order of completions is as long as any other: a run finishes one flow per step. */
  lemma {:induction false} RunCounts(p: Program, s: State, run: seq<nat>)
    requires WellFormed(p) && Inv(p, s) && CanRun(p, s, run)
    ensures FinishedCount(After(p, s, run).status) == FinishedCount(s.status) + |run|
    decreases |run|
  {
    if run != [] {
      FinishInv(p, s, run[0]);
      CountAfter(s.status, Finish(p, s, run[0]).status, run[0]);
      RunCounts(p, Finish(p, s, run[0]), run[1..]);
    }
  }

  lemma {:induction false} LeastUnfinished(status: seq<Status>, from: nat) returns (f: nat)
    requires from <= |status| && (forall i :: 0 <= i < from ==> status[i].Finished?)
    requires exists i :: 0 <= i < |status| && !status[i].Finished?
    ensures f < |status| && !status[f].Finished? && forall i :: 0 <= i < f ==> status[i].Finished?
    decreases |status| - from
  {
    if from < |status| && status[from].Finished? { f := LeastUnfinished(status, from + 1); } else { f := from; }
  }

  /** No run gets stuck and none goes on for ever: a run from the launch has at most one step per flow, and it
      cannot be continued exactly when every flow has finished, which is after one step per flow. */
  lemma RunsFinishEverything(p: Program, run: seq<nat>)
    requires WellFormed(p) && CanRun(p, Launch(p), run)
    ensures |run| <= |p.flows|
    ensures var s := After(p, Launch(p), run);
      && ((forall f: nat :: !CanFinish(p, s, f)) <==> |run| == |p.flows|)
      && (|run| == |p.flows| <==> forall i :: 0 <= i < |p.flows| ==> s.status[i].Finished?)
  {
    var s0 := Launch(p);
    var s := After(p, s0, run);
    LaunchedCount(s0.status);
    RunCounts(p, s0, run);
    CountBound(s.status);
    if exists i :: 0 <= i < |s.status| && !s.status[i].Finished? {
      var f := LeastUnfinished(s.status, 0);
      FirstUnfinishedRuns(p, s, f);
      assert CanFinish(p, s, f);
    }
  }

  lemma {:induction false} LaunchedCount(status: seq<Status>)
    requires forall i :: 0 <= i < |status| ==> !status[i].Finished?
    ensures FinishedCount(status) == 0
  {
    if status != [] { LaunchedCount(status[..|status| - 1]); }
  }

  /** A flow that has started proves that everything feeding its trigger has finished. */
  lemma StartedMeansFed(p: Program, s: State, f: nat, g: nat)
    requires WellFormed(p) && Inv(p, s) && f < |p.flows| && g < |p.flows|
    requires p.flows[g].trigger.Some? && p.flows[f].sendDone == p.flows[g].trigger && !s.status[g].Waiting?
    ensures s.status[f].Finished?
  {
    var t := p.flows[g].trigger.value;
    assert StatusOk(p, s, g);
    assert s.left[t - 1] == Unfinished(p.flows, s.status, t - 1 + 1);
    UnfinishedZero(p.flows, s.status, t, f);
  }

  // ---------------------------------------------------------------- what can finish without what

  ghost predicate Feeds(p: Program, f: nat, g: nat)
  {
    f < |p.flows| && g < |p.flows| && p.flows[g].trigger.Some? && p.flows[f].sendDone == p.flows[g].trigger
  }

  /** With a flow, everything it helps to start. */
  ghost predicate Closed(p: Program, u: set<nat>)
  {
    forall f, g :: f in u && Feeds(p, f, g) ==> g in u
  }

  /** The finished flows are those below `n` that are not in `u`. */
  ghost predicate FinishedBut(s: State, u: set<nat>, n: nat)
  {
    forall f :: 0 <= f < |s.status| ==> (s.status[f].Finished? <==> f < n && f !in u)
  }

  lemma {:induction false} RunSnoc(p: Program, s: State, run: seq<nat>, f: nat)
    requires WellFormed(p) && Inv(p, s) && CanRun(p, s, run) && CanFinish(p, After(p, s, run), f)
    ensures f < |p.flows| && ActivationOk(p, After(p, s, run), f)
    ensures CanRun(p, s, run + [f]) && After(p, s, run + [f]) == Finish(p, After(p, s, run), f)
    decreases |run|
  {
    FinishInv(p, After(p, s, run), f);
    if run == [] {
      assert [f][1..] == [];
      assert CanRun(p, Finish(p, s, f), []);
      assert [] + [f] == [f];
    } else {
      FinishInv(p, s, run[0]);
      assert (run + [f])[1..] == run[1..] + [f];
      RunSnoc(p, Finish(p, s, run[0]), run[1..], f);
    }
  }

  lemma NextRuns(p: Program, s: State, u: set<nat>, f: nat)
    requires WellFormed(p) && Inv(p, s) && Closed(p, u) && f < |p.flows| && f !in u && FinishedBut(s, u, f)
    ensures CanFinish(p, s, f)
  {
    assert StatusOk(p, s, f);
    if s.status[f].Waiting? {
      var t := p.flows[f].trigger.value;
      assert s.left[t - 1] == Unfinished(p.flows, s.status, t - 1 + 1);
      assert TriggerOk(p.flows, p.triggers[t - 1], 0 + 1 + (t - 1));
      UnfinishedPositive(p.flows, s.status, t);
      var h :| 0 <= h < |p.flows| && p.flows[h].sendDone == Some(t) && !s.status[h].Finished?;
      assert Feeds(p, h, f);
    }
  }

  lemma FinishNext(p: Program, s: State, u: set<nat>, f: nat)
    requires WellFormed(p) && Inv(p, s) && f < |p.flows| && f !in u && FinishedBut(s, u, f) && CanFinish(p, s, f)
    ensures ActivationOk(p, s, f) && FinishedBut(Finish(p, s, f), u, f + 1)
  {
    FinishInv(p, s, f);
  }

  /** Only what depends on a flow has to wait for it: if `u` contains with a flow everything it helps to start,
      there is a run that finishes every flow below `n` outside `u`, and nothing else. */
  lemma {:induction false} AllBut(p: Program, u: set<nat>, n: nat) returns (run: seq<nat>)
    requires WellFormed(p) && Closed(p, u) && n <= |p.flows|
    ensures CanRun(p, Launch(p), run) && FinishedBut(After(p, Launch(p), run), u, n)
    decreases n
  {
    if n == 0 {
      run := [];
    } else {
      run := AllBut(p, u, n - 1);
      var s := After(p, Launch(p), run);
      if n - 1 !in u {
        NextRuns(p, s, u, n - 1);
        FinishNext(p, s, u, n - 1);
        RunSnoc(p, Launch(p), run, n - 1);
        run := run + [n - 1];
      }
    }
  }
}
