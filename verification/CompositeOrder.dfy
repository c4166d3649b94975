/** The order in which the trimming queue sends, whom an arrival costs its payload, and who is turned away
    (sim/compositequeue.cpp:79-267). */
module CompositeOrder {
  import opened CompositeQueues
  import opened Transfers

  // ---------------------------------------------------------------- what an arrival does

  /** The packet an arrival makes a header of, if any: with no room for it, a data packet costs itself its payload, or
      (`coin`) the last data packet waiting. */
  function Trimmed(c: Config, q: Queue, p: Packet, coin: bool): seq<Packet>
    requires !Fails(c, q, p, coin)
  {
    if p.header || q.lowBytes + p.size <= c.maxSize then [] else if coin then [q.low[|q.low| - 1]] else [p]
  }

  /** The header that an arrival brings to the header queue, if any: the arriving one, or the trimmed packet's. */
  function Header(c: Config, q: Queue, p: Packet, coin: bool): seq<Packet>
    requires !Fails(c, q, p, coin)
  {
    if p.header then [p]
    else if Trimmed(c, q, p, coin) == [] then []
    else [Trimmed(c, q, p, coin)[0].(header := true, size := 64)]
  }

  /** The data queue takes a data packet that fits, or that the draw spares, in which case its last packet goes. */
  lemma DataArrival(c: Config, q: Queue, p: Packet, coin: bool)
    requires !Fails(c, q, p, coin)
    ensures Receive(c, q, p, coin).0.low
         == if p.header then q.low
            else if q.lowBytes + p.size <= c.maxSize then q.low + [p]
            else if coin then q.low[..|q.low| - 1] + [p] else q.low
    ensures Receive(c, q, p, coin).0.stripped == q.stripped + |Trimmed(c, q, p, coin)|
  {
  }

  /** A header joins the header queue if it does not pass twice the limit; otherwise it goes back to its sender if that
      is wanted, it has a way back and was not returned before, and else it is dropped. */
  lemma HeaderArrival(c: Config, q: Queue, p: Packet, coin: bool)
    requires !Fails(c, q, p, coin)
    ensures var (r, exit) := Receive(c, q, p, coin); var h := Header(c, q, p, coin);
      && (h == [] ==> r.high == q.high && exit.Stays?)
      && (h != [] && q.highBytes + h[0].size <= 2 * c.maxSize ==> r.high == q.high + h && exit.Stays?)
      && (h != [] && q.highBytes + h[0].size > 2 * c.maxSize ==> r.high == q.high && exit == Refused(c, h[0]))
  {
  }

  function Refused(c: Config, h: Packet): Exit
  {
    if c.returnToSender && h.reverse && !h.bounced then Bounced(h.(bounced := true)) else Dropped(h)
  }

  // ---------------------------------------------------------------- order

  function Headers(s: seq<Packet>, header: bool): seq<Packet>
  {
    if s == [] then []
    else Headers(s[..|s| - 1], header) + if s[|s| - 1].header == header then [s[|s| - 1]] else []
  }

  lemma HeadersSnoc(s: seq<Packet>, p: Packet, header: bool)
    ensures Headers(s + [p], header) == Headers(s, header) + if p.header == header then [p] else []
  {
    assert (s + [p])[..|s|] == s;
  }

  /** The headers, or the data packets, in the order they were sent and will be sent. */
  function Line(w: World, header: bool): seq<Packet>
  {
    Headers(w.sent, header) + if header then w.q.high else w.q.low
  }

  lemma ServeTakes(c: Config, q: Queue)
    requires Inv(c, q) && !q.serving.Idle?
    ensures var (r, p) := Complete(c, q);
      if q.serving.High?
      then q.high != [] && p == q.high[0] && p.header && r.high == q.high[1..] && r.low == q.low
      else q.low != [] && p == q.low[0] && !p.header && r.low == q.low[1..] && r.high == q.high
  {
  }

  lemma FirstMoves(sent: seq<Packet>, line: seq<Packet>)
    requires line != []
    ensures sent + [line[0]] + line[1..] == sent + line
  {
  }

  /** A service sends the first of a line. */
  lemma ServeKeepsLines(c: Config, w: World, header: bool)
    requires Inv(c, w.q) && Enabled(c, w, Serve)
    ensures Line(Apply(c, w, Serve), header) == Line(w, header)
  {
    var p := Complete(c, w.q).1;
    ServeTakes(c, w.q);
    HeadersSnoc(w.sent, p, header);
    if p.header == header { FirstMoves(Headers(w.sent, header), if header then w.q.high else w.q.low); }
  }

  lemma ArriveExtendsLines(c: Config, w: World, p: Packet, coin: bool)
    requires Inv(c, w.q) && Enabled(c, w, Arrive(p, coin))
    ensures var t := Apply(c, w, Arrive(p, coin));
      && t.sent == w.sent && w.q.high <= t.q.high && |t.q.high| <= |w.q.high| + 1
  {
    HeaderArrival(c, w.q, p, coin);
  }

  /** Headers leave in the order in which they joined the queue: whatever happens, a line of headers only grows at its
      end. */
  lemma {:induction false} HeadersInOrder(c: Config, w: World, run: seq<Action>)
    requires Inv(c, w.q) && CanRun(c, w, run)
    ensures Line(w, true) <= Line(After(c, w, run), true)
    decreases |run|
  {
    if run != [] {
      var t := Apply(c, w, run[0]);
      StepInv(c, w, run[0]);
      match run[0] {
        case Arrive(p, coin) =>
          ArriveExtendsLines(c, w, p, coin);
          assert Line(w, true) <= Line(t, true);
        case Serve => ServeKeepsLines(c, w, true);
      }
      HeadersInOrder(c, t, run[1..]);
    }
  }

  /** `a` is what is left of `b` after taking some packets out. */
  predicate Within(a: seq<Packet>, b: seq<Packet>)
    decreases |b|
  {
    || a == []
    || (b != [] && a[|a| - 1] == b[|b| - 1] && Within(a[..|a| - 1], b[..|b| - 1]))
    || (b != [] && Within(a, b[..|b| - 1]))
  }

  lemma WithinSnoc(a: seq<Packet>, b: seq<Packet>, x: Packet)
    requires Within(a, b)
    ensures Within(a, b + [x]) && Within(a + [x], b + [x])
  {
    assert (b + [x])[..|b|] == b && (a + [x])[..|a|] == a;
  }

  lemma {:induction false} WithinFront(a: seq<Packet>, b: seq<Packet>)
    requires Within(a, b) && a != []
    ensures Within(a[..|a| - 1], b)
    decreases |b|
  {
    var x, n := b[|b| - 1], |b| - 1;
    assert b == b[..n] + [x];
    if a[|a| - 1] == x && Within(a[..|a| - 1], b[..n]) {
      WithinSnoc(a[..|a| - 1], b[..n], x);
    } else {
      WithinFront(a, b[..n]);
      WithinSnoc(a[..|a| - 1], b[..n], x);
    }
  }

  /** What is still to leave as data stands in the order of arrival. */
  ghost predicate DataOrdered(w: World) { Within(Line(w, false), Headers(w.arrived, false)) }

  /** The line of data packets loses its last one, or not, and gains the arriving one, or not. */
  lemma LineChange(line: seq<Packet>, all: seq<Packet>, p: Packet, drop: bool)
    requires Within(line, all) && (drop ==> line != [])
    ensures var kept := if drop then line[..|line| - 1] else line;
      Within(kept + [p], all + [p]) && Within(kept, all + [p])
  {
    if drop {
      WithinFront(line, all);
      WithinSnoc(line[..|line| - 1], all, p);
    } else {
      WithinSnoc(line, all, p);
    }
  }

  lemma TailDropped(sent: seq<Packet>, low: seq<Packet>)
    requires low != []
    ensures (sent + low)[..|sent + low| - 1] == sent + low[..|low| - 1]
  {
  }

  lemma Regrouped(a: seq<Packet>, b: seq<Packet>, d: seq<Packet>)
    ensures a + (b + d) == (a + b) + d
  {
  }

  lemma LowAfter(c: Config, w: World, p: Packet, coin: bool)
    requires Inv(c, w.q) && Enabled(c, w, Arrive(p, coin)) && !p.header
    ensures var t := Apply(c, w, Arrive(p, coin)); var full := w.q.lowBytes + p.size > c.maxSize;
      && t.sent == w.sent && (full && coin ==> w.q.low != [])
      && t.q.low == (if full && coin then w.q.low[..|w.q.low| - 1] else w.q.low) + if full && !coin then [] else [p]
  {
    DataArrival(c, w.q, p, coin);
  }

  lemma DataLine(c: Config, w: World, p: Packet, coin: bool)
    requires Inv(c, w.q) && Enabled(c, w, Arrive(p, coin)) && !p.header
    ensures var line := Line(w, false); var full := w.q.lowBytes + p.size > c.maxSize;
      && (full && coin ==> line != [])
      && Line(Apply(c, w, Arrive(p, coin)), false)
           == (if full && coin then line[..|line| - 1] else line) + if full && !coin then [] else [p]
  {
    var sent, low, full := Headers(w.sent, false), w.q.low, w.q.lowBytes + p.size > c.maxSize;
    LowAfter(c, w, p, coin);
    if full && coin { TailDropped(sent, low); }
    Regrouped(sent, if full && coin then low[..|low| - 1] else low, if full && !coin then [] else [p]);
  }

  lemma HeaderOrdered(c: Config, w: World, p: Packet, coin: bool)
    requires Inv(c, w.q) && Enabled(c, w, Arrive(p, coin)) && p.header
    ensures var t := Apply(c, w, Arrive(p, coin));
      Line(t, false) == Line(w, false) && Headers(t.arrived, false) == Headers(w.arrived, false)
  {
    DataArrival(c, w.q, p, coin);
    HeadersSnoc(w.arrived, p, false);
    assert Headers(w.arrived, false) + [] == Headers(w.arrived, false);
  }

  lemma ArriveOrdered(c: Config, w: World, p: Packet, coin: bool)
    requires Inv(c, w.q) && Enabled(c, w, Arrive(p, coin)) && DataOrdered(w)
    ensures DataOrdered(Apply(c, w, Arrive(p, coin)))
  {
    if p.header {
      HeaderOrdered(c, w, p, coin);
    } else {
      var line, full := Line(w, false), w.q.lowBytes + p.size > c.maxSize;
      HeadersSnoc(w.arrived, p, false);
      DataLine(c, w, p, coin);
      LineChange(line, Headers(w.arrived, false), p, full && coin);
      assert line + [] == line;
    }
  }

  lemma {:induction false} RunOrdered(c: Config, w: World, run: seq<Action>)
    requires Inv(c, w.q) && CanRun(c, w, run) && DataOrdered(w)
    ensures DataOrdered(After(c, w, run))
    decreases |run|
  {
    if run != [] {
      StepInv(c, w, run[0]);
      match run[0] {
        case Arrive(p, coin) => ArriveOrdered(c, w, p, coin);
        case Serve => ServeKeepsLines(c, w, false);
      }
      RunOrdered(c, Apply(c, w, run[0]), run[1..]);
    }
  }

  /** In every run the data packets sent, and after them those waiting, stand in the order in which they arrived. */
  lemma DataInOrder(c: Config, run: seq<Action>)
    requires CanRun(c, Start(), run)
    ensures var w := After(c, Start(), run); Within(Headers(w.sent, false) + w.q.low, Headers(w.arrived, false))
  {
    RunOrdered(c, Start(), run);
  }

  // ---------------------------------------------------------------- trimming

  /** Before an arrival: is it a data packet that does not fit? */
  predicate Crowds(c: Config, q: Queue, a: Action) { a.Arrive? && !a.pkt.header && q.lowBytes + a.pkt.size > c.maxSize }

  ghost function Crowding(c: Config, w: World, run: seq<Action>): nat
    requires Inv(c, w.q) && CanRun(c, w, run)
    decreases |run|
  {
    if run == [] then 0
    else StepInv(c, w, run[0]); One(Crowds(c, w.q, run[0])) + Crowding(c, Apply(c, w, run[0]), run[1..])
  }

  lemma StepTrims(c: Config, w: World, a: Action)
    requires Inv(c, w.q) && Enabled(c, w, a)
    ensures Apply(c, w, a).q.stripped == w.q.stripped + One(Crowds(c, w.q, a))
  {
    if a.Arrive? { DataArrival(c, w.q, a.pkt, a.coin); }
  }

  lemma {:induction false} RunTrims(c: Config, w: World, run: seq<Action>)
    requires Inv(c, w.q) && CanRun(c, w, run)
    ensures After(c, w, run).q.stripped == w.q.stripped + Crowding(c, w, run)
    decreases |run|
  {
    if run != [] {
      StepTrims(c, w, run[0]);
      StepInv(c, w, run[0]);
      RunTrims(c, Apply(c, w, run[0]), run[1..]);
    }
  }

  /** In every run one packet is trimmed for every data packet that arrived without fitting, and the trim counter
      counts them. */
  lemma TrimsAreCounted(c: Config, run: seq<Action>)
    requires CanRun(c, Start(), run)
    ensures After(c, Start(), run).q.stripped == Crowding(c, Start(), run)
  {
    RunTrims(c, Start(), run);
  }
}
