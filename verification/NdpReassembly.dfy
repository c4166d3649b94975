/** Out-of-order reassembly at an NDP receiver (sim/ndp.cpp:1549-1608). Sequence numbers count bytes from 1, and
    all segments of a flow have the same size. */
module NdpReassembly {
  import opened Counting
  import opened Sequences

  datatype Sink = Sink(cumulativeAck: nat, received: seq<nat>)

  /** The numbers that segments of `size` bytes begin at: 1, size + 1, 2 * size + 1, ... */
  predicate Begins(x: nat, size: nat)
    requires 0 < size
  {
    0 < x && Rem(x - 1, size) == 0
  }

  ghost predicate Increasing(s: seq<nat>)
  {
    forall i, j :: 0 <= i < j < |s| ==> s[i] < s[j]
  }

  // ---------------------------------------------------------------- the operations

  /** Queued segments that have become next in line are acknowledged too. */
  function Absorb(s: Sink, size: nat): Sink
    decreases |s.received|
  {
    if s.received != [] && s.received[0] == s.cumulativeAck + 1 then
      Absorb(Sink(s.cumulativeAck + size, s.received[1..]), size)
    else s
  }

  function Insert(s: seq<nat>, x: nat): seq<nat>
  {
    if s == [] || x < s[0] then [x] + s
    else if x == s[0] then s
    else [s[0]] + Insert(s[1..], x)
  }

  function Receive(s: Sink, x: nat, size: nat): Sink
    requires 0 < x && 0 < size
  {
    if x == s.cumulativeAck + 1 then Absorb(s.(cumulativeAck := x + size - 1), size)
    else if x < s.cumulativeAck + 1 then s
    else s.(received := Insert(s.received, x))
  }

  // ---------------------------------------------------------------- what the state stands for

  /** Everything up to `cum` has arrived; `cum` falls between segments. */
  ghost predicate Prefix(cum: nat, arrived: set<nat>, size: nat)
    requires 0 < size
  {
    Begins(cum + 1, size) && forall x: nat :: Begins(x, size) && x <= cum ==> x in arrived
  }

  ghost predicate Beyond(received: seq<nat>, cum: nat, arrived: set<nat>)
  {
    Increasing(received) && forall x: nat :: x in received <==> x in arrived && cum < x
  }

  /** The state after exactly the segments in `arrived` have arrived: the cumulative acknowledgement is the
      longest prefix without a hole, and the list holds the rest in increasing order. */
  ghost predicate Rep(s: Sink, arrived: set<nat>, size: nat)
    requires 0 < size
  {
    && (forall x :: x in arrived ==> Begins(x, size))
    && Prefix(s.cumulativeAck, arrived, size) && s.cumulativeAck + 1 !in arrived
    && Beyond(s.received, s.cumulativeAck, arrived)
  }

  lemma NextBegins(x: nat, size: nat)
    requires 0 < size && Begins(x, size)
    ensures Begins(x + size, size)
    ensures forall y: nat :: Begins(y, size) && x < y ==> x + size <= y
  {
    ModShift(x - 1, 1, size);
    assert x + size - 1 == x - 1 + 1 * size;
    forall y: nat | Begins(y, size) && x < y ensures x + size <= y {
      SameClass(x - 1, y - 1, size);
    }
  }

  /** With the segment at `cum + 1` present as well, absorbing restores the representation. */
  lemma {:induction false} AbsorbRep(s: Sink, arrived: set<nat>, size: nat)
    requires 0 < size && forall x :: x in arrived ==> Begins(x, size)
    requires Prefix(s.cumulativeAck, arrived, size) && Beyond(s.received, s.cumulativeAck, arrived)
    ensures Rep(Absorb(s, size), arrived, size)
    decreases |s.received|
  {
    var next := s.cumulativeAck + 1;
    if next in arrived {
      HeadIsNext(s, arrived);
      NextBegins(next, size);
      TailBeyond(s.received, s.cumulativeAck, arrived, size);
      AbsorbRep(Sink(s.cumulativeAck + size, s.received[1..]), arrived, size);
    } else if s.received != [] {
      assert s.received[0] in s.received;
    }
  }

  lemma HeadIsNext(s: Sink, arrived: set<nat>)
    requires Beyond(s.received, s.cumulativeAck, arrived) && s.cumulativeAck + 1 in arrived
    ensures s.received != [] && s.received[0] == s.cumulativeAck + 1
  {
    assert forall j :: 0 < j < |s.received| ==> s.received[0] < s.received[j];
    assert s.cumulativeAck + 1 in s.received;
    assert s.received[0] in s.received;
  }

  lemma TailBeyond(received: seq<nat>, cum: nat, arrived: set<nat>, size: nat)
    requires 0 < size && Beyond(received, cum, arrived) && received != [] && received[0] == cum + 1
    requires forall x :: x in arrived ==> Begins(x, size)
    requires forall y: nat :: Begins(y, size) && cum + 1 < y ==> cum + 1 + size <= y
    ensures Beyond(received[1..], cum + size, arrived)
  {
    var rest := received[1..];
    assert received == [received[0]] + rest;
    forall x: nat ensures x in rest <==> x in arrived && cum + size < x {
      if x in rest { assert received[0] < x; }
    }
  }

  lemma {:induction false} InsertBeyond(received: seq<nat>, cum: nat, arrived: set<nat>, x: nat)
    requires Beyond(received, cum, arrived) && cum < x
    ensures Beyond(Insert(received, x), cum, arrived + {x})
  {
    InsertMembers(received, x);
  }

  lemma {:induction false} InsertMembers(s: seq<nat>, x: nat)
    requires Increasing(s)
    ensures Increasing(Insert(s, x))
    ensures forall y: nat :: y in Insert(s, x) <==> y in s || y == x
  {
    if s != [] && s[0] < x {
      InsertMembers(s[1..], x);
      var r := Insert(s[1..], x);
      assert s == [s[0]] + s[1..];
      forall j | 0 <= j < |r| ensures s[0] < r[j] {
        assert r[j] in r;
        assert r[j] in s[1..] ==> s[0] < r[j];
      }
    }
  }

  /** The longest received prefix is tracked exactly, whatever arrives: next in line, an old duplicate, a
      queued duplicate, or a segment that fills or leaves a hole. */
  lemma ReceiveRep(s: Sink, arrived: set<nat>, x: nat, size: nat)
    requires 0 < size && Rep(s, arrived, size) && Begins(x, size)
    ensures Rep(Receive(s, x, size), arrived + {x}, size)
  {
    var cum := s.cumulativeAck;
    if x == cum + 1 {
      NextBegins(x, size);
      assert Prefix(x + size - 1, arrived + {x}, size);
      forall y: nat ensures y in s.received <==> y in arrived + {x} && x + size - 1 < y {
      }
      AbsorbRep(s.(cumulativeAck := x + size - 1), arrived + {x}, size);
    } else if x < cum + 1 {
      assert arrived + {x} == arrived;
    } else {
      InsertBeyond(s.received, cum, arrived, x);
    }
  }

  // ---------------------------------------------------------------- arrivals in any order

  function Run(s: Sink, xs: seq<nat>, size: nat): Sink
    requires 0 < size && forall i :: 0 <= i < |xs| ==> Begins(xs[i], size)
    decreases |xs|
  {
    if xs == [] then s else assert Begins(xs[0], size); Run(Receive(s, xs[0], size), xs[1..], size)
  }

  lemma {:induction false} RunRep(s: Sink, arrived: set<nat>, xs: seq<nat>, size: nat)
    requires 0 < size && Rep(s, arrived, size) && forall i :: 0 <= i < |xs| ==> Begins(xs[i], size)
    ensures Rep(Run(s, xs, size), arrived + Members(xs), size)
    decreases |xs|
  {
    if xs == [] {
      assert arrived + Members(xs) == arrived;
    } else {
      ReceiveRep(s, arrived, xs[0], size);
      RunRep(Receive(s, xs[0], size), arrived + {xs[0]}, xs[1..], size);
      assert xs == [xs[0]] + xs[1..];
      assert arrived + {xs[0]} + Members(xs[1..]) == arrived + Members(xs);
    }
  }

  lemma {:induction false} SameList(a: seq<nat>, b: seq<nat>)
    requires Increasing(a) && Increasing(b) && forall x: nat :: x in a <==> x in b
    ensures a == b
    decreases |a|
  {
    assert a != [] ==> a[0] in a;
    assert b != [] ==> b[0] in b;
    if a != [] {
      SameHead(a, b);
      var s, t := a[1..], b[1..];
      assert a == [a[0]] + s && b == [b[0]] + t;
      assert forall x :: x in s ==> a[0] < x;
      assert forall x :: x in t ==> a[0] < x;
      forall x: nat ensures x in s <==> x in t {
        assert x in a <==> x in b;
      }
      SameList(s, t);
    }
  }

  lemma SameHead(a: seq<nat>, b: seq<nat>)
    requires Increasing(a) && Increasing(b) && (forall x: nat :: x in a <==> x in b) && a != [] && b != []
    ensures a[0] == b[0]
  {
    assert a[0] in a && b[0] in b;
    var i :| 0 <= i < |b| && b[i] == a[0];
    var j :| 0 <= j < |a| && a[j] == b[0];
  }

  /** A set of segments is represented by one state only. */
  lemma RepUnique(s: Sink, t: Sink, arrived: set<nat>, size: nat)
    requires 0 < size && Rep(s, arrived, size) && Rep(t, arrived, size)
    ensures s == t
  {
    assert s.cumulativeAck < t.cumulativeAck ==> s.cumulativeAck + 1 in arrived;
    assert t.cumulativeAck < s.cumulativeAck ==> t.cumulativeAck + 1 in arrived;
    SameList(s.received, t.received);
  }

  /** The final state depends only on which segments arrived, not on their order or on duplicates. */
  lemma OrderIsImmaterial(xs: seq<nat>, ys: seq<nat>, size: nat)
    requires 0 < size && (forall i :: 0 <= i < |xs| ==> Begins(xs[i], size))
    requires (forall i :: 0 <= i < |ys| ==> Begins(ys[i], size)) && Members(xs) == Members(ys)
    ensures Run(Sink(0, []), xs, size) == Run(Sink(0, []), ys, size)
  {
    SmallRem(size);
    RunRep(Sink(0, []), {}, xs, size);
    RunRep(Sink(0, []), {}, ys, size);
    assert {} + Members(xs) == {} + Members(ys);
    RepUnique(Run(Sink(0, []), xs, size), Run(Sink(0, []), ys, size), {} + Members(xs), size);
  }

  lemma SmallRem(size: nat)
    requires 0 < size
    ensures Begins(1, size)
  {
    DivModUnique(0, 0, size);
  }

  /** The flow is seen as complete exactly when its last segment and everything before it have arrived, and
      nothing after it. */
  lemma CompleteIff(s: Sink, arrived: set<nat>, last: nat, size: nat)
    requires 0 < size && Rep(s, arrived, size) && Begins(last, size)
    requires forall x :: x in arrived ==> x <= last
    ensures s.cumulativeAck == last + size - 1 <==> forall x: nat :: Begins(x, size) && x <= last ==> x in arrived
  {
    NextBegins(last, size);
    if forall x: nat :: Begins(x, size) && x <= last ==> x in arrived {
      assert s.cumulativeAck + 1 > last;
      if s.cumulativeAck > 0 {
        CumIsSegmentEnd(s.cumulativeAck, last, arrived, size);
      }
    }
  }

  lemma CumIsSegmentEnd(cum: nat, last: nat, arrived: set<nat>, size: nat)
    requires 0 < size && Prefix(cum, arrived, size) && Begins(last, size) && last <= cum
    requires forall x :: x in arrived ==> x <= last
    ensures cum == last + size - 1
  {
    NextBegins(last, size);
    assert last + size <= cum ==> last + size in arrived;
  }

  lemma {:induction false} InsertLast(list: seq<nat>, seqno: nat)
    requires list != [] && Increasing(list) && seqno > list[|list| - 1]
    ensures Insert(list, seqno) == list + [seqno]
  {
    if |list| > 1 {
      assert list[0] < list[|list| - 1];
      InsertLast(list[1..], seqno);
      assert list == [list[0]] + list[1..];
    }
  }

  class NdpSink {
    const segment: nat            // the size of all segments of the flow
    var cumulativeAck: nat
    var received: seq<nat>
    var lastPacketSeqno: nat
    ghost var arrived: set<nat>

    ghost predicate Valid()
      reads this
    {
      0 < segment && Rep(View(), arrived, segment)
    }

    ghost function View(): Sink
      reads this
    {
      Sink(cumulativeAck, received)
    }

    constructor (segment: nat)
      requires 0 < segment
      ensures Valid() && this.segment == segment && View() == Sink(0, []) && lastPacketSeqno == 0 && arrived == {}
    {
      this.segment, cumulativeAck, received, lastPacketSeqno, arrived := segment, 0, [], 0, {};
      new;
      SmallRem(segment);
    }

    /** `finished`: everything up to the end of the last packet has been acknowledged. */
    method ReceivePacket(seqno: nat, size: nat, lastPacket: bool) returns (finished: bool)
      requires Valid() && size == segment && Begins(seqno, size)
      modifies this
      ensures Valid() && arrived == old(arrived) + {seqno}
      ensures View() == Receive(old(View()), seqno, size)
      ensures lastPacketSeqno == if lastPacket then seqno + size - 1 else old(lastPacketSeqno)
      ensures finished <==> lastPacketSeqno > 0 && cumulativeAck == lastPacketSeqno
    {
      ReceiveRep(View(), arrived, seqno, size);
      arrived := arrived + {seqno};
      if lastPacket { lastPacketSeqno := seqno + size - 1; }
      if seqno == cumulativeAck + 1 {
        cumulativeAck := seqno + size - 1;
        while received != [] && received[0] == cumulativeAck + 1
          invariant Absorb(View(), size) == Receive(old(View()), seqno, size) && arrived == old(arrived) + {seqno}
          invariant lastPacketSeqno == if lastPacket then seqno + size - 1 else old(lastPacketSeqno)
          decreases |received|
        {
          received := received[1..];
          cumulativeAck := cumulativeAck + size;
        }
      } else if seqno < cumulativeAck + 1 {
      } else {
        received := Queued(received, seqno);
      }
      finished := lastPacketSeqno > 0 && cumulativeAck == lastPacketSeqno;
    }

    /** The list with an out-of-order segment added: at the end if it can, else where it fills a hole. */
    static method Queued(list: seq<nat>, seqno: nat) returns (r: seq<nat>)
      requires Increasing(list)
      ensures r == Insert(list, seqno)
    {
      if list == [] { return [seqno]; }
      if seqno > list[|list| - 1] {
        InsertLast(list, seqno);
        return list + [seqno];
      }
      var i := 0;
      while i < |list|
        invariant i <= |list|
        invariant list[..i] + Insert(list[i..], seqno) == Insert(list, seqno)
        invariant i == |list| ==> seqno > list[|list| - 1]
      {
        assert list[i..][0] == list[i] && list[i..][1..] == list[i + 1..];
        if seqno == list[i] { return list; }
        if seqno < list[i] { return list[..i] + [seqno] + list[i..]; }
        assert list[..i + 1] == list[..i] + [list[i]];
        i := i + 1;
      }
      assert false;
    }

  }
}
