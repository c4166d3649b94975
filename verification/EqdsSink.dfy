/** The receiving side, EqdsSink, as functions of the set of numbers received
    (sim/eqds.cpp:1206-1408, 1466-1522). */
module EqdsSink {
  import opened EqdsMessages
  import opened SackWord

  const WINDOW: nat := 4096              // eqdsMaxInFlightPkts
  const UNACKED_THRESHOLD: nat := 16384  // _bytes_unacked_threshold

  datatype SinkState = SinkState(
    received: set<nat>,    // every number accepted so far, data or RTS
    expected: nat,         // _expected_epsn
    bytes: int,            // _received_bytes
    accepted: nat,         // _accepted_bytes, an unsigned 16-bit counter
    ackRequest: bool)

  datatype SinkOutcome = SinkOutcome(sink: SinkState, out: seq<Msg>)

  const FRESH := SinkState({}, 0, 0, 0, false)

  /** The least number from `k` on that is not in `r`. */
  function NextHole(r: set<nat>, k: nat): (h: nat)
    ensures k <= h && h !in r && forall m :: k <= m < h ==> m in r
    decreases r
  {
    if k !in r then k else NextHole(r - {k}, k + 1)
  }

  lemma NextHoleUnique(r: set<nat>, k: nat, h: nat)
    requires k <= h && h !in r && forall m :: k <= m < h ==> m in r
    ensures h == NextHole(r, k)
  {
    var g := NextHole(r, k);
    assert g < h ==> g in r;
    assert h < g ==> h in r;
  }

  function FromOn(r: set<nat>, k: nat): set<nat> { set m | m in r && k <= m }

  /** _out_of_order_count: what has been received above the next expected number. */
  function OutOfOrder(s: SinkState): nat { |FromOn(s.received, s.expected + 1)| }

  lemma StepOver(r: set<nat>, k: nat)
    ensures |FromOn(r, k)| == |FromOn(r, k + 1)| + (if k in r then 1 else 0)
  {
    if k in r {
      assert FromOn(r, k) == FromOn(r, k + 1) + {k};
    } else {
      assert FromOn(r, k) == FromOn(r, k + 1);
    }
  }

  lemma SameAbove(r: set<nat>, e: nat)
    ensures |FromOn(r + {e}, e + 1)| == |FromOn(r, e + 1)|
  {
    assert FromOn(r + {e}, e + 1) == FromOn(r, e + 1);
  }

  lemma AddAbove(r: set<nat>, e: nat, k: nat)
    requires e !in r && k <= e
    ensures |FromOn(r + {e}, k)| == |FromOn(r, k)| + 1
  {
    assert FromOn(r + {e}, k) == FromOn(r, k) + {e};
  }

  /** `expected` is the least number not received, and everything received lies in its window. */
  ghost predicate InWindow(received: set<nat>, expected: nat)
  {
    && expected !in received
    && (forall k :: 0 <= k < expected ==> k in received)
    && (forall m :: m in received ==> m < expected + WINDOW)
  }

  ghost predicate SinkInv(s: SinkState)
  {
    InWindow(s.received, s.expected)
  }

  // ---------------------------------------------------------------- selective acknowledgement

  /** The number in the current window that shares a bitmap slot with `n`. */
  function Rep(n: nat, expected: nat): (m: nat)
    ensures expected <= m < expected + WINDOW && m % WINDOW == n % WINDOW
    ensures expected <= n < expected + WINDOW ==> m == n
  {
    expected + (n - expected) % WINDOW
  }

  function SackBits(r: set<nat>, expected: nat, ref: nat): seq<bool>
  {
    seq(WORD_BITS, i requires 0 <= i => Rep(ref + i, expected) in r)
  }

  function Sack(s: SinkState, ref: nat): Msg
  {
    Ack(s.expected, ref, Word(SackBits(s.received, s.expected, ref)))
  }

  function BaseFor(expected: nat, e: nat): nat { if e - 63 > expected + 1 then e - 63 else expected + 1 }

  function SackBitmapBase(s: SinkState, e: nat): nat { BaseFor(s.expected, e) }

  /** `ref + i` was received out of order: what bit `i` of an ACK with this reference should say. */
  ghost predicate ReceivedAbove(s: SinkState, n: nat)
  {
    n in s.received && s.expected < n
  }

  /** Bit `i` of the ACK with reference `ref` tells the truth. */
  ghost predicate Honest(s: SinkState, ref: nat, i: nat)
  {
    Bit(Sack(s, ref).bitmap, i) <==> ReceivedAbove(s, ref + i)
  }

  ghost predicate SackExact(s: SinkState, ref: nat)
  {
    forall i: nat :: i < WORD_BITS ==> Honest(s, ref, i)
  }

  /** The slot of `n` is not occupied by a number one or more windows away. */
  ghost predicate Unaliased(s: SinkState, n: nat)
  {
    s.expected <= n < s.expected + WINDOW || Rep(n, s.expected) !in s.received
  }

  lemma BitOfSack(s: SinkState, ref: nat, i: nat)
    requires i < WORD_BITS
    ensures Bit(Sack(s, ref).bitmap, i) <==> Rep(ref + i, s.expected) in s.received
  {
    BitOfWord(SackBits(s.received, s.expected, ref), i);
  }

  /** A bit of the SACK says what it should if and only if its slot is not aliased. */
  lemma HonestIff(s: SinkState, ref: nat, i: nat)
    requires SinkInv(s) && i < WORD_BITS
    ensures Honest(s, ref, i) <==> Unaliased(s, ref + i)
  {
    BitOfSack(s, ref, i);
  }

  /** What a caller can check: everything received lies below `ref + 4096`, and the last number the
      word covers lies inside the window. */
  ghost predicate SackWindow(s: SinkState, ref: nat)
  {
    ref + WORD_BITS - 1 < s.expected + WINDOW && forall m :: m in s.received ==> m < ref + WINDOW
  }

  lemma WindowMakesSackExact(s: SinkState, ref: nat)
    requires SinkInv(s) && SackWindow(s, ref)
    ensures SackExact(s, ref)
  {
    forall i: nat | i < WORD_BITS ensures Honest(s, ref, i) {
      HonestIff(s, ref, i);
      if ref + i < s.expected {
        assert Rep(ref + i, s.expected) >= ref + i + WINDOW;
      }
    }
  }

  /** The base the sink computes itself is always safe for a packet inside the window. */
  lemma BitmapBaseIsSafe(s: SinkState, e: nat)
    requires SinkInv(s) && e < s.expected + WINDOW
    ensures SackExact(s, SackBitmapBase(s, e))
  {
    WindowMakesSackExact(s, SackBitmapBase(s, e));
  }

  // ---------------------------------------------------------------- arrivals

  function Accept(s: SinkState, e: nat, payload: int): SinkState
  {
    var r := s.received + {e};
    s.(received := r, bytes := s.bytes + payload,
       expected := if e == s.expected then NextHole(r, s.expected) else s.expected)
  }

  predicate Known(s: SinkState, e: nat) { e < s.expected || e in s.received }

  /** If data packet `e` is answered, does the ACK take `e` as its reference, and not the computed base? */
  predicate OwnReference(s: SinkState, e: nat, ar: bool, ecn: bool) { ecn || (ar && !Known(s, e)) }

  function Drained(s: SinkState, e: nat, was: SinkState): bool
  {
    e == was.expected && OutOfOrder(s) == 0
  }

  function DuplicateData(s: SinkState, e: nat, ecn: bool): SinkOutcome
  {
    SinkOutcome(s.(accepted := 0), [Sack(s, if ecn then e else SackBitmapBase(s, e))])
  }

  function NewData(s: SinkState, e: nat, size: nat, ar: bool, ecn: bool): SinkOutcome
  {
    var request := s.ackRequest || ar;
    var t := Accept(s, e, size - HDR);
    var release := Drained(t, e, s) && request;
    AckIfDue(t.(ackRequest := request && !release), e, ar, ecn, s.bytes == 0 || ar || release)
  }

  function AckIfDue(t: SinkState, e: nat, ar: bool, ecn: bool, force: bool): SinkOutcome
  {
    if ecn || t.accepted > UNACKED_THRESHOLD || force then
      SinkOutcome(t.(accepted := 0), [Sack(t, if ecn || ar then e else SackBitmapBase(t, e))])
    else
      SinkOutcome(t, [])
  }

  function ProcessData(s: SinkState, e: nat, size: nat, ar: bool, ecn: bool): SinkOutcome
  {
    var t := s.(accepted := (s.accepted + size) % 0x1_0000);
    if Known(s, e) then DuplicateData(t, e, ecn) else NewData(t, e, size, ar, ecn)
  }

  function ProcessTrimmed(s: SinkState, e: nat): SinkOutcome
  {
    SinkOutcome(s, if Known(s, e) then [Sack(s, e)] else [Nack(e)])
  }

  /** RTS packets always request an ACK, and carry no payload. */
  function ProcessRts(s: SinkState, e: nat): SinkOutcome
  {
    if Known(s, e) then
      SinkOutcome(s.(accepted := 0), [Sack(s, e)])
    else
      var t := Accept(s, e, HDR - HDR);
      SinkOutcome(t.(accepted := 0, ackRequest := s.ackRequest && !Drained(t, e, s)), [Sack(t, e)])
  }

  /** Outside the window a SACK can acknowledge a packet that never arrived: packet 1 has arrived, and then
      packet 4090, which asks for an ACK; bit 7 of the answer claims 4097. */
  lemma SackCanLie()
    ensures var s := ProcessData(FRESH, 1, 65, false, false).sink;
      var o := ProcessData(s, 4090, 65, true, false);
      && SinkInv(s) && SinkInv(o.sink) && 4090 < s.expected + WINDOW && o.sink.received == {1, 4090}
      && |o.out| == 1 && o.out[0].Ack? && o.out[0].ref + 7 == 4097 && Bit(o.out[0].bitmap, 7)
  {
    var s := ProcessData(FRESH, 1, 65, false, false).sink;
    assert s.received == {1} && s.expected == 0;
    var t := ProcessData(s, 4090, 65, true, false).sink;
    assert t.received == {1, 4090};
    assert Rep(4090 + 7, 0) == 1;
    BitOfWord(SackBits(t.received, 0, 4090), 7);
  }

  lemma AcceptInv(s: SinkState, e: nat, payload: int)
    requires SinkInv(s) && !Known(s, e) && e < s.expected + WINDOW
    ensures var t := Accept(s, e, payload);
      SinkInv(t) && t.received == s.received + {e} && s.expected <= t.expected
  {
  }
}

/** The sink as the simulator runs it, with its modular bitmap of 8-bit slots. */
module EqdsSinkObject {
  import opened Bits
  import opened EqdsMessages
  import opened SackWord
  import Spec = EqdsSink

  class EqdsSink {
    const bitmap: array<nat>      // _epsn_rx_bitmap
    var expected: nat
    var outOfOrder: int
    var bytes: int
    var accepted: nat
    var ackRequest: bool
    ghost var received: set<nat>

    ghost function View(): Spec.SinkState
      reads this
    {
      Spec.SinkState(received, expected, bytes, accepted, ackRequest)
    }

    /** Slot `n mod 4096` stands for `n`, for every `n` in the window that starts at `expected`. */
    ghost predicate Slots()
      reads this`expected, this`received, bitmap
    {
      && bitmap.Length == Spec.WINDOW
      && (forall k :: 0 <= k < Spec.WINDOW ==> bitmap[k] <= 255)
      && (forall n :: expected <= n < expected + Spec.WINDOW ==>
            (bitmap[n % Spec.WINDOW] != 0 <==> n in received))
    }

    ghost predicate Valid()
      reads this`expected, this`received, this`outOfOrder, bitmap
    {
      && Slots()
      && Spec.InWindow(received, expected)
      && outOfOrder == |Spec.FromOn(received, expected + 1)|
    }

    constructor ()
      ensures Valid() && fresh(bitmap)
      ensures View() == Spec.FRESH
    {
      bitmap := new nat[Spec.WINDOW](_ => 0);
      expected, outOfOrder, bytes, accepted, ackRequest := 0, 0, 0, 0, false;
      received := {};
      new;
      assert Spec.FromOn({}, 1) == {};
    }

    method SackBitmapBase(e: nat) returns (base: nat)
      ensures base == Spec.SackBitmapBase(View(), e)
    {
      base := if e - 63 > expected + 1 then e - 63 else expected + 1;
    }

    /** Remembers in a slot that its packet was reported; the 8-bit count saturates. */
    method CountReport(slot: nat)
      requires Valid() && slot < Spec.WINDOW
      modifies bitmap
      ensures Valid()
    {
      if bitmap[slot] != 0 && bitmap[slot] < 255 {
        bitmap[slot] := bitmap[slot] + 1;
      }
    }

    /** Builds the word bit by bit, counting in each slot after the first that it was reported. */
    method BuildSackBitmap(ref: nat) returns (word: nat)
      requires Valid()
      modifies bitmap
      ensures Valid()
      ensures word == Word(Spec.SackBits(received, expected, ref))
    {
      ghost var bits := Spec.SackBits(received, expected, ref);
      var slot := ref % Spec.WINDOW;
      assert bits[0] <==> bitmap[slot] != 0 by { SlotOf(ref); }
      word := Digit(bitmap[slot] != 0) * Pow2(WORD_BITS - 1);
      FirstBit(bits);
      var i := 1;
      while i < WORD_BITS
        invariant 1 <= i <= WORD_BITS
        invariant Valid()
        invariant word == Pow2(WORD_BITS - i) * Word(bits[..i])
      {
        slot := (ref + i) % Spec.WINDOW;
        assert bits[i] <==> bitmap[slot] != 0 by { SlotOf(ref + i); }
        NextBit(bits, i, word);
        word := word / 2 + Digit(bitmap[slot] != 0) * Pow2(WORD_BITS - 1);
        CountReport(slot);
        i := i + 1;
      }
      assert bits[..i] == bits;
    }

    lemma SlotOf(n: nat)
      requires Valid()
      ensures bitmap[n % Spec.WINDOW] != 0 <==> Spec.Rep(n, expected) in received
    {
    }

    /** Clears the slot of a number received out of order as the window moves past it. */
    method ClearSlot()
      requires Slots() && expected in received && expected + Spec.WINDOW !in received
      requires outOfOrder == |Spec.FromOn(received, expected)|
      modifies this`expected, this`outOfOrder, bitmap
      ensures Slots() && expected == old(expected) + 1
      ensures outOfOrder == |Spec.FromOn(received, expected)|
    {
      Spec.StepOver(received, expected);
      bitmap[expected % Spec.WINDOW] := 0;
      expected, outOfOrder := expected + 1, outOfOrder - 1;
    }

    /** The expected number itself has no slot set, so moving past it needs no clearing. */
    method TakeExpected()
      requires Valid()
      modifies this`expected, this`received
      ensures Slots() && outOfOrder == |Spec.FromOn(received, expected)|
      ensures expected == old(expected) + 1 && received == old(received) + {old(expected)}
    {
      assert bitmap[expected % Spec.WINDOW] == 0;
      Spec.SameAbove(received, expected);
      received := received + {expected};
      expected := expected + 1;
      assert (expected + Spec.WINDOW - 1) % Spec.WINDOW == (expected - 1) % Spec.WINDOW;
    }

    /** Steps over everything that was received out of order right above the old expected number. */
    method AdvanceExpected()
      requires Valid()
      modifies this`expected, this`outOfOrder, this`received, bitmap
      ensures Valid()
      ensures received == old(received) + {old(expected)}
      ensures expected == Spec.NextHole(received, old(expected))
    {
      ghost var e := expected;
      TakeExpected();
      ghost var r := received;
      assert forall m :: m in r ==> m < e + Spec.WINDOW;
      while bitmap[expected % Spec.WINDOW] != 0
        invariant received == r && Slots()
        invariant e < expected <= e + Spec.WINDOW
        invariant forall k :: 0 <= k < expected ==> k in r
        invariant outOfOrder == |Spec.FromOn(r, expected)|
        decreases e + Spec.WINDOW - expected
      {
        ClearSlot();
      }
      assert expected !in r;
      Spec.StepOver(r, expected);
      Spec.NextHoleUnique(r, e, expected);
    }

    method MarkOutOfOrder(e: nat)
      requires Valid() && expected < e < expected + Spec.WINDOW && e !in received
      modifies this`outOfOrder, this`received, bitmap
      ensures Valid()
      ensures received == old(received) + {e}
    {
      Spec.AddAbove(received, e, expected + 1);
      SetSlot(e);
      outOfOrder := outOfOrder + 1;
    }

    method SetSlot(e: nat)
      requires Slots() && expected <= e < expected + Spec.WINDOW
      modifies this`received, bitmap
      ensures Slots() && received == old(received) + {e}
    {
      bitmap[e % Spec.WINDOW] := 1;
      received := received + {e};
    }

    /** A number that is neither below `expected` nor marked: count it and move the window. */
    method Receive(e: nat, payload: int)
      requires Valid() && !Spec.Known(View(), e) && e < expected + Spec.WINDOW
      modifies this`expected, this`outOfOrder, this`received, this`bytes, bitmap
      ensures Valid()
      ensures View() == Spec.Accept(old(View()), e, payload)
    {
      bytes := bytes + payload;
      if e == expected {
        AdvanceExpected();
      } else {
        MarkOutOfOrder(e);
      }
    }

    /** The duplicate test of all three handlers, read from the bitmap. */
    method IsKnown(e: nat) returns (known: bool)
      requires Valid() && e < expected + Spec.WINDOW
      ensures known == Spec.Known(View(), e)
    {
      known := e < expected || bitmap[e % Spec.WINDOW] != 0;
    }

    method SendSack(ref: nat) returns (ack: Msg)
      requires Valid()
      modifies bitmap
      ensures Valid()
      ensures ack == Spec.Sack(View(), ref)
    {
      var word := BuildSackBitmap(ref);
      ack := Ack(expected, ref, word);
    }

    method SackAndReset(ref: nat) returns (ack: Msg)
      requires Valid()
      modifies this`accepted, bitmap
      ensures Valid() && View() == old(View()).(accepted := 0)
      ensures ack == Spec.Sack(old(View()), ref)
    {
      ack := SendSack(ref);
      accepted := 0;
    }

    /** Receives a new packet; `release` says that the last hole closed while an ACK was owed. */
    method ReceiveAndDrain(e: nat, payload: int) returns (release: bool)
      requires Valid() && !Spec.Known(View(), e) && e < expected + Spec.WINDOW
      modifies this, bitmap
      ensures Valid()
      ensures release == (Spec.Drained(View(), e, old(View())) && old(ackRequest))
      ensures View() == Spec.Accept(old(View()), e, payload).(ackRequest := old(ackRequest) && !release)
    {
      var inOrder := e == expected;
      Receive(e, payload);
      release := inOrder && outOfOrder == 0 && ackRequest;
      if release {
        ackRequest := false;
      }
    }

    method AcceptData(e: nat, size: nat, ar: bool, ecn: bool) returns (out: seq<Msg>)
      requires Valid() && !Spec.Known(View(), e) && e < expected + Spec.WINDOW
      modifies this, bitmap
      ensures Valid()
      ensures Spec.SinkOutcome(View(), out) == Spec.NewData(old(View()), e, size, ar, ecn)
    {
      var forceAck := bytes == 0;
      if ar {
        forceAck := true;
        ackRequest := true;
      }
      var release := ReceiveAndDrain(e, size - HDR);
      if release { forceAck := true; }
      out := SackIfDue(e, ar, ecn, forceAck);
    }

    method SackIfDue(e: nat, ar: bool, ecn: bool, forceAck: bool) returns (out: seq<Msg>)
      requires Valid()
      modifies this`accepted, bitmap
      ensures Valid()
      ensures Spec.SinkOutcome(View(), out) == Spec.AckIfDue(old(View()), e, ar, ecn, forceAck)
    {
      out := [];
      if ecn || accepted > Spec.UNACKED_THRESHOLD || forceAck {
        var base := SackBitmapBase(e);
        var ack := SackAndReset(if ecn || ar then e else base);
        out := [ack];
      }
    }

    method ProcessData(e: nat, size: nat, ar: bool, ecn: bool) returns (out: seq<Msg>)
      requires Valid() && e < expected + Spec.WINDOW
      modifies this, bitmap
      ensures Valid()
      ensures Spec.SinkOutcome(View(), out) == Spec.ProcessData(old(View()), e, size, ar, ecn)
    {
      accepted := (accepted + size) % 0x1_0000;
      var known := IsKnown(e);
      if known {
        var base := SackBitmapBase(e);
        var ack := SackAndReset(if ecn then e else base);
        return [ack];
      }
      out := AcceptData(e, size, ar, ecn);
    }

    method ProcessTrimmed(e: nat) returns (out: seq<Msg>)
      requires Valid() && e < expected + Spec.WINDOW
      modifies bitmap
      ensures Valid()
      ensures Spec.SinkOutcome(View(), out) == Spec.ProcessTrimmed(old(View()), e)
    {
      var known := IsKnown(e);
      if known {
        var ack := SendSack(e);
        return [ack];
      }
      return [Nack(e)];
    }

    method ProcessRts(e: nat) returns (out: seq<Msg>)
      requires Valid() && e < expected + Spec.WINDOW
      modifies this, bitmap
      ensures Valid()
      ensures Spec.SinkOutcome(View(), out) == Spec.ProcessRts(old(View()), e)
    {
      var known := IsKnown(e);
      if known {
        var ack := SackAndReset(e);
        return [ack];
      }
      var _ := ReceiveAndDrain(e, HDR - HDR);
      var ack := SackAndReset(e);
      out := [ack];
    }
  }
}
