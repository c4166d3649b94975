/** The 64-bit selective-acknowledgement word of an EQDS ACK (sim/eqds.cpp:493-502, 1495-1515).
    Words are naturals below 2^64; `>> 1` is division by two, and `x | (b << 63)` is an
    addition because the top bit of a shifted word is clear. */
module SackWord {
  import opened Bits

  const WORD_BITS: nat := 64

  /** Bit `i` of a word, least significant first. */
  predicate Bit(w: nat, i: nat)
    decreases i
  {
    if i == 0 then w % 2 == 1 else Bit(w / 2, i - 1)
  }

  function Digit(b: bool): nat { if b then 1 else 0 }

  /** The word whose bit `i` is `bits[i]`. */
  function Word(bits: seq<bool>): nat
  {
    if bits == [] then 0 else Digit(bits[0]) + 2 * Word(bits[1..])
  }

  lemma {:induction false} BitOfZero(i: nat)
    ensures !Bit(0, i)
    decreases i
  {
    if i > 0 { BitOfZero(i - 1); }
  }

  /** Reading back: bit `i` of the word built from `bits` is `bits[i]`, and no other bit is set. */
  lemma {:induction false} BitOfWord(bits: seq<bool>, i: nat)
    ensures Bit(Word(bits), i) <==> i < |bits| && bits[i]
    decreases |bits|
  {
    if bits == [] {
      BitOfZero(i);
    } else {
      assert Word(bits) / 2 == Word(bits[1..]);
      if i > 0 { BitOfWord(bits[1..], i - 1); }
    }
  }

  /** Words are injective on bit strings of one length: a word determines what was acknowledged. */
  lemma {:induction false} WordInjective(a: seq<bool>, b: seq<bool>)
    requires |a| == |b| && Word(a) == Word(b)
    ensures a == b
  {
    forall i | 0 <= i < |a| ensures a[i] == b[i] {
      BitOfWord(a, i);
      BitOfWord(b, i);
    }
  }

  lemma {:induction false} WordAppend(bits: seq<bool>, b: bool)
    ensures Word(bits + [b]) == Word(bits) + Digit(b) * Pow2(|bits|)
    decreases |bits|
  {
    if bits == [] {
      assert (bits + [b])[1..] == [];
    } else {
      assert (bits + [b])[1..] == bits[1..] + [b];
      WordAppend(bits[1..], b);
    }
  }

  /** One iteration of the sink's loop: shifting right and setting the top bit appends a bit.
      `|bits|` bits have been read and `left` are still to come after this one. */
  lemma {:induction false} ShiftIn(bits: seq<bool>, b: bool, left: nat)
    ensures Pow2(left + 1) * Word(bits) / 2 + Digit(b) * Pow2(left + |bits|)
         == Pow2(left) * Word(bits + [b])
  {
    WordAppend(bits, b);
    Pow2Product(left, |bits|);
    Half(Pow2(left), Word(bits));
    Distribute(Pow2(left), Word(bits), Digit(b), Pow2(|bits|));
  }

  lemma Half(h: nat, w: nat)
    ensures 2 * h * w / 2 == h * w
  {
    assert 2 * h * w == 2 * (h * w);
  }

  lemma Distribute(h: nat, w: nat, d: nat, p: nat)
    ensures h * (w + d * p) == h * w + d * (h * p)
  {
    assert h * (d * p) == d * (h * p);
  }

  lemma {:induction false} Pow2Product(m: nat, n: nat)
    ensures Pow2(m) * Pow2(n) == Pow2(m + n)
    decreases m
  {
    if m > 0 {
      Pow2Product(m - 1, n);
      assert Pow2(m) * Pow2(n) == 2 * (Pow2(m - 1) * Pow2(n));
    }
  }

  lemma FirstBit(bits: seq<bool>)
    requires |bits| == WORD_BITS
    ensures Digit(bits[0]) * Pow2(WORD_BITS - 1) == Pow2(WORD_BITS - 1) * Word(bits[..1])
  {
    assert bits[..1] == [bits[0]];
    assert Word([]) == 0 && Word([bits[0]]) == Digit(bits[0]);
  }

  lemma NextBit(bits: seq<bool>, i: nat, word: nat)
    requires |bits| == WORD_BITS && 0 < i < WORD_BITS && word == Pow2(WORD_BITS - i) * Word(bits[..i])
    ensures word / 2 + Digit(bits[i]) * Pow2(WORD_BITS - 1) == Pow2(WORD_BITS - (i + 1)) * Word(bits[..i + 1])
  {
    var left := WORD_BITS - 1 - i;
    assert left + 1 == WORD_BITS - i && left + |bits[..i]| == WORD_BITS - 1;
    ShiftIn(bits[..i], bits[i], left);
    assert bits[..i] + [bits[i]] == bits[..i + 1];
  }
}
