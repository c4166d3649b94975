/** The choice of the next path (sim/eqds.cpp:808-841): an index counts through the paths, scrambled by an
    exclusive or that changes with every pass; a path with a penalty is passed over at the price of one. */
module PathChoice {
  import opened Bits
  import opened Counting
  import opened Tallies

  /** There are `2 ^ bits` paths. `random` yields the draws of rand(); `drawn` of them are used up. */
  datatype Chooser = Chooser(bits: nat, pathRandom: nat, skip: map<nat, nat>, index: nat, xor: nat, drawn: nat)
  {
    function Paths(): nat { Pow2(bits) }
    function Low(): nat { Mask(bits) }
    function Path(): nat { And(Xor(index, xor), Low()) }
  }

  ghost predicate Valid(s: Chooser)
  {
    s.index < s.Paths() && forall p: nat :: p < s.Paths() ==> p in s.skip
  }

  /** Within a pass different indices give different paths, and every path has an index. */
  lemma Scramble(s: Chooser, p: nat)
    requires Valid(s) && p < s.Paths()
    ensures s.Path() == p <==> s.index == IndexOf(s, p)
    ensures IndexOf(s, p) < s.Paths()
  {
    XorUndone(s.bits, s.xor, s.index);
    XorUndone(s.bits, s.xor, p);
    MaskBounds(Xor(p, s.xor), s.bits);
  }

  // ---------------------------------------------------------------- the operations

  lemma PathValid(s: Chooser)
    requires Valid(s)
    ensures s.Path() < s.Paths() && s.Path() in s.skip
  {
    MaskBounds(Xor(s.index, s.xor), s.bits);
  }

  /** On to the next index; a new pass draws a new scramble. */
  function Advance(s: Chooser, random: nat -> nat): (r: Chooser)
    requires Valid(s)
    ensures Valid(r) && r.skip == s.skip && r.bits == s.bits && r.pathRandom == s.pathRandom
  {
    if s.index + 1 == s.Paths() then s.(index := 0, xor := And(random(s.drawn), s.Low()), drawn := s.drawn + 1)
    else s.(index := s.index + 1)
  }

  /** One path is offered: it is passed over at the price of one if it has a penalty, and used if not. */
  function Offer(s: Chooser, random: nat -> nat): (r: Chooser)
    requires Valid(s)
    ensures Valid(r) && r.bits == s.bits && r.pathRandom == s.pathRandom
  {
    PathValid(s);
    var p := s.Path();
    Advance(if s.skip[p] > 0 then s.(skip := s.skip[p := s.skip[p] - 1]) else s, random)
  }

  /** Paths are offered until one has no penalty. */
  function Seek(s: Chooser, random: nat -> nat): (r: (nat, Chooser))
    requires Valid(s)
    ensures Valid(r.1) && r.0 < s.Paths() && r.1.bits == s.bits && r.1.pathRandom == s.pathRandom
    decreases Total(s.skip)
  {
    PathValid(s);
    TotalPut(s.skip, s.Path(), s.skip[s.Path()] - if s.skip[s.Path()] > 0 then 1 else 0);
    if s.skip[s.Path()] == 0 then (s.Path(), Advance(s, random)) else Seek(Offer(s, random), random)
  }

  function WithUpperBits(s: Chooser, e: nat): nat
  {
    Or(e, Xor(s.pathRandom, And(s.pathRandom, s.Low())))
  }

  function NextEntropy(s: Chooser, random: nat -> nat): (r: (nat, Chooser))
    requires Valid(s)
    ensures Valid(r.1)
  {
    var (e, t) := Seek(s, random);
    (WithUpperBits(s, e), t)
  }

  const PENALTY_RANGE: nat := 256   // penalties are kept in eight bits

  function Penalize(s: Chooser, ev: nat, penalty: nat, most: nat): (r: Chooser)
    requires Valid(s)
    ensures Valid(r)
  {
    MaskBounds(ev, s.bits);
    var p := And(ev, s.Low());
    var raised := (s.skip[p] + penalty) % PENALTY_RANGE;
    s.(skip := s.skip[p := if raised > most then most else raised])
  }

  // ---------------------------------------------------------------- what is promised

  function Offers(s: Chooser, random: nat -> nat, k: nat): (r: Chooser)
    requires Valid(s)
    ensures Valid(r)
    decreases k
  {
    if k == 0 then s else Offers(Offer(s, random), random, k - 1)
  }

  /** Is the path offered in step `j` passed over? */
  ghost predicate PassedOver(s: Chooser, random: nat -> nat, j: nat)
    requires Valid(s)
  {
    var t := Offers(s, random, j);
    t.Path() in t.skip && t.skip[t.Path()] > 0
  }

  lemma LaterOffers(s: Chooser, random: nat -> nat, j: nat)
    requires Valid(s)
    ensures Offers(s, random, j + 1) == Offers(Offer(s, random), random, j)
    ensures PassedOver(s, random, j + 1) == PassedOver(Offer(s, random), random, j)
  {
  }

  lemma SeekHere(s: Chooser, random: nat -> nat)
    requires Valid(s) && s.Path() in s.skip && s.skip[s.Path()] == 0
    ensures Seek(s, random) == (Offers(s, random, 0).Path(), Offers(s, random, 1)) && !PassedOver(s, random, 0)
  {
    LaterOffers(s, random, 0);
  }

  lemma SeekOn(s: Chooser, random: nat -> nat)
    requires Valid(s) && s.Path() in s.skip && s.skip[s.Path()] > 0
    ensures Seek(s, random) == Seek(Offer(s, random), random) && PassedOver(s, random, 0)
    ensures Total(Offer(s, random).skip) == Total(s.skip) - 1
  {
    TotalPut(s.skip, s.Path(), s.skip[s.Path()] - 1);
  }

  /** The search passes over `k` paths, all with a penalty, and takes the next one, which has none. */
  ghost predicate SeeksIn(s: Chooser, random: nat -> nat, k: nat)
    requires Valid(s)
  {
    && Seek(s, random).0 == Offers(s, random, k).Path() && Seek(s, random).1 == Offers(s, random, k + 1)
    && !PassedOver(s, random, k) && forall j: nat :: j < k ==> PassedOver(s, random, j)
  }

  lemma SeeksLater(s: Chooser, random: nat -> nat, k: nat)
    requires Valid(s) && PassedOver(s, random, 0) && Seek(s, random) == Seek(Offer(s, random), random)
    requires SeeksIn(Offer(s, random), random, k)
    ensures SeeksIn(s, random, k + 1)
  {
    LaterOffers(s, random, k);
    LaterOffers(s, random, k + 1);
    forall j: nat | j < k + 1 ensures PassedOver(s, random, j) {
      if j > 0 { LaterOffers(s, random, j - 1); }
    }
  }

  /** The search always ends, after at most as many steps as there are penalties. */
  lemma {:induction false} SeekEnds(s: Chooser, random: nat -> nat) returns (k: nat)
    requires Valid(s)
    ensures k <= Total(s.skip) && SeeksIn(s, random, k)
    decreases Total(s.skip)
  {
    PathValid(s);
    if s.skip[s.Path()] == 0 {
      k := 0;
      SeekHere(s, random);
    } else {
      SeekOn(s, random);
      k := SeekEnds(Offer(s, random), random);
      SeeksLater(s, random, k);
      k := k + 1;
    }
  }

  /** The path that was chosen had no penalty left. */
  lemma {:induction false} ChosenIsFree(s: Chooser, random: nat -> nat)
    requires Valid(s)
    ensures Seek(s, random).0 in Seek(s, random).1.skip && Seek(s, random).1.skip[Seek(s, random).0] == 0
    decreases Total(s.skip)
  {
    PathValid(s);
    if s.skip[s.Path()] > 0 {
      SeekOn(s, random);
      ChosenIsFree(Offer(s, random), random);
    }
  }

  /** What a penalty does: the path that the value names is raised by it, in eight bits, and capped at `most`; no
      other path is. */
  lemma PenaltyIs(s: Chooser, ev: nat, penalty: nat, most: nat)
    requires Valid(s)
    ensures var t := Penalize(s, ev, penalty, most); var e := And(ev, s.Low());
      && e < s.Paths()
      && (s.skip[e] + penalty < PENALTY_RANGE ==>
            t.skip[e] == if s.skip[e] + penalty < most then s.skip[e] + penalty else most)
      && (PENALTY_RANGE <= s.skip[e] + penalty < 2 * PENALTY_RANGE ==>
            t.skip[e] == if s.skip[e] + penalty - PENALTY_RANGE < most
                         then s.skip[e] + penalty - PENALTY_RANGE else most)
      && forall q: nat :: q < s.Paths() && q != e ==> t.skip[q] == s.skip[q]
  {
    MaskBounds(ev, s.bits);
  }

  /** The entropy value handed out leads back to the path that was chosen, with the upper bits of the sender's own
      random value; a penalty for the value charges that path and no other. */
  lemma EntropyNamesPath(s: Chooser, random: nat -> nat, penalty: nat, most: nat)
    requires Valid(s)
    ensures var (ev, t) := NextEntropy(s, random); var e := Seek(s, random).0;
      && And(ev, s.Low()) == e && Upper(ev, s.bits) == Upper(s.pathRandom, s.bits)
      && e in t.skip && t.skip[e] == 0
      && (penalty < PENALTY_RANGE ==>
            Penalize(t, ev, penalty, most).skip[e] == if penalty < most then penalty else most)
      && forall q: nat :: q < s.Paths() && q != e ==> q in t.skip && Penalize(t, ev, penalty, most).skip[q] == t.skip[q]
  {
    UpperBits(s.bits, s.pathRandom, Seek(s, random).0);
    UpperBitsStay(s.bits, s.pathRandom, Seek(s, random).0);
    ChosenIsFree(s, random);
    var (ev, t) := NextEntropy(s, random);
    PenaltyIs(t, ev, penalty, most);
  }

  /** The index at which a pass offers path `p`. */
  function IndexOf(s: Chooser, p: nat): nat { And(Xor(p, s.xor), s.Low()) }

  /** The paths offered from here to the end of the pass. */
  function PassPaths(s: Chooser): seq<nat>
    requires Valid(s)
    decreases s.Paths() - s.index
  {
    [s.Path()] + if s.index + 1 == s.Paths() then [] else PassPaths(s.(index := s.index + 1))
  }

  function AfterPass(s: Chooser, random: nat -> nat): (r: Chooser)
    requires Valid(s)
    ensures Valid(r) && r.index == 0 && r.bits == s.bits
    decreases s.Paths() - s.index
  {
    if s.index + 1 == s.Paths() then Offer(s, random) else AfterPass(Offer(s, random), random)
  }

  function Times(xs: seq<nat>, p: nat): nat
  {
    if xs == [] then 0 else (if xs[0] == p then 1 else 0) + Times(xs[1..], p)
  }

  lemma {:induction false} PassOffers(s: Chooser, p: nat)
    requires Valid(s) && p < s.Paths()
    ensures Times(PassPaths(s), p) == if s.index <= IndexOf(s, p) then 1 else 0
    decreases s.Paths() - s.index
  {
    Scramble(s, p);
    if s.index + 1 == s.Paths() {
      assert [s.Path()][1..] == [];
    } else {
      var rest := PassPaths(s.(index := s.index + 1));
      assert ([s.Path()] + rest)[1..] == rest;
      PassOffers(s.(index := s.index + 1), p);
    }
  }

  lemma {:induction false} PassLowers(s: Chooser, random: nat -> nat, p: nat)
    requires Valid(s) && p < s.Paths()
    ensures AfterPass(s, random).skip[p]
         == if s.index <= IndexOf(s, p) && s.skip[p] > 0 then s.skip[p] - 1 else s.skip[p]
    decreases s.Paths() - s.index
  {
    Scramble(s, p);
    if s.index + 1 < s.Paths() { PassLowers(Offer(s, random), random, p); }
  }

  /** A full pass offers every path exactly once, and every path is then either used or one penalty lower. */
  lemma FullPass(s: Chooser, random: nat -> nat, p: nat)
    requires Valid(s) && s.index == 0 && p < s.Paths()
    ensures Times(PassPaths(s), p) == 1
    ensures AfterPass(s, random).index == 0
    ensures AfterPass(s, random).skip[p] == if s.skip[p] > 0 then s.skip[p] - 1 else 0
  {
    PassOffers(s, p);
    PassLowers(s, random, p);
  }

  /** `k` full passes. */
  function AfterPasses(s: Chooser, random: nat -> nat, k: nat): (r: Chooser)
    requires Valid(s) && s.index == 0
    ensures Valid(r) && r.index == 0 && r.bits == s.bits
    decreases k
  {
    if k == 0 then s else AfterPass(AfterPasses(s, random, k - 1), random)
  }

  lemma OnePass(s: Chooser, random: nat -> nat, p: nat) returns (t: Chooser)
    requires Valid(s) && s.index == 0 && p < s.Paths()
    ensures t == AfterPass(s, random) && Valid(t) && t.index == 0 && p < t.Paths()
    ensures t.skip[p] == if s.skip[p] > 0 then s.skip[p] - 1 else 0
  {
    t := AfterPass(s, random);
    FullPass(s, random, p);
  }

  /** A penalty costs a path exactly as many passes: it is passed over in each until the penalty is used up. */
  lemma {:induction false} PenaltyIsPaid(s: Chooser, random: nat -> nat, p: nat, k: nat)
    requires Valid(s) && s.index == 0 && p < s.Paths()
    ensures AfterPasses(s, random, k).skip[p] == if s.skip[p] > k then s.skip[p] - k else 0
    decreases k
  {
    if k > 0 {
      PenaltyIsPaid(s, random, p, k - 1);
      var t := OnePass(AfterPasses(s, random, k - 1), random, p);
    }
  }

  class EqdsPaths {
    const bits: nat
    const pathRandom: nat
    const maxPenalty: nat
    var evSkipBitmap: map<nat, nat>
    var currentEvIndex: nat
    var pathXor: nat
    ghost var drawn: nat

    ghost function View(): Chooser
      reads this
    {
      Chooser(bits, pathRandom, evSkipBitmap, currentEvIndex, pathXor, drawn)
    }

    /** All paths without penalty; `first` is the draw that scrambles the first pass. */
    constructor (bits: nat, pathRandom: nat, maxPenalty: nat, first: nat)
      ensures Valid(View()) && currentEvIndex == 0 && drawn == 0
      ensures forall p: nat :: p < Pow2(bits) ==> p in evSkipBitmap && evSkipBitmap[p] == 0
    {
      this.bits, this.pathRandom, this.maxPenalty := bits, pathRandom, maxPenalty;
      evSkipBitmap, currentEvIndex, pathXor, drawn := map p | p in Below(Pow2(bits)) :: 0, 0, first % Pow2(bits), 0;
    }

    /** The draws are passed in: `random(n)` is what the n-th call of rand() returns. */
    method NextEntropyValue(random: nat -> nat, calls: nat) returns (ev: nat, calls': nat)
      requires Valid(View()) && calls == drawn
      modifies this
      ensures Valid(View()) && (ev, View()) == NextEntropy(old(View()), random) && calls' == drawn
    {
      var mask := Mask(bits);
      var entropy := And(Xor(currentEvIndex, pathXor), mask);
      calls' := calls;
      ghost var start := View();
      PathValid(View());
      while evSkipBitmap[entropy] > 0
        invariant Valid(View()) && calls' == drawn && bits == start.bits && entropy == View().Path()
        invariant entropy in evSkipBitmap
        invariant Seek(View(), random) == Seek(start, random)
        decreases Total(evSkipBitmap)
      {
        SeekOn(View(), random);
        ghost var before := View();
        evSkipBitmap := evSkipBitmap[entropy := evSkipBitmap[entropy] - 1];
        calls' := NextIndex(random, calls');
        assert View() == Offer(before, random);
        entropy := And(Xor(currentEvIndex, pathXor), mask);
        PathValid(View());
      }
      calls' := NextIndex(random, calls');
      ev := Or(entropy, Xor(pathRandom, And(pathRandom, mask)));
    }

    method NextIndex(random: nat -> nat, calls: nat) returns (calls': nat)
      requires Valid(View()) && calls == drawn
      modifies this`currentEvIndex, this`pathXor, this`drawn
      ensures Valid(View()) && View() == Advance(old(View()), random) && calls' == drawn
    {
      calls' := calls;
      currentEvIndex := currentEvIndex + 1;
      if currentEvIndex == Pow2(bits) {
        currentEvIndex := 0;
        pathXor := And(random(calls), Mask(bits));
        calls', drawn := calls + 1, drawn + 1;
      }
    }

    method PenalizePath(pathId: nat, penalty: nat)
      requires Valid(View())
      modifies this`evSkipBitmap
      ensures Valid(View()) && View() == Penalize(old(View()), pathId, penalty, maxPenalty)
    {
      var id := And(pathId, Mask(bits));
      MaskBounds(pathId, bits);
      evSkipBitmap := evSkipBitmap[id := (evSkipBitmap[id] + penalty) % PENALTY_RANGE];
      if evSkipBitmap[id] > maxPenalty { evSkipBitmap := evSkipBitmap[id := maxPenalty]; }
    }
  }
}
