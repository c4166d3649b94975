/** The bitwise operators on naturals, and what a mask of `k` low bits does. */
module Bits {

  function Pow2(k: nat): (r: nat)
    ensures r > 0
  {
    if k == 0 then 1 else 2 * Pow2(k - 1)
  }

  function Mask(k: nat): nat { Pow2(k) - 1 }

  function Xor(a: nat, b: nat): nat
  {
    if a == 0 && b == 0 then 0 else (if a % 2 != b % 2 then 1 else 0) + 2 * Xor(a / 2, b / 2)
  }

  function And(a: nat, b: nat): nat
  {
    if a == 0 || b == 0 then 0 else (if a % 2 == 1 && b % 2 == 1 then 1 else 0) + 2 * And(a / 2, b / 2)
  }

  function Or(a: nat, b: nat): nat
  {
    if a == 0 && b == 0 then 0 else (if a % 2 == 1 || b % 2 == 1 then 1 else 0) + 2 * Or(a / 2, b / 2)
  }

  /** One more bit of a mask. */
  lemma MaskBit(a: nat, k: nat)
    ensures And(a, Mask(k)) == if k == 0 then 0 else a % 2 + 2 * And(a / 2, Mask(k - 1))
  {
    if k > 0 { assert Mask(k) == 2 * Mask(k - 1) + 1; }
  }

  lemma {:induction false} MaskBounds(a: nat, k: nat)
    ensures And(a, Mask(k)) < Pow2(k)
    ensures a < Pow2(k) ==> And(a, Mask(k)) == a
    decreases k
  {
    MaskBit(a, k);
    if k > 0 { MaskBounds(a / 2, k - 1); }
  }

  /** Under a mask, an exclusive or with the same value undoes itself. */
  lemma {:induction false} XorUndone(k: nat, x: nat, i: nat)
    requires i < Pow2(k)
    ensures And(Xor(And(Xor(i, x), Mask(k)), x), Mask(k)) == i
    decreases k
  {
    var y := Xor(i, x);
    var p := And(y, Mask(k));
    MaskBit(y, k);
    MaskBit(Xor(p, x), k);
    if k > 0 {
      assert y / 2 == Xor(i / 2, x / 2) && y % 2 == if i % 2 != x % 2 then 1 else 0;
      assert p / 2 == And(y / 2, Mask(k - 1)) && p % 2 == y % 2;
      assert Xor(p, x) / 2 == Xor(p / 2, x / 2) && Xor(p, x) % 2 == if p % 2 != x % 2 then 1 else 0;
      XorUndone(k - 1, x / 2, i / 2);
    }
  }

  /** Clearing the low bits of `r` and adding a value below them leaves that value in the low bits. */
  lemma {:induction false} UpperBits(k: nat, r: nat, e: nat)
    requires e < Pow2(k)
    ensures And(Or(e, Xor(r, And(r, Mask(k)))), Mask(k)) == e
    decreases k
  {
    var low := And(r, Mask(k));
    var high := Xor(r, low);
    MaskBit(r, k);
    MaskBit(Or(e, high), k);
    if k > 0 {
      assert low / 2 == And(r / 2, Mask(k - 1)) && low % 2 == r % 2;
      assert high / 2 == Xor(r / 2, low / 2) && high % 2 == 0;
      assert Or(e, high) / 2 == Or(e / 2, high / 2) && Or(e, high) % 2 == e % 2;
      UpperBits(k - 1, r / 2, e / 2);
    }
  }

  /** The bits from the `k`-th on. */
  function Upper(a: nat, k: nat): nat
    decreases k
  {
    if k == 0 then a else Upper(a / 2, k - 1)
  }

  lemma {:induction false} NothingAdded(r: nat)
    ensures Xor(r, 0) == r && Or(0, r) == r
  {
    if r > 0 { NothingAdded(r / 2); }
  }

  /** A number of `k` bits put below the upper bits of another leaves those as they are. */
  lemma {:induction false} UpperBitsStay(k: nat, r: nat, e: nat)
    requires e < Pow2(k)
    ensures Upper(Or(e, Xor(r, And(r, Mask(k)))), k) == Upper(r, k)
    decreases k
  {
    var low := And(r, Mask(k));
    var high := Xor(r, low);
    MaskBit(r, k);
    if k == 0 {
      NothingAdded(r);
    } else {
      assert low / 2 == And(r / 2, Mask(k - 1));
      assert high / 2 == Xor(r / 2, low / 2);
      assert Or(e, high) / 2 == Or(e / 2, high / 2);
      UpperBitsStay(k - 1, r / 2, e / 2);
    }
  }
}
