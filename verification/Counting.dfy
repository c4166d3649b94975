/** Remainders and the sizes of finite sets. */
module Counting {

  lemma MulStep(a: int, b: int, m: nat)
    requires a < b
    ensures a * m + m <= b * m
  {
    assert (b - a - 1) * m >= 0;
    assert (b - a - 1) * m == b * m - a * m - m;
  }

  lemma OneMore(a: int, m: nat)
    ensures (a + 1) * m == a * m + m
  {
  }

  /** A number has one quotient and one remainder. */
  lemma DivModUnique(q: int, r: int, m: nat)
    requires 0 <= r < m
    ensures (q * m + r) / m == q && (q * m + r) % m == r
  {
    var x := q * m + r;
    var p := x / m;
    assert x == p * m + x % m;
    if p < q { MulStep(p, q, m); } else if q < p { MulStep(q, p, m); }
  }

  /** Adding a multiple of the modulus keeps the remainder. */
  lemma ModShift(x: int, k: int, m: nat)
    requires 0 < m
    ensures (x + k * m) % m == x % m
  {
    var q := x / m;
    assert x == q * m + x % m;
    assert (q + k) * m == q * m + k * m;
    DivModUnique(q + k, x % m, m);
  }

  /** Two different numbers with the same remainder are at least one modulus apart. */
  lemma SameClass(i: nat, j: nat, m: nat)
    requires 0 < m && i < j && i % m == j % m
    ensures i <= j - m && (j - m) % m == j % m
  {
    var q, r := i / m, j / m;
    assert i == q * m + i % m && j == r * m + j % m;
    if r < q { MulStep(r, q, m); }
    assert q < r;
    MulStep(q, r, m);
    ModShift(j, -1, m);
  }

  function Rem(i: int, m: nat): (r: nat)
    requires 0 < m
    ensures r < m
  {
    i % m
  }

  function Below(n: nat): (s: set<nat>)
    ensures |s| == n && forall k: nat :: k in s <==> k < n
  {
    if n == 0 then {} else Below(n - 1) + {n - 1}
  }

  lemma {:induction false} SubsetSize<T>(a: set<T>, b: set<T>)
    requires a <= b
    ensures |a| <= |b|
    decreases a
  {
    if x :| x in a { SubsetSize(a - {x}, b - {x}); }
  }

  /** A subset of the same size is the whole set. */
  lemma FullSubset<T>(a: set<T>, b: set<T>)
    requires a <= b && |a| == |b|
    ensures a == b
  {
    if x :| x in b && x !in a { SubsetSize(a + {x}, b); }
  }

  lemma {:induction false} ClassesSize(r: set<nat>, m: nat)
    requires 0 < m && forall i, j :: i in r && j in r && i != j ==> Rem(i, m) != Rem(j, m)
    ensures |set i | i in r :: Rem(i, m)| == |r|
    decreases r
  {
    if x :| x in r {
      var rest := r - {x};
      ClassesSize(rest, m);
      assert (set i | i in r :: Rem(i, m)) == (set i | i in rest :: Rem(i, m)) + {Rem(x, m)};
    }
  }

  /** Numbers with pairwise different remainders modulo `m` are at most `m`. */
  lemma DistinctClasses(r: set<nat>, m: nat)
    requires 0 < m && forall i, j :: i in r && j in r && i != j ==> Rem(i, m) != Rem(j, m)
    ensures |r| <= m
  {
    ClassesSize(r, m);
    SubsetSize(set i | i in r :: Rem(i, m), Below(m));
  }
}
