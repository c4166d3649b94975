/** Lists without repetition, their members, and lists of lists. */
module Sequences {

  function Flat<T>(phases: seq<seq<T>>): seq<T>
  {
    if phases == [] then [] else phases[0] + Flat(phases[1..])
  }

  lemma {:induction false} FlatConcat<T>(a: seq<seq<T>>, b: seq<seq<T>>)
    ensures Flat(a + b) == Flat(a) + Flat(b)
  {
    if a == [] {
      assert a + b == b;
    } else {
      assert (a + b)[1..] == a[1..] + b;
      FlatConcat(a[1..], b);
    }
  }

  ghost predicate Distinct<T>(g: seq<T>)
  {
    forall i, j :: 0 <= i < j < |g| ==> g[i] != g[j]
  }

  ghost predicate NonEmpty<T>(phases: seq<seq<T>>)
  {
    forall i :: 0 <= i < |phases| ==> phases[i] != []
  }

  function Members(s: seq<nat>): (r: set<nat>)
    ensures forall x :: x in r <==> x in s
  {
    if s == [] then {} else {s[0]} + Members(s[1..])
  }

  lemma {:induction false} DistinctSize(s: seq<nat>)
    requires Distinct(s)
    ensures |Members(s)| == |s|
  {
    if s != [] {
      assert s[0] !in s[1..];
      DistinctSize(s[1..]);
    }
  }

  /** Lists without repetition that have no element in common. */
  ghost predicate Apart<T>(rows: seq<seq<T>>)
  {
    && (forall i :: 0 <= i < |rows| ==> Distinct(rows[i]))
    && (forall i, j, x :: 0 <= i < |rows| && 0 <= j < |rows| && x in rows[i] && x in rows[j] ==> i == j)
  }

  lemma {:induction false} FlatHas<T>(rows: seq<seq<T>>, x: T)
    ensures x in Flat(rows) <==> exists i :: 0 <= i < |rows| && x in rows[i]
  {
    if rows != [] {
      FlatHas(rows[1..], x);
      if i :| 0 <= i < |rows| && x in rows[i] {
        if i > 0 { assert rows[1..][i - 1] == rows[i]; }
      }
    }
  }

  lemma DistinctConcat<T>(a: seq<T>, b: seq<T>)
    requires Distinct(a) && Distinct(b) && forall x :: x in a ==> x !in b
    ensures Distinct(a + b)
  {
    forall i, j | 0 <= i < j < |a + b| ensures (a + b)[i] != (a + b)[j] {
      if i < |a| <= j { assert a[i] in a && b[j - |a|] in b; }
    }
  }

  lemma {:induction false} FlatDistinct<T>(rows: seq<seq<T>>)
    requires Apart(rows)
    ensures Distinct(Flat(rows))
  {
    if rows != [] {
      var rest := rows[1..];
      assert Apart(rest);
      FlatDistinct(rest);
      forall x | x in rows[0] ensures x !in Flat(rest) {
        FlatHas(rest, x);
      }
      DistinctConcat(rows[0], Flat(rest));
    }
  }

  /** Two lists without repetition and with the same members are equally long. */
  lemma SameSize(a: seq<nat>, b: seq<nat>)
    requires Distinct(a) && Distinct(b) && forall x :: x in a <==> x in b
    ensures |a| == |b|
  {
    DistinctSize(a);
    DistinctSize(b);
    assert Members(a) == Members(b);
  }

  /** Item `k` of a list that follows a list of `start` items. */
  ghost predicate StandsIn<T>(fs: seq<T>, start: nat, k: nat, f: T) { start + k < |fs| && fs[start + k] == f }

  lemma InPrefix<T>(front: seq<T>, part: seq<T>, all: seq<T>, k: nat)
    requires front + part <= all && k < |part|
    ensures StandsIn(all, |front|, k, part[k])
  {
    assert (front + part)[|front| + k] == part[k];
  }
}
