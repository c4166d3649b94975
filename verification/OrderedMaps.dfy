/** Ordered finite maps from sequence numbers to sizes, as `std::map` gives them:
    the first entry is the one with the least key. */
module OrderedMaps {

  /** A non-empty finite set of naturals has a least element. */
  lemma {:induction false} LeastExists(s: set<nat>)
    requires s != {}
    ensures exists k :: k in s && forall t :: t in s ==> k <= t
  {
    var x :| x in s;
    var rest := s - {x};
    if rest == {} {
      assert forall t :: t in s && t !in rest ==> t == x;
      assert x in s && forall t :: t in s ==> x <= t;
    } else {
      LeastExists(rest);
      var y :| y in rest && forall t :: t in rest ==> y <= t;
      var k := if x <= y then x else y;
      assert k in s && forall t :: t in s ==> k <= t by {
        forall t | t in s ensures k <= t { if t != x { assert t in rest; } }
      }
    }
  }

  /** The key that `begin()` points at. */
  function Least(s: set<nat>): (k: nat)
    requires s != {}
    ensures k in s && forall t :: t in s ==> k <= t
  {
    LeastExists(s);
    var k :| k in s && forall t :: t in s ==> k <= t;
    k
  }

  /** What a cumulative acknowledgement leaves: the entries at or above `bound`. */
  function DropBelow(m: map<nat, nat>, bound: nat): map<nat, nat>
  {
    map k | k in m && bound <= k :: m[k]
  }

  ghost predicate Increasing(s: seq<nat>) { forall i, j :: 0 <= i < j < |s| ==> s[i] < s[j] }

  lemma PutFirst(k: nat, rest: seq<nat>)
    requires Increasing(rest) && forall x :: x in rest ==> k < x
    ensures Increasing([k] + rest)
  {
    forall j | 0 <= j < |rest| ensures k < rest[j] { assert rest[j] in rest; }
  }

  /** The elements of a set in increasing order. */
  function Sorted(s: set<nat>): (r: seq<nat>)
    ensures |r| == |s| && (forall k :: k in r <==> k in s)
    ensures forall i, j :: 0 <= i < j < |r| ==> r[i] < r[j]
  {
    if s == {} then []
    else
      var rest := Sorted(s - {Least(s)});
      PutFirst(Least(s), rest);
      [Least(s)] + rest
  }
}
