/** Splitting a whole into pieces of at most a given size, as packets, pulls and chunks do. */
module Chunking {

  /** How many pieces of at most `size` it takes to carry `bytes`. */
  function Chunks(bytes: nat, size: nat): nat
    requires 0 < size
    decreases bytes
  {
    if bytes == 0 then 0 else if bytes <= size then 1 else 1 + Chunks(bytes - size, size)
  }

  /** `c` pieces of `size` cover the whole exactly when `c` reaches the piece count. */
  lemma {:induction false} CoverIff(c: int, bytes: nat, size: nat)
    requires 0 < size
    ensures c * size >= bytes <==> c >= Chunks(bytes, size)
    decreases bytes
  {
    if bytes == 0 {
      if c < 0 { assert c * size < 0; } else { assert c * size >= 0; }
    } else if bytes <= size {
      if c <= 0 { assert c * size <= 0; } else { assert c * size >= size; }
    } else {
      CoverIff(c - 1, bytes - size, size);
      assert (c - 1) * size == c * size - size;
    }
  }

  /** The piece count is the rounded-up quotient. */
  lemma {:induction false} ChunksIsCeil(bytes: nat, size: nat)
    requires 0 < size
    ensures Chunks(bytes, size) == (bytes + size - 1) / size
  {
    var q := (bytes + size - 1) / size;
    var r := (bytes + size - 1) % size;
    assert q * size + r == bytes + size - 1;
    CoverIff(q, bytes, size);
    CoverIff(q - 1, bytes, size);
    assert (q - 1) * size == q * size - size;
  }

  /** The pieces themselves: full ones, then what remains. */
  function Pieces(bytes: nat, size: nat): (ps: seq<nat>)
    requires 0 < size
    ensures |ps| == Chunks(bytes, size)
    decreases bytes
  {
    if bytes == 0 then [] else if bytes <= size then [bytes] else [size] + Pieces(bytes - size, size)
  }

  function SumOf(ps: seq<nat>): nat
  {
    if ps == [] then 0 else ps[0] + SumOf(ps[1..])
  }

  /** Whatever the size, the pieces add up to the whole, none is empty or too large, and all but the last are full. */
  lemma {:induction false} PiecesAddUp(bytes: nat, size: nat)
    requires 0 < size
    ensures SumOf(Pieces(bytes, size)) == bytes
    ensures forall i :: 0 <= i < |Pieces(bytes, size)| ==> 0 < Pieces(bytes, size)[i] <= size
    ensures forall i :: 0 <= i < |Pieces(bytes, size)| - 1 ==> Pieces(bytes, size)[i] == size
    decreases bytes
  {
    if bytes > size {
      PiecesAddUp(bytes - size, size);
      assert Pieces(bytes, size)[1..] == Pieces(bytes - size, size);
    } else if bytes > 0 {
      assert [bytes][1..] == [];
    }
  }

  lemma UnitChunks(n: nat)
    ensures Chunks(n, 1) == n
    decreases n
  {
    if n > 1 { UnitChunks(n - 1); }
  }
}
