/** Who sends to whom, and how much. */
module Transfers {
  import opened Chunking

  datatype Pair = Pair(src: nat, dst: nat)

  datatype Xfer = Xfer(src: nat, dst: nat, size: nat)

  function One(c: bool): nat { if c then 1 else 0 }

  /** How often a pair occurs. */
  function Times(xs: seq<Pair>, x: Pair): nat
  {
    if xs == [] then 0 else One(xs[0] == x) + Times(xs[1..], x)
  }

  lemma {:induction false} TimesConcat(a: seq<Pair>, b: seq<Pair>, x: Pair)
    ensures Times(a + b, x) == Times(a, x) + Times(b, x)
  {
    if a == [] {
      assert a + b == b;
    } else {
      assert (a + b)[1..] == a[1..] + b;
      TimesConcat(a[1..], b, x);
    }
  }

  /** One transfer of `size` bytes per pair. */
  function Sized(xs: seq<Pair>, size: nat): seq<Xfer>
  {
    seq(|xs|, i requires 0 <= i < |xs| => Xfer(xs[i].src, xs[i].dst, size))
  }

  /** The chunks of one pair (_emit_chunked). */
  function ChunksOf(x: Pair, total: nat, chunk: nat): seq<Xfer>
    requires 0 < chunk
  {
    var ps := Pieces(total, chunk);
    seq(|ps|, i requires 0 <= i < |ps| => Xfer(x.src, x.dst, ps[i]))
  }

  /** Every pair's `total` bytes, split into chunks that start together. */
  function Chunked(xs: seq<Pair>, total: nat, chunk: nat): seq<Xfer>
    requires 0 < chunk
  {
    if xs == [] then [] else ChunksOf(xs[0], total, chunk) + Chunked(xs[1..], total, chunk)
  }

  /** The barrier of a chunked phase is sized by this product (htsim_runner.py:792). */
  lemma {:induction false} ChunkedLength(xs: seq<Pair>, total: nat, chunk: nat)
    requires 0 < chunk
    ensures |Chunked(xs, total, chunk)| == |xs| * Chunks(total, chunk)
  {
    if xs != [] {
      ChunkedLength(xs[1..], total, chunk);
      assert |xs| * Chunks(total, chunk) == Chunks(total, chunk) + |xs[1..]| * Chunks(total, chunk);
    }
  }

  /** What is added up over transfers: their sizes, or (`unit`) how many there are. */
  function Weight(size: nat, unit: bool): nat { if unit then 1 else size }

  /** What a pair's whole transfer weighs, however it is split. */
  function Whole(total: nat, chunk: nat, unit: bool): nat
    requires 0 < chunk
  {
    if unit then Chunks(total, chunk) else total
  }

  /** The transfers from `x.src` to `x.dst`, added up. */
  function Between(ts: seq<Xfer>, x: Pair, unit: bool): nat
  {
    if ts == [] then 0
    else (if ts[0].src == x.src && ts[0].dst == x.dst then Weight(ts[0].size, unit) else 0) + Between(ts[1..], x, unit)
  }

  lemma {:induction false} BetweenConcat(a: seq<Xfer>, b: seq<Xfer>, x: Pair, unit: bool)
    ensures Between(a + b, x, unit) == Between(a, x, unit) + Between(b, x, unit)
  {
    if a == [] {
      assert a + b == b;
    } else {
      assert (a + b)[1..] == a[1..] + b;
      BetweenConcat(a[1..], b, x, unit);
    }
  }

  lemma {:induction false} ChunksWeigh(x: Pair, total: nat, chunk: nat, y: Pair, unit: bool)
    requires 0 < chunk
    ensures Between(ChunksOf(x, total, chunk), y, unit) == if x == y then Whole(total, chunk, unit) else 0
    decreases total
  {
    if total > chunk {
      var rest := ChunksOf(x, total - chunk, chunk);
      assert ChunksOf(x, total, chunk) == [Xfer(x.src, x.dst, chunk)] + rest;
      ChunksWeigh(x, total - chunk, chunk, y, unit);
    } else if total > 0 {
      assert ChunksOf(x, total, chunk) == [Xfer(x.src, x.dst, total)];
    }
  }

  lemma Distribute(a: nat, b: nat, c: nat)
    ensures (a + b) * c == a * c + b * c
  {
  }

  /** Whatever the chunk size, each occurrence of a pair carries `total` bytes, in as many chunks as it takes. */
  lemma {:induction false} PairWeighs(xs: seq<Pair>, total: nat, chunk: nat, x: Pair, unit: bool)
    requires 0 < chunk
    ensures Between(Chunked(xs, total, chunk), x, unit) == Times(xs, x) * Whole(total, chunk, unit)
  {
    if xs != [] {
      BetweenConcat(ChunksOf(xs[0], total, chunk), Chunked(xs[1..], total, chunk), x, unit);
      ChunksWeigh(xs[0], total, chunk, x, unit);
      PairWeighs(xs[1..], total, chunk, x, unit);
      Distribute(One(xs[0] == x), Times(xs[1..], x), Whole(total, chunk, unit));
    }
  }

  /** A transfer that is not split is one chunk. */
  lemma {:induction false} SizedIsChunked(xs: seq<Pair>, size: nat)
    requires 0 < size
    ensures Sized(xs, size) == Chunked(xs, size, size)
  {
    if xs != [] {
      SizedIsChunked(xs[1..], size);
      assert Sized(xs, size) == [Xfer(xs[0].src, xs[0].dst, size)] + Sized(xs[1..], size);
      assert ChunksOf(xs[0], size, size) == [Xfer(xs[0].src, xs[0].dst, size)];
    }
  }

  lemma {:induction false} TimesZero(xs: seq<Pair>, x: Pair)
    ensures Times(xs, x) == 0 <==> x !in xs
  {
    if xs != [] { TimesZero(xs[1..], x); }
  }
}
