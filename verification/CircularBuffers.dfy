/** The growing ring buffer (sim/circular_buffer.h:14-95), which the composite queue and the pull queues hold
    their packets in, and which sim/pipe.cpp:8-49 repeats with its own indices. */
module CircularBuffers {

  /** `k` places after `at` in a ring of `size` places. */
  function Slot(at: nat, k: nat, size: nat): (i: nat)
    requires at < size && k <= size
    ensures i < size
  {
    if at + k < size then at + k else at + k - size
  }

  lemma StepIsSlot(at: nat, k: nat, size: nat)
    requires at < size && k < size
    ensures (at + k) % size == Slot(at, k, size)
  {
    var i := Slot(at, k, size);
    if at + k < size {
      SmallMod(at + k, size);
    } else {
      SmallMod(i, size);
      assert (i + size) % size == i % size;
    }
  }

  lemma SmallMod(x: nat, size: nat)
    requires x < size
    ensures x % size == x
  {
  }

  /** The items between the two indices, the next to pop first. */
  function Window<T>(ring: seq<T>, at: nat, count: nat): (items: seq<T>)
    requires at < |ring| && count <= |ring|
    ensures |items| == count
  {
    seq(count, k requires 0 <= k < count => ring[Slot(at, k, |ring|)])
  }

  /** Writing the slot after the last item appends an item. */
  lemma WindowPush<T>(ring: seq<T>, at: nat, count: nat, x: T)
    requires at < |ring| && count < |ring|
    ensures Window(ring[Slot(at, count, |ring|) := x], at, count + 1) == Window(ring, at, count) + [x]
  {
  }

  lemma WindowPop<T>(ring: seq<T>, at: nat, count: nat)
    requires at < |ring| && 0 < count <= |ring|
    ensures Window(ring, at, count)[0] == ring[at]
    ensures Window(ring, Slot(at, 1, |ring|), count - 1) == Window(ring, at, count)[1..]
  {
    var a, b := Window(ring, Slot(at, 1, |ring|), count - 1), Window(ring, at, count)[1..];
    forall k | 0 <= k < count - 1 ensures a[k] == b[k] {
      assert b[k] == ring[Slot(at, k + 1, |ring|)];
    }
  }

  /** Growth: the ring is twice as long, the items that had wrapped round now follow on, and nothing between
      the indices has changed. */
  lemma WindowGrow<T>(ring: seq<T>, wide: seq<T>, at: nat, count: nat)
    requires at < |ring| && count < |ring| && |wide| == 2 * |ring|
    requires forall i :: 0 <= i < |ring| ==> wide[i] == ring[i]
    requires var next := Slot(at, count, |ring|);
      next < at ==> forall i :: 0 <= i < next ==> wide[|ring| + i] == ring[i]
    ensures Window(wide, at, count) == Window(ring, at, count)
    ensures var next := Slot(at, count, |ring|);
      Slot(at, count, |wide|) == if next < at then next + |ring| else next
  {
  }

  class CircularBuffer<T(0)> {
    var queue: array<T>
    var nextPush: nat
    var nextPop: nat
    var count: nat
    var size: nat

    /** The source's own validate(), and what it leaves unsaid about the vector. */
    ghost predicate Valid()
      reads this
    {
      && queue.Length == size && count < size && nextPop < size && nextPush < size
      && (if nextPush > nextPop then nextPush - nextPop == count
          else if nextPush == nextPop then count == 0
          else nextPush + size - nextPop == count)
    }

    ghost function Contents(): seq<T>
      reads this, queue
      requires Valid()
    {
      Window(queue[..], nextPop, count)
    }

    constructor (startingSize: nat)
      requires 0 < startingSize
      ensures Valid() && fresh(queue) && Contents() == []
    {
      count, nextPush, nextPop, size := 0, 0, 0, startingSize;
      queue := new T[startingSize];
    }

    method Push(item: T)
      requires Valid()
      modifies this, queue
      ensures Valid() && (queue == old(queue) || fresh(queue))
      ensures Contents() == old(Contents()) + [item]
    {
      ghost var items := Contents();
      assert nextPush == Slot(nextPop, count, size);
      if count + 1 == size { Grow(); }
      WindowPush(queue[..], nextPop, count, item);
      ghost var ring := queue[..];
      queue[nextPush] := item;
      assert queue[..] == ring[nextPush := item];
      StepIsSlot(nextPush, 1, size);
      nextPush := (nextPush + 1) % size;
      count := count + 1;
    }

    /** Room for one more item: the vector is resized and the wrapped part moved up. */
    method Grow()
      requires Valid() && count + 1 == size
      modifies this
      ensures Valid() && fresh(queue) && size == 2 * old(size) && count == old(count)
      ensures Contents() == old(Contents())
    {
      ghost var ring := queue[..];
      assert nextPush == Slot(nextPop, count, size);
      var newSize := size * 2;
      var wide := Resized(newSize);
      if nextPush < nextPop {
        for i := 0 to nextPush
          modifies wide
          invariant forall k :: 0 <= k < size ==> wide[k] == ring[k]
          invariant forall k :: 0 <= k < i ==> wide[size + k] == ring[k]
        {
          wide[size + i] := wide[i];
        }
        WindowGrow(ring, wide[..], nextPop, count);
        nextPush := nextPush + size;
      } else {
        WindowGrow(ring, wide[..], nextPop, count);
      }
      queue, size := wide, newSize;
    }

    /** vector::resize: the old items stay where they were. */
    method Resized(newSize: nat) returns (wide: array<T>)
      requires queue.Length <= newSize
      ensures fresh(wide) && wide.Length == newSize
      ensures forall k :: 0 <= k < queue.Length ==> wide[k] == queue[k]
    {
      wide := new T[newSize];
      for i := 0 to queue.Length
        invariant forall k :: 0 <= k < i ==> wide[k] == queue[k]
      {
        wide[i] := queue[i];
      }
    }

    method Pop() returns (item: T)
      requires Valid() && Contents() != []
      modifies this
      ensures Valid() && queue == old(queue)
      ensures [item] + Contents() == old(Contents())
    {
      WindowPop(queue[..], nextPop, count);
      item := queue[nextPop];
      StepIsSlot(nextPop, 1, size);
      nextPop := (nextPop + 1) % size;
      count := count - 1;
    }

    /** Takes back the item pushed last. */
    method PopFront() returns (item: T)
      requires Valid() && Contents() != []
      modifies this
      ensures Valid() && queue == old(queue)
      ensures Contents() + [item] == old(Contents())
    {
      ghost var items := Contents();
      StepIsSlot(nextPush, size - 1, size);
      var oldIndex := (nextPush + size - 1) % size;
      assert oldIndex == Slot(nextPop, count - 1, size);
      nextPush := oldIndex;
      count := count - 1;
      item := queue[oldIndex];
      assert items[..count] == Contents();
    }

    method NextToPop() returns (item: T)
      requires Valid() && Contents() != []
      ensures item == Contents()[0]
    {
      WindowPop(queue[..], nextPop, count);
      item := queue[nextPop];
    }

    method Empty() returns (empty: bool)
      requires Valid()
      ensures empty <==> Contents() == []
    {
      empty := count == 0;
    }
  }
}
